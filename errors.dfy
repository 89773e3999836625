/** The closed set of domain errors raised by the query service (src/services.py:12-24). */
module Errors {

  datatype DomainError = OrganizationNotFoundError | GeoSearchError {

    /** The HTTP status the error is reported with: 404 for a missing organization, 400 for bad geo parameters. */
    function Status(): (s: int)
      ensures 400 <= s < 500
      ensures s == 404 <==> this.OrganizationNotFoundError?
      ensures this.GeoSearchError? ==> s == 400
    {
      match this
      case OrganizationNotFoundError => 404
      case GeoSearchError => 400
    }

    /** The user-facing message. */
    function Message(): string
    {
      match this
      case OrganizationNotFoundError => "Организация не найдена"
      case GeoSearchError => "Можно указать либо (x, y, radius), либо (rect_x, rect_y, rect_w, rect_h)"
    }
  }
}
