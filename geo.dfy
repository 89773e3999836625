/**
 * The geo filter of the organization search (src/services.py:112-120 and
 * 149-160): seven optional scalars resolve to no filter, a circle or a
 * rectangle, or are rejected.
 */
module Geo {
  import opened Wrappers
  import opened Presence
  import opened Errors

  /** The optional geo parameters of a search request. */
  datatype GeoParams = GeoParams(
    x: Option<real>, y: Option<real>, radius: Option<real>,
    rectX: Option<real>, rectY: Option<real>, rectW: Option<real>, rectH: Option<real>)

  /** The resolved spatial predicate: none, a circle around a centre, or a rectangle from a corner. */
  datatype Geo = NoGeo | Circle(x: real, y: real, radius: real) | Rect(x: real, y: real, w: real, h: real)

  /**
   * Resolve the parameters: it is an error to use both groups, or to use a
   * group without all of its fields; otherwise the complete group, if any,
   * gives the filter.
   */
  function SelectGeo(p: GeoParams): (r: Result<Geo, DomainError>)
    ensures r.Failure? ==> r.error == GeoSearchError
    ensures r.Failure? <==>
              || ((p.x.Some? || p.y.Some? || p.radius.Some?)
                  && (p.rectX.Some? || p.rectY.Some? || p.rectW.Some? || p.rectH.Some?))
              || ((p.x.Some? || p.y.Some? || p.radius.Some?) && !(p.x.Some? && p.y.Some? && p.radius.Some?))
              || ((p.rectX.Some? || p.rectY.Some? || p.rectW.Some? || p.rectH.Some?)
                  && !(p.rectX.Some? && p.rectY.Some? && p.rectW.Some? && p.rectH.Some?))
    ensures r == Success(NoGeo) <==>
              && p.x.None? && p.y.None? && p.radius.None?
              && p.rectX.None? && p.rectY.None? && p.rectW.None? && p.rectH.None?
    ensures r.Success? && r.value.Circle? <==>
              && p.x.Some? && p.y.Some? && p.radius.Some?
              && p.rectX.None? && p.rectY.None? && p.rectW.None? && p.rectH.None?
    ensures r.Success? && r.value.Circle? ==> r.value == Circle(p.x.value, p.y.value, p.radius.value)
    ensures r.Success? && r.value.Rect? <==>
              && p.x.None? && p.y.None? && p.radius.None?
              && p.rectX.Some? && p.rectY.Some? && p.rectW.Some? && p.rectH.Some?
    ensures r.Success? && r.value.Rect? ==> r.value == Rect(p.rectX.value, p.rectY.value, p.rectW.value, p.rectH.value)
  {
    var circle := [p.x, p.y, p.radius];
    var rect := [p.rectX, p.rectY, p.rectW, p.rectH];
    assert circle[0] == p.x && circle[1] == p.y && circle[2] == p.radius;
    assert rect[0] == p.rectX && rect[1] == p.rectY && rect[2] == p.rectW && rect[3] == p.rectH;
    var byRadius := AnyIsntNone(circle);
    var byRect := AnyIsntNone(rect);
    if byRadius && byRect then Failure(GeoSearchError)
    else if byRadius && !AllArentNone(circle) then Failure(GeoSearchError)
    else if byRect && !AllArentNone(rect) then Failure(GeoSearchError)
    else if byRadius then Success(Circle(p.x.value, p.y.value, p.radius.value))
    else if byRect then Success(Rect(p.rectX.value, p.rectY.value, p.rectW.value, p.rectH.value))
    else Success(NoGeo)
  }

  /** Strictly inside the circle: squared distance below the squared radius. */
  predicate InCircle(x: real, y: real, radius: real, px: real, py: real)
  {
    (px - x) * (px - x) + (py - y) * (py - y) < radius * radius
  }

  /** Inside the rectangle or on its border. */
  predicate InRect(x: real, y: real, w: real, h: real, px: real, py: real)
  {
    x <= px && px <= x + w && y <= py && py <= y + h
  }

  /** Whether a building at (px, py) passes the resolved filter. */
  predicate Admits(g: Geo, px: real, py: real)
  {
    match g
    case NoGeo => true
    case Circle(x, y, radius) => InCircle(x, y, radius, px, py)
    case Rect(x, y, w, h) => InRect(x, y, w, h, px, py)
  }

  /** Without any geo parameter there is no error and every building passes. */
  lemma NoParamsNoFilter(px: real, py: real)
    ensures SelectGeo(GeoParams(None, None, None, None, None, None, None)) == Success(NoGeo)
    ensures Admits(NoGeo, px, py)
  {
  }

  /** A complete circle group together with a complete rectangle group is rejected, whatever the values. */
  lemma BothGroupsRejected(x: real, y: real, radius: real, rx: real, ry: real, rw: real, rh: real)
    ensures SelectGeo(GeoParams(Some(x), Some(y), Some(radius), Some(rx), Some(ry), Some(rw), Some(rh)))
            == Failure(GeoSearchError)
  {
  }

  /** `x` and `y` without `radius` are rejected. */
  lemma CircleWithoutRadiusRejected(x: real, y: real)
    ensures SelectGeo(GeoParams(Some(x), Some(y), None, None, None, None, None)) == Failure(GeoSearchError)
  {
  }

  /** A building exactly at distance `radius` from the centre is excluded. */
  lemma CircleBoundaryExcluded(x: real, y: real, radius: real, px: real, py: real)
    requires (px - x) * (px - x) + (py - y) * (py - y) == radius * radius
    ensures !InCircle(x, y, radius, px, py)
  {
  }

  /** The centre passes exactly when the radius is not zero: radius 0 excludes even the centre. */
  lemma CircleCentre(x: real, y: real, radius: real)
    ensures InCircle(x, y, radius, x, y) <==> radius != 0.0
  {
    if radius != 0.0 {
      if radius > 0.0 {
        assert radius * radius > 0.0;
      } else {
        assert (-radius) * (-radius) > 0.0;
      }
    }
  }

  /** Only the square of the radius matters: a negative radius selects the same buildings as its absolute value. */
  lemma CircleRadiusSign(x: real, y: real, radius: real, px: real, py: real)
    ensures InCircle(x, y, radius, px, py) == InCircle(x, y, -radius, px, py)
  {
    assert radius * radius == (-radius) * (-radius);
  }

  /**
   * All four edges of a rectangle with non-negative sides belong to it, and
   * any point `eps` beyond an edge does not.
   */
  lemma RectEdges(x: real, y: real, w: real, h: real, px: real, py: real, eps: real)
    requires w >= 0.0 && h >= 0.0 && eps > 0.0
    requires x <= px <= x + w && y <= py <= y + h
    ensures InRect(x, y, w, h, x, py) && InRect(x, y, w, h, x + w, py)
    ensures InRect(x, y, w, h, px, y) && InRect(x, y, w, h, px, y + h)
    ensures !InRect(x, y, w, h, x - eps, py) && !InRect(x, y, w, h, x + w + eps, py)
    ensures !InRect(x, y, w, h, px, y - eps) && !InRect(x, y, w, h, px, y + h + eps)
  {
  }

  /** A negative width or height leaves no building inside the rectangle. */
  lemma RectNegativeSideEmpty(x: real, y: real, w: real, h: real, px: real, py: real)
    requires w < 0.0 || h < 0.0
    ensures !InRect(x, y, w, h, px, py)
  {
  }

  /**
   * The building of "Рога и копыта" at (-14.09921, -152.62413) is inside the
   * rectangle from (-15, -153) of size 2 by 2 and outside the unit circle
   * around the origin.
   */
  lemma SeedBuildingScenario()
    ensures Admits(Rect(-15.0, -153.0, 2.0, 2.0), -14.09921, -152.62413)
    ensures !Admits(Circle(0.0, 0.0, 1.0), -14.09921, -152.62413)
  {
  }
}
