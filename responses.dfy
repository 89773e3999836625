/**
 * The response records of the service and their construction from stored
 * rows (`from_sa`, src/services.py:27-74).
 */
module Responses {
  import opened Wrappers
  import opened Records

  datatype KindResponse = KindResponse(id: int, name: string, parentId: Option<int>, parentIds: seq<int>)

  datatype BuildingResponse = BuildingResponse(id: int, address: string, x: real, y: real)

  datatype OrganizationResponse = OrganizationResponse(
    id: int, name: string, phones: seq<string>, building: BuildingResponse, kinds: seq<KindResponse>)

  /** `KindResponse.from_sa`: every column of the kind, unchanged. */
  function KindFromSa(k: Kind): KindResponse
  {
    KindResponse(k.id, k.name, k.parentId, k.parentIds)
  }

  /** `BuildingResponse.from_sa`: every column of the building, unchanged. */
  function BuildingFromSa(b: Building): BuildingResponse
  {
    BuildingResponse(b.id, b.address, b.x, b.y)
  }

  /** The kind a response describes, read back field by field. */
  function KindOfResponse(r: KindResponse): Kind
  {
    Kind(r.id, r.name, r.parentId, r.parentIds)
  }

  /** The building a response describes, read back field by field. */
  function BuildingOfResponse(r: BuildingResponse): Building
  {
    Building(r.id, r.address, r.x, r.y)
  }

  /** The kind and building projections lose nothing: reading a response back gives the row. */
  lemma ProjectionsLossless(k: Kind, b: Building)
    ensures KindOfResponse(KindFromSa(k)) == k
    ensures BuildingOfResponse(BuildingFromSa(b)) == b
  {
  }

  /** The numbers of the phone rows owned by `orgId`, in row order, duplicates included. */
  function PhonesOf(phones: seq<Phone>, orgId: int): (r: seq<string>)
    ensures |r| <= |phones|
    ensures forall s :: s in r <==> exists j :: 0 <= j < |phones| && phones[j].organizationId == orgId && phones[j].phone == s
  {
    if phones == [] then []
    else
      assert forall j :: 0 < j < |phones| ==> phones[j] == phones[1..][j - 1];
      var rest := PhonesOf(phones[1..], orgId);
      if phones[0].organizationId == orgId then [phones[0].phone] + rest else rest
  }

  /** Phone lists keep row order: the phones of two runs of rows are the phones of each run, one after the other. */
  lemma {:induction false} PhonesOfConcat(a: seq<Phone>, b: seq<Phone>, orgId: int)
    ensures PhonesOf(a + b, orgId) == PhonesOf(a, orgId) + PhonesOf(b, orgId)
  {
    if a == [] {
      assert a + b == b;
    } else {
      assert (a + b)[1..] == a[1..] + b;
      PhonesOfConcat(a[1..], b, orgId);
    }
  }

  /** The links of the given organization, in row order. */
  function LinksOf(links: seq<OrganizationKind>, orgId: int): (r: seq<OrganizationKind>)
    ensures |r| <= |links|
    ensures forall l :: l in r <==> l in links && l.organizationId == orgId
  {
    if links == [] then []
    else
      var rest := LinksOf(links[1..], orgId);
      if links[0].organizationId == orgId then [links[0]] + rest else rest
  }

  /** No link of an organization occurs twice when the join table has no duplicate pair. */
  lemma {:induction false} LinksOfDistinct(links: seq<OrganizationKind>, orgId: int)
    requires forall i, j :: 0 <= i < j < |links| ==> links[i] != links[j]
    ensures forall i, j :: 0 <= i < j < |LinksOf(links, orgId)| ==> LinksOf(links, orgId)[i] != LinksOf(links, orgId)[j]
  {
    if links != [] {
      LinksOfDistinct(links[1..], orgId);
      var rest := LinksOf(links[1..], orgId);
      assert links[0] !in links[1..];
      assert links[0] !in rest;
    }
  }

  /** The kinds named by the given links, one per link, as the `kinds` relationship loads them. */
  function KindsOf(kinds: seq<Kind>, links: seq<OrganizationKind>): (r: seq<KindResponse>)
    requires forall l :: l in links ==> exists j :: 0 <= j < |kinds| && kinds[j].id == l.kindId
    ensures |r| == |links|
    ensures forall i :: 0 <= i < |r| ==> r[i].id == links[i].kindId && KindOfResponse(r[i]) in kinds
  {
    if links == [] then []
    else
      var k := Find(kinds, KindKey, links[0].kindId);
      assert k.Some?;
      [KindFromSa(k.value)] + KindsOf(kinds, links[1..])
  }

  /**
   * `OrganizationResponse.from_sa`: the organization's own columns, the
   * numbers of its phones, its building, and one kind per link.
   */
  function OrganizationFromSa(s: Store, o: Organization): (r: OrganizationResponse)
    requires ForeignKeys(s) && o in s.organizations
    ensures r.id == o.id && r.name == o.name
    ensures r.phones == PhonesOf(s.phones, o.id)
    ensures BuildingOfResponse(r.building) in s.buildings && r.building.id == o.buildingId
    ensures |r.kinds| == |LinksOf(s.links, o.id)|
    ensures forall i :: 0 <= i < |r.kinds| ==>
              OrganizationKind(o.id, r.kinds[i].id) in s.links && KindOfResponse(r.kinds[i]) in s.kinds
  {
    var b := Find(s.buildings, BuildingKey, o.buildingId);
    assert b.Some?;
    var links := LinksOf(s.links, o.id);
    assert forall l :: l in links ==> HasKind(s, l.kindId);
    OrganizationResponse(o.id, o.name, PhonesOf(s.phones, o.id), BuildingFromSa(b.value), KindsOf(s.kinds, links))
  }

  /**
   * In a store whose keys hold, the kinds of a response are pairwise
   * distinct: an organization cannot be linked to the same kind twice.
   */
  lemma ResponseKindsDistinct(s: Store, o: Organization)
    requires PrimaryKeys(s) && ForeignKeys(s) && o in s.organizations
    ensures forall i, j :: 0 <= i < j < |OrganizationFromSa(s, o).kinds| ==>
              OrganizationFromSa(s, o).kinds[i].id != OrganizationFromSa(s, o).kinds[j].id
  {
    var links := LinksOf(s.links, o.id);
    LinksOfDistinct(s.links, o.id);
    var r := OrganizationFromSa(s, o);
    forall i, j | 0 <= i < j < |r.kinds|
      ensures r.kinds[i].id != r.kinds[j].id
    {
      assert links[i] in links && links[j] in links;
      assert links[i].organizationId == o.id && links[j].organizationId == o.id;
    }
  }
}
