/**
 * The organization search and lookup (src/services.py:77-169) over an
 * in-memory store: every supplied filter narrows the result, the geo
 * parameters are validated first, and each kept row becomes a response.
 */
module Queries {
  import opened Wrappers
  import opened Errors
  import opened Records
  import opened Taxonomy
  import opened Geo
  import opened Responses

  /** The parameters of `list_organizations`. */
  datatype SearchParams = SearchParams(
    name: Option<string>,
    buildingId: Option<int>,
    kindId: Option<int>,
    kindIdWithParents: Option<int>,
    geo: GeoParams)

  /** The filters once the geo parameters are resolved. */
  datatype Filter = Filter(
    name: Option<string>,
    buildingId: Option<int>,
    kindId: Option<int>,
    kindIdWithParents: Option<int>,
    geo: Geo)

  /** A string with every character passed through the store's case folding. */
  function Fold(fold: char -> char, s: string): string
  {
    seq(|s|, i requires 0 <= i < |s| => fold(s[i]))
  }

  /** `needle` occurs in `hay` starting at offset `k`. */
  predicate OccursAt(hay: string, needle: string, k: int)
  {
    0 <= k && k + |needle| <= |hay| && hay[k..k + |needle|] == needle
  }

  /** An occurrence in the tail of `hay` is an occurrence in `hay`, one position further on. */
  lemma OccursInTail(hay: string, needle: string, k: int)
    requires hay != [] && 0 <= k
    ensures OccursAt(hay[1..], needle, k) <==> OccursAt(hay, needle, k + 1)
  {
    if 0 <= k && k + |needle| <= |hay[1..]| {
      assert hay[1..][k..k + |needle|] == hay[k + 1..k + 1 + |needle|];
    }
  }

  /** `needle` occurs in `hay` at some offset (the ILIKE pattern `%needle%`). */
  function Contains(hay: string, needle: string): (r: bool)
    ensures r <==> exists k :: OccursAt(hay, needle, k)
  {
    if needle <= hay then
      assert OccursAt(hay, needle, 0);
      true
    else if hay == [] then false
    else
      var r := Contains(hay[1..], needle);
      assert !OccursAt(hay, needle, 0);
      assert forall k :: OccursAt(hay, needle, k) ==> k == 0 || OccursAt(hay[1..], needle, k - 1) by {
        forall k | OccursAt(hay, needle, k) && k != 0 ensures OccursAt(hay[1..], needle, k - 1) {
          OccursInTail(hay, needle, k - 1);
        }
      }
      assert forall k :: OccursAt(hay[1..], needle, k) ==> OccursAt(hay, needle, k + 1) by {
        forall k | OccursAt(hay[1..], needle, k) ensures OccursAt(hay, needle, k + 1) {
          OccursInTail(hay, needle, k);
        }
      }
      r
  }

  /** The case-insensitive substring test of the name filter. */
  predicate NameMatches(fold: char -> char, orgName: string, pattern: string)
  {
    Contains(Fold(fold, orgName), Fold(fold, pattern))
  }

  /** The organization is linked to exactly this kind. */
  predicate LinkedTo(s: Store, orgId: int, kindId: int)
  {
    exists i :: 0 <= i < |s.links| && s.links[i] == OrganizationKind(orgId, kindId)
  }

  /** The organization is linked to a kind that is `t` or has `t` among its ancestor ids. */
  predicate LinkedWithin(s: Store, orgId: int, t: int)
  {
    exists i, j :: 0 <= i < |s.links| && 0 <= j < |s.kinds|
                   && s.links[i].organizationId == orgId && s.kinds[j].id == s.links[i].kindId
                   && (s.links[i].kindId == t || t in s.kinds[j].parentIds)
  }

  /** The organization's building passes the geo filter. */
  predicate LocatedIn(s: Store, o: Organization, g: Geo)
  {
    || g.NoGeo?
    || (var b := Find(s.buildings, BuildingKey, o.buildingId); b.Some? && Admits(g, b.value.x, b.value.y))
  }

  /**
   * The geo filter as the query states it: the conditions name the
   * buildings table without joining it to the organization, so the database
   * pairs every organization with every building and keeps the organization
   * when any building lies in the area.
   */
  predicate LocatedInAsWritten(s: Store, g: Geo)
  {
    || g.NoGeo?
    || exists j :: 0 <= j < |s.buildings| && Admits(g, s.buildings[j].x, s.buildings[j].y)
  }

  /**
   * In a store with unique building ids the geo filter is decided by the
   * organization's own building alone.
   */
  lemma OwnBuildingDecides(s: Store, o: Organization, g: Geo)
    requires PrimaryKeys(s) && !g.NoGeo?
    ensures LocatedIn(s, o, g) <==>
              exists j :: 0 <= j < |s.buildings| && s.buildings[j].id == o.buildingId
                          && Admits(g, s.buildings[j].x, s.buildings[j].y)
  {
    var b := Find(s.buildings, BuildingKey, o.buildingId);
    if b.Some? {
      var k :| 0 <= k < |s.buildings| && s.buildings[k] == b.value && s.buildings[k].id == o.buildingId;
      forall j | 0 <= j < |s.buildings| && s.buildings[j].id == o.buildingId
        ensures s.buildings[j] == b.value
      {
        assert j == k;
      }
    }
  }

  /** The conjunction of every supplied filter; an absent filter holds of every organization. */
  predicate Matches(s: Store, f: Filter, fold: char -> char, o: Organization)
  {
    && (f.name.None? || NameMatches(fold, o.name, f.name.value))
    && (f.buildingId.None? || o.buildingId == f.buildingId.value)
    && (f.kindId.None? || LinkedTo(s, o.id, f.kindId.value))
    && (f.kindIdWithParents.None? || LinkedWithin(s, o.id, f.kindIdWithParents.value))
    && LocatedIn(s, o, f.geo)
  }

  /** The organizations of `orgs` that pass the filter, in row order. */
  function Select(s: Store, f: Filter, fold: char -> char, orgs: seq<Organization>): (r: seq<Organization>)
    ensures |r| <= |orgs|
    ensures forall o :: o in r <==> o in orgs && Matches(s, f, fold, o)
  {
    if orgs == [] then []
    else
      var rest := Select(s, f, fold, orgs[1..]);
      if Matches(s, f, fold, orgs[0]) then [orgs[0]] + rest else rest
  }

  /** The response of every organization of `orgs`, in order. */
  function RespondAll(s: Store, orgs: seq<Organization>): (r: seq<OrganizationResponse>)
    requires ForeignKeys(s)
    requires forall o :: o in orgs ==> o in s.organizations
    ensures |r| == |orgs|
    ensures forall resp :: resp in r ==> exists o :: o in orgs && resp == OrganizationFromSa(s, o)
    ensures forall o :: o in orgs ==> OrganizationFromSa(s, o) in r
  {
    if orgs == [] then []
    else
      assert forall o :: o in orgs[1..] ==> o in orgs;
      var rest := RespondAll(s, orgs[1..]);
      var head := OrganizationFromSa(s, orgs[0]);
      assert forall o :: o in orgs ==> o == orgs[0] || o in orgs[1..];
      assert forall resp :: resp in [head] + rest ==> resp == head || resp in rest;
      [head] + rest
  }

  /**
   * `list_organizations`: reject bad geo parameters, otherwise the
   * responses of exactly the organizations passing every supplied filter.
   */
  function ListOrganizations(s: Store, p: SearchParams, fold: char -> char): (r: Result<seq<OrganizationResponse>, DomainError>)
    requires ForeignKeys(s)
    ensures r.Failure? <==> SelectGeo(p.geo).Failure?
    ensures r.Failure? ==> r.error == GeoSearchError
    ensures r.Success? ==>
              var f := Filter(p.name, p.buildingId, p.kindId, p.kindIdWithParents, SelectGeo(p.geo).value);
              && |r.value| <= |s.organizations|
              && (forall resp :: resp in r.value ==>
                    exists o :: o in s.organizations && Matches(s, f, fold, o) && resp == OrganizationFromSa(s, o))
              && (forall o :: o in s.organizations && Matches(s, f, fold, o) ==> OrganizationFromSa(s, o) in r.value)
  {
    match SelectGeo(p.geo)
    case Failure(e) => Failure(e)
    case Success(g) =>
      var f := Filter(p.name, p.buildingId, p.kindId, p.kindIdWithParents, g);
      var kept := Select(s, f, fold, s.organizations);
      var resps := RespondAll(s, kept);
      assert forall resp :: resp in resps ==>
               exists o :: o in s.organizations && Matches(s, f, fold, o) && resp == OrganizationFromSa(s, o) by {
        forall resp | resp in resps
          ensures exists o :: o in s.organizations && Matches(s, f, fold, o) && resp == OrganizationFromSa(s, o)
        {
          var o :| o in kept && resp == OrganizationFromSa(s, o);
        }
      }
      Success(resps)
  }

  /** `list_kinds`: the response of every stored kind, in row order. */
  function ListKinds(s: Store): (r: seq<KindResponse>)
    ensures |r| == |s.kinds|
    ensures forall i :: 0 <= i < |r| ==> KindOfResponse(r[i]) == s.kinds[i]
  {
    seq(|s.kinds|, i requires 0 <= i < |s.kinds| => KindFromSa(s.kinds[i]))
  }

  /** `list_buildings`: the response of every stored building, in row order. */
  function ListBuildings(s: Store): (r: seq<BuildingResponse>)
    ensures |r| == |s.buildings|
    ensures forall i :: 0 <= i < |r| ==> BuildingOfResponse(r[i]) == s.buildings[i]
  {
    seq(|s.buildings|, i requires 0 <= i < |s.buildings| => BuildingFromSa(s.buildings[i]))
  }

  /** `get_organization`: the organization with the id, or `OrganizationNotFoundError` when there is none. */
  function GetOrganization(s: Store, orgId: int): (r: Result<OrganizationResponse, DomainError>)
    requires ForeignKeys(s)
    ensures r.Failure? <==> forall o :: o in s.organizations ==> o.id != orgId
    ensures r.Failure? ==> r.error == OrganizationNotFoundError && r.error.Status() == 404
                           && r.error.Message() == "Организация не найдена"
    ensures r.Success? ==> r.value.id == orgId
                           && exists o :: o in s.organizations && o.id == orgId && r.value == OrganizationFromSa(s, o)
  {
    match Find(s.organizations, OrganizationKey, orgId)
    case None => Failure(OrganizationNotFoundError)
    case Some(o) => Success(OrganizationFromSa(s, o))
  }

  /** No filter at all: the geo check passes and every organization is listed. */
  lemma UnfilteredListsEverything(s: Store, fold: char -> char)
    requires ForeignKeys(s)
    ensures var r := ListOrganizations(s, SearchParams(None, None, None, None, GeoParams(None, None, None, None, None, None, None)), fold);
            && r.Success?
            && forall o :: o in s.organizations ==> OrganizationFromSa(s, o) in r.value
  {
    NoParamsNoFilter(0.0, 0.0);
  }

  /** `f2` supplies every filter `f1` supplies, with the same value, and possibly more. */
  predicate Narrows(f2: Filter, f1: Filter)
  {
    && (f1.name.None? || f2.name == f1.name)
    && (f1.buildingId.None? || f2.buildingId == f1.buildingId)
    && (f1.kindId.None? || f2.kindId == f1.kindId)
    && (f1.kindIdWithParents.None? || f2.kindIdWithParents == f1.kindIdWithParents)
    && (f1.geo.NoGeo? || f2.geo == f1.geo)
  }

  /** Supplying more filters can only remove organizations from the result, never add one. */
  lemma {:induction false} MoreFiltersNarrow(s: Store, f2: Filter, f1: Filter, fold: char -> char, orgs: seq<Organization>)
    requires Narrows(f2, f1)
    ensures forall o :: o in Select(s, f2, fold, orgs) ==> o in Select(s, f1, fold, orgs)
  {
    forall o | o in Select(s, f2, fold, orgs) ensures o in Select(s, f1, fold, orgs) {
      assert Matches(s, f2, fold, o);
      if f1.geo.NoGeo? {
        assert LocatedIn(s, o, f1.geo);
      }
    }
  }

  /**
   * With a consistent taxonomy the hierarchical filter means "linked to `t`
   * or to a descendant of `t`", descendants taken along `parent_id` links.
   */
  lemma HierarchicalMatchIsDescendant(s: Store, orgId: int, t: int)
    requires Consistent(s.kinds)
    ensures LinkedWithin(s, orgId, t) <==>
              exists i, j :: && 0 <= i < |s.links| && 0 <= j < |s.kinds|
                             && s.links[i].organizationId == orgId && s.kinds[j].id == s.links[i].kindId
                             && DescendsFrom(s.kinds, j, t)
  {
    forall j | 0 <= j < |s.kinds|
      ensures (s.kinds[j].id == t || t in s.kinds[j].parentIds) <==> DescendsFrom(s.kinds, j, t)
    {
      AncestorArrayIsClosure(s.kinds, j, t);
    }
  }

  /**
   * Searching a kind with its descendants lists every organization linked
   * to a kind that descends from it along `parent_id` links.
   */
  lemma AncestorFindsDescendantsOrganizations(s: Store, o: Organization, i: int, j: int, t: int, fold: char -> char)
    requires ForeignKeys(s) && Consistent(s.kinds) && o in s.organizations
    requires 0 <= i < |s.links| && s.links[i].organizationId == o.id
    requires 0 <= j < |s.kinds| && s.kinds[j].id == s.links[i].kindId && DescendsFrom(s.kinds, j, t)
    ensures var r := ListOrganizations(s, SearchParams(None, None, None, Some(t), GeoParams(None, None, None, None, None, None, None)), fold);
            && r.Success?
            && OrganizationFromSa(s, o) in r.value
  {
    AncestorArrayIsClosure(s.kinds, j, t);
    NoParamsNoFilter(0.0, 0.0);
    assert Matches(s, Filter(None, None, None, Some(t), NoGeo), fold, o);
  }

  /**
   * The direct kind filter is not transitive: an organization linked only
   * to a descendant of `t` passes the hierarchical filter for `t` but not
   * the direct one.
   */
  lemma DirectKindNotTransitive(s: Store, orgId: int, i: int, j: int, t: int)
    requires Consistent(s.kinds)
    requires 0 <= i < |s.links| && s.links[i].organizationId == orgId
    requires 0 <= j < |s.kinds| && s.kinds[j].id == s.links[i].kindId && DescendsFrom(s.kinds, j, t)
    requires forall k :: 0 <= k < |s.links| ==> s.links[k] != OrganizationKind(orgId, t)
    ensures LinkedWithin(s, orgId, t) && !LinkedTo(s, orgId, t)
  {
    AncestorArrayIsClosure(s.kinds, j, t);
  }

  /** The store the service is seeded with (src/services.py:194-297), row ids counted from 1. */
  function SeedStore(): Store
  {
    Store(
      [ Organization(1, "Рога и копыта", 1), Organization(2, "Gugle", 1), Organization(3, "Сбербутылк", 2) ],
      [ Phone(1, 1, "88005553535"), Phone(2, 1, "88005553535"),
        Phone(3, 2, "+5625328511"), Phone(4, 3, "+66025381423") ],
      [ Building(1, "Россия, г. Долгопрудный, Новоселов ул., д. 19 кв.196", -14.09921, -152.62413),
        Building(2, "Россия, г. Саратов, Красноармейская ул., д. 8 кв.28", 64.72257, 9.97868),
        Building(3, "Казахстан, Белгород, ул. Хуторская, 5, 210", -23.49938, 39.48771),
        Building(4, "Санкт-Петербург, Дружбы ул., д. 6 кв.135", -8.66373, -31.77276) ],
      SeedKinds(),
      [ OrganizationKind(1, 1), OrganizationKind(2, 2), OrganizationKind(2, 3), OrganizationKind(3, 6) ])
  }

  /** The seed store satisfies the schema's keys and references, and its taxonomy is consistent. */
  lemma SeedStoreValid()
    ensures PrimaryKeys(SeedStore()) && ForeignKeys(SeedStore()) && Consistent(SeedStore().kinds)
  {
    SeedPrimaryKeys();
    SeedForeignKeys();
    SeedConsistent();
  }

  lemma SeedPrimaryKeys()
    ensures PrimaryKeys(SeedStore())
  {
    var s := SeedStore();
    assert forall i :: 0 <= i < |s.kinds| ==> s.kinds[i].id == i + 1;
  }

  lemma SeedForeignKeys()
    ensures ForeignKeys(SeedStore())
  {
    SeedReferencedRows();
    SeedReferences();
  }

  /** The ids the seed rows refer to, table by table. */
  lemma SeedReferences()
    ensures var s := SeedStore();
            && (forall i :: 0 <= i < |s.organizations| ==> s.organizations[i].buildingId in {1, 2})
            && (forall i :: 0 <= i < |s.phones| ==> s.phones[i].organizationId in {1, 2, 3})
            && (forall i :: 0 <= i < |s.links| ==> s.links[i].organizationId in {1, 2, 3})
            && (forall i :: 0 <= i < |s.links| ==> s.links[i].kindId in {1, 2, 3, 6})
            && (forall i :: 0 <= i < |s.kinds| && s.kinds[i].parentId.Some? ==> s.kinds[i].parentId.value in {1, 2, 6})
  {
  }

  /** Every id that the seed rows refer to names a row of the seed store. */
  lemma SeedReferencedRows()
    ensures var s := SeedStore();
            && HasBuilding(s, 1) && HasBuilding(s, 2)
            && HasOrganization(s, 1) && HasOrganization(s, 2) && HasOrganization(s, 3)
            && HasKind(s, 1) && HasKind(s, 2) && HasKind(s, 3) && HasKind(s, 6)
  {
    var s := SeedStore();
    assert s.buildings[0].id == 1 && s.buildings[1].id == 2;
    assert s.organizations[0].id == 1 && s.organizations[1].id == 2 && s.organizations[2].id == 3;
    assert s.kinds[0].id == 1 && s.kinds[1].id == 2 && s.kinds[2].id == 3 && s.kinds[5].id == 6;
  }

  lemma SeedConsistent()
    ensures Consistent(SeedStore().kinds)
  {
    assert SeedStore().kinds == SeedKinds();
    SeedKindsConsistent();
  }


  /**
   * On the seed store, searching for kind Еда with its descendants finds
   * "Рога и копыта" (linked to Еда) and Gugle (linked to Мясная продукция)
   * but not Сбербутылк (linked to Легковые).
   */
  lemma SeedWithinScenario(fold: char -> char)
    ensures var s := SeedStore();
            var within := Filter(None, None, None, Some(1), NoGeo);
            && Matches(s, within, fold, s.organizations[0])
            && Matches(s, within, fold, s.organizations[1])
            && !Matches(s, within, fold, s.organizations[2])
  {
    var s := SeedStore();
    assert s.links[0].organizationId == 1 && s.kinds[0].id == s.links[0].kindId;
    assert s.links[2].organizationId == 2 && s.kinds[2].id == s.links[2].kindId && 1 in s.kinds[2].parentIds;
    assert !LinkedWithin(s, 3, 1) by {
      forall i, j | 0 <= i < |s.links| && 0 <= j < |s.kinds| && s.links[i].organizationId == 3
                    && s.kinds[j].id == s.links[i].kindId
        ensures s.links[i].kindId != 1 && 1 !in s.kinds[j].parentIds
      {
        assert i == 3 && j == 5;
      }
    }
  }

  /** On the seed store the direct kind filter for Еда finds "Рога и копыта" but not Gugle. */
  lemma SeedDirectScenario(fold: char -> char)
    ensures var s := SeedStore();
            var direct := Filter(None, None, Some(1), None, NoGeo);
            && Matches(s, direct, fold, s.organizations[0])
            && !Matches(s, direct, fold, s.organizations[1])
  {
    var s := SeedStore();
    assert s.links[0] == OrganizationKind(1, 1);
  }

  /**
   * On the seed store the rectangle from (-15, -153) of size 2 by 2 keeps
   * "Рога и копыта", and the unit circle around the origin drops it.
   */
  lemma SeedGeoScenario(fold: char -> char)
    ensures var s := SeedStore();
            var rect := GeoParams(None, None, None, Some(-15.0), Some(-153.0), Some(2.0), Some(2.0));
            var circle := GeoParams(Some(0.0), Some(0.0), Some(1.0), None, None, None, None);
            && SelectGeo(rect) == Success(Rect(-15.0, -153.0, 2.0, 2.0))
            && SelectGeo(circle) == Success(Circle(0.0, 0.0, 1.0))
            && Matches(s, Filter(None, None, None, None, Rect(-15.0, -153.0, 2.0, 2.0)), fold, s.organizations[0])
            && !Matches(s, Filter(None, None, None, None, Circle(0.0, 0.0, 1.0)), fold, s.organizations[0])
  {
    var s := SeedStore();
    SeedBuildingScenario();
    assert Find(s.buildings, BuildingKey, s.organizations[0].buildingId) == Some(s.buildings[0]);
  }

  /**
   * "Рога и копыта" has the same number in two phone rows; its response
   * lists that number twice.
   */
  lemma DuplicatePhonesKept()
    ensures var s := SeedStore();
            && ForeignKeys(s)
            && OrganizationFromSa(s, s.organizations[0]).phones == ["88005553535", "88005553535"]
  {
    SeedForeignKeys();
    var s := SeedStore();
    assert s.organizations[0].id == 1;
    assert PhonesOf(s.phones[2..], 1) == [];
  }

  /**
   * As written, the rectangle around the first seed building keeps
   * Сбербутылк, whose own building (in Саратов) lies far outside it; the
   * filter on the organization's own building drops it.
   */
  lemma GeoFilterIgnoresOwnBuilding()
    ensures var s := SeedStore();
            var g := Rect(-15.0, -153.0, 2.0, 2.0);
            && LocatedInAsWritten(s, g)
            && !LocatedIn(s, s.organizations[2], g)
  {
    var s := SeedStore();
    SeedBuildingScenario();
    assert Find(s.buildings, BuildingKey, s.organizations[2].buildingId) == Some(s.buildings[1]);
  }
}
