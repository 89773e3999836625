/**
 * The persistent records of the directory (src/db.py) and the constraints the
 * schema puts on them, over an in-memory store of five tables.
 */
module Records {
  import opened Wrappers

  /** A row of `organizations`: the building reference is mandatory. */
  datatype Organization = Organization(id: int, name: string, buildingId: int)

  /** A row of `phones`: a free-form number owned by one organization; numbers need not be unique. */
  datatype Phone = Phone(id: int, organizationId: int, phone: string)

  /** A row of `buildings`: address and planar coordinates are mandatory. */
  datatype Building = Building(id: int, address: string, x: real, y: real)

  /** A row of `kinds`: `parentId` is `None` for a root; `parentIds` is never null but may be empty. */
  datatype Kind = Kind(id: int, name: string, parentId: Option<int>, parentIds: seq<int>)

  /** A row of the join table `organizations_kinds`. */
  datatype OrganizationKind = OrganizationKind(organizationId: int, kindId: int)

  /** The five tables, each in its stored row order. */
  datatype Store = Store(
    organizations: seq<Organization>,
    phones: seq<Phone>,
    buildings: seq<Building>,
    kinds: seq<Kind>,
    links: seq<OrganizationKind>)

  /** Primary keys: ids are unique within each table, and a link pair occurs at most once. */
  predicate PrimaryKeys(s: Store)
  {
    && (forall i, j :: 0 <= i < j < |s.organizations| ==> s.organizations[i].id != s.organizations[j].id)
    && (forall i, j :: 0 <= i < j < |s.phones| ==> s.phones[i].id != s.phones[j].id)
    && (forall i, j :: 0 <= i < j < |s.buildings| ==> s.buildings[i].id != s.buildings[j].id)
    && (forall i, j :: 0 <= i < j < |s.kinds| ==> s.kinds[i].id != s.kinds[j].id)
    && (forall i, j :: 0 <= i < j < |s.links| ==> s.links[i] != s.links[j])
  }

  predicate HasBuilding(s: Store, id: int)
  {
    exists j :: 0 <= j < |s.buildings| && s.buildings[j].id == id
  }

  predicate HasOrganization(s: Store, id: int)
  {
    exists j :: 0 <= j < |s.organizations| && s.organizations[j].id == id
  }

  predicate HasKind(s: Store, id: int)
  {
    exists j :: 0 <= j < |s.kinds| && s.kinds[j].id == id
  }

  /** Foreign keys: every reference names an existing row. */
  predicate ForeignKeys(s: Store)
  {
    && (forall i :: 0 <= i < |s.organizations| ==> HasBuilding(s, s.organizations[i].buildingId))
    && (forall i :: 0 <= i < |s.phones| ==> HasOrganization(s, s.phones[i].organizationId))
    && (forall i :: 0 <= i < |s.links| ==> HasOrganization(s, s.links[i].organizationId))
    && (forall i :: 0 <= i < |s.links| ==> HasKind(s, s.links[i].kindId))
    && (forall i :: 0 <= i < |s.kinds| && s.kinds[i].parentId.Some? ==> HasKind(s, s.kinds[i].parentId.value))
  }

  /** The primary key of each table, as the lookups by key read it. */
  function OrganizationKey(o: Organization): int { o.id }

  function BuildingKey(b: Building): int { b.id }

  function KindKey(k: Kind): int { k.id }

  /**
   * The first row whose key is `id`: a `.limit(1)` query on the key, or
   * the lookup a many-to-one relationship performs.
   */
  function Find<T>(rows: seq<T>, key: T -> int, id: int): (r: Option<T>)
    ensures r.None? <==> forall j :: 0 <= j < |rows| ==> key(rows[j]) != id
    ensures r.Some? ==> exists j :: 0 <= j < |rows| && rows[j] == r.value
                                    && key(rows[j]) == id
                                    && forall k :: 0 <= k < j ==> key(rows[k]) != id
  {
    if rows == [] then None
    else if key(rows[0]) == id then Some(rows[0])
    else
      var r := Find(rows[1..], key, id);
      assert forall j :: 0 < j < |rows| ==> rows[j] == rows[1..][j - 1];
      r
  }

  /** A referenced row is present exactly when the lookup by its key finds it. */
  lemma PresentIffFound(s: Store, id: int)
    ensures HasOrganization(s, id) <==> Find(s.organizations, OrganizationKey, id).Some?
    ensures HasBuilding(s, id) <==> Find(s.buildings, BuildingKey, id).Some?
    ensures HasKind(s, id) <==> Find(s.kinds, KindKey, id).Some?
  {
  }

  /**
   * Every organization of a consistent store has exactly one building: the
   * lookup of its reference succeeds, and every building with that id is the one found.
   */
  lemma ExactlyOneBuilding(s: Store, i: int)
    requires PrimaryKeys(s) && ForeignKeys(s) && 0 <= i < |s.organizations|
    ensures Find(s.buildings, BuildingKey, s.organizations[i].buildingId).Some?
    ensures forall j :: 0 <= j < |s.buildings| && s.buildings[j].id == s.organizations[i].buildingId
                        ==> s.buildings[j] == Find(s.buildings, BuildingKey, s.organizations[i].buildingId).value
  {
    assert HasBuilding(s, s.organizations[i].buildingId);
  }

  /** In a consistent store the kind lookup returns the only kind carrying that id. */
  lemma FindKindUnique(s: Store, j: int)
    requires PrimaryKeys(s) && 0 <= j < |s.kinds|
    ensures Find(s.kinds, KindKey, s.kinds[j].id) == Some(s.kinds[j])
  {
  }
}
