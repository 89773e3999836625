# Organization directory — a Dafny model

The system is a small read-only HTTP directory of organizations. Every
organization has:

- a name;
- one building, with an address and planar coordinates;
- any number of phone numbers;
- any number of activity kinds, drawn from a taxonomy (a forest of kinds).

Each kind row stores its parent id. It also stores a denormalised array of
all its ancestor ids, so the "kind or any descendant" search needs no
recursion.

This project models the service layer and the record shapes underneath it.
The database becomes an in-memory `Store` of five tables, each a sequence of
rows in stored order. The modules are:

- `Records` (`records.dfy`): the five row types and the schema constraints.
  The primary keys are `PrimaryKeys`; the foreign keys are `ForeignKeys`.
  The module also has the key lookups the ORM relationships perform.
- `Presence` (`presence.dfy`): the three presence tests over optional
  arguments.
- `Errors` (`errors.dfy`): the two domain errors with their HTTP statuses
  and messages.
- `Geo` (`geo.dfy`): validation of the seven geo parameters, and the circle
  and rectangle predicates.
- `Responses` (`responses.dfy`): the `from_sa` projections from rows to
  response records.
- `Queries` (`queries.dfy`): `list_organizations`, `get_organization`,
  `list_kinds`, `list_buildings` and the seed store.
- `Taxonomy` (`taxonomy.dfy`): the start-up loop that creates the kinds.
  It drains a FIFO queue of (node, parent id) entries, appending to the
  queue as it goes. It keeps a map from each kind id to its parent id. For
  every new kind, an inner loop walks that map upwards to build the
  ancestor array. `BuildTaxonomy` and `WalkUp` are imperative methods with
  loop invariants. They are proved against `LevelOrder`, a functional
  definition of the creation order, and against `Consistent`, the
  invariant of the ancestor arrays.
- `Wrappers` (`wrappers.dfy`): `Option` and `Result`.

The main results:

- The builder creates every node exactly once, in level order, with ids
  1, 2, … in creation order.
- Every ancestor array it writes is the parent's id followed by the
  parent's own array. As a consequence, `t in parent_ids` holds exactly
  when the kind descends from `t` along `parent_id` links.
- Geo validation rejects exactly the mixed or incomplete parameter groups.
- `list_organizations` returns the response of exactly the organizations
  that pass every supplied filter.
- `get_organization` fails with status 404 exactly when no organization has
  the id.

Notes on the source's behaviour:

- `parent_ids` is nearest-first. The inner loop appends the parent first,
  then the grandparent, so Запчасти gets `[6, 2]`.
- A negative radius is not rejected either. The circle test compares
  squares, so the circle selects the same buildings as one with the
  absolute value of the radius (`Geo.CircleRadiusSign`).
- A negative rectangle width or height is not rejected either. The
  rectangle is then simply empty (`Geo.RectNegativeSideEmpty`).

## Model

| member | source | states |
|---|---|---|
| Presence.AnyIsNone | src/utils.py:9-10 | true exactly when some argument is absent |
| Presence.AnyIsntNone | src/utils.py:13-14 | true exactly when some argument is present |
| Presence.AllArentNone | src/utils.py:17-18 | true exactly when every argument is present, and it is the negation of `any_is_none` |
| Presence.EmptyArguments | src/utils.py:9-18 | with no arguments nothing is absent, nothing is present, and all are (vacuously) present |
| Presence.CompleteImpliesPresent | src/utils.py:13-18 | a complete non-empty group is a present group, so the geo checks never see one without the other |
| Errors.DomainError.Status | src/services.py:12-24 | both errors are client errors: 404 for "organization not found", 400 for the geo parameter error |
| Errors.DomainError.Message | src/services.py:17-24 | definition: the user-facing text of each error |
| Records.PrimaryKeys | src/db.py:24-71 | definition: ids are unique in each table, and an (organization, kind) pair occurs at most once in the join table |
| Records.ForeignKeys | src/db.py:26-67 | definition: every building, organization, kind and parent-kind reference names a stored row |
| Records.Find | src/services.py:78-89 | the lookup by key (the `limit(1)` query by id, and the lookups behind the `building` and `kinds` relationships) fails exactly when no row has the id, and otherwise returns the first row with it |
| Records.PresentIffFound | src/db.py:26-55 | a referenced organization, building or kind is present exactly when the lookup by its key finds it |
| Records.ExactlyOneBuilding | src/db.py:24-28 | in a store whose keys hold, every organization's building lookup succeeds, and every building with that id is the one found |
| Records.FindKindUnique | src/db.py:50-55 | with unique kind ids the lookup of a stored kind's id returns that kind |
| Taxonomy.LevelOrder | src/services.py:211-233 | definition: the order in which the FIFO queue of roots is drained, each drained entry's children queued behind it with that entry's id, ids counted from 1 |
| Taxonomy.BfsFromLength | src/services.py:212-233 | draining the queue visits exactly as many entries as there are nodes below the queued entries |
| Taxonomy.BfsFromShape | src/services.py:216-233 | FIFO order: the drain starts with the queue as given, then continues with the children of each drained entry, tagged with that entry's id, in drain order |
| Taxonomy.LevelOrderShape | src/services.py:211-233 | the creation order holds every node of the forest once, with the roots first and without a parent, then the children of kind 1, then those of kind 2, and so on |
| Taxonomy.AncestorChain | src/services.py:216-225 | in a consistent table the ancestor array is empty exactly for roots, starts with the parent id, holds only earlier ids, links each id to the next by `parent_id`, and ends at a root |
| Taxonomy.AncestorArrayIsClosure | src/services.py:135-146 | in a consistent table, "the kind is `t` or `t` is in its `parent_ids`" holds exactly when it descends from `t` along `parent_id` links |
| Taxonomy.Walk | src/services.py:217-221 | definition: the ids met following the parent map upwards from an id, nearest first, until an id without an entry or no parent |
| Taxonomy.WalkUp | src/services.py:217-221 | the inner loop returns the ids met when following `parents_by_kind` up from the parent, nearest first, stopping at an id the map lacks or at a root |
| Taxonomy.WalkIsChain | src/services.py:214-230 | the map the builder keeps only points to earlier ids, and walking it from a created kind yields that kind's id followed by its ancestor array |
| Taxonomy.BuildStep | src/services.py:216-233 | creating the next kind with the walked ancestor array, recording it in the map and queueing its children keeps every loop invariant, and it shrinks the work left |
| Taxonomy.BuildTaxonomy | src/services.py:211-233 | the created kinds follow the creation order node by node (name and parent id), with ids 1, 2, …, and every ancestor array is consistent |
| Taxonomy.SeedLevelOrder | src/services.py:194-233 | the seed forest is created in the order Еда, Автомобили, Мясная продукция, Молочная продукция, Грузовые, Легковые, Запчасти, Аксессуары, with parents none, none, 1, 1, 2, 2, 6, 6 |
| Taxonomy.BuildSeedTaxonomy | src/services.py:194-233 | loading the seed forest yields exactly `SeedKinds`: the eight kinds with ids 1 to 8, their parent ids and ancestor arrays; Запчасти gets `[6, 2]` |
| Taxonomy.SeedKindsConsistent | src/services.py:194-233 | the seed kinds table satisfies the ancestor-array invariant |
| Responses.KindFromSa | src/services.py:33-40 | definition: copies id, name, parent id and ancestor array unchanged |
| Responses.BuildingFromSa | src/services.py:49-56 | definition: copies id, address and both coordinates unchanged |
| Responses.ProjectionsLossless | src/services.py:27-56 | the kind and building responses copy every column, and reading a response back gives the row |
| Responses.PhonesOf | src/services.py:71 | the phone list holds exactly the numbers of the rows the organization owns, and it is no longer than the phones table |
| Responses.PhonesOfConcat | src/services.py:71 | the phone list keeps row order: the phones of two runs of rows are the phones of each run, one after the other |
| Responses.LinksOf | src/db.py:29 | the organization's links are exactly the join rows naming it |
| Responses.LinksOfDistinct | src/db.py:69-71 | with the unique (organization, kind) constraint, no link of an organization repeats |
| Responses.KindsOf | src/services.py:73 | one kind response per link, carrying the linked kind id and describing a stored kind |
| Responses.OrganizationFromSa | src/services.py:66-74 | the response carries the organization's id and name, all its phone numbers in row order, its own stored building, and one stored kind per link |
| Responses.ResponseKindsDistinct | src/db.py:61-71 | in a store whose keys hold, the kinds in a response are pairwise distinct |
| Geo.SelectGeo | src/services.py:112-120 | rejects exactly a mix of both groups or an incomplete group, always with `GeoSearchError`; otherwise the complete group, if any, becomes the filter, and no parameter at all means no filter |
| Geo.InCircle | src/services.py:150-153 | definition: strict comparison of the squared distance with the squared radius |
| Geo.InRect | src/services.py:155-160 | definition: inclusive bounds `x ≤ px ≤ x + w` and `y ≤ py ≤ y + h` |
| Geo.Admits | src/services.py:149-160 | definition: no filter admits every building; otherwise the circle or the rectangle test decides |
| Geo.NoParamsNoFilter | src/services.py:112-120 | without geo parameters there is no error and every building passes |
| Geo.BothGroupsRejected | src/services.py:115-116 | two complete groups are rejected, whatever their values |
| Geo.CircleWithoutRadiusRejected | src/services.py:117-118 | a centre without a radius is rejected |
| Geo.CircleBoundaryExcluded | src/services.py:149-153 | a building exactly at the radius is excluded, since the comparison is strict |
| Geo.CircleCentre | src/services.py:149-153 | the centre passes exactly when the radius is non-zero |
| Geo.CircleRadiusSign | src/services.py:149-153 | a negative radius selects the same buildings as its absolute value |
| Geo.RectEdges | src/services.py:154-160 | all four edges belong to the rectangle, and any point beyond an edge does not |
| Geo.RectNegativeSideEmpty | src/services.py:154-160 | a negative width or height leaves the rectangle empty |
| Geo.SeedBuildingScenario | src/services.py:239-243 | the first seed building lies in the 2×2 rectangle from (-15, -153) and outside the unit circle around the origin |
| Queries.Contains | src/utils.py:21-22 | the `%value%` pattern holds exactly when the value occurs in the name at some offset |
| Queries.NameMatches | src/services.py:124-125 | definition: the folded value occurs in the folded name |
| Queries.LinkedTo | src/services.py:130-133 | definition: some join row pairs the organization with exactly that kind |
| Queries.LinkedWithin | src/services.py:135-147 | definition: some join row of the organization names a stored kind that is `t` or has `t` in its `parent_ids` |
| Queries.LocatedIn | src/services.py:149-160 | definition (corrected geo filter): no geo filter, or the organization's own building passes it |
| Queries.LocatedInAsWritten | src/services.py:149-160 | definition (geo filter as written): no geo filter, or some building of the store passes it |
| Queries.Matches | src/services.py:122-160 | definition: the conjunction of every supplied filter, an absent filter holding of every organization |
| Queries.Select | src/services.py:122-160 | the kept rows are exactly the organizations passing every supplied filter |
| Queries.RespondAll | src/services.py:169 | one response per kept row: every response is that of a kept organization, and every kept organization's response is there |
| Queries.ListOrganizations | src/services.py:97-169 | fails with `GeoSearchError` exactly when the geo parameters are rejected; otherwise it returns the responses of exactly the organizations passing every filter |
| Queries.GetOrganization | src/services.py:77-94 | fails with 404 `OrganizationNotFoundError` and the message "Организация не найдена" exactly when no organization has the id; otherwise returns the response of an organization with that id |
| Queries.ListKinds | src/services.py:172-174 | one response per stored kind, in row order, each reading back to its row |
| Queries.ListBuildings | src/services.py:177-179 | one response per stored building, in row order, each reading back to its row |
| Queries.UnfilteredListsEverything | src/services.py:122-169 | with no parameter at all, every organization is listed |
| Queries.MoreFiltersNarrow | src/services.py:124-160 | adding filters can only remove organizations, never add one |
| Queries.HierarchicalMatchIsDescendant | src/services.py:135-147 | with a consistent taxonomy the `kind_id_with_parents` filter means linked to `t` or to a descendant of `t` |
| Queries.AncestorFindsDescendantsOrganizations | src/services.py:97-169 | with a consistent taxonomy, `list_organizations` with `kind_id_with_parents = t` succeeds and lists every organization linked to a kind that descends from `t` (or is `t`) |
| Queries.DirectKindNotTransitive | src/services.py:130-147 | an organization linked to a descendant of `t` but not to `t` itself passes the hierarchical filter for `t` and fails the direct `kind_id` filter for `t` |
| Queries.OwnBuildingDecides | src/services.py:149-160 | with unique building ids an organization passes the geo filter exactly when its own building lies in the area |
| Queries.GeoFilterIgnoresOwnBuilding | src/services.py:149-160 | as written, the filter keeps Сбербутылк for a rectangle that holds only another organization's building |
| Queries.SeedStoreValid | src/services.py:238-298 | the seed rows satisfy the primary and foreign keys, and the seed taxonomy is consistent |
| Queries.SeedWithinScenario | src/services.py:282-297 | searching Еда with descendants finds "Рога и копыта" (Еда) and Gugle (Мясная продукция) but not Сбербутылк (Легковые) |
| Queries.SeedDirectScenario | src/services.py:282-297 | searching Еда directly finds "Рога и копыта" but not Gugle |
| Queries.DuplicatePhonesKept | src/services.py:66-74 | the response of "Рога и копыта" built from the seed store lists its duplicate number twice, as it has two phone rows with it (src/services.py:274-275) |
| Queries.SeedGeoScenario | src/services.py:238-268 | the rectangle around the first building validates and keeps "Рога и копыта"; the unit circle around the origin validates and drops it |

## Findings

| source | as written | input that shows it | evidently intended | confidence | as-written member | corrected member |
|---|---|---|---|---|---|---|
| src/services.py:149-160 | The geo conditions name `Building.x` and `Building.y`, but the query never joins buildings to the organization. The eager `joinedload` uses its own alias. So the buildings table enters the query as a cross product, and an organization is kept when any building lies in the area. | Seed store with the rectangle `rect_x=-15, rect_y=-153, rect_w=2, rect_h=2`. Сбербутылк is kept although its building in Саратов lies far outside, because building 1 lies inside. | Keep an organization when its own building lies in the area. | not executed; high (plain SQL semantics of an unjoined table in the FROM list) | Queries.GeoFilterIgnoresOwnBuilding | Queries.OwnBuildingDecides |

`Queries.LocatedInAsWritten` states the filter as written. `Queries.LocatedIn` is the corrected filter, and `Queries.Matches` and everything built on it use `LocatedIn`.

## Left out

- Database access, sessions, async execution, commits, logging, settings and the HTTP layer (src/main.py). These are I/O. The database becomes the in-memory `Store`.
- Autoincrement ids. `BuildTaxonomy` numbers kinds with a counter from 1. `SeedStore` assumes ids counted from 1 in insertion order.
- Queries.NameMatches: `ILIKE` case folding depends on the database collation, so it is a parameter `fold` applied to both strings. The model searches the value literally. That is the model's reading, not a guarantee of the source: `escape_like` from sqlalchemy_utils (not part of this model) escapes with `*` by default, while src/utils.py:22 calls `ilike` without `escape="*"`. So in the source a `*` in the value probably matches only `**` in the name, and a `%` or `_` in the value probably becomes a literal `*` followed by a wildcard.
- Queries.ListOrganizations: returns each organization at most once, in row order. The SQL joins can repeat an organization once per matching link row, and with a geo filter once per admitted building. Result order without `ORDER BY` is unspecified.
- Queries.ListOrganizations: when both `kind_id` and `kind_id_with_parents` are given, the query joins `organizations_kinds` twice without an alias, which the database refuses. The model takes the conjunction of both filters.
- Queries.ListKinds and Queries.ListBuildings: row order stands for the unspecified order of an unordered `SELECT`.
- Responses.PhonesOf and Responses.KindsOf: the relationship loads behind `phones` and `kinds` have no `ORDER BY`. Row order in the model stands for an unspecified order there too.
- Floating point: coordinates and radii are exact reals, so rounding at the circle boundary or on the rectangle edges is not modelled. Neither is overflow: the database raises an error when `radius * radius` or `rect_x + rect_w` exceeds double precision, where the model still answers.
- Queries.GetOrganization: ids are unbounded integers in the model, while every id column is a 32-bit `INTEGER` (src/db.py:24-67). An `org_id` outside that range makes the source's database call fail with a driver error that nothing catches, so the request ends in a server error; the model answers `OrganizationNotFoundError` instead.
- Queries.ListOrganizations: likewise, a `building_id`, `kind_id` or `kind_id_with_parents` outside the 32-bit `INTEGER` range makes the source's query fail with a server error, where the model returns the (empty) list of matching organizations.
- The relationships' `lazy="raise"` loading errors. Every relation the service reads is loaded eagerly, so they cannot occur.
- Records.ForeignKeys and Records.PrimaryKeys are preconditions: the database enforces them, and the model assumes a store that respects them.
