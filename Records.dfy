/** The rows the backend returns, as plain values. The application never
    updates these in place: it receives them as query results and passes
    them around. */
module Records {
  import opened Wrappers

  /** Row identifiers are UUID strings. */
  type Id = string

  /** A calendar date as the backend stores a `date` column. */
  datatype Date = Date(year: nat, month: nat, day: nat)

  /** A row of the `people` table (the columns the modelled code reads). */
  datatype Person = Person(
    id: Id,
    firstName: string,          // first_name
    name: string,               // name (the family name)
    birthDate: Option<Date>,    // birth_date
    birthPlace: Option<string>, // birth_place
    isPublic: bool,             // is_public
    createdBy: Id,              // created_by
    createdAt: string           // created_at
  )

  /** A row of `family_relations` as fetched with its two joined people:
      `person` is the row that `person_id` refers to and `parent` the row
      that `parent_id` refers to; either is missing when the key is null or
      the join found nothing. Spouse and sibling rows carry
      `related_person_id` and no `parent_id`. */
  datatype RelationRow = RelationRow(
    personId: Option<Id>,
    parentId: Option<Id>,
    relatedPersonId: Option<Id>,
    relationType: string,
    person: Option<Person>,
    parent: Option<Person>
  )

  /** A row of `verified_links`. */
  datatype VerifiedLink = VerifiedLink(id: Id, verifiedBy: Id)

  /** The three per-user queries issued together by the statistics loaders;
      each `data` list is missing when its query reported an error. */
  datatype StatsQueries = StatsQueries(
    people: Option<seq<Person>>,
    relations: Option<seq<RelationRow>>,
    links: Option<seq<VerifiedLink>>
  )

  /** `data?.length || 0`: the length of a result list, 0 when it is missing. */
  function CountOf<T>(data: Option<seq<T>>): (n: nat)
    ensures data.None? ==> n == 0
    ensures data.Some? ==> n == |data.value|
  {
    match data
    case None => 0
    case Some(rows) => |rows|
  }
}
