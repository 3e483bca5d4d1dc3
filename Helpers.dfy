/** The formatting helpers of src/utils/helpers.js. Dates arrive already
    parsed: a missing (null, undefined or empty) date is `None`, a present
    one is its instant in milliseconds since the epoch; the clock and the
    locale formatter are parameters. */
module Helpers {
  import opened Wrappers

  const MissingDateText := "Non renseigné"

  /** `formatDate`: the fixed text for a missing date, otherwise whatever the
      locale formatter makes of it. */
  function FormatDate(date: Option<string>, formatLocale: string -> string): (text: string)
    ensures date.None? || date == Some("") ==> text == MissingDateText
    ensures date.Some? && date.value != "" ==> text == formatLocale(date.value)
  {
    if date.None? || date.value == "" then MissingDateText else formatLocale(date.value)
  }

  /** 365.25 days of 24 hours, in milliseconds. */
  const MsPerYear: int := 31_557_600_000

  /** `calculateAge`: whole years from the birth instant to the death instant,
      or to `now` when there is no death date; missing birth gives null. */
  function CalculateAge(birth: Option<int>, death: Option<int>, now: int): (age: Option<int>)
    ensures age.None? <==> birth.None?
    ensures age.Some? ==>
      var end := if death.Some? then death.value else now;
      age.value * MsPerYear <= end - birth.value < (age.value + 1) * MsPerYear
  {
    match birth
    case None => None
    case Some(b) =>
      var end := if death.Some? then death.value else now;
      Some((end - b) / MsPerYear)
  }

  /** An age is never negative when the end instant is not before birth. */
  lemma AgeNonNegative(birth: int, death: Option<int>, now: int)
    requires (if death.Some? then death.value else now) >= birth
    ensures CalculateAge(Some(birth), death, now).Some?
    ensures CalculateAge(Some(birth), death, now).value >= 0
  {
  }

  /** A death date, when given, decides the age and the clock is not read. */
  lemma AgeIgnoresClockWhenDeceased(birth: int, death: int, now1: int, now2: int)
    ensures CalculateAge(Some(birth), Some(death), now1) == CalculateAge(Some(birth), Some(death), now2)
  {
  }

  /** The four relation labels, keyed by relation type. */
  const RelationLabels: map<string, string> := map[
    "child" := "Enfant de",
    "parent" := "Parent de",
    "spouse" := "Époux/Épouse de",
    "sibling" := "Frère/Sœur de"
  ]

  /** `getRelationshipLabel`: the label of a known type; any other type is
      returned unchanged. */
  function RelationshipLabel(relationType: string): (text: string)
    ensures relationType in RelationLabels ==> text == RelationLabels[relationType]
    ensures relationType !in RelationLabels ==> text == relationType
  {
    if relationType in RelationLabels && RelationLabels[relationType] != "" then RelationLabels[relationType]
    else relationType
  }

  /** The lookup returns a label different from the input for exactly the
      four known types. */
  lemma LabelChangesOnlyKnownTypes(relationType: string)
    ensures RelationshipLabel(relationType) != relationType <==>
      relationType in {"child", "parent", "spouse", "sibling"}
  {
  }
}
