/** The application's own logic in src/supabase.js: the start-up check of
    the two environment variables, the clause list that `db.people.search`
    builds, and `utils.getUserStats`. Every call into the backend client is
    outside the model: query results arrive as plain values. */
module SupabaseClient {
  import opened Wrappers
  import opened Records
  import opened Numerals

  // ---------------------------------------------------------------------
  // Start-up check

  datatype ClientConfig = ClientConfig(url: string, anonKey: string)

  const MissingEnvMessage :=
    "Missing Supabase environment variables. Please check VITE_SUPABASE_URL and VITE_SUPABASE_ANON_KEY"

  /** A variable is usable when it is set and not empty (JavaScript truthiness). */
  predicate Present(v: Option<string>) {
    v.Some? && v.value != ""
  }

  /** Initialisation stops with the fixed error unless both the backend URL
      and the key are set and non-empty. */
  function CheckEnvironment(url: Option<string>, anonKey: Option<string>): (r: Result<ClientConfig, string>)
    ensures r.Success? <==> Present(url) && Present(anonKey)
    ensures r.Success? ==> r.value.url == url.value && r.value.anonKey == anonKey.value
    ensures r.Failure? ==> r.error == MissingEnvMessage
  {
    if !Present(url) || !Present(anonKey) then Failure(MissingEnvMessage)
    else Success(ClientConfig(url.value, anonKey.value))
  }

  // ---------------------------------------------------------------------
  // Search criteria and the clauses they produce

  /** The search form's criteria; an empty string is an unset criterion
      (JavaScript's falsy values). */
  datatype Criteria = Criteria(firstName: string, lastName: string, birthYear: string, birthPlace: string)

  const NoCriteria := Criteria("", "", "", "")

  /** One step of the query builder chain. */
  datatype Clause =
    | Eq(column: string, flag: bool)                // .eq(column, flag)
    | ILike(column: string, pattern: string)        // .ilike(column, pattern)
    | Gte(column: string, bound: string)            // .gte(column, bound)
    | Lte(column: string, bound: string)            // .lte(column, bound)
    | OrderBy(column: string, ascending: bool)      // .order(column, { ascending })

  const PublicOnly := Eq("is_public", true)
  const NewestFirst := OrderBy("created_at", false)

  /** The `%value%` substring pattern. */
  function Substring(value: string): string {
    "%" + value + "%"
  }

  /** The pattern is the value wrapped in one '%' on each side. */
  lemma SubstringShape(value: string)
    ensures |Substring(value)| == |value| + 2
    ensures Substring(value)[0] == '%' && Substring(value)[|value| + 1] == '%'
    ensures Substring(value)[1..|value| + 1] == value
  {
  }

  /** `db.people.search`: starts from the public filter, appends one clause per
      set criterion (two for the birth year) in a fixed order, and ends with
      newest-first ordering. */
  method Search(criteria: Criteria) returns (query: seq<Clause>)
    ensures |query| >= 2 && query[0] == PublicOnly && query[|query| - 1] == NewestFirst
    ensures |query| == 2 + (if criteria.firstName != "" then 1 else 0) + (if criteria.lastName != "" then 1 else 0)
                         + (if criteria.birthYear != "" then 2 else 0) + (if criteria.birthPlace != "" then 1 else 0)
    ensures criteria == NoCriteria ==> query == [PublicOnly, NewestFirst]
    ensures ILike("first_name", Substring(criteria.firstName)) in query <==> criteria.firstName != ""
    ensures ILike("name", Substring(criteria.lastName)) in query <==> criteria.lastName != ""
    ensures ILike("birth_place", Substring(criteria.birthPlace)) in query <==> criteria.birthPlace != ""
    ensures Gte("birth_date", criteria.birthYear + "-01-01") in query <==> criteria.birthYear != ""
    ensures Lte("birth_date", criteria.birthYear + "-12-31") in query <==> criteria.birthYear != ""
    ensures query == SearchChain(criteria)
    ensures forall p :: WellFormed(p) ==> (Selects(p, query) <==> MatchesCriteria(p, criteria))
  {
    query := [PublicOnly];
    if criteria.firstName != "" {
      query := query + [ILike("first_name", Substring(criteria.firstName))];
    }
    if criteria.lastName != "" {
      query := query + [ILike("name", Substring(criteria.lastName))];
    }
    if criteria.birthYear != "" {
      query := query + [Gte("birth_date", criteria.birthYear + "-01-01")];
      query := query + [Lte("birth_date", criteria.birthYear + "-12-31")];
    }
    if criteria.birthPlace != "" {
      query := query + [ILike("birth_place", Substring(criteria.birthPlace))];
    }
    query := query + [NewestFirst];
    assert query == SearchChain(criteria);
    ClausesPresent(criteria);
    forall p | WellFormed(p)
      ensures Selects(p, query) <==> MatchesCriteria(p, criteria)
    {
      SearchChainSelects(criteria, p);
    }
  }

  /** The clause chain `Search` builds, written as one expression. */
  ghost function SearchChain(c: Criteria): seq<Clause> {
    [PublicOnly]
    + FirstNameClauses(c) + LastNameClauses(c) + BirthYearClauses(c) + BirthPlaceClauses(c)
    + [NewestFirst]
  }

  ghost function FirstNameClauses(c: Criteria): seq<Clause> {
    if c.firstName != "" then [ILike("first_name", Substring(c.firstName))] else []
  }

  ghost function LastNameClauses(c: Criteria): seq<Clause> {
    if c.lastName != "" then [ILike("name", Substring(c.lastName))] else []
  }

  ghost function BirthYearClauses(c: Criteria): seq<Clause> {
    if c.birthYear != "" then [Gte("birth_date", c.birthYear + "-01-01"), Lte("birth_date", c.birthYear + "-12-31")] else []
  }

  ghost function BirthPlaceClauses(c: Criteria): seq<Clause> {
    if c.birthPlace != "" then [ILike("birth_place", Substring(c.birthPlace))] else []
  }

  lemma ClausesPresent(c: Criteria)
    ensures ILike("first_name", Substring(c.firstName)) in SearchChain(c) <==> c.firstName != ""
    ensures ILike("name", Substring(c.lastName)) in SearchChain(c) <==> c.lastName != ""
    ensures ILike("birth_place", Substring(c.birthPlace)) in SearchChain(c) <==> c.birthPlace != ""
    ensures Gte("birth_date", c.birthYear + "-01-01") in SearchChain(c) <==> c.birthYear != ""
    ensures Lte("birth_date", c.birthYear + "-12-31") in SearchChain(c) <==> c.birthYear != ""
  {
  }

  /** Each part of the chain stands for one criterion. */
  lemma SearchChainSelects(c: Criteria, p: Person)
    requires WellFormed(p)
    ensures Selects(p, SearchChain(c)) <==> MatchesCriteria(p, c)
  {
    var f, l, y, b := FirstNameClauses(c), LastNameClauses(c), BirthYearClauses(c), BirthPlaceClauses(c);
    SelectsConcat(p, [PublicOnly], f);
    SelectsConcat(p, [PublicOnly] + f, l);
    SelectsConcat(p, [PublicOnly] + f + l, y);
    SelectsConcat(p, [PublicOnly] + f + l + y, b);
    SelectsConcat(p, [PublicOnly] + f + l + y + b, [NewestFirst]);
    SelectsSingle(p, PublicOnly);
    SelectsSingle(p, NewestFirst);
    NameParts(c, p);
    BirthYearPart(c, p);
  }

  lemma NameParts(c: Criteria, p: Person)
    ensures Selects(p, FirstNameClauses(c)) <==> FirstNameOk(p, c)
    ensures Selects(p, LastNameClauses(c)) <==> LastNameOk(p, c)
    ensures Selects(p, BirthPlaceClauses(c)) <==> BirthPlaceOk(p, c)
  {
    SubstringPattern(c.firstName);
    SubstringPattern(c.lastName);
    SubstringPattern(c.birthPlace);
    SelectsSingle(p, ILike("first_name", Substring(c.firstName)));
    SelectsSingle(p, ILike("name", Substring(c.lastName)));
    SelectsSingle(p, ILike("birth_place", Substring(c.birthPlace)));
  }

  lemma BirthYearPart(c: Criteria, p: Person)
    requires WellFormed(p)
    ensures Selects(p, BirthYearClauses(c)) <==> BirthYearOk(p, c)
  {
    if c.birthYear != "" {
      var lo, hi := Gte("birth_date", c.birthYear + "-01-01"), Lte("birth_date", c.birthYear + "-12-31");
      SelectsConcat(p, [lo], [hi]);
      assert BirthYearClauses(c) == [lo] + [hi];
      SelectsSingle(p, lo);
      SelectsSingle(p, hi);
      YearRangeIsCalendarYear(c.birthYear, p);
    }
  }

  lemma SelectsSingle(p: Person, clause: Clause)
    ensures Selects(p, [clause]) <==> Holds(p, clause)
  {
    assert [clause][..0] == [];
  }

  /** A chain of two parts selects what both parts select. */
  lemma {:induction false} SelectsConcat(p: Person, a: seq<Clause>, b: seq<Clause>)
    ensures Selects(p, a + b) <==> Selects(p, a) && Selects(p, b)
    decreases |b|
  {
    if b == [] {
      assert a + b == a;
    } else {
      var b' := b[..|b| - 1];
      assert (a + b)[..|a + b| - 1] == a + b';
      SelectsConcat(p, a, b');
    }
  }

  // ---------------------------------------------------------------------
  // What a clause chain selects (the backend's filter semantics, abstracted)

  /** ASCII case folding (the backend folds all of Unicode; see README). */
  function Lower(c: char): char {
    if 'A' <= c <= 'Z' then (c as int - 'A' as int + 'a' as int) as char else c
  }

  function Fold(s: string): (r: string)
    ensures |r| == |s|
  {
    seq(|s|, i requires 0 <= i < |s| => Lower(s[i]))
  }

  /** `needle` occurs somewhere in `text`. */
  predicate Contains(text: string, needle: string) {
    needle <= text || (text != [] && Contains(text[1..], needle))
  }

  predicate ContainsIgnoringCase(text: string, needle: string) {
    Contains(Fold(text), Fold(needle))
  }

  /** `ilike` for the shapes the builder produces: `%x%` is a case-insensitive
      substring test for `x`; any other pattern a case-insensitive equality. */
  predicate ILikeMatches(value: string, pattern: string) {
    if |pattern| >= 2 && pattern[0] == '%' && pattern[|pattern| - 1] == '%' then
      ContainsIgnoringCase(value, pattern[1..|pattern| - 1])
    else Fold(value) == Fold(pattern)
  }

  lemma SubstringPattern(x: string)
    ensures forall v :: ILikeMatches(v, Substring(x)) <==> ContainsIgnoringCase(v, x)
  {
    assert Substring(x)[1..|Substring(x)| - 1] == x;
  }

  /** Reads a date literal `Y-MM-DD` (one or more year digits); anything else
      is not a date. */
  function ParseDate(text: string): (d: Option<Date>)
    ensures d.Some? ==> |text| >= 7 && text[|text| - 6] == '-' && AllDigits(text[..|text| - 6])
  {
    if |text| < 7 then None
    else
      var year, month, day := text[..|text| - 6], text[|text| - 5..|text| - 3], text[|text| - 2..];
      if text[|text| - 6] == '-' && text[|text| - 3] == '-' && AllDigits(year) && AllDigits(month) && AllDigits(day)
      then Some(Date(DigitsValue(year), DigitsValue(month), DigitsValue(day)))
      else None
  }

  /** Calendar order on dates. */
  predicate DateLe(a: Date, b: Date) {
    a.year < b.year || (a.year == b.year && (a.month < b.month || (a.month == b.month && a.day <= b.day)))
  }

  /** The text column a clause names, missing when the row holds null. */
  function TextColumn(p: Person, column: string): Option<string> {
    if column == "first_name" then Some(p.firstName)
    else if column == "name" then Some(p.name)
    else if column == "birth_place" then p.birthPlace
    else None
  }

  /** Whether a row passes one clause. A comparison with a bound that is not
      a date passes no row. */
  predicate Holds(p: Person, clause: Clause) {
    match clause
    case Eq(column, flag) => column == "is_public" && p.isPublic == flag
    case ILike(column, pattern) => TextColumn(p, column).Some? && ILikeMatches(TextColumn(p, column).value, pattern)
    case Gte(column, bound) =>
      column == "birth_date" && p.birthDate.Some? && ParseDate(bound).Some? && DateLe(ParseDate(bound).value, p.birthDate.value)
    case Lte(column, bound) =>
      column == "birth_date" && p.birthDate.Some? && ParseDate(bound).Some? && DateLe(p.birthDate.value, ParseDate(bound).value)
    case OrderBy(_, _) => true
  }

  /** A row is selected when it passes every clause of the chain. */
  predicate Selects(p: Person, query: seq<Clause>) {
    query == [] || (Selects(p, query[..|query| - 1]) && Holds(p, query[|query| - 1]))
  }

  // ---------------------------------------------------------------------
  // The criteria's meaning, stated independently of the clauses

  /** A stored birth date is a real month and day. */
  predicate WellFormed(p: Person) {
    p.birthDate.Some? ==> 1 <= p.birthDate.value.month <= 12 && 1 <= p.birthDate.value.day <= 31
  }

  predicate FirstNameOk(p: Person, c: Criteria) {
    c.firstName == "" || ContainsIgnoringCase(p.firstName, c.firstName)
  }

  predicate LastNameOk(p: Person, c: Criteria) {
    c.lastName == "" || ContainsIgnoringCase(p.name, c.lastName)
  }

  /** Born in the calendar year written in the criterion. */
  predicate BirthYearOk(p: Person, c: Criteria) {
    c.birthYear == "" || (AllDigits(c.birthYear) && p.birthDate.Some? && p.birthDate.value.year == DigitsValue(c.birthYear))
  }

  predicate BirthPlaceOk(p: Person, c: Criteria) {
    c.birthPlace == "" || (p.birthPlace.Some? && ContainsIgnoringCase(p.birthPlace.value, c.birthPlace))
  }

  /** A public person meeting every set criterion. */
  predicate MatchesCriteria(p: Person, c: Criteria) {
    p.isPublic && FirstNameOk(p, c) && LastNameOk(p, c) && BirthYearOk(p, c) && BirthPlaceOk(p, c)
  }

  /** The year literal `y-01-01` reads as 1 January of year y when y is
      digits, and is no date otherwise; likewise `y-12-31`. */
  lemma {:induction false} YearBoundsParse(y: string)
    requires y != ""
    ensures ParseDate(y + "-01-01") == (if AllDigits(y) then Some(Date(DigitsValue(y), 1, 1)) else None)
    ensures ParseDate(y + "-12-31") == (if AllDigits(y) then Some(Date(DigitsValue(y), 12, 31)) else None)
  {
    var lo, hi := y + "-01-01", y + "-12-31";
    assert lo[..|lo| - 6] == y && hi[..|hi| - 6] == y;
    assert lo[|lo| - 5..|lo| - 3] == "01" && lo[|lo| - 2..] == "01";
    assert hi[|hi| - 5..|hi| - 3] == "12" && hi[|hi| - 2..] == "31";
    assert DigitsValue("01") == 1 by { assert "01"[..1] == "0"; assert "0"[..0] == ""; }
    assert DigitsValue("12") == 12 by { assert "12"[..1] == "1"; assert "1"[..0] == ""; }
    assert DigitsValue("31") == 31 by { assert "31"[..1] == "3"; assert "3"[..0] == ""; }
  }

  /** The inclusive range `y-01-01 .. y-12-31` holds exactly the dates of
      calendar year y. */
  lemma YearRangeIsCalendarYear(y: string, p: Person)
    requires y != "" && WellFormed(p)
    ensures Holds(p, Gte("birth_date", y + "-01-01")) && Holds(p, Lte("birth_date", y + "-12-31"))
        <==> AllDigits(y) && p.birthDate.Some? && p.birthDate.value.year == DigitsValue(y)
  {
    YearBoundsParse(y);
  }

  /** A year-only search selects every public person born that year,
      whatever the names. */
  lemma YearOnlySearch(y: string, p: Person)
    requires y != "" && AllDigits(y) && WellFormed(p)
    ensures MatchesCriteria(p, Criteria("", "", y, "")) <==>
      p.isPublic && p.birthDate.Some? && p.birthDate.value.year == DigitsValue(y)
  {
  }

  /** With no criteria every public person, and only those, is selected. */
  lemma EmptySearchIsPublicFilter(p: Person)
    ensures MatchesCriteria(p, NoCriteria) <==> p.isPublic
  {
  }

  // ---------------------------------------------------------------------
  // getUserStats

  datatype UserStats = UserStats(peopleCount: nat, relationsCount: nat, verifiedLinks: nat, totalPoints: nat)

  /** `utils.getUserStats`: counts of the three result lists (a missing list
      counts 0) and the weighted points; all zero when the batch failed
      (`None`). */
  function GetUserStats(outcome: Option<StatsQueries>): (s: UserStats)
    ensures outcome.None? ==> s == UserStats(0, 0, 0, 0)
    ensures outcome.Some? ==>
      s.peopleCount == CountOf(outcome.value.people) &&
      s.relationsCount == CountOf(outcome.value.relations) &&
      s.verifiedLinks == CountOf(outcome.value.links)
    ensures s.totalPoints == 10 * s.peopleCount + 5 * s.relationsCount + 20 * s.verifiedLinks
  {
    match outcome
    case None => UserStats(0, 0, 0, 0)
    case Some(q) =>
      var peopleCount := CountOf(q.people);
      var relationsCount := CountOf(q.relations);
      var linksCount := CountOf(q.links);
      UserStats(peopleCount, relationsCount, linksCount, peopleCount * 10 + relationsCount * 5 + linksCount * 20)
  }
}
