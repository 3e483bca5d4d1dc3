# Genealogy front end — a Dafny model of its core

The application is a React front end for a genealogy site backed by Supabase.
The model covers its logic:

- the family-tree page (`src/pages/TreeView.jsx`): the parents and children
  shown around a centre person, the "add relation" form with the record it
  writes, and the page state (people, relations, selected person, modal);
- the profile page (`src/pages/Profile.jsx`): counting, points, badges and
  rank, and the profile-field edits;
- the data-access layer (`src/supabase.js`): the environment check, the
  query chain built by `db.people.search` with the rows it selects, and
  `utils.getUserStats`;
- the registration form (`src/components/Auth/Register.jsx`): the ordered
  password checks before sign-up;
- the certificate utilities (`src/utils/blockchain.js`): hex encoding of a
  digest and the certificate record;
- the display helpers (`src/utils/helpers.js`): date text, age and relation
  labels.

Modules:

| file | module | models |
|---|---|---|
| Wrappers.dfy | `Wrappers` | `Option` / `Result` |
| Records.dfy | `Records` | the backend rows (`people`, `family_relations` joined, `verified_links`) and the `data?.length \|\| 0` count |
| Numerals.dfy | `Numerals` | decimal text of integers (`Date.now()` in a certificate id, a year in a search) |
| Helpers.dfy | `Helpers` | `src/utils/helpers.js` |
| Blockchain.dfy | `BlockchainSim` | `src/utils/blockchain.js` |
| Supabase.dfy | `SupabaseClient` | `src/supabase.js` |
| TreeView.dfy | `TreeViewPage` | `src/pages/TreeView.jsx` |
| Profile.dfy | `ProfilePage` | `src/pages/Profile.jsx` |
| Register.dfy | `RegisterPage` | `src/components/Auth/Register.jsx` |

The React components that hold state (`TreeView`, `AddRelation`, `Profile`,
`Register`) are classes. Their `useState` variables are fields, except the
`loading` flag of `AddRelation` and the `saving` flag of `Profile`. Each
handler is a method that changes only the fields it sets. Backend calls are
not modelled. Their results are passed in as parameters: `None` when the call
threw, `Some(rows)` when it returned. `data: null` is a `None` field of the
row set. The derived views are functions with their own contracts:

- the tree is `FamilyTree`;
- a search is a query of `Clause`s, with `Selects` saying which row it
  returns;
- badges are `BadgePanel`.

Two facts about the tree page shape what is proved about it:

- A "parent" stores the centre as `person_id` and the chosen person as
  `parent_id`, so the chosen person becomes the centre's parent
  (TreeView.jsx:113-118). A "child" is the mirror image (TreeView.jsx:119-124).
- The tree can show the centre itself as a parent or child, and it can show
  people missing from the loaded list. Parents and children are the records
  joined onto relation rows, and the `allPeople` list passed to the tree
  component is never read (TreeView.jsx:5-41).
  `TreeViewPage.CentreNotItsOwnRelative` proves that the centre is not its
  own relative when two conditions hold: every row's join agrees with its
  ids, and no row links a person to itself.
  `TreeViewPage.SelfLinkedRowMakesOwnParent` gives a row without the second
  condition, for which the centre is its own parent.

## Model

| member | source | states |
|---|---|---|
| Records.CountOf | src/supabase.js:174-176 | a failed or empty query counts 0; otherwise the count is the number of rows |
| Numerals.DecimalRoundTrip | src/utils/blockchain.js:27 | reading back the decimal text of a number gives the number |
| Numerals.IntToText | src/utils/blockchain.js:27 | `${n}` begins with '-' exactly for negatives and is otherwise all digits |
| Numerals.ToDecimal | src/utils/blockchain.js:27 | the decimal text of a natural number is non-empty, all digits, with no leading zero above 9 |
| Numerals.IntToTextInjective | src/utils/blockchain.js:27 | different integers have different decimal texts, negatives included |
| Helpers.FormatDate | src/utils/helpers.js:1-4 | a missing or empty date gives "Non renseigné"; any other date gives its French locale text |
| Helpers.CalculateAge | src/utils/helpers.js:6-11 | no age without a birth date; otherwise the age is the floor of the elapsed time, in 365.25-day years, up to the death date or else the current time |
| Helpers.AgeNonNegative | src/utils/helpers.js:10 | when the end is not before the birth the age is non-negative |
| Helpers.AgeIgnoresClockWhenDeceased | src/utils/helpers.js:8 | with a death date the age does not depend on the current time |
| Helpers.RelationshipLabel | src/utils/helpers.js:13-21 | the four known relation types get their French labels; any other type is shown unchanged |
| Helpers.LabelChangesOnlyKnownTypes | src/utils/helpers.js:14-20 | the label differs from the type exactly for the four known types |
| BlockchainSim.ToHex | src/utils/blockchain.js:7 | `toString(16)` gives at least one lower-case hex digit |
| BlockchainSim.PadStart | src/utils/blockchain.js:7 | `padStart` puts the fill in front, enough to reach the width, and nothing when the text is already that long |
| BlockchainSim.ByteToHex | src/utils/blockchain.js:7 | a byte becomes exactly two hex digits, high nibble first |
| BlockchainSim.HexEncode | src/utils/blockchain.js:6-7 | the joined hex text has two characters per byte |
| BlockchainSim.HexEncodeAt | src/utils/blockchain.js:6-7 | characters 2i and 2i+1 are the hex digits of byte i |
| BlockchainSim.HexEncodeIsLowerHex | src/utils/blockchain.js:7 | the hash text holds only lower-case hex digits |
| BlockchainSim.HexRoundTrip | src/utils/blockchain.js:6-7 | decoding the hash text gives back the digest bytes |
| BlockchainSim.HexDecodeSound | src/utils/blockchain.js:6-7 | any text that decodes is exactly the encoding of what it decodes to |
| BlockchainSim.HexEncodeInjective | src/utils/blockchain.js:6-7 | different digests give different hash texts |
| BlockchainSim.GenerateHash | src/utils/blockchain.js:2-8 | the hash is twice as long as the digest and decodes to the digest of the serialised data |
| BlockchainSim.HashOf32ByteDigest | src/utils/blockchain.js:5-7 | a SHA-256 digest gives a 64-character hash |
| BlockchainSim.HashDeterministic | src/utils/blockchain.js:2-8 | equal serialisations hash equally; equal hashes mean equal digests |
| BlockchainSim.GenerateCertificateData | src/utils/blockchain.js:22-33 | the certificate keeps the person and relations, stamps the time, uses id "CERT-" followed by the millisecond clock, and records the "Genealogy Testnet" ledger as "Validated" |
| BlockchainSim.CertificateIdsDistinct | src/utils/blockchain.js:27 | certificates made at different milliseconds have different ids |
| SupabaseClient.CheckEnvironment | src/supabase.js:8-12 | the client is configured exactly when both variables are non-empty; otherwise it fails with the missing-variables message |
| SupabaseClient.Search | src/supabase.js:77-95 | the query starts with the public filter and ends newest first; the optional filters follow in source order (first name, last name, `gte` then `lte` on the year, birth place); it has one `ilike` per given name or place and a `gte`/`lte` pair for a given year; a well-formed row is selected exactly when it is public and matches every given criterion |
| SupabaseClient.ClausesPresent | src/supabase.js:80-92 | each optional filter is in the chain exactly when its criterion is non-empty |
| SupabaseClient.SearchChainSelects | src/supabase.js:77-95 | the chain selects a well-formed row exactly when the row matches the criteria |
| SupabaseClient.SelectsConcat | src/supabase.js:78-94 | chained filters combine by conjunction |
| SupabaseClient.SubstringPattern | src/supabase.js:81 | `ilike` with `%x%` is case-insensitive containment of x |
| SupabaseClient.SubstringShape | src/supabase.js:80-92 | the `%${x}%` pattern is x wrapped in one '%' on each side |
| SupabaseClient.YearBoundsParse | src/supabase.js:87-88 | the two bounds are 1 January and 31 December of the given year when it is all digits; otherwise neither parses |
| SupabaseClient.YearRangeIsCalendarYear | src/supabase.js:86-89 | a well-formed birth date passes both bounds exactly when it falls in that year |
| SupabaseClient.YearOnlySearch | src/supabase.js:86-89 | a search by year alone matches public people born in that calendar year |
| SupabaseClient.EmptySearchIsPublicFilter | src/supabase.js:78 | with no criteria, a search returns exactly the public people |
| SupabaseClient.GetUserStats | src/supabase.js:166-188 | a failure gives all zeros; otherwise the row counts, scored 10 per person, 5 per relation and 20 per verified link |
| TreeViewPage.RelativesOf | src/pages/TreeView.jsx:6-8 | keeps exactly the rows naming the person as child or parent, in order |
| TreeViewPage.JoinedParents | src/pages/TreeView.jsx:33-36 | no more parents than rows; membership is given by `JoinedParentsMembers` |
| TreeViewPage.JoinedChildren | src/pages/TreeView.jsx:38-41 | no more children than rows; membership is given by `JoinedChildrenMembers` |
| TreeViewPage.JoinedParentsMembers | src/pages/TreeView.jsx:33-36 | a person is shown as parent exactly when some row has the centre as child and that person joined as parent |
| TreeViewPage.JoinedChildrenMembers | src/pages/TreeView.jsx:38-41 | a person is shown as child exactly when some row has the centre as parent and that person joined as child |
| TreeViewPage.FamilyTree | src/pages/TreeView.jsx:32-41 | the parents and children of the tree are those joined from all relations |
| TreeViewPage.RelativesKeepParentsAndChildren | src/pages/TreeView.jsx:32-41 | filtering the person's relatives first loses no parent and no child |
| TreeViewPage.RelativesOfAppend | src/pages/TreeView.jsx:6-8 | the relatives of a concatenation are the concatenated relatives |
| TreeViewPage.JoinedAppend | src/pages/TreeView.jsx:33-41 | parents and children of a concatenation are concatenated, so rows are shown in stored order |
| TreeViewPage.UnjoinedRowIgnored | src/pages/TreeView.jsx:36 | a row whose joined person is missing adds nothing to the tree |
| TreeViewPage.CentreNotItsOwnRelative | src/pages/TreeView.jsx:32-41 | with consistent joins and no self-linked row, the centre is never its own parent or child |
| TreeViewPage.SelfLinkedRowMakesOwnParent | src/pages/TreeView.jsx:33-36 | a row linking a person to itself makes that person their own parent and child |
| TreeViewPage.BuildRelation | src/pages/TreeView.jsx:112-131 | "parent" stores the target as the centre's parent; "child" stores the centre as the target's parent; any other type relates the centre to the target |
| TreeViewPage.ParentChildMirror | src/pages/TreeView.jsx:113-124 | adding b as parent of a writes the same record as adding a as child of b |
| TreeViewPage.SelfLinkedIffTargetIsCentre | src/pages/TreeView.jsx:112-131 | a record links a person to itself exactly when the target is the centre |
| TreeViewPage.Submit | src/pages/TreeView.jsx:105-131 | nothing is written without a chosen person; otherwise the record of the chosen type |
| TreeViewPage.AvailablePeople | src/pages/TreeView.jsx:142 | the choices are all loaded people except the centre |
| TreeViewPage.Offered | src/pages/TreeView.jsx:175-181 | the select holds the placeholder or the id of a loaded person other than the centre |
| TreeViewPage.SubmittedNeverSelfLinked | src/pages/TreeView.jsx:142-181 | a person chosen from the list never produces a self-linked record |
| TreeViewPage.Stored | src/pages/TreeView.jsx:133 | the stored row keeps the written ids and type |
| TreeViewPage.AddedParentAppearsInTree | src/pages/TreeView.jsx:113-118 | after adding t as parent of c, t is among c's parents and c among t's children |
| TreeViewPage.AddedChildAppearsInTree | src/pages/TreeView.jsx:119-124 | after adding t as child of c, t is among c's children and c among t's parents |
| TreeViewPage.AddedPeerLeavesTreesUnchanged | src/pages/TreeView.jsx:125-131 | a spouse or sibling record changes no one's tree |
| TreeViewPage.FindById | src/pages/TreeView.jsx:274 | `find` gives nothing when no person has the id; otherwise a listed person with that id, the first one when it heads the list |
| TreeViewPage.FindByIdIsFirst | src/pages/TreeView.jsx:274 | the person `find` returns is the first in the list with that id |
| TreeViewPage.AddRelation.constructor | src/pages/TreeView.jsx:94-95 | the form opens on "parent" with no person chosen |
| TreeViewPage.AddRelation.ChooseType | src/pages/TreeView.jsx:156 | the type select sets the relation type and keeps the chosen person an offered one |
| TreeViewPage.AddRelation.ChoosePerson | src/pages/TreeView.jsx:171-181 | the person select accepts only the empty choice or a listed person other than the centre |
| TreeViewPage.AddRelation.HandleSubmit | src/pages/TreeView.jsx:105-140 | the imperative if-chain makes the record `Submit` defines: none without a chosen person, otherwise `BuildRelation`'s record, never self-linked |
| TreeViewPage.TreeView.constructor | src/pages/TreeView.jsx:208-212 | empty lists, nothing selected, modal closed, loading |
| TreeViewPage.TreeView.LoadTreeData | src/pages/TreeView.jsx:218-235 | the lists become the loaded rows, or empty ones; the first person is selected when there is one, otherwise the selection stays; loading ends |
| TreeViewPage.TreeView.LoadTreeDataFailed | src/pages/TreeView.jsx:230-234 | a failed load changes only the loading flag |
| TreeViewPage.TreeView.ChooseFromList | src/pages/TreeView.jsx:273-276 | the selection becomes the listed person with that id, or nothing |
| TreeViewPage.TreeView.SelectPerson | src/pages/TreeView.jsx:16 | clicking a card centres the tree on that person |
| TreeViewPage.TreeView.OpenAddRelation | src/pages/TreeView.jsx:263-265 | the modal opens only when a person is selected |
| TreeViewPage.TreeView.CancelAddRelation | src/pages/TreeView.jsx:337 | cancel closes the modal |
| TreeViewPage.TreeView.RelationAdded | src/pages/TreeView.jsx:333-336 | success closes the modal and reloads |
| TreeViewPage.TreeView.Shown | src/pages/TreeView.jsx:290-300 | a tree is shown exactly when a person is selected, centred on that person, with its parents and children joined from the loaded relations |
| TreeViewPage.TreeView.ShowsEmptyPrompt | src/pages/TreeView.jsx:237-322 | the prompt shows exactly when loading is over, no tree is shown and no people are loaded; while loading only the spinner renders |
| TreeViewPage.OpenOnEmptyList | src/pages/TreeView.jsx:301-323 | with no people the page shows the prompt to add a first person |
| TreeViewPage.OpenOnList | src/pages/TreeView.jsx:226-229 | with people loaded the page shows the first person's tree |
| ProfilePage.LoadedStats | src/pages/Profile.jsx:52-62 | the counts are the row counts, the points are 10 per person, 5 per relation and 20 per source, and the member date is set |
| ProfilePage.LoadedStatsAgreeWithUserStats | src/pages/Profile.jsx:52-60 | the page and `getUserStats` compute the same counts and points |
| ProfilePage.BadgePanel | src/pages/Profile.jsx:220-250 | each badge shows exactly when its threshold is met, and the prompt exactly when no person and no source was added; items keep their render order |
| ProfilePage.Rank | src/pages/Profile.jsx:119 | the rank is "Expert" exactly above 100 points, and "Débutant" otherwise |
| ProfilePage.BadgeAndRankDisagreeOnlyAt100 | src/pages/Profile.jsx:119 | the Expert badge and the Expert rank disagree exactly at 100 points |
| ProfilePage.CollectorThreshold | src/pages/Profile.jsx:220 | 10 people earn the collector badge; 9 do not |
| ProfilePage.PromptBesideExpertBadge | src/pages/Profile.jsx:240-250 | no people, no sources and 20 relations show the prompt next to the Expert badge |
| ProfilePage.BeforeAt | src/pages/Profile.jsx:109 | `split('@')[0]` is the longest prefix without '@' |
| ProfilePage.DisplayName | src/pages/Profile.jsx:109 | the username when set; otherwise the e-mail's text up to its first '@' (all of it without one), or nothing without an e-mail |
| ProfilePage.Profile.constructor | src/pages/Profile.jsx:7-20 | empty profile, zero statistics, loading |
| ProfilePage.Profile.LoadProfile | src/pages/Profile.jsx:28-42 | a returned row replaces the profile; otherwise it stays; the points stay consistent |
| ProfilePage.Profile.LoadStats | src/pages/Profile.jsx:44-68 | loaded counts replace the statistics; a failure keeps them; loading ends and the points stay consistent |
| ProfilePage.Profile.EditUsername | src/pages/Profile.jsx:140 | only the username changes; the points stay consistent |
| ProfilePage.Profile.EditBio | src/pages/Profile.jsx:152 | only the bio changes; the points stay consistent |
| ProfilePage.Profile.EditLocation | src/pages/Profile.jsx:166 | only the location changes; the points stay consistent |
| RegisterPage.PasswordProblem | src/components/Auth/Register.jsx:18-26 | a mismatch is reported when the entries differ; otherwise "too short" below six characters; otherwise nothing |
| RegisterPage.MismatchReportedFirst | src/components/Auth/Register.jsx:18-21 | when both checks fail, the mismatch is the message |
| RegisterPage.SixCharactersAccepted | src/components/Auth/Register.jsx:23 | six characters pass the length check |
| RegisterPage.Register.constructor | src/components/Auth/Register.jsx:6-12 | empty fields and no message |
| RegisterPage.Register.HandleSubmit | src/components/Auth/Register.jsx:15-30 | sign-up is called, with e-mail and password and the message cleared, exactly when no check fails; otherwise the failing check's message is shown |
| RegisterPage.Register.SetUsername | src/components/Auth/Register.jsx:51 | only the username changes |
| RegisterPage.Register.SetEmail | src/components/Auth/Register.jsx:65 | only the e-mail changes |
| RegisterPage.Register.SetPassword | src/components/Auth/Register.jsx:79 | only the password changes |
| RegisterPage.Register.SetConfirmPassword | src/components/Auth/Register.jsx:93 | only the confirmation changes |

## Left out

- Backend calls are not modelled: Supabase queries, `signUp`, `db.relations.create` and `saveProfile`. Query results are parameters. Failures are `None`. Filters are given a meaning by `SupabaseClient.Selects`.
- Asynchrony and interleaving of the React updates are not modelled. Each handler runs to completion. The `loading` flag of `AddRelation`, the `saving` flag of the profile page (Profile.jsx:21) and the sign-up hook's loading flag are not modelled.
- SupabaseClient.ILikeMatches folds case for ASCII letters only. `%` and `_` inside a user's criterion are taken literally, not as wildcards.
- SupabaseClient.Search: dates are compared as parsed `Date(year, month, day)` values; the backend's date-literal parser is not modelled. Rows must be `WellFormed` (month 1 to 12, day 1 to 31) for the selection equivalence.
- The URL-format check (src/supabase.js:15-19) is not modelled: it needs a URL parser.
- `simulateBlockValidation` is not modelled: it uses a timer and `Math.random`.
- BlockchainSim.GenerateHash takes JSON serialisation and SHA-256 as parameters; neither is modelled.
- Helpers.FormatDate takes the `fr-FR` locale formatting as a parameter.
- Helpers.CalculateAge takes dates as millisecond timestamps. Date-string parsing is not modelled. The floating-point division by 365.25 days is modelled as exact floor division.
- Helpers.RelationshipLabel treats only the four own keys of the label table as known. Inherited object-prototype keys, such as "constructor", are not modelled.
- RegisterPage.PasswordProblem counts `string` elements, whereas JavaScript's `.length` counts UTF-16 code units.
- The death-date display of a tree card is not modelled. Card markup, icons and navigation (`window.location.href`) are not modelled.
- The Dashboard, Search, People and auth-hook pages are not part of this model.
