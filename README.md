# Travel poll: ranked-vote tally, vote store and result views in Dafny

This project models the core of a small travel poll web app. Each participant
submits a ballot with a name and up to three destinations, ranked first to
third. The app keeps the live ballots, archived rounds and a point scheme
("weight config"). It scores each destination by the scheme and shows:

- the standings;
- a region-by-voter cross tabulation;
- a map roll-up of destinations into countries and continents.

The model covers:

- **Standings** (`Tally`, `tally.dfy`). Choices are keyed by their trimmed,
  lower-cased spelling and blank choices are skipped. The display name is the
  first spelling seen. Voters are listed once each and the per-rank counters
  are kept. Points come from the active scheme. The list is sorted by points,
  descending and stable.
  - `CalculateResults` is the imperative loop over a key list and a map,
    which are JavaScript's insertion-ordered `Map`.
  - It is proved equal to a fold (`Results`).
  - The fold is proved equal to a reference definition per key, built from
    counts and sums over all choices.
- **Store** (`VoteStore`, `vote_store.dfy`). A class with the ballots, the
  rounds and the scheme. It covers adding, deleting and excluding ballots,
  archiving a round, setting the scheme, and export and import. The clock and
  the random id are parameters.
- **Submission schema** (`Validation`, `validation.dfy`). This is the poll
  form's schema:
  - its injection pattern, as a predicate over the lower-cased text;
  - every message of every field, in field order;
  - values trimmed on success;
  - `validatePollSubmission`.
- **Import schema** (`ImportSchema`, `import_schema.dfy`). The ballot, scheme
  and import-file schemas, stated on a JSON value, and the JSON the export
  writes. Round trips between the two are proved.
- **Point-scheme editor** (`WeightEditor`, `weight_editor.dfy`). Choosing a
  preset, editing a custom value with `parseInt(value) || 0`, and the
  selected mark.
- **Cross tabulation** (`CrossTab`, `cross_tab.dfy`). It covers:
  - the sorted region rows;
  - the matrix, built imperatively with 3/2/1 points per rank whatever the
    scheme;
  - row and column totals;
  - the visible rows and columns;
  - the focus and collapse state, as a class.
- **Map roll-up** (`MapResults`, `map_results.dfy`). Standings are grouped
  into countries and continents, and counters and voters are merged. Markers
  are sorted and coloured, and the zoom switch between the two views is
  modelled.

Shared modules:

- `Text`: JavaScript `trim`, white space and ASCII case mapping;
- `Seqs`: duplicate-free lists and sums;
- `Ranking`: the stable descending sort and its facts;
- `PollTypes`: the records and the three built-in schemes.

Where the code and its documentation differ, the code is followed:

- Name and choice lengths are checked on the text as typed, before it is
  trimmed.
- `validatePollSubmission` returns every message, not only the first. The
  form shows the first one.
- `importData` applies none of the import schemas. It stores whichever parts
  of the parsed file are present. The schemas are modelled on their own, as
  the definition of a well-formed file.

## Model

| member | source | states |
|---|---|---|
| PollTypes.DefaultWeightConfigs | src/types/poll.ts:20-24 | three presets with distinct ids, none of them "custom", first > second > third >= 1, within the import bounds; the first is 3-2-1 |
| PollTypes.IsExcluded | src/types/poll.ts:9 | only an explicit `excluded: true` excludes a ballot; a missing flag counts |
| Text.TrimFacts | src/hooks/useVotes.ts:75-76 | `trim` removes exactly the leading and trailing white space: the result is a slice of the input with no white space at either end |
| Text.TrimIdempotent | src/lib/validation.ts:11 | trimming twice is trimming once |
| Text.TrimToLowerCommute | src/hooks/useVotes.ts:76 | lower-casing then trimming equals trimming then lower-casing |
| Text.BlankIsAllSpace | src/hooks/useVotes.ts:75 | a choice trims to empty exactly when it is all white space |
| Text.Capitalize | src/components/admin/MapResults.tsx:52 | the first character is upper-cased, the rest is kept, the length is unchanged |
| Seqs.UnionInto | src/components/admin/MapResults.tsx:62-66 | appending the voters not yet listed keeps the old list as a prefix, gives the union of both, and keeps it duplicate-free |
| Seqs.Distinct | src/hooks/useVotes.ts:78-87 | the list of distinct elements: duplicate-free, with the same members, no longer than the input |
| Ranking.SortDesc | src/hooks/useVotes.ts:107 | a permutation of its input, sorted by descending points |
| Ranking.SortDescStable | src/hooks/useVotes.ts:107 | entries with equal points keep their relative order |
| Ranking.SortDescSum | src/hooks/useVotes.ts:107 | sorting keeps the point total |
| Ranking.SortDescDistinctBy | src/hooks/useVotes.ts:107 | sorting keeps names distinct |
| Tally.FoldKeys | src/hooks/useVotes.ts:76-87 | the tally holds one entry per distinct key, in the order keys are first seen |
| Tally.FoldEntry | src/hooks/useVotes.ts:78-103 | each entry equals the reference: first spelling as name, voters in first-seen order, per-rank counts, points from the scheme |
| Tally.PointsForFormula | src/hooks/useVotes.ts:94-103 | an entry's points are first*firstVotes + second*secondVotes + third*thirdVotes |
| Tally.PointsConserved | src/hooks/useVotes.ts:70-108 | the standings' points sum to the points of every non-blank choice of every counted ballot |
| Tally.MergedIsReference | src/hooks/useVotes.ts:73-105 | the unsorted standings are the reference entries for the distinct keys, in first-seen order |
| Tally.ResultsSpec | src/hooks/useVotes.ts:70-108 | the standings are sorted by points; entries with equal points keep first-seen order; names have distinct keys; voter lists are duplicate-free; each entry obeys the points formula |
| Tally.ExcludedVoteIgnored | src/hooks/useVotes.ts:73 | an excluded ballot does not change the standings |
| Tally.ChoiceMarksSame | src/hooks/useVotes.ts:74 | two ballots with the same name and choices contribute identically |
| Tally.RecordChoice | src/hooks/useVotes.ts:75-103 | one choice updates the key list and map as the fold step does |
| Tally.RecordVote | src/hooks/useVotes.ts:74-104 | the three choices of a ballot update the tally as the fold does |
| Tally.CalculateResults | src/hooks/useVotes.ts:70-108 | the loop returns the specified standings, sorted, with every point accounted for |
| VoteStore.WithoutSpec | src/hooks/useVotes.ts:62-64 | after deleting, the ballots are exactly those of the old list with other ids, and there are no more of them |
| VoteStore.WithoutIdempotent | src/hooks/useVotes.ts:62-64 | deleting twice is deleting once |
| VoteStore.WithoutMissing | src/hooks/useVotes.ts:62-64 | deleting an unknown id changes nothing |
| VoteStore.ToggledSpec | src/hooks/useVotes.ts:66-68 | toggling flips the flag and stamps `updatedAt` on the ballots with that id and leaves the others unchanged |
| VoteStore.ToggleTwiceSameResults | src/hooks/useVotes.ts:66-68 | toggling a ballot twice gives the same standings |
| VoteStore.AddVotePoints | src/hooks/useVotes.ts:50-60 | a new ballot adds exactly its points to the standings' total |
| VoteStore.ExportImportRoundTrip | src/hooks/useVotes.ts:143-174 | importing what was exported restores the ballots and the scheme |
| VoteStore.EmptyImportNoop | src/hooks/useVotes.ts:163-168 | a file with neither part changes nothing |
| VoteStore.PollStore.constructor | src/hooks/useVotes.ts:13-15 | no ballots, no rounds, the 3-2-1 scheme |
| VoteStore.PollStore.AddVote | src/hooks/useVotes.ts:50-60 | the ballot is appended with its new id and equal created/updated stamps; nothing else changes |
| VoteStore.PollStore.DeleteVote | src/hooks/useVotes.ts:62-64 | no ballot with the id remains; all others stay; rounds and scheme unchanged |
| VoteStore.PollStore.ToggleExcludeVote | src/hooks/useVotes.ts:66-68 | ballots become the toggled list; rounds and scheme unchanged |
| VoteStore.PollStore.ArchiveAndResetPoll | src/hooks/useVotes.ts:110-126 | a round numbered one past the last is appended with the ballots, their standings and the scheme; ballots are cleared; numbering and standings stay consistent |
| VoteStore.PollStore.SetWeightConfig | src/hooks/useVotes.ts:128-131 | only the scheme changes |
| VoteStore.PollStore.ImportData | src/hooks/useVotes.ts:158-174 | each part present replaces the current one; rounds unchanged |
| VoteStore.PollStore.ExportData | src/hooks/useVotes.ts:143-156 | the export holds the ballots, the scheme and the time, and reads back into the same state |
| Validation.MatchesFromSpec | src/lib/validation.ts:8 | the search matches exactly when the pattern matches at some position |
| Validation.SuspiciousIgnoresCase | src/lib/validation.ts:8 | the `i` flag: upper- and lower-case text are judged alike |
| Validation.SuspiciousInside | src/lib/validation.ts:8 | text containing a match is itself refused, whatever surrounds it |
| Validation.PlainNeverSuspicious | src/lib/validation.ts:8 | text with no `<`, `:` or `=` is never refused |
| Validation.ScriptTagExample | src/lib/validation.ts:8 | `<SCRIPT>` is refused |
| Validation.HandlerExample | src/lib/validation.ts:8 | an event-handler attribute such as `onclick =` is refused |
| Validation.EqualsSignExample | src/lib/validation.ts:8 | a destination like `London = great` is refused too, since `on\w+\s*=` matches inside a word |
| Validation.PlainNameExample | src/lib/validation.ts:8 | an ordinary name passes |
| Validation.SafeParse | src/lib/validation.ts:14-33 | failure always carries at least one message |
| Validation.SafeParseSpec | src/lib/validation.ts:14-33 | as written, the schema accepts exactly the inputs meeting every bound and pattern rule on the untrimmed text; accepted values come back trimmed |
| Validation.NameMessages | src/lib/validation.ts:15-22 | an empty name reports only "Name is required"; an over-long name reports the length message, and also the character message when the pattern matches |
| Validation.MissingChoicesDefault | src/lib/validation.ts:31-32 | missing later choices default to empty strings |
| Validation.BlankNameAccepted | src/lib/validation.ts:15-22 | as written, a name of 1 to 100 spaces passes and is stored as "" |
| Validation.TrimmedNameNeverBlank | src/lib/validation.ts:15-22 | with the name checked after trimming, acceptance is exactly the corrected rule, and an accepted name is non-blank and 1..100 long |
| Validation.TrimmedAgreesOnTrimmedNames | src/lib/validation.ts:15-22 | the correction changes nothing for names without surrounding white space |
| Validation.ValidatePollSubmission | src/lib/validation.ts:45-59 | as written: success exactly when the untrimmed fields meet the schema's rules, with the trimmed data and no errors; failure with no data and every message of the schema, at least one |
| Validation.BlankFormAccepted | src/lib/validation.ts:15-22 | as written, the form with name "   " and first choice "Paris" is accepted and passes on the name "" |
| Validation.ValidatePollSubmissionIntended | src/lib/validation.ts:45-59 | corrected: success exactly when the name is 1..100 long after trimming and the other rules hold; an accepted name is never blank |
| Validation.BlankFormRefusedIntended | src/lib/validation.ts:15-22 | corrected, the form with name "   " is refused |
| ImportSchema.ParseVote | src/lib/validation.ts:62-71 | an accepted ballot meets every field bound |
| ImportSchema.ParseVotes | src/lib/validation.ts:84 | the array is accepted exactly when every element is, and then element-wise |
| ImportSchema.ParseWeightConfig | src/lib/validation.ts:74-80 | an accepted scheme has integral points in 0..1000 and bounded id and name |
| ImportSchema.ImportAllOrNothing | src/lib/validation.ts:83-87 | a file is accepted exactly when every part it has is valid, and the parts it yields are the parts it has |
| ImportSchema.UnknownKeysIgnored | src/lib/validation.ts:62-71 | keys the ballot schema does not name do not affect the result |
| ImportSchema.VoteRoundTrip | src/lib/validation.ts:62-71 | a written ballot reads back as itself exactly when it meets the bounds |
| ImportSchema.WeightConfigRoundTrip | src/lib/validation.ts:74-80 | a written scheme reads back as itself exactly when it meets the bounds |
| ImportSchema.VotesRoundTrip | src/lib/validation.ts:84 | a list of ballots within bounds reads back as itself |
| ImportSchema.ExportPassesSchema | src/hooks/useVotes.ts:143-149 | an export file passes the import schema exactly when its ballots and scheme are within bounds, and then yields what the store's import restores |
| ImportSchema.PresetsImportable | src/types/poll.ts:20-24 | every built-in scheme passes the scheme schema |
| ImportSchema.NegativePointsRefused | src/lib/validation.ts:77-79 | a negative point value, which the editor allows, fails the scheme schema |
| ImportSchema.EmptyNameRefused | src/lib/validation.ts:64 | an export with an empty-named ballot fails the import schema as a whole |
| WeightEditor.ParseShowInt | src/components/admin/WeightConfig.tsx:19 | `parseInt` reads back any decimal rendering of an integer followed by a non-alphanumeric character or nothing |
| WeightEditor.ParseIntSkipsSpace | src/components/admin/WeightConfig.tsx:19 | leading white space is ignored |
| WeightEditor.NoDigitsIsZero | src/components/admin/WeightConfig.tsx:19 | text with no number where one should start reads as 0 |
| WeightEditor.PresetSelect | src/components/admin/WeightConfig.tsx:14-16 | a preset is passed on unchanged |
| WeightEditor.CustomChange | src/components/admin/WeightConfig.tsx:18-26 | the edited field takes the parsed value, the other two are kept, id and name become the custom ones |
| WeightEditor.SelectMarksOnePreset | src/components/admin/WeightConfig.tsx:46-55 | choosing a preset marks it and no other |
| WeightEditor.CustomMarksNoPreset | src/components/admin/WeightConfig.tsx:46-55 | after a custom edit no preset is marked |
| WeightEditor.NegativeKept | src/components/admin/WeightConfig.tsx:18-26 | a negative value is stored as typed; `min="0"` does not clamp it |
| WeightEditor.NotANumberIsZero | src/components/admin/WeightConfig.tsx:19 | empty or non-numeric text stores 0 |
| CrossTab.StrLtTotal | src/components/admin/CrossTabulation.tsx:29 | the sort order is total on distinct strings (with StrLtTransitive and StrLtIrreflexive, a strict order) |
| CrossTab.Regions | src/components/admin/CrossTabulation.tsx:23-30 | the rows are strictly ascending and are exactly the capitalised regions of the standings |
| CrossTab.ActiveVotes | src/components/admin/CrossTabulation.tsx:21 | exactly the ballots not excluded |
| CrossTab.MatrixCells | src/components/admin/CrossTabulation.tsx:32-55 | cells are non-negative, and there is one for each row and each counted ballot's id and no other |
| CrossTab.PaddedChoiceMissesRow | src/components/admin/CrossTabulation.tsx:45-46 | choices are not trimmed, so " Paris" does not reach the row "Paris" |
| CrossTab.ScoreBallot | src/components/admin/CrossTabulation.tsx:43-51 | scoring one ballot adds exactly its points to its column and keeps the shape |
| CrossTab.BuildMatrix | src/components/admin/CrossTabulation.tsx:32-55 | the built matrix is the specified one: each cell is the 3/2/1 points its ballots give the region |
| CrossTab.TotalsAgree | src/components/admin/CrossTabulation.tsx:107-121 | the grand total of the row totals equals the sum of the column totals |
| CrossTab.RowTotalMeaning | src/components/admin/CrossTabulation.tsx:107-113 | a row total is every point the counted ballots give that region |
| CrossTab.ColumnTotalBound | src/components/admin/CrossTabulation.tsx:115-121 | a ballot's column total is at most 3 + 2 + 1 when its id is its own |
| CrossTab.ColumnPointsBound | src/components/admin/CrossTabulation.tsx:115-121 | a column sums to at most 6 per ballot sharing the id |
| CrossTab.VisibleRegions | src/components/admin/CrossTabulation.tsx:57-62 | with a column in focus, the rows with points in it; otherwise the rows not collapsed |
| CrossTab.VisibleVotes | src/components/admin/CrossTabulation.tsx:64-69 | with a row in focus, the ballots with points in it; otherwise the uncollapsed columns; a focused row missing from the matrix has no result |
| CrossTab.ToggleTwice | src/components/admin/CrossTabulation.tsx:89-105 | toggling the same key twice clears the focus unless it started there |
| CrossTab.CrossTabView.constructor | src/components/admin/CrossTabulation.tsx:16-19 | no focus, nothing collapsed |
| CrossTab.CrossTabView.ToggleAllRows | src/components/admin/CrossTabulation.tsx:71-78 | all rows or none collapsed, column focus cleared, at most one focus |
| CrossTab.CrossTabView.ToggleAllCols | src/components/admin/CrossTabulation.tsx:80-87 | all counted columns or none collapsed, row focus cleared, at most one focus |
| CrossTab.CrossTabView.ToggleRow | src/components/admin/CrossTabulation.tsx:89-96 | the row focus toggles, the column focus is cleared, at most one focus |
| CrossTab.CrossTabView.ToggleCol | src/components/admin/CrossTabulation.tsx:98-105 | the column focus toggles, the row focus is cleared, at most one focus |
| MapResults.GroupEntry | src/components/admin/MapResults.tsx:42-93 | a group has an entry exactly when some located standing falls in it, and the entry's counters are the sums and its voters the union over those standings |
| MapResults.GroupPoints | src/components/admin/MapResults.tsx:42-93 | the groups' points sum to the points of the located standings |
| MapResults.GroupNoDup | src/components/admin/MapResults.tsx:62-66 | merged voter lists stay duplicate-free |
| MapResults.TotalsAgree | src/components/admin/MapResults.tsx:49-91 | countries and continents account for the same total |
| MapResults.CountryKeysLocated | src/components/admin/MapResults.tsx:46-48 | every country has map data |
| MapResults.UnlocatedIgnored | src/components/admin/MapResults.tsx:48 | a standing with no map data changes neither view |
| MapResults.ColorTiers | src/components/admin/MapResults.tsx:98-102 | colours never improve down the list; green exactly for the top three; orange exactly for the rest in the first half |
| MapResults.CountryMarkersSpec | src/components/admin/MapResults.tsx:95-108 | markers are sorted by points and coloured by position; without their colours they are a permutation of the country entries with their continents, so each country appears exactly once; their points add up to the located total |
| MapResults.ZoomLevels | src/components/admin/MapResults.tsx:27 | continents at the initial zoom; showing continents is monotone in zoom; countries from zoom 3 |
| MapResults.PushNew | src/components/admin/MapResults.tsx:62-66 | the loop appends exactly the voters not yet listed |
| MapResults.AddTo | src/components/admin/MapResults.tsx:49-67 | one standing opens or merges into its group's entry as the spec step does |
| MapResults.MapData | src/components/admin/MapResults.tsx:38-111 | the country markers are the specified ones, sorted, coloured and complete; the continents are the grouped table; both views account for the same total |

## Left out

- UTF-16: JavaScript measures and orders strings in UTF-16 code units. Here a
  string is a sequence of Unicode scalar values, so lengths and the sort order
  differ for characters outside the Basic Multilingual Plane.
- Case mapping: `toLowerCase` and `toUpperCase` map ASCII letters only.
  JavaScript maps every Unicode letter. For the injection pattern this is
  exact, because the pattern has no `u` flag.
- Browser APIs: `localStorage`, `JSON.parse`/`JSON.stringify` of text,
  `Blob`, `FileReader`, the download link and the logger are not modelled.
  The store methods take and return the parsed documents.
- Ids and time: `crypto.randomUUID()` and `new Date().toISOString()` are
  parameters, and nothing assumes the id is fresh.
- Not in this model:
  - authentication (`verifyAdminPassword`), `hideResults`, and the component
    markup;
  - Leaflet map rendering, marker icons, coordinates and percentages.
- Lookup tables: `LOCATION_TO_COUNTRY` and the continent column of
  `COUNTRY_DATA` are parameters, as maps. `CONTINENT_DATA` is not modelled:
  continent markers carry no coordinates, and every continent is assumed to
  have an entry. In the source, a continent missing from `CONTINENT_DATA`
  makes `CONTINENT_DATA[continent].lat` throw a `TypeError`.
- Object keys: record and `Map` keys are treated as plain strings. Prototype
  names such as `constructor` are not special, and integer-like keys keep
  insertion order.
- Archiving atomicity: `ArchiveAndResetPoll` updates rounds and ballots as one
  step. The source writes them in two separate storage calls.
- Import truthiness: `ImportData` takes a document whose parts are present or
  absent. The source tests `data.votes` and `data.weightConfig` for truthiness
  on untyped JSON and stores whatever is there without checking its shape.
- MapResults.MapData: does not model that the first country entry shares its
  `voters` array with the input standing, so later merges into that country
  also append to the caller's standing. The model copies the list.
- WeightEditor.ParseInt: numbers are unbounded, so precision loss above 2^53
  is not modelled.
- Number type: point values are integers. A fractional or non-numeric value
  brought in by the unchecked import, and floating-point addition, are not
  modelled.
- CrossTab.VisibleVotes: when the focused row is no longer a row, the source
  throws a `TypeError` while rendering. The model returns `None`.

## Findings

| source | as written | input that shows it | evidently intended | confidence | as-written member | corrected member |
|---|---|---|---|---|---|---|
| src/lib/validation.ts:15-22 | `name` is checked for length 1..100 and then trimmed, so a name of spaces passes and is stored as the empty string; `validatePollSubmission` runs this schema unchanged | a submission whose name is three spaces and whose other fields are valid | refuse a name that is blank after trimming ("Name is required"); `VoteSchema` refuses an empty name on import, so such a ballot also makes the export file fail the import schema (ImportSchema.EmptyNameRefused) | not executed | Validation.BlankNameAccepted, Validation.BlankFormAccepted | Validation.TrimmedNameNeverBlank, Validation.ValidatePollSubmissionIntended |
