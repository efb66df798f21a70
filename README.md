# Subscription tracker: persistence and exchange store

A Dafny model of the data layer of a browser-based subscription tracker. The store
keeps two storage slots: one for the list of subscriptions, one for the application
settings. Its operations are:

- add, update and delete a subscription, each a full read-modify-write of the list slot;
- read the settings, and save them by merging a partial record over the current ones;
- export the list as tab-separated text, and import such a text, replacing the whole list.

The model also covers the expiry-status helpers: the styling class and the label
derived from the number of days left before a subscription expires.

Layout:

- `wrappers.dfy`: `Option` and `Result`.
- `text.dfy`: the JavaScript string operations used here. These are `trim` with
  JavaScript's whitespace set, `split` and `join` on one character, and decimal
  printing of whole numbers. It proves that `split` undoes `join`.
- `types.dfy`: the subscription and settings records, and the record built by add and
  by update.
- `settings.dfy`: the default settings and the shallow merge.
- `tsv.dfy`: the export text, the import result as a function of the text, and the
  export-then-import round trip.
- `store.dfy`: the `Store` class. Its fields are the two slots, plus a ghost write
  counter per slot, so that "no write happens" can be stated. Its methods model the
  operations, and the `importFromTSV` loop is a `while` loop proved against the import
  function.
- `date_utils.dfy`: the status bands and labels.

Parameters stand in for foreign calls:

- `crypto.randomUUID()` becomes an `id` argument of `AddSubscription`, and a
  `newId: nat -> string` argument of `ImportFromTSV` (data row `k` gets `newId(k)`).
- `new Date().toISOString()` becomes a `now` argument.
- `price.toString()` becomes a `show: real -> string` argument.
- `parseFloat` followed by `isNaN` becomes a `parse: string -> Option<real>` argument,
  where `None` means `NaN`.
- The result of `daysRemaining` becomes an `int` argument `days`.

Behaviour of the code that the model follows:

- Import trims only the whole text. Each surviving line keeps its own leading and
  trailing whitespace, so a `\r` from CRLF line ends stays in the last cell of every
  line but the last.
- Import splits each line on tabs and reads the first five cells. It ignores any extra
  cells; it does not insist on exactly five.
- Update replaces only the first record with the id. Delete removes every record with
  the id.
- The store does not catch failures in reading the slots. A stored list or settings
  record is modelled as an already decoded value, not as text that can fail to parse.
- Settings are merged key by key at the top level, as JavaScript's object spread does.
  A stored key overrides the default.

## Model

| member | source | states |
|---|---|---|
| `Text.TrimStartShape` | src/utils/storage.ts:123 | trimming the start drops only a whitespace prefix and leaves a suffix that is empty or starts with a non-whitespace character |
| `Text.TrimEndShape` | src/utils/storage.ts:123 | trimming the end drops only a whitespace suffix and leaves a prefix that is empty or ends with a non-whitespace character |
| `Text.TrimProperties` | src/utils/storage.ts:123 | `trim` gives the empty string exactly when the text is all whitespace, and leaves a text that neither starts nor ends with whitespace unchanged |
| `Text.Split` | src/utils/storage.ts:136 | `split` on one character is never empty, no piece holds the separator, and joining the pieces gives the text back |
| `Text.SplitJoin` | src/utils/storage.ts:103-114 | splitting a join gives back the parts when no part holds the separator |
| `Text.NatToString` | src/utils/dateUtils.ts:63-69 | the printed day count is the canonical decimal numeral of the count: a non-empty digit string without a leading zero whose value is the count |
| `Types.NewRecord` | src/utils/storage.ts:31-36 | a new record carries exactly the caller's fields, the given id, and `createdAt == updatedAt == now` |
| `Types.ApplyUpdate` | src/utils/storage.ts:45-55 | an update keeps `id` and `createdAt` and sets `updatedAt` to `now`; each key present in the update takes the update's value; each missing key keeps its old value |
| `Types.ApplyUpdateProperties` | src/utils/storage.ts:51-55 | an update with no keys changes nothing but `updatedAt`; a full update yields exactly the given fields |
| `Types.ApplyUpdateIdempotent` | src/utils/storage.ts:51-55 | applying the same update twice equals applying it once |
| `Settings.Overlay` | src/utils/storage.ts:79-85 | the spread of a partial record over a full one: each key present in the partial record wins; each absent key keeps the base value |
| `Settings.Effective` | src/utils/storage.ts:77-80 | each setting is the stored key's value when a record is stored and holds that key, and otherwise the default (system, expiryDate, asc, INR) |
| `Settings.EffectiveDefaults` | src/utils/storage.ts:77-80 | with nothing stored, or an empty stored record, the settings are exactly the defaults (system theme, expiry date, ascending, INR) |
| `Settings.OverlayNoKeys` | src/utils/storage.ts:83-85 | an empty partial record changes nothing |
| `Settings.OverlayAllKeys` | src/utils/storage.ts:84-88 | a saved complete record reads back as itself, whatever the defaults |
| `Settings.OverlayComposition` | src/utils/storage.ts:83-89 | saving the same keys twice equals saving them once; two saves in a row equal one save of the combined keys |
| `Tsv.DataLines` | src/utils/storage.ts:105-113 | one data line per record, in list order: appName, planName, printed price, comments, expiryDate, joined by tabs |
| `Tsv.Export` | src/utils/storage.ts:92-117 | the export is empty exactly when the list is empty; otherwise it is the five-column header line and then the data lines, joined by newlines |
| `Tsv.NonBlankLines` | src/utils/storage.ts:123 | the filter never lengthens the list, keeps every line when none is blank, and keeps a single line exactly when it is not blank |
| `Tsv.NonBlankLinesMembers` | src/utils/storage.ts:123 | a line is kept exactly when it occurs in the input and is not blank |
| `Tsv.NonBlankLinesAppend` | src/utils/storage.ts:123 | filtering a concatenation is the concatenation of the filtered parts, so kept lines keep their order and their number |
| `Tsv.ImportLines` | src/utils/storage.ts:123 | the import works on at most as many lines as the trimmed text splits into; each is non-blank and holds no newline |
| `Tsv.ParseRow` | src/utils/storage.ts:136-157 | a row is refused as missing fields exactly when cell 1, 2 or 5 is missing or empty; with those present it is refused as an invalid price exactly when cell 3 does not parse; no other error occurs; an accepted row takes its fields from the first five cells, its price from parsing cell 3, and gets the given id and `now` for both timestamps |
| `Tsv.ParseRows` | src/utils/storage.ts:135-158 | a successful read gives one record per data row; a failed read never reports invalid format |
| `Tsv.ParseRowsErrorSticks` | src/utils/storage.ts:135-146 | once a prefix of the rows fails, every longer prefix fails with the same error (the loop's early return) |
| `Tsv.ParseRowsStep` | src/utils/storage.ts:135-158 | a row that reads appends its record; a row that fails makes the whole import fail with that row's error |
| `Tsv.ParseRowsAll` | src/utils/storage.ts:135-158 | reading succeeds exactly when every row reads, and record `k` is row `k`'s record |
| `Tsv.ParseRowsFirstError` | src/utils/storage.ts:135-146 | a failed read reports the error of the first failing row; every earlier row reads |
| `Tsv.ParseImport` | src/utils/storage.ts:123-158 | the import fails as invalid format exactly when fewer than two non-blank lines remain; a successful import has one record per line after the header |
| `Tsv.ImportSucceedsIff` | src/utils/storage.ts:123-146 | import succeeds exactly when there are at least two non-blank lines and every data line has appName, planName and expiryDate and a price that parses; fewer than two lines fail as invalid format |
| `Tsv.ImportSuccessShape` | src/utils/storage.ts:130-163 | a successful import skips the header and yields one record per data line, in order; record `k` has id `newId(k)`, both timestamps `now`, and its fields from the line's cells |
| `Tsv.ImportIdsUnique` | src/utils/storage.ts:148-149 | if the fresh ids are pairwise distinct, the imported list has no duplicate ids |
| `Tsv.Reimported` | src/utils/storage.ts:148-157 | the list a round trip yields: each record keeps its caller fields in place, with a new id and both timestamps `now` |
| `Tsv.RowRoundTrip` | src/utils/storage.ts:105-157 | an exported data line of an exportable record reads back as that record's fields |
| `Tsv.ExportLines` | src/utils/storage.ts:103-123 | the import sees an export of exportable records as the header followed by exactly the data lines |
| `Tsv.ExportImportRoundTrip` | src/utils/storage.ts:103-158 | importing the export of a non-empty list of exportable records succeeds, with one record per original, in order, with the same appName, planName, price, comments and expiryDate |
| `Storage.IndexOfId` | src/utils/storage.ts:47 | `findIndex` gives -1 exactly when no record has the id; otherwise it gives the first position holding it |
| `Storage.WithoutId` | src/utils/storage.ts:66 | the filter keeps exactly the records with another id; its length is unchanged exactly when no record had the id |
| `Storage.WithoutIdAppend` | src/utils/storage.ts:66 | the filter keeps the order of the remaining records |
| `Storage.WithoutIdUnique` | src/utils/storage.ts:64-74 | deleting keeps ids unique |
| `Storage.WithoutIdRemovesOne` | src/utils/storage.ts:64-74 | with unique ids, deleting a present id removes exactly one record |
| `Storage.ReplaceKeepsUnique` | src/utils/storage.ts:57 | replacing a record by one with the same id keeps ids unique |
| `Storage.AppendKeepsUnique` | src/utils/storage.ts:38 | appending a record with a new id keeps ids unique |
| `Storage.Store.constructor` | src/utils/storage.ts:16-19 | empty storage: an empty list, no stored settings, no writes |
| `Storage.Store.GetSubscriptions` | src/utils/storage.ts:16-19 | reading the list slot returns the stored list |
| `Storage.Store.SaveSubscriptions` | src/utils/storage.ts:22-24 | one write replaces the whole list and touches nothing else |
| `Storage.Store.AddSubscription` | src/utils/storage.ts:27-42 | exactly one record is appended at the end, with the caller's fields, the given id and `createdAt == updatedAt == now`; earlier records are unchanged; one write; ids stay unique when the id is new |
| `Storage.Store.UpdateSubscription` | src/utils/storage.ts:45-61 | an absent id gives `None` with the list untouched and no write; otherwise only the first matching index is replaced, by the overlaid record; the length is kept; one write |
| `Storage.Store.DeleteSubscription` | src/utils/storage.ts:64-74 | `false` with no write exactly when no record has the id; otherwise the list without that id, in the same order, is written, and `true` is returned |
| `Storage.Store.GetSettings` | src/utils/storage.ts:77-80 | the stored keys over the defaults, and exactly the defaults when nothing is stored |
| `Storage.Store.SaveSettings` | src/utils/storage.ts:83-89 | the current settings overlaid with the partial record are stored in full and returned; a later read gives them back |
| `Storage.Store.ExportToTSV` | src/utils/storage.ts:92-117 | returns the export of the stored list and writes nothing; the text is empty exactly when the list is |
| `Storage.Store.ImportFromTSV` | src/utils/storage.ts:120-163 | all or nothing: on success the list is replaced by the parsed records and their number is reported; on any failure there is no write, the count is 0 and the reason's message is reported |
| `DateUtils.StatusClass` | src/utils/dateUtils.ts:44-56 | negative is "expired"; 0 to 7 is "expiring-soon"; 8 to 30 is "upcoming"; above 30 is "active" (each in both directions) |
| `DateUtils.StatusText` | src/utils/dateUtils.ts:59-71 | 0 gives "Expires today"; 1 gives "Expires tomorrow"; a negative count gives a label starting "Expired " and ending " days ago"; 2 or more gives one starting "Expires in " and ending " days" |
| `DateUtils.ClassNamesDistinct` | src/utils/dateUtils.ts:47-55 | two bands share a class name only when they are the same band |
| `DateUtils.BandMonotone` | src/utils/dateUtils.ts:44-56 | more days never moves the class back toward expired |
| `DateUtils.TextRanges` | src/utils/dateUtils.ts:59-71 | negative gives "Expired N days ago" and 2 or more gives "Expires in N days", where N is the canonical decimal numeral (no leading zero) of abs(days); 0 gives "Expires today"; 1 gives "Expires tomorrow" |
| `DateUtils.TextMatchesClass` | src/utils/dateUtils.ts:47-63 | the label starts with "Expired" exactly when the class is "expired" |

## Left out

- localStorage and JSON: the slots hold decoded values. Encoding, decoding and a failing `JSON.parse` are not modelled.
- A stored settings value that is not an object, or that has keys outside the settings record, is not modelled. Neither is a key whose value is `undefined` or `null`, in a stored or saved settings record or in the updates passed to `updateSubscription`; the spread would copy such a value over the old one. A partial record or an update is a set of present keys with well-typed values.
- Id and clock generation: these are parameters. Uniqueness of fresh ids is a precondition of the uniqueness lemmas, because the code does not enforce it.
- Number parsing and printing: `parseFloat`, `isNaN` and `toString` are parameters. The round trip assumes that parsing the printed price gives back the price. Floating-point rounding of prices is not modelled. `parseFloat` can return `Infinity` (for "Infinity" or "1e400"), which the source accepts as a price; a parse result is an `Option<real>`, so it cannot represent that value.
- Tsv.ExportImportRoundTrip: states the round trip only for records whose texts hold no tab or newline, whose required fields are non-empty, whose appName does not start and expiryDate does not end with whitespace, and whose price reads back. Records with a tab or newline in a field, an empty required field, or a price that does not read back do not come back intact, because the export does not escape and the import checks its cells. The two whitespace conditions only keep the proof simple and are stronger than needed: the import trims only the whole text and the header always comes first, so a data line is dropped only when it is nothing but whitespace, and only the last record's expiryDate sits at the end of the trimmed text.
- The `catch` branch of `importFromTSV` is not modelled. It is reached only by exceptions from the foreign calls.
- The `|| ''` fallback for comments and `parseFloat(undefined)` for a missing price are not modelled. Neither can happen once the fifth cell is present.
- `daysRemaining`, `formatDateForInput`, `formatDateForDisplay` and `isValidDate` are not modelled. They rest on `Date` parsing, time zones and float arithmetic.
- A `NaN` day count is not modelled. An invalid expiry date would give one, with the class "active" and the label "Expires in NaN days".
- Text.NatToString: prints every whole number in plain decimal. JavaScript switches to exponent notation from 10^21 days on.
- The UI components, the theme context, the service-worker registration and the bootstrap code are not part of this model.
