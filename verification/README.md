# Firestore-to-BigQuery one-shot import: a Dafny model

The import script of the Firestore-mirror-BigQuery extension asks four
questions (Firebase project ID, collection path, BigQuery dataset, BigQuery
table), creates the destination table if needed, reads every document of the
collection, turns each document into one BigQuery row and inserts all rows in
one batch, then reports the number of rows.

This project models the parts of that script that carry rules:

- `base.dfy`, module `Base`: `Option` (an absent JavaScript value) and
  `Result` (a settled promise: a value, or a rejection with its message).
- `validation.dfy`, module `Validation`: the answer validator
  `validateInput`, the two character-class patterns, JavaScript's
  `String.prototype.trim`, and the question table that wires each prompt to a
  display name and a pattern. The validator's result is `Accepted` (the
  script's `true`) or `Rejected(message)`.
- `snapshots.dfy`, module `Snapshots`: fetched documents with their
  optional update and creation times, and the fallback-timestamp rule (update
  time, else creation time, else the run's import time), checked against an
  independent "first present value of a priority list" definition.
- `import_script.dfy`, module `ImportScript`: the body of `run`. The helpers
  the script imports from its sibling modules (`extractIdFieldNames`,
  `extractIdFieldValues`, `extractSnapshotData`, `extractTimestamp`,
  `buildDataRow`) are function-valued fields of a `Helpers` value, and the
  three network services (`initialiseSchema`, the collection read,
  `insertData`) are function-valued fields of a `Services` value. Nothing is
  assumed about any of them. The wall-clock reading `importTimestamp` is a
  parameter, taken once per run.

Observations the lemmas make precise, all about the code as written:

- The table-name prompt reports its errors under the display name "dataset"
  (`TableErrorsSayDataset`).
- The "must only contain letters or spaces" message does not describe either
  pattern. The BigQuery pattern admits digits and underscores and refuses
  spaces.
- The collection-path prompt refuses any answer containing `/`. So no
  sub-collection path can be entered, although `run` passes the path to
  `extractIdFieldNames` to find wildcard segments of sub-collection paths
  (`AllAcceptedIff`, `SlashRejectedEverywhere`).
- An empty collection still calls `insertData`, with an empty row list, and
  the run reports 0 rows if that call succeeds (`Run`).
- The schema file may name a `timestampField`. `extractTimestamp` receives
  it together with the fallback timestamp. So whether that field overrides
  the metadata times is decided inside `extractTimestamp`, which is not
  modelled. The model covers the fallback the script computes itself and the
  value it hands to `extractTimestamp`.

## Model

| member | source | states |
|---|---|---|
| Validation.FirstNonBlank | postponed/firestore-mirror-bigquery/functions/lib/import/index.js:35 | the returned index ends the maximal whitespace run starting at i: everything before it from i is whitespace, and the character at it, if any, is not |
| Validation.NonBlankEnd | postponed/firestore-mirror-bigquery/functions/lib/import/index.js:35 | the returned index starts the maximal whitespace run ending at j: everything from it up to j is whitespace, and the character before it, if any, is not |
| Validation.Trim | postponed/firestore-mirror-bigquery/functions/lib/import/index.js:35 | the result is the middle part of the value with blank ends dropped; `value.trim() === ""` holds exactly when every character of the value is JavaScript whitespace; a non-empty result neither starts nor ends with whitespace |
| Validation.ValidateInput | postponed/firestore-mirror-bigquery/functions/lib/import/index.js:34-42 | "Please supply a <name>" exactly when the answer is absent, empty or whitespace only; "The <name> must only contain letters or spaces" exactly when it is present, not blank and fails the pattern; accepted exactly when it is not blank and matches |
| Validation.CharacterClasses | postponed/firestore-mirror-bigquery/functions/lib/import/index.js:32-33 | the class [a-zA-Z0-9_] lies inside the class [^/] and holds no whitespace; whitespace is in [^/] but not in [a-zA-Z0-9_]; '/' is in neither |
| Validation.MatchesIsOneOrMore | postponed/firestore-mirror-bigquery/functions/lib/import/index.js:32-33 | the anchored patterns `^[class]+$` match exactly the strings read as one class character followed by the end or another match; every BigQuery identifier matches the Firestore pattern |
| Validation.MessagesDistinct | postponed/firestore-mirror-bigquery/functions/lib/import/index.js:35-40 | the two error messages differ for all display names, so the three outcomes can be told apart |
| Validation.ValidateInputThreeWay | postponed/firestore-mirror-bigquery/functions/lib/import/index.js:34-42 | every answer yields exactly one of the three outcomes |
| Validation.MissingIgnoresPattern | postponed/firestore-mirror-bigquery/functions/lib/import/index.js:35-37 | a missing or blank answer gets the same "Please supply" message under either pattern |
| Validation.BlankCheckComesFirst | postponed/firestore-mirror-bigquery/functions/lib/import/index.js:33-39 | every non-empty whitespace-only answer matches the Firestore pattern and is still reported as missing, because the blank check runs first |
| Validation.BigQueryAcceptedIff | postponed/firestore-mirror-bigquery/functions/lib/import/index.js:32-41 | under the BigQuery pattern an answer is accepted iff it is non-empty and every character is in [A-Za-z0-9_] |
| Validation.FirestoreAcceptedIff | postponed/firestore-mirror-bigquery/functions/lib/import/index.js:33-41 | under the Firestore pattern an answer is accepted iff it is not blank and contains no '/' |
| Validation.AllAcceptedUnfolded | postponed/firestore-mirror-bigquery/functions/lib/import/index.js:43-68 | a full set of answers passes every prompt iff the project ID and collection path pass the Firestore pattern and the dataset and table names pass the BigQuery pattern |
| Validation.QuestionWiring | postponed/firestore-mirror-bigquery/functions/lib/import/index.js:43-68 | the prompt for each answer key validates with its own display name and pattern: projectId with "project ID" and the Firestore pattern, collectionPath with "collection path" and the Firestore pattern, datasetId with "dataset" and the BigQuery pattern, tableName with "dataset" and the BigQuery pattern |
| Validation.AllAcceptedIff | postponed/firestore-mirror-bigquery/functions/lib/import/index.js:43-68 | a full set of answers passes every prompt iff project ID and collection path are non-blank without '/', and dataset and table are non-empty BigQuery identifiers |
| Validation.SlashRejectedEverywhere | postponed/firestore-mirror-bigquery/functions/lib/import/index.js:32-68 | an answer containing '/' is rejected by every prompt |
| Validation.TableErrorsSayDataset | postponed/firestore-mirror-bigquery/functions/lib/import/index.js:62-67 | the prompt for the tableName answer can only report "Please supply a dataset" or "The dataset must only contain letters or spaces" |
| Snapshots.FirstPresent | postponed/firestore-mirror-bigquery/functions/lib/import/index.js:100-109 | the reference priority rule: the result is absent iff every candidate is, and otherwise it is a present candidate preceded only by absent ones |
| Snapshots.DefaultTimestamp | postponed/firestore-mirror-bigquery/functions/lib/import/index.js:100-109 | the fallback is one of the update time, creation time or import time, and it is the import time when the document has neither metadata time |
| Snapshots.DefaultTimestampPriority | postponed/firestore-mirror-bigquery/functions/lib/import/index.js:100-109 | the fallback is the first present value of the list [updateTime, createTime, importTimestamp] |
| Snapshots.MetadataBeatsImportTime | postponed/firestore-mirror-bigquery/functions/lib/import/index.js:100-106 | a document with a metadata time gets a fallback independent of the import time: its update time if present, else its creation time |
| Snapshots.SharedFallback | postponed/firestore-mirror-bigquery/functions/lib/import/index.js:89-109 | any two documents without metadata times get the same fallback, the single import timestamp of the run |
| ImportScript.RowInputFor | postponed/firestore-mirror-bigquery/functions/lib/import/index.js:97-113 | the callback builds each row from that document's own id, id field values and data, with change type "INSERT", and with `extractTimestamp` given as default the first present of update time, creation time and import time |
| ImportScript.BuildRows | postponed/firestore-mirror-bigquery/functions/lib/import/index.js:96-114 | the mapping yields exactly one row per document, and row i is `buildDataRow` applied to the inputs for document i |
| ImportScript.BuildRowsAppend | postponed/firestore-mirror-bigquery/functions/lib/import/index.js:96-114 | rows of a concatenation of document lists are the concatenation of the rows: each row depends only on its own document, and order is kept |
| ImportScript.RowsIndependentOfImportTime | postponed/firestore-mirror-bigquery/functions/lib/import/index.js:89-114 | when every document has a metadata time, the rows are the same whatever the import time |
| ImportScript.Run | postponed/firestore-mirror-bigquery/functions/lib/import/index.js:69-116 | the service calls are exactly [provision] when table setup fails, [provision, fetch] when the fetch fails, and otherwise [provision, fetch, one insert of the built rows]; no rows are built on a failure path; the rows are one per fetched document in order; the run resolves with the number of documents if the insert succeeds and otherwise rejects with the failing service's message |

## Left out

- Interactive prompting (`inquirer`), Firebase initialisation and setting
  `process.env.PROJECT_ID`: I/O and global state. The answers are an input to
  `Run`. `AllAccepted` states what a completed prompt guarantees about them.
- The bodies of `extractIdFieldNames`, `extractIdFieldValues`,
  `extractSnapshotData`, `extractTimestamp` and `buildDataRow`: they live
  in `../util`, `../bigquery` and `../firestore`, which are not part of this
  model. They are uninterpreted function values. The schema's field list and
  `timestampField` are bound into them, since both are read once from the
  schema file.
- `initialiseSchema`, the collection read and `insertData`: network calls.
  They are function parameters returning success or a rejection message.
- ImportScript.Run: an exception thrown by a hidden helper is not modelled.
  That covers `extractIdFieldNames`, which runs before the table setup
  (lib/import/index.js:83), and the helpers called while rows are mapped.
  The helpers are total functions here.
- The ISO formatting of `new Date().toISOString()` and
  `Timestamp.toDate().toISOString()`: clock reading and date formatting.
  Timestamps are opaque strings, already in their ISO text form.
- Console output, `process.exit` and the `__awaiter` generator shim: runtime
  plumbing.
- Validation.ValidateInput: `!value` is modelled for absent and empty
  answers only. The prompt always supplies a string, so other falsy
  JavaScript values cannot reach it.
- Characters are Unicode scalar values, while JavaScript strings are UTF-16
  code units. Both patterns and `trim` give the same verdict either way. The
  whitespace set and '/' lie in the Basic Multilingual Plane, and surrogate
  halves are neither whitespace, '/' nor [A-Za-z0-9_].
