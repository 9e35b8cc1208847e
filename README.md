# Avro schema and record fix-up, modelled in Dafny

The repository rewrites decoded Avro container files. Between reading and
writing a file it runs three fix-ups in memory:

1. A pass over the schema's field descriptors. In each name, every `.` and
   every space becomes `_`, and a name that is then exactly `number`
   becomes `Number`.
2. A second pass over the same list. It pops the `ingestion_date`
   descriptor while enumerating the list. After a pop, the descriptor that
   slides into the popped slot is never examined.
3. A loop over the records. Each step changes the record in place:
   - `ingestion_date` is popped with no guard;
   - `Name` is repaired to start at its first `Mega`;
   - the four legacy keys `Type 1`, `Type 2`, `Sp.Atk` and `Sp.Def` move to
     their underscore forms, in order, inside a `try` that swallows the
     first missing key, so earlier moves stay applied;
   - `number` moves to `Number` with no guard.

The project models these steps as imperative Dafny:

- a `Schema` class whose `fields` sequence the two passes rewrite;
- a method per record step and a method for the loop over an array of
  records;
- one method for the whole file.

Each method is proved against a specification function:
`NormalizedFields`, `PopScan`, `MigrateRecord` and `MigratedFields`.
Lemmas then state what those functions promise:

- names are clean after the first pass, and the pass is idempotent;
- the exact-match `number` rule;
- with unique names, exactly one descriptor is removed; a descriptor right
  after a popped one is skipped;
- the `Mega` repair: what it yields, when it leaves a name alone, and that
  it is idempotent;
- each rename moves its value, and the renames stop at the first missing
  key;
- the error cases of the record step;
- the schema and the records stay consistent for a file of the shape the
  migration was written for;
- a concrete record for which they drift apart.

Modules:

- `Wrappers` (file `text.dfy`): `Option`.
- `Text` (file `text.dfy`): character substitution, name normalisation, and
  first-occurrence search with the `Mega` repair.
- `Fields` (file `fields.dfy`): field descriptors, the two schema passes, and
  the `Schema` class.
- `Records` (file `records.dfy`): record values, the step for one record, and
  the record loop.
- `Migration` (file `migration.dfy`): the whole file's fix-up, and the
  consistency between the schema and the records.

A record is a `map<string, Value>`. `Value` is a string (`Str`), or any
other decoded value carried opaquely (`Other`). A field's Avro type is an
opaque `TypeSpec` that is passed through unchanged.

The record step can fail in four ways, each with a Python exception:

- a missing `ingestion_date` raises `KeyError`;
- a missing `Name` raises `KeyError`;
- a `Name` that is not a string raises `TypeError` on `"Mega" in ...`;
- a missing `number` raises `KeyError`.

The model returns each failure as a `MigrationError`, together with the
record as the statements left it. The exception ends the whole run, so
`MigrateRecords` stops at the first failure, leaves the later records
untouched, and reports the failing index.

## Model

| member | source | states |
|---|---|---|
| Text.ReplaceChar | database-operations.py:13-15 | `str.replace` of one character: same length, every occurrence of `c` becomes `d`, every other character stays |
| Text.SubstitutionMeaning | database-operations.py:12-17 | the two guarded replacements and the `number` test give the reference substitution (every `.` and space becomes `_`), then the exact-match rule |
| Text.NormalizeNameIsClean | database-operations.py:12-15 | a normalised name contains no `.` and no space, and has the original length |
| Text.NormalizeNameKeepsClean | database-operations.py:12-17 | a name without `.` or space, other than `number`, is unchanged |
| Text.NormalizeNameNumberRule | database-operations.py:16-17 | a name becomes `Number` exactly when its substituted form is `number` or `Number`; any other name, including one that merely contains `number`, keeps its substituted form |
| Text.NormalizeNameIdempotent | database-operations.py:12-17 | normalising twice equals normalising once |
| Text.NormalizeType1 | database-operations.py:12-15 | `Type 1` normalises to `Type_1`, the target the record step uses |
| Text.NormalizeType2 | database-operations.py:12-15 | `Type 2` normalises to `Type_2` |
| Text.NormalizeSpAtk | database-operations.py:12-15 | `Sp.Atk` normalises to `Sp_Atk` |
| Text.NormalizeSpDef | database-operations.py:12-15 | `Sp.Def` normalises to `Sp_Def` |
| Text.NormalizeFixedNames | database-operations.py:12-17 | `number` becomes `Number`; `Number`, `ingestion_date` and `Name` are unchanged |
| Text.FindFirst | database-operations.py:31-33 | `p in s` and the cut point of `s.split(p, 1)`: the position found is an occurrence and no occurrence is earlier; no position is returned only when there is no occurrence at all |
| Text.MegaRepairSuffix | database-operations.py:31-33 | with the first `Mega` at `i`, the repaired name is the suffix of the name from `i`, so it starts with `Mega` |
| Text.MegaRepairNoMarker | database-operations.py:31 | a name without `Mega` is untouched |
| Text.MegaRepairMarked | database-operations.py:31-33 | a name that already starts with `Mega` is unchanged |
| Text.MegaRepairIdempotent | database-operations.py:31-33 | repairing twice equals repairing once |
| Text.MegaRepairExample | database-operations.py:31-33 | `XMega Y` is repaired to `Mega Y`: the text before the first `Mega` is dropped |
| Fields.NormalizedFieldsClean | database-operations.py:11-15 | after the first pass the list has its length, every name is free of `.` and space, and every type is unchanged |
| Fields.NormalizedFieldsIdempotent | database-operations.py:11-18 | running the first pass twice gives the list that one run gives |
| Fields.PopScanKeepsOthers | database-operations.py:20-22 | whatever the list, the descriptors not named `ingestion_date` all survive the removal pass, in their order |
| Fields.PopScanAbsent | database-operations.py:20-22 | a list without the target is left unchanged |
| Fields.PopScanRemovesHead | database-operations.py:20-22 | a list whose only target is its first descriptor loses just that descriptor |
| Fields.PopScanRemovesOnly | database-operations.py:20-22 | when index `j` holds the only target, the pass yields the list with index `j` cut out |
| Fields.PopScanUnique | database-operations.py:20-22 | with unique names: the pass removes exactly the target, the list is one shorter, the target is absent, the others keep their order |
| Fields.PopScanSkipsNext | database-operations.py:20-22 | the descriptor right after the first target is kept without being examined, whatever its name |
| Fields.AdjacentDuplicateSurvives | database-operations.py:20-22 | of two adjacent `ingestion_date` descriptors, the second survives |
| Fields.PopScanStep | database-operations.py:20-22 | one enumeration step, keep or pop at the current index, leaves the reference pass's outcome unchanged |
| Fields.ScanStep | database-operations.py:20-22 | the enumeration invariant survives one step, including a pop that shortens the list |
| Fields.ScanDone | database-operations.py:20-22 | when the enumeration ends, the list is the reference pass over the original list |
| Fields.NewName | database-operations.py:12-17 | the three guarded statements on one name compute its normalised name |
| Fields.Schema.NormalizeFieldNames | database-operations.py:11-18 | each descriptor is renamed where it stands; its length, its order and its types are unchanged; the new list is `NormalizedFields` of the old one |
| Fields.Schema.DropIngestionDate | database-operations.py:20-22 | popping at the enumeration index leaves exactly `PopScan` of the old list, which skips the element after every pop |
| Records.Move | database-operations.py:35-41 | `x[to] = x.pop(from)`: the keys lose `from` and gain `to`, `to` holds the old value of `from`, every other key keeps its value |
| Records.LegacyRenamesDistinct | database-operations.py:35-38 | the four sources and four targets are eight different names |
| Records.RenameCount | database-operations.py:34-40 | at most the four renames of the table run |
| Records.RenameCountMeaning | database-operations.py:34-40 | the renames that ran found their source keys, and the next rename, if there is one, found its source missing |
| Records.LegacyRenameCount | database-operations.py:34-40 | the same fact for the four legacy renames |
| Records.ApplyRenamesMoves | database-operations.py:34-40 | each rename that ran removed its source and left the source's value under its target, even after the later renames |
| Records.ApplyRenamesKeeps | database-operations.py:34-40 | a key that no executed rename mentions keeps its presence and its value |
| Records.RenameCountKeys | database-operations.py:34-40 | which renames run depends on the keys only, not on the values |
| Records.LegacyRenamesUnfold | database-operations.py:34-40 | the renames are the four nested guarded moves in source order; a missing key stops the rest, earlier moves stay |
| Records.Prepared | database-operations.py:29-33 | after the pop and the repair, `ingestion_date` is gone, `Name` holds the repaired name, every other key keeps its value |
| Records.ApplyLegacyRenamesFrame | database-operations.py:34-40 | the renames never touch `ingestion_date`, `Name`, `number` or `Number` |
| Records.MigrateRecordErrors | database-operations.py:29-41 | a record migrates without error exactly when it has `ingestion_date`, a string `Name` and `number`; otherwise the first failing check names the error, with the record as it was left |
| Records.MigrateRecordEffect | database-operations.py:29-41 | after a success, `ingestion_date` and `number` are gone, `Number` holds the old `number`, `Name` holds the repaired name, and the keys are those the renames leave with `number` replaced by `Number` |
| Records.MigrateOne | database-operations.py:29-41 | the loop body's statements, applied one by one, leave the record and the error that `MigrateRecord` describes |
| Records.MigrateRecords | database-operations.py:27-41 | with no failure, every record is migrated in place; on a failure at index `at`, the earlier records are migrated, record `at` is left as its statements left it, and the later ones are untouched |
| Migration.LegacyTargetsNormalized | database-operations.py:35-38 | each rename's target is the normalised form of its source, so the record step agrees with the schema pass on these names |
| Migration.MigratedFieldsShape | database-operations.py:11-22 | with unique normalised names, both schema passes together remove only the `ingestion_date` descriptor and rename the rest in place |
| Migration.MigratedNamesFromFields | database-operations.py:11-22 | every name left in the schema is the normalised name of an original non-`ingestion_date` field |
| Migration.FieldReachesMigratedName | database-operations.py:11-22 | a field that is not the removed one leaves its normalised name in the schema |
| Migration.FieldsReachMigratedNames | database-operations.py:11-22 | every non-`ingestion_date` field leaves its normalised name in the schema |
| Migration.MigratedFieldNames | database-operations.py:11-22 | the schema's names afterwards are exactly the normalised original names minus `ingestion_date`, with one field fewer |
| Migration.ConformsRecord | database-operations.py:11-41 | a record whose keys are a conforming schema's names is a conforming record |
| Migration.PreparedLegacyKeys | database-operations.py:29-33 | the pop and the `Name` repair leave every legacy key present or absent as it was |
| Migration.PrefixRenameCount | database-operations.py:34-40 | when the legacy keys present are the first ones in rename order, the renames that run are exactly those whose key is present |
| Migration.ConformingRenameCount | database-operations.py:29-40 | the same fact for the record after the pop and the repair |
| Migration.ConformingRenames | database-operations.py:34-40 | in a conforming record, every present legacy key is renamed, and a key that no rename moved is clean and not legacy |
| Migration.RecordLegacyKeyImage | database-operations.py:34-40 | in a conforming record a present legacy key ends up under its target, with its value |
| Migration.RecordCleanKeyImage | database-operations.py:29-41 | in a conforming record a clean key other than `ingestion_date` and `number` stays under its own name |
| Migration.RecordKeyImage | database-operations.py:29-41 | in a conforming record every key except `ingestion_date` ends up under its normalised name, with its value; `Name` has its repaired value |
| Migration.RecordKeyOrigin | database-operations.py:29-41 | every key of a migrated conforming record is the normalised name of an original key other than `ingestion_date` |
| Migration.MigratedRecordKeys | database-operations.py:29-41 | a migrated conforming record's keys are exactly the normalised original keys minus `ingestion_date` |
| Migration.SchemaAndRecordsAgree | database-operations.py:11-41 | given a conforming schema and a record keyed by its names, the record migrates without error, its keys are exactly the migrated schema's names, and each value sits under the new name of its field |
| Migration.FirstRenameOnly | database-operations.py:34-40 | with `Type 1` present and `Type 2` missing, only the first rename runs |
| Migration.PartialRenameKeys | database-operations.py:34-41 | the record `{Type 1, Sp.Atk, number, ingestion_date, Name}` migrates without error to keys `{Type_1, Sp.Atk, Number, Name}` |
| Migration.PartialRenameLeavesLegacyKey | database-operations.py:34-40 | for that record, the schema side has `Sp_Atk` but the migrated record does not: the two sides drift when a legacy key is missing out of order |
| Migration.MigrateFile | database-operations.py:11-41 | the schema ends as `MigratedFields` of the original, the records end as `MigrateRecords` leaves them, and a conforming file migrates without failure with every record keyed by the new schema's names |
| Migration.ExampleNormalizedFields | database-operations.py:11-18 | the schema `[ingestion_date, Name, number:int, Type 1]` is renamed to `[ingestion_date, Name, Number:int, Type_1]` with its types kept, in place |
| Migration.ExampleMigratedFields | database-operations.py:11-22 | after both schema passes that schema is `[Name, Number:int, Type_1]`, with `ingestion_date` removed |
| Migration.PopScanDropsLeading | database-operations.py:20-22 | a leading `ingestion_date` is popped, the descriptor after it is kept unexamined, and later descriptors not named `ingestion_date` stay |
| Migration.UniqueNormalizedFour | database-operations.py:12-17 | four descriptors whose normalised names differ pairwise have unique normalised names |
| Migration.ExampleUnique | database-operations.py:12-17 | the example schema's four names stay distinct after normalisation |
| Migration.ExampleConforms | database-operations.py:11-41 | the example schema satisfies the conformance condition of the consistency theorem |
| Migration.ExampleFileAgrees | database-operations.py:11-41 | every record keyed by the example schema's names, with a string `Name`, migrates without error to exactly the names the migrated example schema has |

## Left out

- File discovery with `glob`, and opening and closing files (database-operations.py:4, 6, 47): filesystem I/O. The outer loop over files is not modelled, and neither is the fact that an exception also stops the files after the current one.
- Avro decoding and encoding with `fastavro.reader` and `fastavro.writer` (database-operations.py:7-9, 48): a foreign library implementing the "Object Container Files" section of the Apache Avro specification. The schema and the records come in already decoded.
- All `print` diagnostics (database-operations.py:5, 24-25, 43-46): console output with no logic.
- verify.py: a read-only preview that reads files and prints them. verify.py is not part of this model.
- Avro type specifications inside descriptors: kept as the opaque `TypeSpec`, never inspected.
- Record values other than strings: carried as the opaque `Other`. A non-string `Name` is treated as the `TypeError` of `"Mega" in x["Name"]`. Python would instead search a list or other container; Avro records decoded against this schema do not hold one there.
- Aliasing of descriptor dicts: descriptors are values. `schema["fields"][idx] = field` (database-operations.py:18) stores the dict that was already mutated through the alias, so it has no effect of its own.
- Records.MigrateRecordErrors: for a record without `number`, the lemma states only the error and not the partly migrated record. `MigrateRecord` and `MigrateOne` define that record.
- No schema-conflict error and no record/schema mismatch error exist in the code. Normalised names that collide, duplicated `ingestion_date` descriptors, and records whose keys differ from the schema are all processed silently, as the code does. `Migration.SchemaAndRecordsAgree` states when the two sides agree, and `Migration.PartialRenameLeavesLegacyKey` shows a record where they do not.
