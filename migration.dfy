/**
 One file's in-memory fix-up (database-operations.py:11-41): the schema
 passes, then the record loop, and the theorem that the two stay in step
 for a schema of the shape the migration was written for.
 */
module Migration {
  import opened Wrappers
  import opened Text
  import opened Fields
  import opened Records

  /** The field list after both schema passes. */
  function MigratedFields(fs: seq<Field>): seq<Field> {
    PopScan(NormalizedFields(fs), IngestionDate)
  }

  /** The names the schema ends up with, computed from the original names. */
  function ImageNames(names: set<string>): set<string> {
    set n | n in names && n != IngestionDate :: NormalizeName(n)
  }

  /** Every original name other than `ingestion_date` contributes its normalised form. */
  lemma ImageNamesMember(names: set<string>, n: string)
    requires n in names && n != IngestionDate
    ensures NormalizeName(n) in ImageNames(names)
  {
  }

  /** `n` is the source key of one of the legacy renames. */
  ghost predicate IsLegacySource(n: string) {
    exists i :: 0 <= i < |LegacyRenames| && LegacyRenames[i].0 == n
  }

  /** The legacy names present are the first ones of the rename order. */
  ghost predicate LegacyPrefix(keys: set<string>) {
    forall i, j :: 0 <= j < i < |LegacyRenames| && LegacyRenames[i].0 in keys ==> LegacyRenames[j].0 in keys
  }

  /**
   The keys of a record the migration was written for: the three keys it
   reads without a guard, a string `Name`, reserved characters only in
   legacy names, legacy names present as a prefix of the rename order,
   and no two keys that normalise to the same name.
   */
  ghost predicate ConformingRecord(x: Record) {
    && IngestionDate in x && NameKey in x && x[NameKey].Str? && NumberKey in x
    && (forall n :: n in x && !IsClean(n) ==> IsLegacySource(n))
    && LegacyPrefix(x.Keys)
    && (forall a, b :: a in x && b in x && a != b ==> NormalizeName(a) != NormalizeName(b))
  }

  /** The same conditions on a schema's field list. */
  ghost predicate Conforms(fs: seq<Field>) {
    && UniqueNormalized(fs)
    && IngestionDate in NameSet(fs) && NameKey in NameSet(fs) && NumberKey in NameSet(fs)
    && (forall i :: 0 <= i < |fs| && !IsClean(fs[i].name) ==> IsLegacySource(fs[i].name))
    && (forall i, j :: 0 <= j < i < |LegacyRenames| && LegacyRenames[i].0 in NameSet(fs) ==>
          LegacyRenames[j].0 in NameSet(fs))
  }

  /** The legacy renames send each source to its normalised name. */
  lemma LegacyTargetsNormalized(i: nat)
    requires i < |LegacyRenames|
    ensures NormalizeName(LegacyRenames[i].0) == LegacyRenames[i].1
    ensures LegacyRenames[i].1 != NumberKey && LegacyRenames[i].1 != "Number"
    ensures LegacyRenames[i].0 != NumberKey && LegacyRenames[i].0 != NameKey
    ensures LegacyRenames[i].0 != IngestionDate
    ensures |LegacyRenames[i].0| == 6
  {
    if i == 0 { NormalizeType1(); }
    else if i == 1 { NormalizeType2(); }
    else if i == 2 { NormalizeSpAtk(); }
    else { NormalizeSpDef(); }
  }

  /** No two descriptors of the list share a normalised name. */
  ghost predicate UniqueNormalized(fs: seq<Field>) {
    forall i, j :: 0 <= i < j < |fs| ==> NormalizeName(fs[i].name) != NormalizeName(fs[j].name)
  }

  /**
   With unique normalised names, the schema passes remove exactly the
   `ingestion_date` descriptor, at index `j`, and rename every other one in place.
   */
  lemma MigratedFieldsShape(fs: seq<Field>) returns (j: nat)
    requires UniqueNormalized(fs)
    requires IngestionDate in NameSet(fs)
    ensures j < |fs| && fs[j].name == IngestionDate
    ensures forall k :: 0 <= k < |fs| && k != j ==> fs[k].name != IngestionDate
    ensures MigratedFields(fs) == NormalizedFields(fs)[..j] + NormalizedFields(fs)[j + 1..]
  {
    var nf := NormalizedFields(fs);
    j :| 0 <= j < |fs| && fs[j].name == IngestionDate;
    NormalizeFixedNames();
    assert nf[j].name == IngestionDate;
    assert UniqueNames(nf) by {
      forall a, b | 0 <= a < b < |nf| ensures nf[a].name != nf[b].name {
        assert NormalizeName(fs[a].name) != NormalizeName(fs[b].name);
      }
    }
    PopScanUnique(nf, IngestionDate, j);
    forall k | 0 <= k < |fs| && k != j ensures fs[k].name != IngestionDate {
      if k < j {
        assert NormalizeName(fs[k].name) != NormalizeName(fs[j].name);
      } else {
        assert NormalizeName(fs[j].name) != NormalizeName(fs[k].name);
      }
    }
  }

  /** Position `k` of a sequence with element `j` removed holds the element at `k'` of the original. */
  lemma RemovedIndex(s: seq<Field>, j: nat, k: nat) returns (k': nat)
    requires j < |s| && k < |s| - 1
    ensures k' == if k < j then k else k + 1
    ensures k' < |s| && (s[..j] + s[j + 1..])[k] == s[k']
  {
    k' := if k < j then k else k + 1;
  }

  /** Every name left by the schema passes is the normalised name of an original field other than `ingestion_date`. */
  lemma MigratedNamesFromFields(fs: seq<Field>, j: nat)
    requires j < |fs| && fs[j].name == IngestionDate
    requires forall k :: 0 <= k < |fs| && k != j ==> fs[k].name != IngestionDate
    ensures forall n :: n in NameSet(NormalizedFields(fs)[..j] + NormalizedFields(fs)[j + 1..]) ==>
      n in ImageNames(NameSet(fs))
  {
    var nf := NormalizedFields(fs);
    var r := nf[..j] + nf[j + 1..];
    forall n | n in NameSet(r) ensures n in ImageNames(NameSet(fs)) {
      var k :| 0 <= k < |r| && r[k].name == n;
      var k' := RemovedIndex(nf, j, k);
      assert fs[k'].name in NameSet(fs);
      ImageNamesMember(NameSet(fs), fs[k'].name);
    }
  }

  /** The field at `k`, when it is not the removed one, leaves its normalised name in the schema. */
  lemma FieldReachesMigratedName(fs: seq<Field>, j: nat, k: nat)
    requires j < |fs| && k < |fs| && k != j
    ensures NormalizeName(fs[k].name) in NameSet(NormalizedFields(fs)[..j] + NormalizedFields(fs)[j + 1..])
  {
    var nf := NormalizedFields(fs);
    var r := nf[..j] + nf[j + 1..];
    var k' := if k < j then k else k - 1;
    var k'' := RemovedIndex(nf, j, k');
    assert r[k'] == nf[k];
  }

  /** Every original field other than `ingestion_date` leaves its normalised name in the schema. */
  lemma FieldsReachMigratedNames(fs: seq<Field>, j: nat)
    requires j < |fs| && fs[j].name == IngestionDate
    ensures forall n :: n in ImageNames(NameSet(fs)) ==>
      n in NameSet(NormalizedFields(fs)[..j] + NormalizedFields(fs)[j + 1..])
  {
    forall n | n in ImageNames(NameSet(fs))
      ensures n in NameSet(NormalizedFields(fs)[..j] + NormalizedFields(fs)[j + 1..])
    {
      var m :| m in NameSet(fs) && m != IngestionDate && NormalizeName(m) == n;
      var k :| 0 <= k < |fs| && fs[k].name == m;
      FieldReachesMigratedName(fs, j, k);
    }
  }

  /**
   With unique normalised names, the schema passes leave exactly the
   normalised names of every field but `ingestion_date`, one field fewer.
   */
  lemma MigratedFieldNames(fs: seq<Field>)
    requires UniqueNormalized(fs)
    requires IngestionDate in NameSet(fs)
    ensures NameSet(MigratedFields(fs)) == ImageNames(NameSet(fs))
    ensures |MigratedFields(fs)| == |fs| - 1
  {
    var j := MigratedFieldsShape(fs);
    MigratedNamesFromFields(fs, j);
    FieldsReachMigratedNames(fs, j);
  }

  /** A conforming schema's field names, as a record's key set, conform too. */
  lemma ConformsRecord(fs: seq<Field>, x: Record)
    requires Conforms(fs) && x.Keys == NameSet(fs) && x[NameKey].Str?
    ensures ConformingRecord(x)
  {
    forall a, b | a in x && b in x && a != b ensures NormalizeName(a) != NormalizeName(b) {
      var i :| 0 <= i < |fs| && fs[i].name == a;
      var j :| 0 <= j < |fs| && fs[j].name == b;
      assert i != j;
    }
    forall n | n in x && !IsClean(n) ensures IsLegacySource(n) {
      var i :| 0 <= i < |fs| && fs[i].name == n;
    }
  }

  /** Preparing a record keeps every legacy key present or absent as it was. */
  lemma PreparedLegacyKeys(x: Record)
    requires IngestionDate in x && NameKey in x && x[NameKey].Str?
    ensures forall i :: 0 <= i < |LegacyRenames| ==>
      (LegacyRenames[i].0 in Prepared(x) <==> LegacyRenames[i].0 in x)
  {
    forall i | 0 <= i < |LegacyRenames|
      ensures LegacyRenames[i].0 in Prepared(x) <==> LegacyRenames[i].0 in x
    {
      LegacyTargetsNormalized(i);
    }
  }

  /** When the legacy keys present form a prefix, the renames that run are exactly those of the present keys. */
  lemma PrefixRenameCount(y: Record)
    requires LegacyPrefix(y.Keys)
    ensures var k := RenameCount(y, LegacyRenames);
      && (forall i :: 0 <= i < k ==> LegacyRenames[i].0 in y)
      && (forall i :: k <= i < |LegacyRenames| ==> LegacyRenames[i].0 !in y)
  {
    var k := RenameCount(y, LegacyRenames);
    LegacyRenameCount(y);
    if k < |LegacyRenames| {
      assert LegacyRenames[k].0 !in y;
    }
  }

  /**
   In a conforming record the renames that ran are exactly those whose
   legacy key is present.
   */
  lemma ConformingRenameCount(x: Record)
    requires IngestionDate in x && NameKey in x && x[NameKey].Str? && LegacyPrefix(x.Keys)
    ensures var k := RenameCount(Prepared(x), LegacyRenames);
      && (forall i :: 0 <= i < k ==> LegacyRenames[i].0 in x)
      && (forall i :: k <= i < |LegacyRenames| ==> LegacyRenames[i].0 !in x)
  {
    PreparedLegacyKeys(x);
    assert LegacyPrefix(Prepared(x).Keys);
    PrefixRenameCount(Prepared(x));
  }

  /**
   In a conforming record every legacy key that is present lies among the
   renames that ran, and a key that none of them moved is a clean name.
   */
  lemma ConformingRenames(x: Record)
    requires ConformingRecord(x)
    ensures var k := RenameCount(Prepared(x), LegacyRenames);
      && (forall i :: 0 <= i < |LegacyRenames| && LegacyRenames[i].0 in x ==> i < k)
      && (forall i :: 0 <= i < k ==> LegacyRenames[i].0 in x)
      && (forall n :: n in x && (forall i :: 0 <= i < k ==> n != LegacyRenames[i].0) ==>
            IsClean(n) && !IsLegacySource(n))
  {
    ConformingRenameCount(x);
  }

  /** A legacy key of a conforming record ends up under its target, with its value. */
  lemma RecordLegacyKeyImage(x: Record, i: nat)
    requires ConformingRecord(x)
    requires i < |LegacyRenames| && LegacyRenames[i].0 in x
    ensures var r := MigrateRecord(x).record;
      LegacyRenames[i].1 in r && r[LegacyRenames[i].1] == x[LegacyRenames[i].0]
  {
    var x2 := Prepared(x);
    var x3 := ApplyRenames(x2, LegacyRenames);
    MigrateRecordEffect(x);
    ConformingRenames(x);
    LegacyRenamesDistinct();
    LegacyTargetsNormalized(i);
    ApplyRenamesMoves(x2, LegacyRenames, i);
    assert x3[LegacyRenames[i].1] == x2[LegacyRenames[i].0];
  }

  /** A clean key of a conforming record, other than the three fixed ones, keeps its place. */
  lemma RecordCleanKeyImage(x: Record, n: string)
    requires ConformingRecord(x)
    requires n in x && n != IngestionDate && n != NumberKey && !IsLegacySource(n)
    ensures IsClean(n) && NormalizeName(n) == n
    ensures var r := MigrateRecord(x).record;
      n in r && r[n] == Prepared(x)[n]
  {
    var x2 := Prepared(x);
    var k := RenameCount(x2, LegacyRenames);
    MigrateRecordEffect(x);
    ConformingRenames(x);
    LegacyRenamesDistinct();
    NormalizeFixedNames();
    NormalizeNameKeepsClean(n);
    assert NormalizeName(NumberKey) != NormalizeName(n);
    forall i | 0 <= i < k ensures n != LegacyRenames[i].0 && n != LegacyRenames[i].1 {
      LegacyTargetsNormalized(i);
      assert LegacyRenames[i].0 in x && LegacyRenames[i].0 != n;
      assert NormalizeName(LegacyRenames[i].0) != NormalizeName(n);
    }
    ApplyRenamesKeeps(x2, LegacyRenames, n);
  }

  /**
   In a conforming record, every key but `ingestion_date` ends up under
   its normalised name, with its value (`Name` with its repaired value).
   */
  lemma RecordKeyImage(x: Record, n: string)
    requires ConformingRecord(x)
    requires n in x && n != IngestionDate
    ensures var r := MigrateRecord(x).record;
      NormalizeName(n) in r &&
      r[NormalizeName(n)] == if n == NameKey then Str(MegaRepair(x[NameKey].text)) else x[n]
  {
    MigrateRecordEffect(x);
    NormalizeFixedNames();
    if IsLegacySource(n) {
      var i :| 0 <= i < |LegacyRenames| && LegacyRenames[i].0 == n;
      LegacyTargetsNormalized(i);
      RecordLegacyKeyImage(x, i);
    } else if n != NumberKey {
      RecordCleanKeyImage(x, n);
    }
  }

  /** In a conforming record, every key after migration is the normalised name of an original key. */
  lemma RecordKeyOrigin(x: Record, key: string) returns (n: string)
    requires ConformingRecord(x)
    requires key in MigrateRecord(x).record
    ensures n in x && n != IngestionDate && NormalizeName(n) == key
  {
    var x2 := Prepared(x);
    var x3 := ApplyRenames(x2, LegacyRenames);
    var k := RenameCount(x2, LegacyRenames);
    LegacyRenamesDistinct();
    MigrateRecordEffect(x);
    ConformingRenames(x);
    NormalizeFixedNames();
    if key == "Number" {
      n := NumberKey;
    } else if i :| 0 <= i < k && key == LegacyRenames[i].1 {
      LegacyTargetsNormalized(i);
      n := LegacyRenames[i].0;
    } else {
      assert key in x3;
      forall i | 0 <= i < k ensures key != LegacyRenames[i].0 {
        ApplyRenamesMoves(x2, LegacyRenames, i);
      }
      ApplyRenamesKeeps(x2, LegacyRenames, key);
      assert key in x2;
      NormalizeNameKeepsClean(key);
      n := key;
    }
  }

  /**
   A conforming record's keys after migration are the normalised forms of
   its keys other than `ingestion_date`, just as the schema's names are.
   */
  lemma MigratedRecordKeys(x: Record)
    requires ConformingRecord(x)
    ensures MigrateRecord(x).record.Keys == ImageNames(x.Keys)
  {
    var r := MigrateRecord(x).record;
    forall key | key in r ensures key in ImageNames(x.Keys) {
      var n := RecordKeyOrigin(x, key);
      ImageNamesMember(x.Keys, n);
    }
    forall key | key in ImageNames(x.Keys) ensures key in r {
      var n :| n in x.Keys && n != IngestionDate && NormalizeName(n) == key;
      RecordKeyImage(x, n);
    }
  }

  /**
   Consistency of the co-transformation: for a conforming schema and a
   record whose keys are the schema's names, the record migrates without
   error, its keys are exactly the migrated schema's names, and each value
   sits under the new name of its field.
   */
  lemma SchemaAndRecordsAgree(fs: seq<Field>, x: Record)
    requires Conforms(fs)
    requires x.Keys == NameSet(fs) && x[NameKey].Str?
    ensures MigrateRecord(x).error.None?
    ensures MigrateRecord(x).record.Keys == NameSet(MigratedFields(fs))
    ensures forall i :: 0 <= i < |fs| && fs[i].name != IngestionDate && fs[i].name != NameKey ==>
      NormalizeName(fs[i].name) in MigrateRecord(x).record &&
      MigrateRecord(x).record[NormalizeName(fs[i].name)] == x[fs[i].name]
  {
    ConformsRecord(fs, x);
    MigrateRecordErrors(x);
    MigratedFieldNames(fs);
    MigratedRecordKeys(x);
    var r := MigrateRecord(x).record;
    forall i | 0 <= i < |fs| && fs[i].name != IngestionDate && fs[i].name != NameKey
      ensures NormalizeName(fs[i].name) in r && r[NormalizeName(fs[i].name)] == x[fs[i].name]
    {
      assert fs[i].name in NameSet(fs);
      RecordKeyImage(x, fs[i].name);
    }
  }

  /** With `Type 1` but no `Type 2`, only the first rename runs. */
  lemma FirstRenameOnly(y: Record)
    requires y.Keys == {"Type 1", "Sp.Atk", NumberKey, NameKey}
    ensures ApplyRenames(y, LegacyRenames).Keys == {"Type_1", "Sp.Atk", NumberKey, NameKey}
  {
    LegacyRenamesUnfold(y);
    var y1 := Move(y, "Type 1", "Type_1");
    assert y1.Keys == {"Type_1", "Sp.Atk", NumberKey, NameKey};
    assert "Type 2" !in y1;
  }

  /** A record with `Type 1` and `Sp.Atk` but no `Type 2` migrates with only `Type 1` renamed. */
  lemma PartialRenameKeys(x: Record)
    requires x.Keys == {"Type 1", "Sp.Atk", NumberKey, IngestionDate, NameKey} && x[NameKey].Str?
    ensures MigrateRecord(x).error.None?
    ensures MigrateRecord(x).record.Keys == {"Type_1", "Sp.Atk", "Number", NameKey}
  {
    MigrateRecordErrors(x);
    MigrateRecordEffect(x);
    var y := x - {IngestionDate};
    assert y.Keys == {"Type 1", "Sp.Atk", NumberKey, NameKey};
    FirstRenameOnly(y);
  }

  /** `Sp_Atk` is none of the four keys the partly renamed record ends with. */
  lemma SpAtkAbsent(keys: set<string>)
    requires keys == {"Type_1", "Sp.Atk", "Number", NameKey}
    ensures "Sp_Atk" !in keys
  {
    assert "Sp_Atk" != "Sp.Atk" by { assert "Sp_Atk"[2] != "Sp.Atk"[2]; }
    assert "Sp_Atk" != "Type_1" by { assert "Sp_Atk"[0] != "Type_1"[0]; }
    assert "Sp_Atk" != "Number" by { assert "Sp_Atk"[0] != "Number"[0]; }
    assert "Sp_Atk" != NameKey by { assert |"Sp_Atk"| != |NameKey|; }
  }

  /**
   Without the prefix condition the two sides drift: a record with
   `Type 1` and `Sp.Atk` but no `Type 2` keeps its `Sp.Atk` key, while
   the schema renames that field to `Sp_Atk`.
   */
  lemma PartialRenameLeavesLegacyKey(x: Record)
    requires x.Keys == {"Type 1", "Sp.Atk", NumberKey, IngestionDate, NameKey} && x[NameKey].Str?
    ensures "Sp_Atk" in ImageNames(x.Keys) && "Sp_Atk" !in MigrateRecord(x).record
  {
    PartialRenameKeys(x);
    SpAtkAbsent(MigrateRecord(x).record.Keys);
    NormalizeSpAtk();
    ImageNamesMember(x.Keys, "Sp.Atk");
  }

  /** A conforming schema, and records whose keys are its names and whose `Name` is a string. */
  ghost predicate ConformingFile(fs: seq<Field>, xs: seq<Record>) {
    && Conforms(fs)
    && forall i :: 0 <= i < |xs| ==> xs[i].Keys == NameSet(fs) && xs[i][NameKey].Str?
  }

  /**
   One file's fix-up between reading and writing (database-operations.py:11-41):
   the two schema passes, then the record loop. On a failure the run stops
   before anything is written.
   */
  method MigrateFile(schema: Schema, records: array<Record>) returns (failure: Option<(nat, MigrationError)>)
    modifies schema, records
    ensures schema.fields == MigratedFields(old(schema.fields))
    ensures failure.None? ==> forall i :: 0 <= i < records.Length ==>
      MigrateRecord(old(records[i])) == Step(records[i], None)
    ensures failure.Some? ==>
      var (at, e) := failure.value;
      && at < records.Length
      && (forall i :: 0 <= i < at ==> MigrateRecord(old(records[i])) == Step(records[i], None))
      && MigrateRecord(old(records[at])) == Step(records[at], Some(e))
      && (forall i :: at < i < records.Length ==> records[i] == old(records[i]))
    ensures ConformingFile(old(schema.fields), old(records[..])) ==> failure.None?
    ensures ConformingFile(old(schema.fields), old(records[..])) ==>
      forall i :: 0 <= i < records.Length ==> records[i].Keys == NameSet(schema.fields)
  {
    ghost var fs0, xs0 := schema.fields, records[..];
    schema.NormalizeFieldNames();
    schema.DropIngestionDate();
    failure := MigrateRecords(records);
    assert failure.Some? ==> MigrateRecord(xs0[failure.value.0]).error.Some?;
    if ConformingFile(fs0, xs0) {
      forall i | 0 <= i < records.Length
        ensures MigrateRecord(xs0[i]).error.None?
        ensures MigrateRecord(xs0[i]).record.Keys == NameSet(schema.fields)
      {
        SchemaAndRecordsAgree(fs0, xs0[i]);
      }
    }
  }

  /** A small schema of the shape the migration was written for. */
  function ExampleFields(): seq<Field> {
    [ Field(IngestionDate, TypeSpec("string")), Field(NameKey, TypeSpec("string")),
      Field(NumberKey, TypeSpec("int")), Field("Type 1", TypeSpec("string")) ]
  }

  lemma ExampleNames()
    ensures NameSet(ExampleFields()) == {IngestionDate, NameKey, NumberKey, "Type 1"}
  {
    var fs := ExampleFields();
    assert fs[0].name == IngestionDate && fs[1].name == NameKey;
    assert fs[2].name == NumberKey && fs[3].name == "Type 1";
  }

  lemma ExampleUnique()
    ensures UniqueNormalized(ExampleFields())
  {
    var fs := ExampleFields();
    NormalizeFixedNames();
    NormalizeType1();
    var n0, n1, n2, n3 := NormalizeName(fs[0].name), NormalizeName(fs[1].name), NormalizeName(fs[2].name), NormalizeName(fs[3].name);
    assert n0 == IngestionDate && n1 == NameKey && n2 == "Number" && n3 == "Type_1";
    assert n0[0] == 'i' && n1[0] == 'N' && n2[0] == 'N' && n3[0] == 'T' && |n1| != |n2|;
    UniqueNormalizedFour(fs);
  }

  /** Four fields whose normalised names differ pairwise have unique normalised names. */
  lemma UniqueNormalizedFour(fs: seq<Field>)
    requires |fs| == 4
    requires NormalizeName(fs[0].name) != NormalizeName(fs[1].name)
    requires NormalizeName(fs[0].name) != NormalizeName(fs[2].name)
    requires NormalizeName(fs[0].name) != NormalizeName(fs[3].name)
    requires NormalizeName(fs[1].name) != NormalizeName(fs[2].name)
    requires NormalizeName(fs[1].name) != NormalizeName(fs[3].name)
    requires NormalizeName(fs[2].name) != NormalizeName(fs[3].name)
    ensures UniqueNormalized(fs)
  {
    forall i, j | 0 <= i < j < |fs|
      ensures NormalizeName(fs[i].name) != NormalizeName(fs[j].name)
    {
      if i == 0 {
        assert j == 1 || j == 2 || j == 3;
      } else if i == 1 {
        assert j == 2 || j == 3;
      } else {
        assert i == 2 && j == 3;
      }
    }
  }

  lemma ExampleLegacyKeys()
    ensures forall i :: 0 <= i < |ExampleFields()| && !IsClean(ExampleFields()[i].name) ==>
      IsLegacySource(ExampleFields()[i].name)
  {
    var fs := ExampleFields();
    assert IsLegacySource("Type 1") by { assert LegacyRenames[0].0 == "Type 1"; }
    assert IsClean(fs[0].name) && IsClean(fs[1].name) && IsClean(fs[2].name);
  }

  lemma ExampleLegacyPrefix()
    ensures forall i :: 1 <= i < |LegacyRenames| ==> LegacyRenames[i].0 !in NameSet(ExampleFields())
  {
    ExampleNames();
    forall i | 1 <= i < |LegacyRenames| ensures LegacyRenames[i].0 !in {IngestionDate, NameKey, NumberKey, "Type 1"} {
      LegacyTargetsNormalized(i);
      assert LegacyRenames[i].0[0] != IngestionDate[0];
      assert LegacyRenames[i].0[5] != "Type 1"[5];
    }
  }

  /** The example schema conforms, so the consistency theorem applies to it. */
  lemma ExampleConforms()
    ensures Conforms(ExampleFields())
  {
    ExampleNames();
    ExampleUnique();
    ExampleLegacyKeys();
    ExampleLegacyPrefix();
  }

  /**
   Every record keyed by the example schema's names migrates without error
   to exactly the names the schema ends with.
   */
  lemma ExampleFileAgrees(x: Record)
    requires x.Keys == {IngestionDate, NameKey, NumberKey, "Type 1"} && x[NameKey].Str?
    ensures MigrateRecord(x).error.None?
    ensures MigrateRecord(x).record.Keys == NameSet(MigratedFields(ExampleFields()))
  {
    ExampleNames();
    ExampleConforms();
    SchemaAndRecordsAgree(ExampleFields(), x);
  }

  /** The example schema after the first pass: `number` and `Type 1` renamed, types and order kept. */
  lemma ExampleNormalizedFields()
    ensures NormalizedFields(ExampleFields()) ==
      [Field(IngestionDate, TypeSpec("string")), Field(NameKey, TypeSpec("string")),
       Field("Number", TypeSpec("int")), Field("Type_1", TypeSpec("string"))]
  {
    var nf := NormalizedFields(ExampleFields());
    NormalizeFixedNames();
    NormalizeType1();
    assert nf[0] == Field(IngestionDate, TypeSpec("string"));
    assert nf[1] == Field(NameKey, TypeSpec("string"));
    assert nf[2] == Field("Number", TypeSpec("int"));
    assert nf[3] == Field("Type_1", TypeSpec("string"));
    FourElements(nf);
  }

  /** The example schema after both passes: `ingestion_date` gone, the rest renamed in order. */
  lemma ExampleMigratedFields()
    ensures MigratedFields(ExampleFields()) ==
      [Field(NameKey, TypeSpec("string")), Field("Number", TypeSpec("int")), Field("Type_1", TypeSpec("string"))]
  {
    ExampleNormalizedFields();
    var f2, f3 := Field("Number", TypeSpec("int")), Field("Type_1", TypeSpec("string"));
    assert |f2.name| != |IngestionDate| && |f3.name| != |IngestionDate|;
    PopScanDropsLeading(Field(IngestionDate, TypeSpec("string")), Field(NameKey, TypeSpec("string")), f2, f3, IngestionDate);
  }

  /** A leading target is dropped, the descriptor after it is kept unexamined, and later non-targets stay. */
  lemma PopScanDropsLeading(a: Field, b: Field, c: Field, d: Field, target: string)
    requires a.name == target && c.name != target && d.name != target
    ensures PopScan([a, b, c, d], target) == [b, c, d]
  {
    var s := [a, b, c, d];
    assert s[2..] == [c, d];
    assert [c, d][1..] == [d];
    assert [d][1..] == [];
    assert PopScan([d], target) == [d];
    assert PopScan([c, d], target) == [c, d];
  }

  /** A sequence of four elements is the display of its elements. */
  lemma FourElements(s: seq<Field>)
    requires |s| == 4
    ensures s == [s[0], s[1], s[2], s[3]]
  {
  }
}
