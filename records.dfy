/**
 The record side of the migration: every decoded record is a string-keyed
 map that the loop at database-operations.py:27-41 rewrites in place.
 */
module Records {
  import opened Wrappers
  import opened Text
  import Fields

  /** A record value: a string, or any other decoded value carried opaquely. */
  datatype Value = Str(text: string) | Other(repr: string)

  /** A decoded record, keyed by field name. */
  type Record = map<string, Value>

  /** Why the migration of one record stopped. */
  datatype MigrationError =
    | MissingKey(key: string)  // `pop` or `[]` on an absent key: KeyError, which ends the run
    | NameNotText              // `"Mega" in x["Name"]` on a non-string value: TypeError

  /** The state a record is left in, and the error that stopped it, if any. */
  datatype Step = Step(record: Record, error: Option<MigrationError>)

  /** `x[to] = x.pop(from)`: the value moves to `to`, `from` disappears, all else stays. */
  function Move(x: Record, from: string, to: string): (r: Record)
    requires from in x
    ensures r.Keys == x.Keys - {from} + {to}
    ensures r[to] == x[from]
    ensures forall k :: k in x && k != from && k != to ==> r[k] == x[k]
  {
    (x - {from})[to := x[from]]
  }

  /** The renames of the `try` block, in the order it runs them (database-operations.py:35-38). */
  const LegacyRenames: seq<(string, string)> :=
    [("Type 1", "Type_1"), ("Type 2", "Type_2"), ("Sp.Atk", "Sp_Atk"), ("Sp.Def", "Sp_Def")]

  /** All sources and targets of a rename table are different strings. */
  ghost predicate DistinctTable(rs: seq<(string, string)>) {
    && (forall i, j :: 0 <= i < |rs| && 0 <= j < |rs| ==> rs[i].0 != rs[j].1)
    && (forall i, j :: 0 <= i < j < |rs| ==> rs[i].0 != rs[j].0 && rs[i].1 != rs[j].1)
  }

  lemma LegacyRenamesDistinct()
    ensures DistinctTable(LegacyRenames)
  {
    var rs := LegacyRenames;
    forall i, j | 0 <= i < |rs| && 0 <= j < |rs| ensures rs[i].0 != rs[j].1 {
      if i < 2 {
        assert rs[i].0[4] == ' ' && rs[j].1[4] != ' ';
      } else {
        assert rs[i].0[2] == '.' && rs[j].1[2] != '.';
      }
    }
    forall i, j | 0 <= i < j < |rs| ensures rs[i].0 != rs[j].0 && rs[i].1 != rs[j].1 {
      assert rs[i].0[5] != rs[j].0[5] && rs[i].1[5] != rs[j].1[5];
    }
  }

  /**
   The renames run in order until one finds its source key missing; the
   KeyError it raises is swallowed, so the renames before it stay applied
   and the ones after it never run.
   */
  function ApplyRenames(x: Record, rs: seq<(string, string)>): Record
    decreases |rs|
  {
    if rs == [] || rs[0].0 !in x then x
    else ApplyRenames(Move(x, rs[0].0, rs[0].1), rs[1..])
  }

  /** How many renames of the table run before the first missing source key. */
  function RenameCount(x: Record, rs: seq<(string, string)>): (k: nat)
    ensures k <= |rs|
    decreases |rs|
  {
    if rs == [] || rs[0].0 !in x then 0
    else 1 + RenameCount(Move(x, rs[0].0, rs[0].1), rs[1..])
  }

  lemma DistinctTail(rs: seq<(string, string)>)
    requires DistinctTable(rs) && rs != []
    ensures DistinctTable(rs[1..])
  {
    var tail := rs[1..];
    forall i, j | 0 <= i < |tail| && 0 <= j < |tail| ensures tail[i].0 != tail[j].1 {
      assert tail[i] == rs[i + 1] && tail[j] == rs[j + 1];
    }
    forall i, j | 0 <= i < j < |tail| ensures tail[i].0 != tail[j].0 && tail[i].1 != tail[j].1 {
      assert tail[i] == rs[i + 1] && tail[j] == rs[j + 1];
    }
  }

  /**
   With `k` the number of renames that ran: the first `k` source keys were
   present, and key `k`, if the table has one, was missing.
   */
  lemma {:induction false} RenameCountMeaning(x: Record, rs: seq<(string, string)>)
    requires DistinctTable(rs)
    ensures forall i :: 0 <= i < RenameCount(x, rs) ==> rs[i].0 in x
    ensures RenameCount(x, rs) < |rs| ==> rs[RenameCount(x, rs)].0 !in x
    decreases |rs|
  {
    if rs != [] && rs[0].0 in x {
      var x' := Move(x, rs[0].0, rs[0].1);
      DistinctTail(rs);
      RenameCountMeaning(x', rs[1..]);
      var k := RenameCount(x, rs);
      forall i | 0 <= i < k ensures rs[i].0 in x {
        if i > 0 {
          assert rs[1..][i - 1] == rs[i];
        }
      }
      if k < |rs| {
        assert rs[1..][k - 1] == rs[k];
      }
    }
  }

  /** The same, for the legacy table. */
  lemma LegacyRenameCount(x: Record)
    ensures forall i :: 0 <= i < RenameCount(x, LegacyRenames) ==> LegacyRenames[i].0 in x
    ensures RenameCount(x, LegacyRenames) < |LegacyRenames| ==>
      LegacyRenames[RenameCount(x, LegacyRenames)].0 !in x
  {
    LegacyRenamesDistinct();
    RenameCountMeaning(x, LegacyRenames);
  }

  /** Each rename that ran moved its source's value to its target and removed the source. */
  lemma {:induction false} ApplyRenamesMoves(x: Record, rs: seq<(string, string)>, i: nat)
    requires DistinctTable(rs)
    requires i < RenameCount(x, rs)
    ensures rs[i].0 in x
    ensures var r := ApplyRenames(x, rs);
      rs[i].0 !in r && rs[i].1 in r && r[rs[i].1] == x[rs[i].0]
    decreases |rs|
  {
    var x' := Move(x, rs[0].0, rs[0].1);
    var tail := rs[1..];
    DistinctTail(rs);
    if i == 0 {
      forall j | 0 <= j < RenameCount(x', tail)
        ensures rs[0].0 != tail[j].0 && rs[0].0 != tail[j].1
        ensures rs[0].1 != tail[j].0 && rs[0].1 != tail[j].1
      {
        assert tail[j] == rs[j + 1];
      }
      ApplyRenamesKeeps(x', tail, rs[0].0);
      ApplyRenamesKeeps(x', tail, rs[0].1);
    } else {
      ApplyRenamesMoves(x', tail, i - 1);
      assert tail[i - 1] == rs[i];
    }
  }

  /** A key that none of the renames that ran mentions keeps its presence and its value. */
  lemma {:induction false} ApplyRenamesKeeps(x: Record, rs: seq<(string, string)>, key: string)
    requires DistinctTable(rs)
    requires forall i :: 0 <= i < RenameCount(x, rs) ==> key != rs[i].0 && key != rs[i].1
    ensures var r := ApplyRenames(x, rs);
      (key in r <==> key in x) && (key in x ==> r[key] == x[key])
    decreases |rs|
  {
    if rs != [] && rs[0].0 in x {
      var x' := Move(x, rs[0].0, rs[0].1);
      var tail := rs[1..];
      DistinctTail(rs);
      assert key != rs[0].0 && key != rs[0].1;
      forall j | 0 <= j < RenameCount(x', tail) ensures key != tail[j].0 && key != tail[j].1 {
        assert tail[j] == rs[j + 1];
      }
      ApplyRenamesKeeps(x', tail, key);
    }
  }

  /** The key that holds the record's display name, repaired around its first `Mega`. */
  const NameKey: string := "Name"

  /** The key that the last statement moves to `Number` without a guard. */
  const NumberKey: string := "number"

  /** The record after the `ingestion_date` pop and the `Name` repair. */
  function Prepared(x: Record): (r: Record)
    requires Fields.IngestionDate in x && NameKey in x && x[NameKey].Str?
    ensures r.Keys == x.Keys - {Fields.IngestionDate}
    ensures r[NameKey] == Str(MegaRepair(x[NameKey].text))
    ensures forall k :: k in r && k != NameKey ==> r[k] == x[k]
  {
    (x - {Fields.IngestionDate})[NameKey := Str(MegaRepair(x[NameKey].text))]
  }

  /**
   The whole per-record body (database-operations.py:29-41), with the state
   the record is left in when a statement raises.
   */
  function MigrateRecord(x: Record): Step {
    if Fields.IngestionDate !in x then Step(x, Some(MissingKey(Fields.IngestionDate)))
    else
      var x1 := x - {Fields.IngestionDate};
      if NameKey !in x1 then Step(x1, Some(MissingKey(NameKey)))
      else if !x1[NameKey].Str? then Step(x1, Some(NameNotText))
      else
        var x3 := ApplyRenames(Prepared(x), LegacyRenames);
        if NumberKey !in x3 then Step(x3, Some(MissingKey(NumberKey)))
        else Step(Move(x3, NumberKey, "Number"), None)
  }

  /** The renames never touch the fixed keys of the record migration. */
  lemma ApplyLegacyRenamesFrame(x: Record, key: string)
    requires key == Fields.IngestionDate || key == NameKey || key == NumberKey || key == "Number"
    ensures var r := ApplyRenames(x, LegacyRenames);
      (key in r <==> key in x) && (key in x ==> r[key] == x[key])
  {
    assert key[0] == 'i' || key[0] == 'N' || key[0] == 'n';
    forall i | 0 <= i < |LegacyRenames| ensures key != LegacyRenames[i].0 && key != LegacyRenames[i].1 {
      assert LegacyRenames[i].0[0] == LegacyRenames[i].1[0];
      assert LegacyRenames[i].0[0] == 'T' || LegacyRenames[i].0[0] == 'S';
    }
    LegacyRenamesDistinct();
    ApplyRenamesKeeps(x, LegacyRenames, key);
  }

  /**
   A record migrates without error exactly when it has `ingestion_date`, a
   string `Name` and `number`; otherwise the first of these checks that
   fails names the error.
   */
  lemma MigrateRecordErrors(x: Record)
    ensures MigrateRecord(x).error.None? <==>
      Fields.IngestionDate in x && NameKey in x && x[NameKey].Str? && NumberKey in x
    ensures Fields.IngestionDate !in x ==> MigrateRecord(x) == Step(x, Some(MissingKey(Fields.IngestionDate)))
    ensures Fields.IngestionDate in x && NameKey !in x ==>
      MigrateRecord(x) == Step(x - {Fields.IngestionDate}, Some(MissingKey(NameKey)))
    ensures Fields.IngestionDate in x && NameKey in x && !x[NameKey].Str? ==>
      MigrateRecord(x) == Step(x - {Fields.IngestionDate}, Some(NameNotText))
    ensures Fields.IngestionDate in x && NameKey in x && x[NameKey].Str? && NumberKey !in x ==>
      MigrateRecord(x).error == Some(MissingKey(NumberKey))
  {
    if Fields.IngestionDate in x && NameKey in x && x[NameKey].Str? {
      ApplyLegacyRenamesFrame(Prepared(x), NumberKey);
    }
  }

  /**
   A successful migration: `ingestion_date` and `number` are gone, `Number`
   holds the old `number` value, `Name` holds the repaired name, and the
   other keys are those the legacy renames leave.
   */
  lemma MigrateRecordEffect(x: Record)
    requires Fields.IngestionDate in x && NameKey in x && x[NameKey].Str? && NumberKey in x
    ensures NumberKey in ApplyRenames(Prepared(x), LegacyRenames)
    ensures MigrateRecord(x) == Step(Move(ApplyRenames(Prepared(x), LegacyRenames), NumberKey, "Number"), None)
    ensures var r := MigrateRecord(x).record;
      && Fields.IngestionDate !in r && NumberKey !in r
      && "Number" in r && r["Number"] == x[NumberKey]
      && NameKey in r && r[NameKey] == Str(MegaRepair(x[NameKey].text))
      && r.Keys == ApplyRenames(x - {Fields.IngestionDate}, LegacyRenames).Keys - {NumberKey} + {"Number"}
  {
    var x1 := x - {Fields.IngestionDate};
    var x2 := Prepared(x);
    var x3 := ApplyRenames(x2, LegacyRenames);
    ApplyLegacyRenamesFrame(x2, NameKey);
    ApplyLegacyRenamesFrame(x2, NumberKey);
    ApplyLegacyRenamesFrame(x2, Fields.IngestionDate);
    RenameCountKeys(x1, x2, LegacyRenames);
    var r := Move(x3, NumberKey, "Number");
    assert MigrateRecord(x) == Step(r, None);
    assert r.Keys == x3.Keys - {NumberKey} + {"Number"};
  }

  /** The number of renames that run depends on the record's keys only. */
  lemma {:induction false} RenameCountKeys(x: Record, y: Record, rs: seq<(string, string)>)
    requires x.Keys == y.Keys
    ensures RenameCount(x, rs) == RenameCount(y, rs)
    ensures ApplyRenames(x, rs).Keys == ApplyRenames(y, rs).Keys
    decreases |rs|
  {
    if rs != [] && rs[0].0 in x {
      RenameCountKeys(Move(x, rs[0].0, rs[0].1), Move(y, rs[0].0, rs[0].1), rs[1..]);
    }
  }

  /**
   The statements of one loop iteration (database-operations.py:29-41),
   applied to the record step by step; returns the record as the
   statements leave it and the error that stopped them, if any.
   */
  method MigrateOne(x0: Record) returns (x: Record, error: Option<MigrationError>)
    ensures Step(x, error) == MigrateRecord(x0)
  {
    x := x0;
    // x.pop("ingestion_date")
    if Fields.IngestionDate !in x {
      return x, Some(MissingKey(Fields.IngestionDate));
    }
    x := x - {Fields.IngestionDate};
    // if "Mega" in x["Name"]: x["Name"] = "Mega" + name.split("Mega", 1)[1]
    if NameKey !in x {
      return x, Some(MissingKey(NameKey));
    }
    if !x[NameKey].Str? {
      return x, Some(NameNotText);
    }
    var name := x[NameKey].text;
    var at := FindFirst(name, Marker);
    if at.Some? {
      x := x[NameKey := Str(Marker + name[at.value + |Marker|..])];
    }
    assert x == Prepared(x0);
    // try: each pop raises KeyError on a missing key, which the bare except swallows
    ghost var before := x;
    if "Type 1" in x {
      x := Move(x, "Type 1", "Type_1");
      if "Type 2" in x {
        x := Move(x, "Type 2", "Type_2");
        if "Sp.Atk" in x {
          x := Move(x, "Sp.Atk", "Sp_Atk");
          if "Sp.Def" in x {
            x := Move(x, "Sp.Def", "Sp_Def");
          }
        }
      }
    }
    assert x == ApplyRenames(before, LegacyRenames) by {
      LegacyRenamesUnfold(before);
    }
    // x["Number"] = x.pop("number")
    if NumberKey !in x {
      return x, Some(MissingKey(NumberKey));
    }
    x := Move(x, NumberKey, "Number");
    error := None;
  }

  /** The recursion over the four renames, written out. */
  lemma LegacyRenamesUnfold(x: Record)
    ensures ApplyRenames(x, LegacyRenames) ==
      if "Type 1" !in x then x
      else var x1 := Move(x, "Type 1", "Type_1");
      if "Type 2" !in x1 then x1
      else var x2 := Move(x1, "Type 2", "Type_2");
      if "Sp.Atk" !in x2 then x2
      else var x3 := Move(x2, "Sp.Atk", "Sp_Atk");
      if "Sp.Def" !in x3 then x3
      else Move(x3, "Sp.Def", "Sp_Def")
  {
    var rs := LegacyRenames;
    assert rs[1..] == [("Type 2", "Type_2"), ("Sp.Atk", "Sp_Atk"), ("Sp.Def", "Sp_Def")];
    assert rs[1..][1..] == [("Sp.Atk", "Sp_Atk"), ("Sp.Def", "Sp_Def")];
    assert rs[1..][1..][1..] == [("Sp.Def", "Sp_Def")];
    assert rs[1..][1..][1..][1..] == [];
  }

  /**
   The migration loop (database-operations.py:27-41): every record of the
   list is rewritten in place, in order. A KeyError or TypeError ends the
   loop (and the run): the records before the failing one are migrated,
   the failing one is left as its statements left it, the rest are
   untouched. The list keeps its length and its order.
   */
  method MigrateRecords(records: array<Record>) returns (failure: Option<(nat, MigrationError)>)
    modifies records
    ensures failure.None? ==> forall i :: 0 <= i < records.Length ==>
      MigrateRecord(old(records[i])) == Step(records[i], None)
    ensures failure.Some? ==>
      var (at, e) := failure.value;
      && at < records.Length
      && (forall i :: 0 <= i < at ==> MigrateRecord(old(records[i])) == Step(records[i], None))
      && MigrateRecord(old(records[at])) == Step(records[at], Some(e))
      && (forall i :: at < i < records.Length ==> records[i] == old(records[i]))
  {
    ghost var before := records[..];
    var i := 0;
    while i < records.Length
      invariant 0 <= i <= records.Length == |before|
      invariant forall j :: 0 <= j < i ==> MigrateRecord(before[j]) == Step(records[j], None)
      invariant forall j :: i <= j < records.Length ==> records[j] == before[j]
    {
      var x, error := MigrateOne(records[i]);
      records[i] := x;
      if error.Some? {
        return Some((i, error.value));
      }
      i := i + 1;
    }
    return None;
  }
}
