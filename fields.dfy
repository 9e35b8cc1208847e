/**
 The schema side of the migration: the list of field descriptors, the
 name-normalising pass over it and the pass that pops the
 `ingestion_date` descriptor while enumerating the same list.
 */
module Fields {
  import opened Text

  /** The Avro type and any other attribute of a descriptor, never inspected. */
  datatype TypeSpec = TypeSpec(json: string)

  /** One entry of the schema's `fields` list. */
  datatype Field = Field(name: string, spec: TypeSpec)

  /** The field every record and the schema lose. */
  const IngestionDate: string := "ingestion_date"

  /** The names of a field list, as a set. */
  function NameSet(fs: seq<Field>): set<string> {
    set i | 0 <= i < |fs| :: fs[i].name
  }

  /** No two descriptors share a name. */
  ghost predicate UniqueNames(fs: seq<Field>) {
    forall i, j :: 0 <= i < j < |fs| ==> fs[i].name != fs[j].name
  }

  /** Every descriptor renamed as the first pass renames it, nothing else changed. */
  function NormalizedFields(fs: seq<Field>): (r: seq<Field>) {
    seq(|fs|, i requires 0 <= i < |fs| => fs[i].(name := NormalizeName(fs[i].name)))
  }

  /** After the first pass no name contains `.` or a space, and every descriptor keeps its place and its type. */
  lemma NormalizedFieldsClean(fs: seq<Field>)
    ensures |NormalizedFields(fs)| == |fs|
    ensures forall i :: 0 <= i < |fs| ==>
      IsClean(NormalizedFields(fs)[i].name) && NormalizedFields(fs)[i].spec == fs[i].spec
  {
    forall i | 0 <= i < |fs| ensures IsClean(NormalizedFields(fs)[i].name) {
      NormalizeNameIsClean(fs[i].name);
    }
  }

  /** Running the first pass twice leaves the list as running it once does. */
  lemma NormalizedFieldsIdempotent(fs: seq<Field>)
    ensures NormalizedFields(NormalizedFields(fs)) == NormalizedFields(fs)
  {
    forall i | 0 <= i < |fs|
      ensures NormalizedFields(NormalizedFields(fs))[i] == NormalizedFields(fs)[i]
    {
      NormalizeNameIdempotent(fs[i].name);
    }
  }

  /**
   Reference definition of the removal pass, read from the front of the
   list: a descriptor named `target` is dropped, and the descriptor right
   after it is kept without being looked at, because after a pop it moves
   into the index that the enumeration has just left.
   */
  function PopScan(fs: seq<Field>, target: string): seq<Field>
    decreases |fs|
  {
    if fs == [] then []
    else if fs[0].name == target then
      if |fs| == 1 then [] else [fs[1]] + PopScan(fs[2..], target)
    else [fs[0]] + PopScan(fs[1..], target)
  }

  /** The descriptors not named `target`, in their order. */
  function Others(fs: seq<Field>, target: string): seq<Field>
    decreases |fs|
  {
    if fs == [] then []
    else (if fs[0].name == target then [] else [fs[0]]) + Others(fs[1..], target)
  }

  lemma {:induction false} OthersAppend(a: seq<Field>, b: seq<Field>, target: string)
    ensures Others(a + b, target) == Others(a, target) + Others(b, target)
    decreases |a|
  {
    if a == [] {
      assert a + b == b;
    } else {
      assert (a + b)[0] == a[0];
      assert (a + b)[1..] == a[1..] + b;
      OthersAppend(a[1..], b, target);
    }
  }

  /**
   Whatever the list, every descriptor not named `target` survives the
   removal pass, and they keep their relative order.
   */
  lemma {:induction false} PopScanKeepsOthers(fs: seq<Field>, target: string)
    ensures Others(PopScan(fs, target), target) == Others(fs, target)
    decreases |fs|
  {
    if fs == [] {
    } else if fs[0].name == target {
      if |fs| > 1 {
        PopScanKeepsOthers(fs[2..], target);
        OthersAppend([fs[1]], PopScan(fs[2..], target), target);
        assert fs[1..] == [fs[1]] + fs[2..];
        OthersAppend([fs[1]], fs[2..], target);
      }
    } else {
      PopScanKeepsOthers(fs[1..], target);
      OthersAppend([fs[0]], PopScan(fs[1..], target), target);
    }
  }

  /** A list without `target` is left as it is. */
  lemma {:induction false} PopScanAbsent(fs: seq<Field>, target: string)
    requires forall i :: 0 <= i < |fs| ==> fs[i].name != target
    ensures PopScan(fs, target) == fs
    decreases |fs|
  {
    if fs != [] {
      PopScanAbsent(fs[1..], target);
    }
  }

  /** A list whose only `target` is its head loses just the head. */
  lemma PopScanRemovesHead(fs: seq<Field>, target: string)
    requires |fs| > 0 && fs[0].name == target
    requires forall i :: 1 <= i < |fs| ==> fs[i].name != target
    ensures PopScan(fs, target) == fs[1..]
  {
    if |fs| > 1 {
      var rest := fs[2..];
      assert forall i :: 0 <= i < |rest| ==> rest[i] == fs[i + 2];
      PopScanAbsent(rest, target);
      assert fs[1..] == [fs[1]] + rest;
    }
  }

  /** When `j` is the only index named `target`, the removal pass takes out exactly that descriptor. */
  lemma {:induction false} PopScanRemovesOnly(fs: seq<Field>, target: string, j: nat)
    requires j < |fs| && fs[j].name == target
    requires forall i :: 0 <= i < |fs| && i != j ==> fs[i].name != target
    ensures PopScan(fs, target) == fs[..j] + fs[j + 1..]
    decreases |fs|
  {
    if j == 0 {
      PopScanRemovesHead(fs, target);
    } else {
      var tail := fs[1..];
      assert forall i :: 0 <= i < |tail| ==> tail[i] == fs[i + 1];
      PopScanRemovesOnly(tail, target, j - 1);
      assert PopScan(fs, target) == [fs[0]] + PopScan(tail, target);
      assert tail[..j - 1] == fs[1..j];
      assert tail[j..] == fs[j + 1..];
      assert fs[..j] == [fs[0]] + fs[1..j];
    }
  }

  /**
   With unique names, the removal pass takes out exactly the descriptor
   named `target`: the list is one shorter, `target` is gone, and the
   other descriptors keep their order.
   */
  lemma PopScanUnique(fs: seq<Field>, target: string, j: nat)
    requires UniqueNames(fs)
    requires j < |fs| && fs[j].name == target
    ensures PopScan(fs, target) == fs[..j] + fs[j + 1..]
    ensures |PopScan(fs, target)| == |fs| - 1
    ensures forall i :: 0 <= i < |PopScan(fs, target)| ==> PopScan(fs, target)[i].name != target
  {
    forall i | 0 <= i < |fs| && i != j ensures fs[i].name != target {
      if i < j {
        assert fs[i].name != fs[j].name;
      } else {
        assert fs[j].name != fs[i].name;
      }
    }
    PopScanRemovesOnly(fs, target, j);
    var r := fs[..j] + fs[j + 1..];
    forall i | 0 <= i < |r| ensures r[i].name != target {
      if i < j {
        assert r[i] == fs[i];
      } else {
        assert r[i] == fs[i + 1];
      }
    }
  }

  /**
   The descriptor right after the first one named `target` stays in the
   list whatever its name: a second adjacent `target` survives the pass.
   */
  lemma {:induction false} PopScanSkipsNext(fs: seq<Field>, target: string, j: nat)
    requires j + 1 < |fs| && fs[j].name == target
    requires forall i :: 0 <= i < j ==> fs[i].name != target
    ensures PopScan(fs, target) == fs[..j] + [fs[j + 1]] + PopScan(fs[j + 2..], target)
    decreases |fs|
  {
    if j > 0 {
      var tail := fs[1..];
      assert tail[j - 1] == fs[j] && tail[j] == fs[j + 1];
      PopScanSkipsNext(tail, target, j - 1);
      assert PopScan(fs, target) == [fs[0]] + PopScan(tail, target);
      assert tail[..j - 1] == fs[1..j];
      assert tail[j - 1 + 2..] == fs[j + 2..];
      assert fs[..j] == [fs[0]] + fs[1..j];
    } else {
      assert fs[2..] == fs[j + 2..];
    }
  }

  /** Two adjacent `ingestion_date` descriptors: the second one is never examined and stays. */
  lemma AdjacentDuplicateSurvives(a: Field, b: Field)
    requires a.name == IngestionDate && b.name == IngestionDate
    ensures PopScan([a, b], IngestionDate) == [b]
  {
    PopScanSkipsNext([a, b], IngestionDate, 0);
  }

  /** One step of the enumeration, seen through the reference definition. */
  lemma PopScanStep(fs: seq<Field>, target: string, idx: nat)
    requires idx < |fs|
    ensures fs[idx].name != target ==>
      fs[..idx] + PopScan(fs[idx..], target) == fs[..idx + 1] + PopScan(fs[idx + 1..], target)
    ensures fs[idx].name == target && idx + 1 < |fs| ==>
      var g := fs[..idx] + fs[idx + 1..];
      fs[..idx] + PopScan(fs[idx..], target) == g[..idx + 1] + PopScan(g[idx + 1..], target)
    ensures fs[idx].name == target && idx + 1 == |fs| ==>
      fs[..idx] + PopScan(fs[idx..], target) == fs[..idx]
  {
    var t := fs[idx..];
    assert t[0] == fs[idx];
    if fs[idx].name != target {
      assert t[1..] == fs[idx + 1..];
      assert fs[..idx + 1] == fs[..idx] + [fs[idx]];
    } else if idx + 1 < |fs| {
      var g := fs[..idx] + fs[idx + 1..];
      assert t[1] == fs[idx + 1];
      assert t[2..] == fs[idx + 2..];
      assert g[..idx + 1] == fs[..idx] + [fs[idx + 1]];
      assert g[idx + 1..] == fs[idx + 2..];
    }
  }

  /**
   The body of the first pass for one name (database-operations.py:12-17):
   the `.` substitution, the ` ` substitution, each under its own
   membership test, then the exact-match rename of `number`.
   */
  method NewName(n: string) returns (name: string)
    ensures name == NormalizeName(n)
  {
    name := n;
    if '.' in name {
      name := ReplaceChar(name, '.', '_');
    }
    if ' ' in name {
      name := ReplaceChar(name, ' ', '_');
    }
    if name == "number" {
      name := "Number";
    }
  }

  /**
   The removal pass seen from the front: with the enumeration at `idx`,
   what is left of the reference pass over `orig` is the reference pass
   over the part of `fs` not yet enumerated.
   */
  ghost predicate ScanInvariant(orig: seq<Field>, fs: seq<Field>, idx: nat, target: string) {
    && (idx <= |fs| ==> PopScan(orig, target) == fs[..idx] + PopScan(fs[idx..], target))
    && (idx > |fs| ==> PopScan(orig, target) == fs)
  }

  /** One step of the enumeration keeps the invariant. */
  lemma ScanStep(orig: seq<Field>, fs: seq<Field>, idx: nat, target: string)
    requires idx < |fs| && ScanInvariant(orig, fs, idx, target)
    ensures ScanInvariant(orig, if fs[idx].name == target then fs[..idx] + fs[idx + 1..] else fs, idx + 1, target)
  {
    PopScanStep(fs, target, idx);
  }

  /** When the enumeration stops, the list is the reference pass over the original. */
  lemma ScanDone(orig: seq<Field>, fs: seq<Field>, idx: nat, target: string)
    requires idx >= |fs| && ScanInvariant(orig, fs, idx, target)
    ensures fs == PopScan(orig, target)
  {
    if idx == |fs| {
      assert fs[..idx] == fs && fs[idx..] == [];
    }
  }

  /** The schema whose `fields` list the migration rewrites in place. */
  class Schema {
    var fields: seq<Field>

    constructor (fields: seq<Field>)
      ensures this.fields == fields
    {
      this.fields := fields;
    }

    /**
     The first pass (database-operations.py:11-18): each descriptor's name
     is rewritten where it stands; the list keeps its length and order and
     every other attribute.
     */
    method NormalizeFieldNames()
      modifies this
      ensures |fields| == |old(fields)|
      ensures forall i :: 0 <= i < |fields| ==>
        fields[i] == old(fields)[i].(name := NormalizeName(old(fields)[i].name))
      ensures fields == NormalizedFields(old(fields))
    {
      var idx := 0;
      while idx < |fields|
        invariant 0 <= idx <= |fields| == |old(fields)|
        invariant forall i :: 0 <= i < idx ==>
          fields[i] == old(fields)[i].(name := NormalizeName(old(fields)[i].name))
        invariant forall i :: idx <= i < |fields| ==> fields[i] == old(fields)[i]
      {
        var field := fields[idx];
        var name := NewName(field.name);
        fields := fields[idx := field.(name := name)];
        idx := idx + 1;
      }
    }

    /**
     The removal pass (database-operations.py:20-22): enumerate the list
     and pop every descriptor named `ingestion_date` at the current index.
     The enumeration's index still advances after a pop, so the descriptor
     that moved into the popped slot is skipped.
     */
    method DropIngestionDate()
      modifies this
      ensures fields == PopScan(old(fields), IngestionDate)
    {
      ghost var orig := fields;
      var idx := 0;
      assert fields[..0] + fields[0..] == fields;
      while idx < |fields|
        invariant ScanInvariant(orig, fields, idx, IngestionDate)
        decreases |fields| - idx
      {
        ScanStep(orig, fields, idx, IngestionDate);
        if fields[idx].name == IngestionDate {
          fields := fields[..idx] + fields[idx + 1..];
        }
        idx := idx + 1;
      }
      ScanDone(orig, fields, idx, IngestionDate);
    }
  }
}
