/** Option, for searches that may find nothing. */
module Wrappers {
  datatype Option<+T> = None | Some(value: T)
}

/**
 String operations the migration uses: character substitution in field
 names, the `number` -> `Number` rename, and the repair of `Name` values
 around the first `Mega`.
 */
module Text {
  import opened Wrappers

  /** Python's `s.replace(c, d)` for one-character strings `c` and `d`. */
  function ReplaceChar(s: string, c: char, d: char): (r: string)
    ensures |r| == |s|
    ensures forall i :: 0 <= i < |s| ==> r[i] == (if s[i] == c then d else s[i])
  {
    if s == [] then [] else [if s[0] == c then d else s[0]] + ReplaceChar(s[1..], c, d)
  }

  /** The characters field names may not contain. */
  predicate IsReserved(c: char) {
    c == '.' || c == ' '
  }

  /** Reference definition: every reserved character becomes `_`, nothing else moves. */
  function Substituted(n: string): string {
    seq(|n|, i requires 0 <= i < |n| => if IsReserved(n[i]) then '_' else n[i])
  }

  /** A name that contains no reserved character. */
  predicate IsClean(n: string) {
    forall i :: 0 <= i < |n| ==> !IsReserved(n[i])
  }

  /**
   The new name of one schema field (database-operations.py:12-17): the
   `.` substitution, then the ` ` substitution, each under its own
   membership test, then the exact-match rename of `number`.
   */
  function NormalizeName(n: string): string {
    var a := if '.' in n then ReplaceChar(n, '.', '_') else n;
    var b := if ' ' in a then ReplaceChar(a, ' ', '_') else a;
    if b == "number" then "Number" else b
  }

  /** The two guarded substitutions amount to the reference substitution. */
  lemma SubstitutionMeaning(n: string)
    ensures NormalizeName(n) == if Substituted(n) == "number" then "Number" else Substituted(n)
  {
    var a := if '.' in n then ReplaceChar(n, '.', '_') else n;
    var b := if ' ' in a then ReplaceChar(a, ' ', '_') else a;
    assert |a| == |n|;
    forall i | 0 <= i < |n|
      ensures a[i] == (if n[i] == '.' then '_' else n[i])
    {
      if '.' !in n { assert n[i] != '.'; }
    }
    forall i | 0 <= i < |n|
      ensures b[i] == Substituted(n)[i]
    {
      if ' ' !in a { assert a[i] != ' '; }
    }
    assert b == Substituted(n);
  }

  /** After normalisation no name contains `.` or a space. */
  lemma NormalizeNameIsClean(n: string)
    ensures IsClean(NormalizeName(n))
    ensures |NormalizeName(n)| == |n|
  {
    SubstitutionMeaning(n);
  }

  /** A clean name other than `number` is left exactly as it is. */
  lemma NormalizeNameKeepsClean(n: string)
    requires IsClean(n) && n != "number"
    ensures NormalizeName(n) == n
  {
    SubstitutionMeaning(n);
    assert Substituted(n) == n;
  }

  /**
   The `number` rule is exact-match: a name becomes `Number` only when its
   substituted form is `number`, so a name that merely contains `number`
   keeps its substituted form.
   */
  lemma NormalizeNameNumberRule(n: string)
    ensures NormalizeName(n) == "Number" <==> Substituted(n) == "number" || Substituted(n) == "Number"
    ensures Substituted(n) != "number" ==> NormalizeName(n) == Substituted(n)
  {
    SubstitutionMeaning(n);
  }

  /** Normalising twice gives what normalising once gives. */
  lemma NormalizeNameIdempotent(n: string)
    ensures NormalizeName(NormalizeName(n)) == NormalizeName(n)
  {
    var m := NormalizeName(n);
    NormalizeNameIsClean(n);
    if m == "number" {
      SubstitutionMeaning(n);
      assert false;
    }
    NormalizeNameKeepsClean(m);
  }

  /** The normalised forms of the four legacy names the record migration renames. */
  lemma NormalizeType1()
    ensures NormalizeName("Type 1") == "Type_1"
  {
    assert forall i :: 0 <= i < 6 ==> "Type 1"[i] != '.';
    var b := ReplaceChar("Type 1", ' ', '_');
    assert "Type 1"[4] == ' ';
    assert forall i :: 0 <= i < 6 ==> b[i] == "Type_1"[i];
    assert b == "Type_1";
    assert b[0] != "number"[0];
  }

  lemma NormalizeType2()
    ensures NormalizeName("Type 2") == "Type_2"
  {
    assert forall i :: 0 <= i < 6 ==> "Type 2"[i] != '.';
    var b := ReplaceChar("Type 2", ' ', '_');
    assert "Type 2"[4] == ' ';
    assert forall i :: 0 <= i < 6 ==> b[i] == "Type_2"[i];
    assert b == "Type_2";
    assert b[0] != "number"[0];
  }

  lemma NormalizeSpAtk()
    ensures NormalizeName("Sp.Atk") == "Sp_Atk"
  {
    var a := ReplaceChar("Sp.Atk", '.', '_');
    assert "Sp.Atk"[2] == '.';
    assert forall i :: 0 <= i < 6 ==> a[i] == "Sp_Atk"[i];
    assert a == "Sp_Atk";
    assert ' ' !in a && a[0] != "number"[0];
  }

  lemma NormalizeSpDef()
    ensures NormalizeName("Sp.Def") == "Sp_Def"
  {
    var a := ReplaceChar("Sp.Def", '.', '_');
    assert "Sp.Def"[2] == '.';
    assert forall i :: 0 <= i < 6 ==> a[i] == "Sp_Def"[i];
    assert a == "Sp_Def";
    assert ' ' !in a && a[0] != "number"[0];
  }

  /** `number` is the one name the exact-match rule changes; the other fixed names stay. */
  lemma NormalizeFixedNames()
    ensures NormalizeName("number") == "Number"
    ensures NormalizeName("Number") == "Number"
    ensures NormalizeName("ingestion_date") == "ingestion_date"
    ensures NormalizeName("Name") == "Name"
  {
    assert "number"[0] != "Number"[0];
    assert '.' !in "Number" && ' ' !in "Number";
    assert '.' !in "ingestion_date" && ' ' !in "ingestion_date";
    assert '.' !in "Name" && ' ' !in "Name";
  }

  /** `p` occurs in `s` starting at position `i`. */
  ghost predicate OccursAt(s: string, p: string, i: nat) {
    i + |p| <= |s| && forall k :: 0 <= k < |p| ==> s[i + k] == p[k]
  }

  /** Python's `p in s`, the first occurrence's position: `s.split(p, 1)` cuts there. */
  function FindFirst(s: string, p: string): (r: Option<nat>)
    ensures r.Some? ==> OccursAt(s, p, r.value)
    ensures r.Some? ==> forall j: nat :: j < r.value ==> !OccursAt(s, p, j)
    ensures r.None? ==> forall j: nat :: !OccursAt(s, p, j)
    decreases |s|
  {
    OccursAtStart(s, p);
    if |s| < |p| then None
    else if s[..|p|] == p then Some(0)
    else
      ShiftOccurrence(s, p);
      match FindFirst(s[1..], p)
      case None => None
      case Some(i) => Some(i + 1)
  }

  /** An occurrence at position 0 is a prefix. */
  lemma OccursAtStart(s: string, p: string)
    ensures OccursAt(s, p, 0) <==> |p| <= |s| && s[..|p|] == p
  {
    if OccursAt(s, p, 0) {
      assert forall k :: 0 <= k < |p| ==> s[..|p|][k] == s[0 + k];
    }
  }

  /** Occurrences in the tail are the occurrences in `s` one position later. */
  lemma ShiftOccurrence(s: string, p: string)
    requires |s| > 0
    ensures forall j: nat :: OccursAt(s[1..], p, j) <==> OccursAt(s, p, j + 1)
    ensures forall j: nat :: 0 < j ==> (OccursAt(s, p, j) <==> OccursAt(s[1..], p, j - 1))
  {
    forall j: nat
      ensures OccursAt(s[1..], p, j) <==> OccursAt(s, p, j + 1)
    {
      assert forall k :: 0 <= k < |s| - 1 ==> s[1..][k] == s[k + 1];
    }
  }

  /** The marker whose first occurrence starts a repaired `Name`. */
  const Marker: string := "Mega"

  /**
   The repaired `Name` (database-operations.py:31-33): when the marker
   occurs, the marker followed by everything after its first occurrence,
   otherwise the name itself.
   */
  function MegaRepair(s: string): string {
    match FindFirst(s, Marker)
    case None => s
    case Some(i) => Marker + s[i + |Marker|..]
  }

  /** With the first marker at `i`, the repaired name is the suffix from `i`. */
  lemma MegaRepairSuffix(s: string, i: nat)
    requires OccursAt(s, Marker, i)
    requires forall j: nat :: j < i ==> !OccursAt(s, Marker, j)
    ensures MegaRepair(s) == s[i..]
    ensures |MegaRepair(s)| >= |Marker| && MegaRepair(s)[..|Marker|] == Marker
  {
    var f := FindFirst(s, Marker);
    assert f.Some? && f.value == i;
    assert s[i..] == s[i..i + |Marker|] + s[i + |Marker|..];
  }

  /** A name without the marker is untouched. */
  lemma MegaRepairNoMarker(s: string)
    requires forall j: nat :: !OccursAt(s, Marker, j)
    ensures MegaRepair(s) == s
  {
  }

  /** A name that already starts with the marker is untouched. */
  lemma MegaRepairMarked(s: string)
    requires |s| >= |Marker| && s[..|Marker|] == Marker
    ensures MegaRepair(s) == s
  {
    assert OccursAt(s, Marker, 0);
    MegaRepairSuffix(s, 0);
  }

  /** Repairing twice gives what repairing once gives. */
  lemma MegaRepairIdempotent(s: string)
    ensures MegaRepair(MegaRepair(s)) == MegaRepair(s)
  {
    match FindFirst(s, Marker)
    case None =>
    case Some(i) =>
      MegaRepairSuffix(s, i);
      MegaRepairMarked(MegaRepair(s));
  }

  /** A name with the marker mid-string loses the prefix before it. */
  lemma MegaRepairExample()
    ensures MegaRepair("XMega Y") == "Mega Y"
  {
    var s := "XMega Y";
    assert !OccursAt(s, Marker, 0) by { assert s[0 + 0] != Marker[0]; }
    assert OccursAt(s, Marker, 1);
    MegaRepairSuffix(s, 1);
  }
}
