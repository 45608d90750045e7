/**
 * The record collection as a value: the first-match search every keyed
 * operation starts with (main.go getDataByCode, updateData, deleteData), and
 * what update and delete leave behind. The store class applies these to its
 * collection.
 */
module Records {
  import opened Wrappers
  import opened Models
  import opened Subsequences

  /** Some record carries `code`. */
  predicate HasCode(records: seq<Data>, code: string) {
    exists j :: 0 <= j < |records| && records[j].Code == code
  }

  /** No two records share a code (expected of the data, enforced by nothing). */
  predicate UniqueCodes(records: seq<Data>) {
    forall i, j :: 0 <= i < j < |records| ==> records[i].Code != records[j].Code
  }

  /**
   * The position of the first record whose code is `code`, scanning from the
   * front; None when no record carries it, the empty collection included.
   */
  function FindIndex(records: seq<Data>, code: string): (r: Option<nat>)
    ensures r.Some? ==>
      && r.value < |records|
      && records[r.value].Code == code
      && forall j :: 0 <= j < r.value ==> records[j].Code != code
    ensures r.None? <==> !HasCode(records, code)
  {
    if |records| == 0 then None
    else if records[0].Code == code then Some(0)
    else match FindIndex(records[1..], code)
      case Some(k) => Some(k + 1)
      case None => None
  }

  /** An index found in a tail, seen from the whole collection. */
  function Shift(r: Option<nat>, offset: nat): Option<nat> {
    match r
    case Some(k) => Some(k + offset)
    case None => None
  }

  /** The collection after updateData: the first match has the body's fields written into it. */
  function Patched(records: seq<Data>, code: string, p: Patch): seq<Data> {
    match FindIndex(records, code)
    case Some(i) => records[i := Apply(records[i], p)]
    case None => records
  }

  /** The collection after deleteData: the first match spliced out. */
  function Removed(records: seq<Data>, code: string): seq<Data> {
    match FindIndex(records, code)
    case Some(i) => records[..i] + records[i + 1..]
    case None => records
  }

  /**
   * After an append, a lookup of the new record's code finds the new record
   * exactly when no earlier record carries that code; otherwise it still
   * finds the earlier one. Lookups of other codes are not affected.
   */
  lemma LookupAfterCreate(records: seq<Data>, d: Data, code: string)
    ensures code == d.Code && !HasCode(records, code) ==> FindIndex(records + [d], code) == Some(|records|)
    ensures code != d.Code || HasCode(records, code) ==> FindIndex(records + [d], code) == FindIndex(records, code)
  {
    var s := records + [d];
    if HasCode(records, code) {
      var i := FindIndex(records, code).value;
      assert s[i].Code == code;
      assert FindIndex(s, code).Some?;
    } else if code == d.Code {
      assert s[|records|].Code == code;
    } else {
      assert !HasCode(s, code) by {
        forall j | 0 <= j < |s| ensures s[j].Code != code {
          if j < |records| {
            assert s[j] == records[j];
          }
        }
      }
    }
  }

  /** A collection without duplicate codes keeps that property across an append exactly when the new code is new. */
  lemma UniqueAfterCreate(records: seq<Data>, d: Data)
    requires UniqueCodes(records)
    ensures UniqueCodes(records + [d]) <==> !HasCode(records, d.Code)
  {
    var s := records + [d];
    if HasCode(records, d.Code) {
      var j :| 0 <= j < |records| && records[j].Code == d.Code;
      assert s[j].Code == s[|records|].Code;
    }
  }

  /**
   * updateData on a code that is present keeps the length and every other
   * record, and the found record gets the written fields; a code that is
   * absent leaves the collection as it was.
   */
  lemma PatchedShape(records: seq<Data>, code: string, p: Patch)
    ensures |Patched(records, code, p)| == |records|
    ensures FindIndex(records, code).None? ==> Patched(records, code, p) == records
    ensures FindIndex(records, code).Some? ==>
      var i := FindIndex(records, code).value;
      && Patched(records, code, p)[i] == Apply(records[i], p)
      && forall j :: 0 <= j < |records| && j != i ==> Patched(records, code, p)[j] == records[j]
  {
  }

  /**
   * After an update that keeps the record's code, a lookup finds the updated
   * record in the same place. After one that changes it, the lookup moves on
   * to the next record with the old code, if any.
   */
  lemma LookupAfterUpdate(records: seq<Data>, code: string, p: Patch, i: nat)
    requires FindIndex(records, code) == Some(i)
    ensures Apply(records[i], p).Code == code ==>
      FindIndex(Patched(records, code, p), code) == Some(i) && Patched(records, code, p)[i] == Apply(records[i], p)
    ensures Apply(records[i], p).Code != code ==>
      FindIndex(Patched(records, code, p), code) == Shift(FindIndex(records[i + 1..], code), i + 1)
  {
    var s := Patched(records, code, p);
    assert s == records[i := Apply(records[i], p)];
    if Apply(records[i], p).Code == code {
      var front := s[..i];
      assert !HasCode(front, code) by {
        forall j | 0 <= j < |front| ensures front[j].Code != code {
          assert front[j] == records[j];
        }
      }
      assert s[i..][0] == s[i];
      assert FindIndex(s[i..], code) == Some(0);
      assert s == front + s[i..];
      FindIndexSkip(front, s[i..], code);
    } else {
      var front := s[..i + 1];
      assert !HasCode(front, code) by {
        forall j | 0 <= j < |front| ensures front[j].Code != code {
          assert front[j] == s[j];
          if j < i {
            assert s[j] == records[j];
          }
        }
      }
      assert s == front + records[i + 1..];
      FindIndexSkip(front, records[i + 1..], code);
    }
  }

  /** Records in front that do not carry `code` only move the position of the first match. */
  lemma FindIndexSkip(front: seq<Data>, t: seq<Data>, code: string)
    requires !HasCode(front, code)
    ensures FindIndex(front + t, code) == Shift(FindIndex(t, code), |front|)
  {
    var s := front + t;
    match FindIndex(t, code)
    case Some(k) =>
      assert s[k + |front|] == t[k];
      forall j | 0 <= j < k + |front| ensures s[j].Code != code {
        if j >= |front| {
          assert s[j] == t[j - |front|];
        }
      }
    case None =>
      forall j | 0 <= j < |s| ensures s[j].Code != code {
        if j >= |front| {
          assert s[j] == t[j - |front|];
        }
      }
  }

  /**
   * Sending the same update twice changes nothing more than sending it once,
   * as long as the body keeps the code. A body that renames the record lets
   * the second update reach the next record with the old code instead.
   */
  lemma PatchedTwice(records: seq<Data>, code: string, p: Patch)
    requires p.Code.None? || p.Code == Some(code)
    ensures Patched(Patched(records, code, p), code, p) == Patched(records, code, p)
  {
    match FindIndex(records, code)
    case Some(i) =>
      LookupAfterUpdate(records, code, p, i);
      ApplyTwice(records[i], p);
    case None =>
  }

  /** With unique codes, an update that keeps the record's code keeps the codes unique. */
  lemma UniqueAfterUpdate(records: seq<Data>, code: string, p: Patch)
    requires UniqueCodes(records)
    requires p.Code.None? || p.Code == Some(code)
    ensures UniqueCodes(Patched(records, code, p))
  {
  }

  /**
   * deleteData on a code that is present removes exactly the first record
   * with that code: one record fewer, the others kept in their order, the
   * removed record the only element missing, every record before the first
   * match in its place and every record after it one place earlier. A code
   * that is absent leaves the collection as it was.
   */
  lemma RemovedShape(records: seq<Data>, code: string)
    ensures FindIndex(records, code).None? ==> Removed(records, code) == records
    ensures FindIndex(records, code).Some? ==>
      var i := FindIndex(records, code).value;
      var s := Removed(records, code);
      && |s| == |records| - 1
      && IsSubsequence(s, records)
      && multiset(s) + multiset{records[i]} == multiset(records)
      && (forall j :: 0 <= j < i ==> s[j] == records[j])
      && (forall j :: i <= j < |s| ==> s[j] == records[j + 1])
  {
    if FindIndex(records, code).Some? {
      var i := FindIndex(records, code).value;
      assert records == records[..i] + [records[i]] + records[i + 1..];
      DropOneIsSubsequence(records[..i], records[i], records[i + 1..]);
    }
  }

  /**
   * After a delete, a lookup of the same code finds the next record that
   * carried it, if any; with unique codes it finds nothing.
   */
  lemma LookupAfterDelete(records: seq<Data>, code: string)
    requires FindIndex(records, code).Some?
    ensures var i := FindIndex(records, code).value;
      FindIndex(Removed(records, code), code) == Shift(FindIndex(records[i + 1..], code), i)
    ensures UniqueCodes(records) ==> FindIndex(Removed(records, code), code).None?
  {
    var i := FindIndex(records, code).value;
    var s := Removed(records, code);
    var t := records[i + 1..];
    assert s == records[..i] + t;
    FindIndexSkip(records[..i], t, code);
    if UniqueCodes(records) {
      forall j | 0 <= j < |t| ensures t[j].Code != code {
        assert t[j] == records[j + i + 1];
      }
    }
  }

  /** With unique codes, a delete keeps the codes unique. */
  lemma UniqueAfterDelete(records: seq<Data>, code: string)
    requires UniqueCodes(records)
    ensures UniqueCodes(Removed(records, code))
  {
    if FindIndex(records, code).Some? {
      var i := FindIndex(records, code).value;
      var s := Removed(records, code);
      forall a, b | 0 <= a < b < |s| ensures s[a].Code != s[b].Code {
        var a' := if a < i then a else a + 1;
        var b' := if b < i then b else b + 1;
        assert s[a] == records[a'] && s[b] == records[b'];
      }
    }
  }
}
