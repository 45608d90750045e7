/**
 * The filter of main.go (filterData, containsAll): a record passes when its
 * model equals the requested one, unless none is requested, and when every
 * requested tech key equals one of its trimmed tech keys, unless none is
 * requested.
 */
module Filter {
  import opened Models
  import opened Text
  import opened Subsequences

  /** Some key of `source`, trimmed, equals `wanted` exactly. */
  predicate HasToken(source: seq<string>, wanted: string)
    decreases |source|
  {
    |source| > 0 && (TrimSpace(source[0]) == wanted || HasToken(source[1..], wanted))
  }

  /** containsAll: every filter is found among the trimmed source keys, checked in order. */
  predicate ContainsAll(source: seq<string>, filters: seq<string>)
    decreases |filters|
  {
    |filters| == 0 || (HasToken(source, filters[0]) && ContainsAll(source, filters[1..]))
  }

  /** Some trimmed key of `source` equals `wanted`. */
  ghost predicate Found(source: seq<string>, wanted: string) {
    exists j :: 0 <= j < |source| && TrimSpace(source[j]) == wanted
  }

  /** The scan of the inner loop finds `wanted` exactly when some trimmed key equals it. */
  lemma {:induction false} HasTokenIff(source: seq<string>, wanted: string)
    ensures HasToken(source, wanted) <==> Found(source, wanted)
    decreases |source|
  {
    if |source| > 0 {
      HasTokenIff(source[1..], wanted);
      if !HasToken(source, wanted) {
        forall j | 0 <= j < |source| ensures TrimSpace(source[j]) != wanted {
          if j > 0 {
            assert source[j] == source[1..][j - 1];
          }
        }
      } else if TrimSpace(source[0]) != wanted {
        var j :| 0 <= j < |source[1..]| && TrimSpace(source[1..][j]) == wanted;
        assert source[j + 1] == source[1..][j];
      }
    }
  }

  /**
   * containsAll holds exactly when each filter equals some trimmed source
   * key; in particular it holds for no filters at all.
   */
  lemma {:induction false} ContainsAllIff(source: seq<string>, filters: seq<string>)
    ensures ContainsAll(source, filters) <==> forall i :: 0 <= i < |filters| ==> Found(source, filters[i])
    decreases |filters|
  {
    if |filters| > 0 {
      ContainsAllIff(source, filters[1..]);
      HasTokenIff(source, filters[0]);
      assert forall i :: 0 < i < |filters| ==> filters[i] == filters[1..][i - 1];
    }
  }

  /**
   * Trimming applies to the record's keys only: a filter that is non-empty
   * and starts or ends with white space never matches, so no record passes it.
   */
  lemma PaddedFilterNeverMatches(source: seq<string>, filters: seq<string>, i: nat)
    requires i < |filters| && filters[i] != []
    requires IsSpace(filters[i][0]) || IsSpace(filters[i][|filters[i]| - 1])
    ensures !ContainsAll(source, filters)
  {
    forall j | 0 <= j < |source| ensures TrimSpace(source[j]) != filters[i] {
      TrimSpaceKeepsMiddle(source[j]);
    }
    assert !Found(source, filters[i]);
    ContainsAllIff(source, filters);
  }

  /** The record passes the query: requested model (if any) and all requested tech keys (if any). */
  predicate Matches(d: Data, model: string, techs: seq<string>) {
    (model == "" || d.Model == model) && (|techs| == 0 || ContainsAll(Split(d.Tech), techs))
  }

  /** filterData: the records that pass, in collection order. */
  function Filtered(records: seq<Data>, model: string, techs: seq<string>): seq<Data>
    decreases |records|
  {
    if |records| == 0 then []
    else
      var last := records[|records| - 1];
      Filtered(records[..|records| - 1], model, techs) + (if Matches(last, model, techs) then [last] else [])
  }

  /** The filter result keeps the collection's order: it is a subsequence of it. */
  lemma {:induction false} FilteredIsSubsequence(records: seq<Data>, model: string, techs: seq<string>)
    ensures IsSubsequence(Filtered(records, model, techs), records)
    decreases |records|
  {
    if |records| > 0 {
      var init := records[..|records| - 1];
      var last := records[|records| - 1];
      var f := Filtered(init, model, techs);
      FilteredIsSubsequence(init, model, techs);
      assert records[..|records| - 1] == init;
      if Matches(last, model, techs) {
        var g := f + [last];
        assert g[|g| - 1] == records[|records| - 1];
        assert g[..|g| - 1] == f;
        assert Filtered(records, model, techs) == g;
        assert IsSubsequence(g, records);
      } else {
        assert Filtered(records, model, techs) == f;
        SubsequenceExtend(f, init, last);
      }
    }
  }

  /**
   * The filter result holds each passing record as often as the collection
   * does, and no other record.
   */
  lemma {:induction false} FilteredCount(records: seq<Data>, model: string, techs: seq<string>, d: Data)
    ensures multiset(Filtered(records, model, techs))[d] ==
      if Matches(d, model, techs) then multiset(records)[d] else 0
    decreases |records|
  {
    if |records| > 0 {
      var init := records[..|records| - 1];
      var last := records[|records| - 1];
      FilteredCount(init, model, techs, d);
      assert records == init + [last];
    }
  }

  /** A record is in the filter result exactly when it is in the collection and passes. */
  lemma FilteredMembers(records: seq<Data>, model: string, techs: seq<string>, d: Data)
    ensures d in Filtered(records, model, techs) <==> d in records && Matches(d, model, techs)
  {
    FilteredCount(records, model, techs, d);
  }

  /** With no model and no tech requested, the filter returns the whole collection. */
  lemma {:induction false} FilteredUnfiltered(records: seq<Data>)
    ensures Filtered(records, "", []) == records
    decreases |records|
  {
    if |records| > 0 {
      FilteredUnfiltered(records[..|records| - 1]);
    }
  }

  /**
   * Two records of one model, with tech "t1, t2" and "t1" for two distinct
   * keys t1 and t2 free of commas and white space: asking for the model with
   * t1 and t2 keeps the first only; asking for t1 alone keeps both.
   */
  lemma FilterExample(a: Data, b: Data, m: string, t1: string, t2: string)
    requires t1 != t2
    requires forall k :: 0 <= k < |t1| ==> t1[k] != ',' && !IsSpace(t1[k])
    requires forall k :: 0 <= k < |t2| ==> t2[k] != ',' && !IsSpace(t2[k])
    requires a.Model == m && a.Tech == t1 + Sep + t2
    requires b.Model == m && b.Tech == t1
    ensures Filtered([a, b], m, [t1, t2]) == [a]
    ensures Filtered([a, b], "", [t1]) == [a, b]
  {
    NoCommaNoSep(t1);
    NoCommaNoSep(t2);
    NoSpaceTrimmed(t1);
    NoSpaceTrimmed(t2);
    FilterTwoKeys(a, b, m, t1, t2);
  }

  /** The core of `FilterExample`, once the keys are known to be separator-free and trimmed. */
  lemma FilterTwoKeys(a: Data, b: Data, m: string, t1: string, t2: string)
    requires t1 != t2 && !HasSep(t1) && !HasSep(t2)
    requires TrimSpace(t1) == t1 && TrimSpace(t2) == t2
    requires a.Model == m && a.Tech == t1 + Sep + t2
    requires b.Model == m && b.Tech == t1
    ensures Filtered([a, b], m, [t1, t2]) == [a]
    ensures Filtered([a, b], "", [t1]) == [a, b]
  {
    SplitTwo(t1, t2);
    SplitNoSep(t1);
    TwoKeysMatch(t1, t2);
    assert Matches(a, m, [t1, t2]) && !Matches(b, m, [t1, t2]);
    assert Matches(a, "", [t1]) && Matches(b, "", [t1]);
    FilterPair(a, b, m, [t1, t2]);
    FilterPair(a, b, "", [t1]);
  }

  /** Filtering two records keeps each one that passes, in order. */
  lemma FilterPair(a: Data, b: Data, m: string, techs: seq<string>)
    ensures Filtered([a, b], m, techs) ==
      (if Matches(a, m, techs) then [a] else []) + (if Matches(b, m, techs) then [b] else [])
  {
    assert [a, b][..1] == [a] && [a][..0] == [];
    assert Filtered([a], m, techs) == [] + (if Matches(a, m, techs) then [a] else []);
  }

  /** Which of the key lists `[t1, t2]` and `[t1]` holds all the keys of which, for distinct trimmed keys. */
  lemma TwoKeysMatch(t1: string, t2: string)
    requires t1 != t2 && TrimSpace(t1) == t1 && TrimSpace(t2) == t2
    ensures ContainsAll([t1, t2], [t1, t2]) && ContainsAll([t1, t2], [t1])
    ensures ContainsAll([t1], [t1]) && !ContainsAll([t1], [t1, t2])
  {
    assert HasToken([t1, t2], t1);
    assert [t1, t2][1..] == [t2] && [t2][1..] == [] && [t1][1..] == [];
    assert HasToken([t1, t2], t2);
    assert !HasToken([t1], t2);
  }
}
