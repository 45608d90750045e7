/**
 * The three pieces of Go's strings package the service relies on: splitting
 * on the separator ", ", joining with it, and trimming white space.
 */
module Text {

  /** The separator between the tech keys of a record. */
  const Sep: string := ", "

  /** True when `s` holds the separator somewhere. */
  predicate HasSep(s: string)
    decreases |s|
  {
    |s| >= 2 && (s[..2] == Sep || HasSep(s[1..]))
  }

  /**
   * strings.Split(s, ", "): the pieces between the leftmost non-overlapping
   * occurrences of the separator. A string without the separator, the empty
   * string included, gives a single piece.
   */
  function Split(s: string): (r: seq<string>)
    ensures |r| >= 1
    decreases |s|
  {
    if |s| < 2 then [s]
    else if s[..2] == Sep then [""] + Split(s[2..])
    else
      var rest := Split(s[1..]);
      [[s[0]] + rest[0]] + rest[1..]
  }

  /** strings.Join(parts, ", "). */
  function Join(parts: seq<string>): string {
    if |parts| == 0 then ""
    else if |parts| == 1 then parts[0]
    else parts[0] + Sep + Join(parts[1..])
  }

  /** Joining the pieces of a split gives back the original string. */
  lemma {:induction false} JoinSplit(s: string)
    ensures Join(Split(s)) == s
    decreases |s|
  {
    if |s| < 2 {
    } else if s[..2] == Sep {
      JoinSplit(s[2..]);
      assert s == Sep + s[2..];
    } else {
      var rest := Split(s[1..]);
      JoinSplit(s[1..]);
      if |rest| == 1 {
        assert s == [s[0]] + s[1..];
      } else {
        assert Join(rest) == rest[0] + Sep + Join(rest[1..]);
        assert s == [s[0]] + s[1..];
      }
    }
  }

  /** No piece of a split holds the separator. */
  lemma {:induction false} SplitPiecesHaveNoSep(s: string)
    ensures forall k :: 0 <= k < |Split(s)| ==> !HasSep(Split(s)[k])
    decreases |s|
  {
    if |s| < 2 {
    } else if s[..2] == Sep {
      SplitPiecesHaveNoSep(s[2..]);
    } else {
      var rest := Split(s[1..]);
      SplitPiecesHaveNoSep(s[1..]);
      var head := [s[0]] + rest[0];
      assert head[1..] == rest[0];
      if |rest[0]| > 0 {
        PieceIsPrefix(s[1..]);
        assert head[..2] == s[..2];
      }
      assert !HasSep(head);
    }
  }

  /** The first piece of a split is a prefix of the string. */
  lemma {:induction false} PieceIsPrefix(s: string)
    ensures |Split(s)[0]| <= |s| && Split(s)[0] == s[..|Split(s)[0]|]
    decreases |s|
  {
    if |s| >= 2 && s[..2] != Sep {
      var rest := Split(s[1..]);
      PieceIsPrefix(s[1..]);
      assert Split(s)[0] == [s[0]] + rest[0];
      assert rest[0] == s[1..][..|rest[0]|];
      assert s[..|rest[0]| + 1] == [s[0]] + s[1..][..|rest[0]|];
    }
  }

  /** A string without a comma cannot hold the separator. */
  lemma {:induction false} NoCommaNoSep(t: string)
    requires forall k :: 0 <= k < |t| ==> t[k] != ','
    ensures !HasSep(t)
    decreases |t|
  {
    if |t| >= 2 {
      NoCommaNoSep(t[1..]);
      assert t[..2][0] == t[0];
    }
  }

  /** A string without the separator splits into itself alone. */
  lemma {:induction false} SplitNoSep(t: string)
    requires !HasSep(t)
    ensures Split(t) == [t]
    decreases |t|
  {
    if |t| >= 2 {
      SplitNoSep(t[1..]);
      assert [t[0]] + t[1..] == t;
    }
  }

  /** Two pieces without the separator, joined by it, split back into the two. */
  lemma SplitTwo(t1: string, t2: string)
    requires !HasSep(t1) && !HasSep(t2)
    ensures Split(t1 + Sep + t2) == [t1, t2]
  {
    SplitCons(t1, t2);
    SplitNoSep(t2);
  }

  /** A piece without the separator, the separator, and the rest: the piece comes off first. */
  lemma {:induction false} SplitCons(t: string, rest: string)
    requires !HasSep(t)
    ensures Split(t + Sep + rest) == [t] + Split(rest)
    decreases |t|
  {
    var s := t + Sep + rest;
    if |t| == 0 {
      assert s[..2] == Sep;
      assert s[2..] == rest;
    } else {
      if |t| == 1 {
        assert s[1] == ',';
      } else {
        assert s[..2] == t[..2];
      }
      assert s[1..] == t[1..] + Sep + rest;
      SplitCons(t[1..], rest);
      assert [t[0]] + t[1..] == t;
    }
  }

  /** Splitting a join of separator-free pieces gives back the pieces. */
  lemma {:induction false} SplitJoin(parts: seq<string>)
    requires |parts| >= 1
    requires forall k :: 0 <= k < |parts| ==> !HasSep(parts[k])
    ensures Split(Join(parts)) == parts
    decreases |parts|
  {
    if |parts| == 1 {
      SplitNoSep(parts[0]);
    } else {
      SplitJoin(parts[1..]);
      SplitCons(parts[0], Join(parts[1..]));
      assert parts == [parts[0]] + parts[1..];
    }
  }

  /**
   * White space as Go's unicode.IsSpace defines it, which is what
   * strings.TrimSpace removes: the ASCII spaces, NEL, NBSP, and the
   * Unicode space separators, line and paragraph separators.
   */
  predicate IsSpace(c: char) {
    c == '\t' || c == '\n' || c == '\U{000B}' || c == '\U{000C}' || c == '\r' || c == ' '
    || c == '\U{0085}' || c == '\U{00A0}' || c == '\U{1680}'
    || ('\U{2000}' <= c <= '\U{200A}')
    || c == '\U{2028}' || c == '\U{2029}' || c == '\U{202F}' || c == '\U{205F}' || c == '\U{3000}'
  }

  /** Drops the leading white space: what remains is a suffix that starts with a non-space. */
  function TrimLeft(s: string): (r: string)
    ensures |r| <= |s| && r == s[|s| - |r|..]
    ensures forall k :: 0 <= k < |s| - |r| ==> IsSpace(s[k])
    ensures r != [] ==> !IsSpace(r[0])
    decreases |s|
  {
    if |s| > 0 && IsSpace(s[0]) then TrimLeft(s[1..]) else s
  }

  /** Drops the trailing white space: what remains is a prefix that ends with a non-space. */
  function TrimRight(s: string): (r: string)
    ensures |r| <= |s| && r == s[..|r|]
    ensures forall k :: |r| <= k < |s| ==> IsSpace(s[k])
    ensures r != [] ==> !IsSpace(r[|r| - 1])
    decreases |s|
  {
    if |s| > 0 && IsSpace(s[|s| - 1]) then TrimRight(s[..|s| - 1]) else s
  }

  /** strings.TrimSpace. */
  function TrimSpace(s: string): string {
    TrimRight(TrimLeft(s))
  }

  /** How many white-space characters TrimSpace drops from the front of `s`. */
  function Lead(s: string): nat {
    |s| - |TrimLeft(s)|
  }

  /**
   * TrimSpace keeps a contiguous middle of the string, removes only white
   * space around it, and leaves neither end of the result on a space.
   */
  lemma TrimSpaceKeepsMiddle(s: string)
    ensures Lead(s) + |TrimSpace(s)| <= |s|
    ensures TrimSpace(s) == s[Lead(s)..Lead(s) + |TrimSpace(s)|]
    ensures forall k :: 0 <= k < Lead(s) ==> IsSpace(s[k])
    ensures forall k :: Lead(s) + |TrimSpace(s)| <= k < |s| ==> IsSpace(s[k])
    ensures TrimSpace(s) != [] ==> !IsSpace(TrimSpace(s)[0]) && !IsSpace(TrimSpace(s)[|TrimSpace(s)| - 1])
  {
    TrimRightOfSuffix(s, Lead(s));
    TrimSpaceEnds(s);
  }

  /** Neither end of a non-empty trimmed string is white space. */
  lemma TrimSpaceEnds(s: string)
    ensures TrimSpace(s) != [] ==> !IsSpace(TrimSpace(s)[0]) && !IsSpace(TrimSpace(s)[|TrimSpace(s)| - 1])
  {
    var l := TrimLeft(s);
    if TrimRight(l) != [] {
      assert TrimRight(l)[0] == l[0];
    }
  }

  /** Trimming the right of a suffix of `s` keeps a slice of `s` and drops only white space of `s`. */
  lemma TrimRightOfSuffix(s: string, i: nat)
    requires i <= |s|
    ensures i + |TrimRight(s[i..])| <= |s|
    ensures TrimRight(s[i..]) == s[i..i + |TrimRight(s[i..])|]
    ensures forall k :: i + |TrimRight(s[i..])| <= k < |s| ==> IsSpace(s[k])
  {
    var l := s[i..];
    var r := TrimRight(l);
    assert r == l[..|r|];
    assert l[..|r|] == s[i..i + |r|];
    forall k | i + |r| <= k < |s| ensures IsSpace(s[k]) {
      assert s[k] == l[k - i];
    }
  }

  /** A string with no white space in it is left as it is by trimming. */
  lemma NoSpaceTrimmed(t: string)
    requires forall k :: 0 <= k < |t| ==> !IsSpace(t[k])
    ensures TrimSpace(t) == t
  {
    assert TrimLeft(t) == t;
  }

  /** Trimming twice is trimming once. */
  lemma TrimSpaceIdempotent(s: string)
    ensures TrimSpace(TrimSpace(s)) == TrimSpace(s)
  {
    var r := TrimSpace(s);
    TrimSpaceKeepsMiddle(s);
    if r != [] {
      assert TrimLeft(r) == r;
      assert TrimRight(r) == r;
    }
  }
}
