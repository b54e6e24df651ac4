/** The JavaScript string and array operations that the history route chains
    together on the log file's content: `String.prototype.trim`,
    `String.prototype.split("\n")`, `filter(line => line.length > 0)` and the
    in-place `Array.prototype.reverse`. */
module JsText {

  /** The characters `trim` removes: ECMAScript's WhiteSpace and LineTerminator code points. */
  predicate IsWhitespace(c: char) {
    || c == '\t' || c == '\n' || c == '\U{B}' || c == '\U{C}' || c == '\r' || c == ' '
    || c == '\U{A0}' || c == '\U{1680}' || ('\U{2000}' <= c <= '\U{200A}')
    || c == '\U{2028}' || c == '\U{2029}' || c == '\U{202F}' || c == '\U{205F}'
    || c == '\U{3000}' || c == '\U{FEFF}'
  }

  /** Drops the longest whitespace prefix. */
  function TrimStart(s: string): (r: string)
    ensures |r| <= |s| && r == s[|s| - |r|..]
    ensures r == "" || !IsWhitespace(r[0])
    ensures forall i :: 0 <= i < |s| - |r| ==> IsWhitespace(s[i])
  {
    if |s| > 0 && IsWhitespace(s[0]) then TrimStart(s[1..]) else s
  }

  /** Drops the longest whitespace suffix. */
  function TrimEnd(s: string): (r: string)
    ensures |r| <= |s| && r == s[..|r|]
    ensures r == "" || !IsWhitespace(r[|r| - 1])
    ensures forall i :: |r| <= i < |s| ==> IsWhitespace(s[i])
  {
    if |s| > 0 && IsWhitespace(s[|s| - 1]) then TrimEnd(s[..|s| - 1]) else s
  }

  /** `s.trim()`: the middle of `s` left once whitespace is dropped from both ends. */
  function Trim(s: string): (r: string)
    ensures |r| <= |s|
    ensures r == "" || (!IsWhitespace(r[0]) && !IsWhitespace(r[|r| - 1]))
  {
    TrimEnd(TrimStart(s))
  }

  /** What `Trim` keeps is a slice of its input with only whitespace before and after it. */
  lemma TrimIsMiddle(s: string)
    ensures var k := |s| - |TrimStart(s)|;
      && k + |Trim(s)| <= |s| && Trim(s) == s[k..k + |Trim(s)|]
      && (forall i :: 0 <= i < k ==> IsWhitespace(s[i]))
      && (forall i :: k + |Trim(s)| <= i < |s| ==> IsWhitespace(s[i]))
  {
    var t := TrimStart(s);
    MiddleSlice(s, |s| - |t|, TrimEnd(t));
  }

  /** A prefix `r` of `s[k..]` followed there by whitespace only is the slice
      `s[k..k + |r|]`, and what follows it in `s` is whitespace. */
  lemma MiddleSlice(s: string, k: nat, r: string)
    requires k <= |s| && |r| <= |s| - k && r == s[k..][..|r|]
    requires forall i :: |r| <= i < |s| - k ==> IsWhitespace(s[k..][i])
    ensures r == s[k..k + |r|]
    ensures forall i :: k + |r| <= i < |s| ==> IsWhitespace(s[i])
  {
    forall i | k + |r| <= i < |s| ensures IsWhitespace(s[i]) {
      assert s[i] == s[k..][i - k];
    }
  }

  /** The pieces joined back with a newline between each two: the inverse of `Split`. */
  function JoinLines(pieces: seq<string>): string {
    if |pieces| == 0 then ""
    else if |pieces| == 1 then pieces[0]
    else pieces[0] + "\n" + JoinLines(pieces[1..])
  }

  /** `s.split("\n")`: the text between consecutive newlines, so the empty
      string gives one empty piece and every newline adds one piece. */
  function Split(s: string): (pieces: seq<string>)
    ensures |pieces| >= 1
    ensures forall p :: p in pieces ==> '\n' !in p
  {
    if |s| == 0 then [""]
    else if s[0] == '\n' then [""] + Split(s[1..])
    else
      var rest := Split(s[1..]);
      [[s[0]] + rest[0]] + rest[1..]
  }

  /** `xs.filter(line => line.length > 0)` */
  function NonEmpty(xs: seq<string>): (ys: seq<string>)
    ensures |ys| <= |xs|
    ensures forall y :: y in ys ==> y != "" && y in xs
    ensures forall x :: x in xs && x != "" ==> x in ys
  {
    if xs == [] then []
    else if xs[0] == "" then NonEmpty(xs[1..])
    else [xs[0]] + NonEmpty(xs[1..])
  }

  /** The reversal that `Array.prototype.reverse` performs: the last element first. */
  function Reversed<T(!new)>(s: seq<T>): (r: seq<T>)
    ensures |r| == |s|
    ensures forall i :: 0 <= i < |s| ==> r[i] == s[|s| - 1 - i]
    ensures forall x :: x in r <==> x in s
  {
    if s == [] then [] else [s[|s| - 1]] + Reversed(s[..|s| - 1])
  }

  /** Joining the pieces back gives the text that was split. */
  lemma {:induction false} JoinSplit(s: string)
    ensures JoinLines(Split(s)) == s
  {
    if |s| > 0 {
      var rest := Split(s[1..]);
      JoinSplit(s[1..]);
      if s[0] == '\n' {
        assert s == "\n" + s[1..];
      } else {
        var r := [[s[0]] + rest[0]] + rest[1..];
        assert r[1..] == rest[1..];
        assert s == [s[0]] + s[1..];
      }
    }
  }

  /** Splitting a text without newlines gives that text alone. */
  lemma {:induction false} SplitNoNewline(s: string)
    requires '\n' !in s
    ensures Split(s) == [s]
  {
    if |s| > 0 {
      assert '\n' !in s[1..] by {
        forall i | 0 <= i < |s| - 1 ensures s[1..][i] != '\n' {
          assert s[1..][i] == s[i + 1];
        }
      }
      SplitNoNewline(s[1..]);
      assert s == [s[0]] + s[1..];
    }
  }

  /** A newline in front of a text adds an empty piece in front of its pieces. */
  lemma SplitNewlineCons(t: string)
    ensures Split("\n" + t) == [""] + Split(t)
  {
    assert ("\n" + t)[1..] == t;
  }

  /** Any other character in front of a text joins the text's first piece. */
  lemma SplitCharCons(c: char, t: string)
    requires c != '\n'
    ensures Split([c] + t) == [[c] + Split(t)[0]] + Split(t)[1..]
  {
    assert ([c] + t)[1..] == t;
  }

  /** A newline separates the pieces of what precedes it from the pieces of what follows it. */
  lemma {:induction false} SplitAtNewline(a: string, b: string)
    ensures Split(a + "\n" + b) == Split(a) + Split(b)
  {
    if |a| == 0 {
      assert a + "\n" + b == "\n" + b;
      SplitNewlineCons(b);
    } else {
      var t := a[1..];
      assert a == [a[0]] + t;
      assert a + "\n" + b == [a[0]] + (t + "\n" + b);
      SplitAtNewline(t, b);
      if a[0] == '\n' {
        assert [a[0]] == "\n";
        SplitNewlineCons(t + "\n" + b);
        SplitNewlineCons(t);
      } else {
        SplitCharStep(a[0], t, b);
      }
    }
  }

  lemma SplitCharStep(c: char, t: string, b: string)
    requires c != '\n'
    requires Split(t + "\n" + b) == Split(t) + Split(b)
    ensures Split([c] + (t + "\n" + b)) == Split([c] + t) + Split(b)
  {
    SplitCharCons(c, t + "\n" + b);
    SplitCharCons(c, t);
    JoinFirstPiece([c], Split(t), Split(b));
  }

  lemma JoinFirstPiece(h: string, ra: seq<string>, rb: seq<string>)
    requires |ra| >= 1
    ensures [h + (ra + rb)[0]] + (ra + rb)[1..] == ([h + ra[0]] + ra[1..]) + rb
  {
    assert (ra + rb)[1..] == ra[1..] + rb;
  }

  /** Split undoes JoinLines when no piece holds a newline. */
  lemma {:induction false} SplitJoinLines(pieces: seq<string>)
    requires |pieces| >= 1
    requires forall p :: p in pieces ==> '\n' !in p
    ensures Split(JoinLines(pieces)) == pieces
  {
    SplitNoNewline(pieces[0]);
    if |pieces| > 1 {
      SplitJoinLines(pieces[1..]);
      SplitAtNewline(pieces[0], JoinLines(pieces[1..]));
      assert pieces == [pieces[0]] + pieces[1..];
    }
  }

  /** The filter works element by element: it keeps order and duplicates. */
  lemma {:induction false} NonEmptyAppend(a: seq<string>, b: seq<string>)
    ensures NonEmpty(a + b) == NonEmpty(a) + NonEmpty(b)
  {
    if a != [] {
      assert (a + b)[0] == a[0];
      assert (a + b)[1..] == a[1..] + b;
      NonEmptyAppend(a[1..], b);
    } else {
      assert a + b == b;
    }
  }

  /** One element is kept exactly when it is non-empty. */
  lemma NonEmptySingle(x: string)
    ensures NonEmpty([x]) == if x == "" then [] else [x]
  {
    assert [x][1..] == [];
  }

  /** Filtering keeps a list whose elements are all non-empty as it is. */
  lemma {:induction false} NonEmptyKeepsNonEmpty(xs: seq<string>)
    requires forall x :: x in xs ==> x != ""
    ensures NonEmpty(xs) == xs
  {
    if xs != [] {
      assert xs[0] in xs;
      forall x | x in xs[1..] ensures x != "" {
        var i :| 0 <= i < |xs[1..]| && xs[1..][i] == x;
        assert xs[i + 1] == x;
        assert xs[i + 1] in xs;
      }
      NonEmptyKeepsNonEmpty(xs[1..]);
      assert xs == [xs[0]] + xs[1..];
    }
  }

  /** Reversing a list with one more element at its end puts that element first. */
  lemma ReversedSnoc<T(!new)>(s: seq<T>, x: T)
    ensures Reversed(s + [x]) == [x] + Reversed(s)
  {
    assert (s + [x])[..|s|] == s;
  }

  /** `a.reverse()`, in place, with the usual pair of indices walking towards each other. */
  method ReverseInPlace<T(!new)>(a: array<T>)
    modifies a
    ensures a[..] == Reversed(old(a[..]))
  {
    var lo, hi := 0, a.Length - 1;
    while lo < hi
      invariant 0 <= lo && hi == a.Length - 1 - lo && lo <= a.Length - lo
      invariant forall k :: 0 <= k < lo ==> a[k] == old(a[a.Length - 1 - k]) && a[a.Length - 1 - k] == old(a[k])
      invariant forall k :: lo <= k <= hi ==> a[k] == old(a[k])
    {
      a[lo], a[hi] := a[hi], a[lo];
      lo, hi := lo + 1, hi - 1;
    }
  }
}
