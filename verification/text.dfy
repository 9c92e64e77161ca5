/** The two JavaScript string operations the action relies on: `split` with a
    one-character separator and `trim`. */
module Text {

  /** The code points `String.prototype.trim` removes: the WhiteSpace and
      LineTerminator productions of the ECMAScript language specification
      (tab, line feed, vertical tab, form feed, carriage return, space,
      no-break space, the Unicode space separators, the line and paragraph
      separators and the byte order mark). */
  predicate IsWhitespace(c: char) {
    || c == '\t' || c == '\n' || c == '\U{B}' || c == '\U{C}' || c == '\r'
    || c == ' ' || c == '\U{A0}' || c == '\U{1680}'
    || ('\U{2000}' <= c <= '\U{200A}')
    || c == '\U{2028}' || c == '\U{2029}' || c == '\U{202F}' || c == '\U{205F}'
    || c == '\U{3000}' || c == '\U{FEFF}'
  }

  /** Number of occurrences of `c` in `s`. */
  function Count(s: string, c: char): (n: nat)
    ensures n <= |s|
    ensures n == 0 <==> c !in s
  {
    if |s| == 0 then 0
    else (if s[0] == c then 1 else 0) + Count(s[1..], c)
  }

  /** `Count` agrees with the multiplicity of `c` in the multiset of `s`. */
  lemma {:induction false} CountIsMultiplicity(s: string, c: char)
    ensures Count(s, c) == multiset(s)[c]
  {
    if |s| > 0 {
      assert s == [s[0]] + s[1..];
      CountIsMultiplicity(s[1..], c);
    }
  }

  // ---------------------------------------------------------------------------
  // split

  /** JavaScript's `s.split(sep)` for a one-character separator: the pieces of
      `s` between consecutive separators, in order. Adjacent separators give an
      empty piece, and the empty string splits into one empty piece. */
  function Split(s: string, sep: char): (parts: seq<string>)
    ensures |parts| == Count(s, sep) + 1
    ensures forall k :: 0 <= k < |parts| ==> sep !in parts[k]
    decreases |s|
  {
    if |s| == 0 then [""]
    else
      var rest := Split(s[1..], sep);
      if s[0] == sep then [""] + rest
      else [[s[0]] + rest[0]] + rest[1..]
  }

  /** JavaScript's `parts.join(sep)`, the inverse of `Split`. */
  function Join(parts: seq<string>, sep: char): string
    requires |parts| > 0
  {
    if |parts| == 1 then parts[0] else parts[0] + [sep] + Join(parts[1..], sep)
  }

  /** Gluing `x` to the front of the first piece glues it to the front of
      the joined string. */
  lemma JoinFront(x: string, parts: seq<string>, sep: char)
    requires |parts| > 0
    ensures Join([x + parts[0]] + parts[1..], sep) == x + Join(parts, sep)
  {
    var glued := [x + parts[0]] + parts[1..];
    assert glued[1..] == parts[1..];
  }

  /** An empty first piece joins to a leading separator. */
  lemma JoinEmptyFront(parts: seq<string>, sep: char)
    requires |parts| > 0
    ensures Join([""] + parts, sep) == [sep] + Join(parts, sep)
  {
    assert ([""] + parts)[1..] == parts;
  }

  /** Joining the pieces back with the separator gives the original string:
      `Split` neither loses, adds nor reorders characters. */
  lemma {:induction false} JoinSplit(s: string, sep: char)
    ensures Join(Split(s, sep), sep) == s
    decreases |s|
  {
    if |s| > 0 {
      var t := s[1..];
      assert s == [s[0]] + t;
      var rest := Split(t, sep);
      JoinSplit(t, sep);
      if s[0] == sep {
        SplitSeparator(t, sep);
        JoinEmptyFront(rest, sep);
      } else {
        SplitPrefix([s[0]], t, sep);
        JoinFront([s[0]], rest, sep);
      }
    }
  }

  /** A leading character other than the separator joins the first piece. */
  lemma SplitOther(c: char, t: string, sep: char)
    requires c != sep
    ensures Split([c] + t, sep) == [[c] + Split(t, sep)[0]] + Split(t, sep)[1..]
  {
    assert ([c] + t)[1..] == t;
  }

  /** A split is its first piece followed by the others. */
  lemma SplitFirst(t: string, sep: char)
    ensures Split(t, sep) == [Split(t, sep)[0]] + Split(t, sep)[1..]
  {
  }

  /** Putting back the first character of `p` in front of `p[1..] + x`. */
  lemma ConsAppend(p: string, x: string)
    requires |p| > 0
    ensures [p[0]] + (p[1..] + x) == p + x
  {
    assert p == [p[0]] + p[1..];
  }

  /** Splitting a string that starts with a separator-free prefix `p` glues
      `p` to the front of the first piece of the remainder. */
  lemma {:induction false} SplitPrefix(p: string, t: string, sep: char)
    requires sep !in p
    ensures Split(p + t, sep) == [p + Split(t, sep)[0]] + Split(t, sep)[1..]
    decreases |p|
  {
    var tail := Split(t, sep);
    if |p| == 0 {
      SplitFirst(t, sep);
      assert p + t == t && p + tail[0] == tail[0];
    } else {
      var p' := p[1..];
      var u := p' + t;
      SplitPrefix(p', t, sep);
      var su := Split(u, sep);
      assert su[0] == p' + tail[0];
      assert su[1..] == tail[1..];
      assert p + t == [p[0]] + u;
      SplitOther(p[0], u, sep);
      ConsAppend(p, tail[0]);
    }
  }

  /** Splitting a join of separator-free pieces recovers exactly those pieces:
      the other half of the round trip. */
  lemma {:induction false} SplitJoin(parts: seq<string>, sep: char)
    requires |parts| > 0
    requires forall k :: 0 <= k < |parts| ==> sep !in parts[k]
    ensures Split(Join(parts, sep), sep) == parts
    decreases |parts|
  {
    var p := parts[0];
    if |parts| == 1 {
      SplitPrefix(p, "", sep);
      assert p + "" == p;
      assert Split("", sep) == [""];
      assert Split(Join(parts, sep), sep) == [p];
    } else {
      var rest := parts[1..];
      var tail := Join(rest, sep);
      assert Join(parts, sep) == p + ([sep] + tail);
      SplitJoin(rest, sep);
      SplitSeparator(tail, sep);
      SplitPrefix(p, [sep] + tail, sep);
      assert p + "" == p;
      assert [p] + rest == parts;
    }
  }

  /** A leading separator contributes one empty piece. */
  lemma SplitSeparator(t: string, sep: char)
    ensures Split([sep] + t, sep) == [""] + Split(t, sep)
  {
    assert ([sep] + t)[1..] == t;
  }

  // ---------------------------------------------------------------------------
  // trim

  /** `r` has no whitespace at either end. */
  predicate Unpadded(r: string) {
    r == [] || (!IsWhitespace(r[0]) && !IsWhitespace(r[|r| - 1]))
  }

  /** `s[i..j]` is what is left of `s` once its whitespace margins go: all of
      `s[..i]` and `s[j..]` is whitespace and `s[i..j]` is unpadded. */
  predicate TrimmedAt(s: string, i: nat, j: nat) {
    && i <= j <= |s|
    && (forall k :: 0 <= k < i ==> IsWhitespace(s[k]))
    && (forall k :: j <= k < |s| ==> IsWhitespace(s[k]))
    && Unpadded(s[i..j])
  }

  /** `String.prototype.trim`: `s` without the whitespace at either end. */
  function Trim(s: string): (r: string)
    ensures Unpadded(r)
    ensures |r| <= |s|
    decreases |s|
  {
    if |s| > 0 && IsWhitespace(s[0]) then Trim(s[1..])
    else if |s| > 0 && IsWhitespace(s[|s| - 1]) then Trim(s[..|s| - 1])
    else s
  }

  /** Whitespace in front of a trimmed middle keeps it a trimmed middle. */
  lemma TrimmedAtShift(s: string, i: nat, j: nat)
    requires |s| > 0 && IsWhitespace(s[0])
    requires TrimmedAt(s[1..], i, j)
    ensures TrimmedAt(s, i + 1, j + 1) && s[1..][i..j] == s[i + 1..j + 1]
  {
    assert |s[i + 1..j + 1]| == |s[1..][i..j]|;
    forall k | 0 <= k < j - i
      ensures s[i + 1..j + 1][k] == s[1..][i..j][k]
    {
    }
    assert s[i + 1..j + 1] == s[1..][i..j];
    forall k | 0 < k < i + 1
      ensures IsWhitespace(s[k])
    {
      assert s[k] == s[1..][k - 1];
    }
    forall k | j + 1 <= k < |s|
      ensures IsWhitespace(s[k])
    {
      assert s[k] == s[1..][k - 1];
    }
  }

  /** Whitespace behind a trimmed middle keeps it a trimmed middle. */
  lemma TrimmedAtExtend(s: string, i: nat, j: nat)
    requires |s| > 0 && IsWhitespace(s[|s| - 1])
    requires TrimmedAt(s[..|s| - 1], i, j)
    ensures TrimmedAt(s, i, j) && s[..|s| - 1][i..j] == s[i..j]
  {
    assert s[i..j] == s[..|s| - 1][i..j];
    forall k | 0 <= k < i
      ensures IsWhitespace(s[k])
    {
      assert s[k] == s[..|s| - 1][k];
    }
    forall k | j <= k < |s| - 1
      ensures IsWhitespace(s[k])
    {
      assert s[k] == s[..|s| - 1][k];
    }
  }

  /** `Trim` removes only whitespace margins: what it keeps is the middle of
      `s` between two whitespace-only ends. */
  lemma {:induction false} TrimIsTrimmedAt(s: string)
    ensures exists i: nat, j: nat :: TrimmedAt(s, i, j) && Trim(s) == s[i..j]
    decreases |s|
  {
    if |s| > 0 && IsWhitespace(s[0]) {
      TrimIsTrimmedAt(s[1..]);
      var i: nat, j: nat :| TrimmedAt(s[1..], i, j) && Trim(s[1..]) == s[1..][i..j];
      TrimmedAtShift(s, i, j);
    } else if |s| > 0 && IsWhitespace(s[|s| - 1]) {
      TrimIsTrimmedAt(s[..|s| - 1]);
      var i: nat, j: nat :| TrimmedAt(s[..|s| - 1], i, j) && Trim(s[..|s| - 1]) == s[..|s| - 1][i..j];
      TrimmedAtExtend(s, i, j);
    } else {
      assert s[0..|s|] == s;
      assert TrimmedAt(s, 0, |s|);
    }
  }

  /** The ends of a trimmed middle are not whitespace; an empty middle
      means `s` is whitespace throughout. */
  lemma TrimmedEnds(s: string, i: nat, j: nat)
    requires TrimmedAt(s, i, j)
    ensures i < j ==> !IsWhitespace(s[i]) && !IsWhitespace(s[j - 1])
    ensures i == j ==> forall k :: 0 <= k < |s| ==> IsWhitespace(s[k])
  {
    if i < j {
      assert s[i..j][0] == s[i];
      assert s[i..j][j - 1 - i] == s[j - 1];
    }
  }

  /** Two ways of cutting the whitespace margins off `s` leave the same middle. */
  lemma MarginsAgree(s: string, i: nat, j: nat, i': nat, j': nat)
    requires TrimmedAt(s, i, j) && TrimmedAt(s, i', j')
    ensures s[i..j] == s[i'..j']
  {
    TrimmedEnds(s, i, j);
    TrimmedEnds(s, i', j');
    assert i < j ==> i' <= i && j <= j';
    assert i' < j' ==> i <= i' && j' <= j;
  }

  /** There is only one way to trim: any split of `s` into whitespace margins
      around an unpadded middle has `Trim(s)` as its middle. */
  lemma TrimUnique(s: string, i: nat, j: nat)
    requires TrimmedAt(s, i, j)
    ensures Trim(s) == s[i..j]
  {
    TrimIsTrimmedAt(s);
    var i': nat, j': nat :| TrimmedAt(s, i', j') && Trim(s) == s[i'..j'];
    MarginsAgree(s, i, j, i', j');
  }

  /** Trimming twice is trimming once. */
  lemma TrimIdempotent(s: string)
    ensures Trim(Trim(s)) == Trim(s)
  {
    var r := Trim(s);
    assert r[0..|r|] == r;
    TrimUnique(r, 0, |r|);
  }

  /** A string that already has no whitespace at either end is left alone. */
  lemma TrimUnpadded(s: string)
    requires Unpadded(s)
    ensures Trim(s) == s
  {
    assert s[0..|s|] == s;
    TrimUnique(s, 0, |s|);
  }
}
