/** String helpers the Go program takes from its `strings` package: `Split` and `Join`
    with a one-element separator, `TrimSpace`, and ASCII case mapping. They are generic
    where the program applies them both to text and to bytes. */
module Text {

  /** `strings.Split(s, sep)` for a separator of length one: the pieces of `s` between
      occurrences of `sep`, in order. An empty input yields one empty piece. */
  function Split<T(==)>(s: seq<T>, sep: T): (parts: seq<seq<T>>)
    ensures |parts| >= 1
    ensures forall i :: 0 <= i < |parts| ==> sep !in parts[i]
    decreases |s|
  {
    if |s| == 0 then [[]]
    else
      var rest := Split(s[1..], sep);
      if s[0] == sep then [[]] + rest
      else [[s[0]] + rest[0]] + rest[1..]
  }

  /** `strings.Join(parts, sep)`: the pieces glued with one separator between neighbours. */
  function Join<T>(parts: seq<seq<T>>, sep: T): seq<T>
  {
    if |parts| == 0 then []
    else if |parts| == 1 then parts[0]
    else parts[0] + [sep] + Join(parts[1..], sep)
  }

  /** Splitting and re-joining gives back the input. */
  lemma {:induction false} JoinSplit<T>(s: seq<T>, sep: T)
    ensures Join(Split(s, sep), sep) == s
    decreases |s|
  {
    if |s| > 0 {
      JoinSplit(s[1..], sep);
      var rest := Split(s[1..], sep);
      assert s == [s[0]] + s[1..];
      if s[0] == sep {
        assert ([[]] + rest)[1..] == rest;
      } else if |rest| > 1 {
        var parts := [[s[0]] + rest[0]] + rest[1..];
        assert parts[1..] == rest[1..];
      }
    }
  }

  /** A sequence free of the separator is a single piece. */
  lemma {:induction false} SplitWithoutSeparator<T>(a: seq<T>, sep: T)
    requires sep !in a
    ensures Split(a, sep) == [a]
    decreases |a|
  {
    if |a| > 0 {
      assert sep !in a[1..];
      SplitWithoutSeparator(a[1..], sep);
      assert [a[0]] + a[1..] == a;
    }
  }

  /** The first piece ends at the first separator. */
  lemma {:induction false} SplitAtSeparator<T>(a: seq<T>, sep: T, b: seq<T>)
    requires sep !in a
    ensures Split(a + [sep] + b, sep) == [a] + Split(b, sep)
    decreases |a|
  {
    var s := a + [sep] + b;
    if |a| == 0 {
      assert s == [sep] + b;
      assert s[1..] == b;
    } else {
      assert s[1..] == a[1..] + [sep] + b;
      assert sep !in a[1..];
      SplitAtSeparator(a[1..], sep, b);
      assert [a[0]] + a[1..] == a;
    }
  }

  /** Joining pieces that are free of the separator and splitting again gives back the pieces. */
  lemma {:induction false} SplitJoin<T>(parts: seq<seq<T>>, sep: T)
    requires |parts| >= 1
    requires forall i :: 0 <= i < |parts| ==> sep !in parts[i]
    ensures Split(Join(parts, sep), sep) == parts
    decreases |parts|
  {
    if |parts| == 1 {
      SplitWithoutSeparator(parts[0], sep);
    } else {
      SplitJoin(parts[1..], sep);
      SplitAtSeparator(parts[0], sep, Join(parts[1..], sep));
      assert [parts[0]] + parts[1..] == parts;
    }
  }

  /** How a join starts: with the first piece's first element, or with the separator when
      the first of several pieces is empty. */
  lemma JoinFirst<T>(parts: seq<seq<T>>, sep: T)
    ensures |parts| >= 1 && |parts[0]| > 0 ==> |Join(parts, sep)| > 0 && Join(parts, sep)[0] == parts[0][0]
    ensures |parts| > 1 && |parts[0]| == 0 ==> |Join(parts, sep)| > 0 && Join(parts, sep)[0] == sep
    ensures |parts| == 1 ==> Join(parts, sep) == parts[0]
  {
    if |parts| > 1 {
      assert Join(parts, sep) == parts[0] + [sep] + Join(parts[1..], sep);
    }
  }

  /** Every element of a joined sequence comes from a piece or is the separator. */
  lemma {:induction false} JoinElements<T>(parts: seq<seq<T>>, sep: T, x: T)
    requires x in Join(parts, sep)
    ensures x == sep || exists i :: 0 <= i < |parts| && x in parts[i]
    decreases |parts|
  {
    if |parts| > 1 {
      var rest := Join(parts[1..], sep);
      assert Join(parts, sep) == parts[0] + [sep] + rest;
      if x !in parts[0] && x != sep {
        JoinElements(parts[1..], sep, x);
        if x != sep {
          var i :| 0 <= i < |parts[1..]| && x in parts[1..][i];
          assert x in parts[i + 1];
        }
      }
    }
  }

  /** Go's `unicode.IsSpace`: the ASCII white-space characters, NEL, NBSP and the other
      code points of Unicode's White_Space property. */
  predicate IsSpace(c: char)
  {
    || c == ' ' || ('\t' <= c <= '\r')
    || c == '\U{85}' || c == '\U{A0}' || c == '\U{1680}'
    || ('\U{2000}' <= c <= '\U{200A}')
    || c == '\U{2028}' || c == '\U{2029}' || c == '\U{202F}' || c == '\U{205F}' || c == '\U{3000}'
  }

  predicate AllSpace(s: string)
  {
    forall i :: 0 <= i < |s| ==> IsSpace(s[i])
  }

  /** True when `s` neither starts nor ends with white space. */
  predicate Trimmed(s: string)
  {
    |s| == 0 || (!IsSpace(s[0]) && !IsSpace(s[|s| - 1]))
  }

  /** `strings.TrimLeft` with white space as cutset: the longest suffix not starting with space. */
  function TrimLeft(s: string): (r: string)
    ensures |r| <= |s| && r == s[|s| - |r|..]
    ensures AllSpace(s[..|s| - |r|])
    ensures |r| == 0 || !IsSpace(r[0])
    decreases |s|
  {
    if |s| > 0 && IsSpace(s[0]) then
      var r := TrimLeft(s[1..]);
      assert s[..|s| - |r|] == [s[0]] + s[1..][..|s| - 1 - |r|];
      r
    else s
  }

  /** `strings.TrimRight` with white space as cutset: the longest prefix not ending with space. */
  function TrimRight(s: string): (r: string)
    ensures |r| <= |s| && r == s[..|r|]
    ensures AllSpace(s[|r|..])
    ensures |r| == 0 || !IsSpace(r[|r| - 1])
    decreases |s|
  {
    if |s| > 0 && IsSpace(s[|s| - 1]) then
      var p := s[..|s| - 1];
      var r := TrimRight(p);
      assert s[|r|..] == p[|r|..] + [s[|s| - 1]];
      r
    else s
  }

  /** `r` is a slice of `s` with only white space before and after it. */
  predicate SpaceFramed(s: string, r: string)
  {
    exists i, j :: 0 <= i <= j <= |s| && r == s[i..j] && AllSpace(s[..i]) && AllSpace(s[j..])
  }

  /** `strings.TrimSpace`: `s` with leading and trailing white space removed. The result is
      the slice of `s` between a run of leading and a run of trailing white space, and it
      neither starts nor ends with white space. */
  function TrimSpace(s: string): (r: string)
    ensures Trimmed(r)
    ensures SpaceFramed(s, r)
  {
    var l := TrimLeft(s);
    var r := TrimRight(l);
    TrimFrame(s, l, r);
    r
  }

  /** Cutting white space from the left and then from the right leaves a trimmed slice
      with white space on either side of it. */
  lemma TrimFrame(s: string, l: string, r: string)
    requires |l| <= |s| && l == s[|s| - |l|..] && AllSpace(s[..|s| - |l|]) && (|l| == 0 || !IsSpace(l[0]))
    requires |r| <= |l| && r == l[..|r|] && AllSpace(l[|r|..]) && (|r| == 0 || !IsSpace(r[|r| - 1]))
    ensures Trimmed(r)
    ensures SpaceFramed(s, r)
  {
    var i := |s| - |l|;
    var j := i + |r|;
    assert r == s[i..j];
    assert s[j..] == l[|r|..];
    assert |r| > 0 ==> r[0] == l[0];
  }

  /** A string that is already trimmed is left alone. */
  lemma TrimSpaceOfTrimmed(s: string)
    requires Trimmed(s)
    ensures TrimSpace(s) == s
  {
  }

  /** Trimming twice is trimming once. */
  lemma TrimSpaceIdempotent(s: string)
    ensures TrimSpace(TrimSpace(s)) == TrimSpace(s)
  {
    TrimSpaceOfTrimmed(TrimSpace(s));
  }

  /** A string trims to nothing exactly when it is all white space. */
  lemma TrimSpaceEmpty(s: string)
    ensures TrimSpace(s) == "" <==> AllSpace(s)
  {
    var i, j :| 0 <= i <= j <= |s| && TrimSpace(s) == s[i..j] && AllSpace(s[..i]) && AllSpace(s[j..]);
    if TrimSpace(s) == "" {
      assert forall k :: 0 <= k < |s| ==> (k < i && s[k] == s[..i][k]) || (k >= j && s[k] == s[j..][k - j]);
    } else {
      assert !IsSpace(s[i]);
    }
  }

  /** `TrimSpace` against its reference description: cutting any white-space prefix and
      suffix that leave a trimmed middle yields exactly `TrimSpace`'s result. */
  lemma TrimSpaceUnique(s: string, i: int, j: int)
    requires 0 <= i <= j <= |s|
    requires AllSpace(s[..i]) && AllSpace(s[j..]) && Trimmed(s[i..j])
    ensures TrimSpace(s) == s[i..j]
  {
    var t := TrimSpace(s);
    assert Trimmed(t);
    var a, b :| 0 <= a <= b <= |s| && t == s[a..b] && AllSpace(s[..a]) && AllSpace(s[b..]);
    SpaceOutside(s, i, j);
    SpaceOutside(s, a, b);
    TrimmedEnds(s, i, j);
    TrimmedEnds(s, a, b);
    FrameIndices(s, i, j, a, b);
  }

  /** A trimmed, non-empty slice starts and ends with a character that is not white space. */
  lemma TrimmedEnds(s: string, i: int, j: int)
    requires 0 <= i <= j <= |s| && Trimmed(s[i..j])
    ensures i < j ==> !IsSpace(s[i]) && !IsSpace(s[j - 1])
  {
    if i < j {
      assert s[i..j][0] == s[i] && s[i..j][j - i - 1] == s[j - 1];
    }
  }

  /** Two white-space frames around non-space ends are the same frame, or both are empty
      middles. */
  lemma FrameIndices(s: string, i: int, j: int, a: int, b: int)
    requires 0 <= i <= j <= |s| && 0 <= a <= b <= |s|
    requires forall k :: 0 <= k < i ==> IsSpace(s[k])
    requires forall k :: j <= k < |s| ==> IsSpace(s[k])
    requires forall k :: 0 <= k < a ==> IsSpace(s[k])
    requires forall k :: b <= k < |s| ==> IsSpace(s[k])
    requires i < j ==> !IsSpace(s[i]) && !IsSpace(s[j - 1])
    requires a < b ==> !IsSpace(s[a]) && !IsSpace(s[b - 1])
    ensures (i == j && a == b) || (i == a && j == b)
  {
  }

  /** White space added around a string is trimmed away again. */
  lemma TrimSpacePadded(left: string, item: string, right: string)
    requires AllSpace(left) && AllSpace(right)
    ensures TrimSpace(left + item + right) == TrimSpace(item)
  {
    var t := TrimSpace(item);
    var i, j :| 0 <= i <= j <= |item| && t == item[i..j] && AllSpace(item[..i]) && AllSpace(item[j..]);
    TrimSpaceOfPadded(left, item, right, i, j);
  }

  /** The trimmed core of `item`, framed by white space, is what `TrimSpace` finds in
      `item` padded with white space. */
  lemma TrimSpaceOfPadded(left: string, item: string, right: string, i: int, j: int)
    requires 0 <= i <= j <= |item|
    requires AllSpace(left) && AllSpace(right)
    requires AllSpace(item[..i]) && AllSpace(item[j..]) && Trimmed(item[i..j])
    ensures TrimSpace(left + item + right) == item[i..j]
  {
    PaddedFrame(left, item, right, i, j);
    TrimSpaceUnique(left + item + right, |left| + i, |left| + j);
  }

  /** Padding a string with white space keeps its white-space frame a white-space frame. */
  lemma PaddedFrame(left: string, item: string, right: string, i: int, j: int)
    requires 0 <= i <= j <= |item|
    requires AllSpace(left) && AllSpace(right) && AllSpace(item[..i]) && AllSpace(item[j..])
    ensures AllSpace((left + item + right)[..|left| + i])
    ensures AllSpace((left + item + right)[|left| + j..])
    ensures (left + item + right)[|left| + i..|left| + j] == item[i..j]
  {
    var s := left + item + right;
    assert s[..|left| + i] == left + item[..i];
    assert s[|left| + j..] == item[j..] + right;
    AllSpaceConcat(left, item[..i]);
    AllSpaceConcat(item[j..], right);
  }

  /** White space followed by white space is white space. */
  lemma AllSpaceConcat(a: string, b: string)
    requires AllSpace(a) && AllSpace(b)
    ensures AllSpace(a + b)
  {
    forall k | 0 <= k < |a + b|
      ensures IsSpace((a + b)[k])
    {
      if k >= |a| {
        assert (a + b)[k] == b[k - |a|];
      }
    }
  }

  /** The characters before `i` and from `j` on are white space. */
  lemma SpaceOutside(s: string, i: int, j: int)
    requires 0 <= i <= j <= |s|
    requires AllSpace(s[..i]) && AllSpace(s[j..])
    ensures forall k :: 0 <= k < i ==> IsSpace(s[k])
    ensures forall k :: j <= k < |s| ==> IsSpace(s[k])
  {
    forall k | 0 <= k < i
      ensures IsSpace(s[k])
    {
      assert s[..i][k] == s[k];
    }
    forall k | j <= k < |s|
      ensures IsSpace(s[k])
    {
      assert s[j..][k - j] == s[k];
    }
  }

  /** ASCII lower-casing, which is what `unicode.ToLower` does on the ASCII letters. */
  function ToLowerAscii(c: char): (r: char)
    ensures 'A' <= c <= 'Z' ==> r as int == c as int + 32
    ensures !('A' <= c <= 'Z') ==> r == c
  {
    if 'A' <= c <= 'Z' then (c as int + 32) as char else c
  }

  /** Lower-casing forgets whatever case the character had. */
  lemma CaseFold(c: char)
    ensures ToLowerAscii(ToUpperAscii(c)) == ToLowerAscii(c)
    ensures ToLowerAscii(ToLowerAscii(c)) == ToLowerAscii(c)
  {
  }

  /** ASCII upper-casing. */
  function ToUpperAscii(c: char): (r: char)
    ensures 'a' <= c <= 'z' ==> r as int == c as int - 32
    ensures !('a' <= c <= 'z') ==> r == c
  {
    if 'a' <= c <= 'z' then (c as int - 32) as char else c
  }
}
