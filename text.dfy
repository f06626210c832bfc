/** Python string operations the two sides rely on: `sep in s`, `s.split(sep)`,
    `s.rsplit(c, 1)` and `s.strip()`, with the facts about them that the rest
    of the model uses. */
module Text {

  import opened Values

  /** `sub` occurs in `s` starting at index `i`. */
  predicate OccursAt(s: string, sub: string, i: int) {
    0 <= i && i + |sub| <= |s| && s[i..i + |sub|] == sub
  }

  /** Python's `sub in s`. */
  predicate Contains(s: string, sub: string) {
    exists i :: 0 <= i <= |s| - |sub| && OccursAt(s, sub, i)
  }

  /** Python's `s.split(sep)` for a non-empty separator: the pieces between
      the non-overlapping occurrences of `sep`, found left to right. */
  function Split(s: string, sep: string): (r: seq<string>)
    requires |sep| > 0
    ensures |r| >= 1
    decreases |s|
  {
    if |s| < |sep| then [s]
    else if s[..|sep|] == sep then [""] + Split(s[|sep|..], sep)
    else
      var rest := Split(s[1..], sep);
      [[s[0]] + rest[0]] + rest[1..]
  }

  /** `sep.join(parts)`, the inverse of `Split`. */
  function Join(parts: seq<string>, sep: string): (r: string)
    requires |parts| >= 1
  {
    if |parts| == 1 then parts[0] else parts[0] + sep + Join(parts[1..], sep)
  }

  /** Splitting loses nothing: joining the pieces with the separator gives
      back the original string. */
  lemma {:induction false} JoinSplit(s: string, sep: string)
    requires |sep| > 0
    ensures Join(Split(s, sep), sep) == s
    decreases |s|
  {
    if |s| < |sep| {
    } else if s[..|sep|] == sep {
      var rest := Split(s[|sep|..], sep);
      JoinSplit(s[|sep|..], sep);
      assert Split(s, sep) == [""] + rest;
      assert Join([""] + rest, sep) == "" + sep + Join(rest, sep) by {
        assert ([""] + rest)[1..] == rest;
      }
      assert s == s[..|sep|] + s[|sep|..];
    } else {
      var rest := Split(s[1..], sep);
      JoinSplit(s[1..], sep);
      var parts := [[s[0]] + rest[0]] + rest[1..];
      assert Split(s, sep) == parts;
      if |rest| == 1 {
        assert Join(parts, sep) == [s[0]] + rest[0];
      } else {
        assert parts[1..] == rest[1..];
        assert Join(parts, sep) == [s[0]] + rest[0] + sep + Join(rest[1..], sep);
        assert Join(rest, sep) == rest[0] + sep + Join(rest[1..], sep);
      }
      assert s == [s[0]] + s[1..];
    }
  }

  /** The first piece of a split is the text before the separator's first
      occurrence, or the whole string when it does not occur. */
  lemma {:induction false} FirstPiece(s: string, sep: string)
    requires |sep| > 0
    ensures FirstOccurrenceCut(s, sep, Split(s, sep)[0])
    decreases |s|
  {
    if |s| >= |sep| && s[..|sep|] != sep {
      FirstPiece(s[1..], sep);
      var q := Split(s[1..], sep)[0];
      assert Split(s, sep)[0] == [s[0]] + q;
      FirstCutStep(s, sep, q);
    }
  }

  /** `p` is a prefix of `s` where `sep` does not occur, followed by `sep`
      unless `p` is all of `s`. */
  predicate FirstOccurrenceCut(s: string, sep: string, p: string) {
    |p| <= |s| && s[..|p|] == p
    && (forall i :: 0 <= i < |p| ==> !OccursAt(s, sep, i))
    && (|p| < |s| ==> OccursAt(s, sep, |p|))
  }

  lemma FirstCutStep(s: string, sep: string, q: string)
    requires |sep| > 0 && |s| >= |sep| && s[..|sep|] != sep
    requires FirstOccurrenceCut(s[1..], sep, q)
    ensures FirstOccurrenceCut(s, sep, [s[0]] + q)
  {
    forall i | 0 <= i < |q| + 1 ensures !OccursAt(s, sep, i) {
      if i > 0 && i + |sep| <= |s| {
        SliceOfTail(s, i, i + |sep|);
        assert !OccursAt(s[1..], sep, i - 1);
      }
    }
    if |q| + 1 < |s| {
      SliceOfTail(s, |q| + 1, |q| + 1 + |sep|);
    }
  }

  lemma SliceOfTail(s: string, a: int, b: int)
    requires 1 <= a <= b <= |s|
    ensures s[1..][a - 1..b - 1] == s[a..b]
  {
  }

  /** A string in which the separator never occurs is split into itself alone. */
  lemma {:induction false} SplitWithoutSeparator(s: string, sep: string)
    requires |sep| > 0
    requires !Contains(s, sep)
    ensures Split(s, sep) == [s]
    decreases |s|
  {
    if |s| < |sep| {
    } else {
      assert !OccursAt(s, sep, 0);
      assert s[..|sep|] != sep;
      assert !Contains(s[1..], sep) by {
        forall i | OccursAt(s[1..], sep, i) ensures false {
          assert s[1..][i..i + |sep|] == s[i + 1..i + 1 + |sep|];
          assert OccursAt(s, sep, i + 1);
        }
      }
      SplitWithoutSeparator(s[1..], sep);
      assert s == [s[0]] + s[1..];
    }
  }

  /** A string without the first character of `sub` does not contain `sub`. */
  lemma NoFirstCharNoOccurrence(s: string, sub: string)
    requires |sub| > 0 && sub[0] !in s
    ensures !Contains(s, sub)
  {
    forall i | 0 <= i && i + |sub| <= |s| ensures !OccursAt(s, sub, i) {
      assert s[i] in s;
      assert s[i..i + |sub|][0] == s[i];
    }
  }

  /** Splitting on a one-character separator at its first occurrence: the
      text before it is the first piece and the rest is split further. */
  lemma {:induction false} SplitAtFirst(a: string, c: char, b: string)
    requires c !in a
    ensures Split(a + [c] + b, [c]) == [a] + Split(b, [c])
    decreases |a|
  {
    var s := a + [c] + b;
    if a == [] {
      assert s[..1] == [c];
      assert s[1..] == b;
    } else {
      assert s[..1] != [c] by { assert s[0] == a[0]; }
      assert s[1..] == a[1..] + [c] + b;
      SplitAtFirst(a[1..], c, b);
      assert [s[0]] + a[1..] == a;
    }
  }

  /** The index of the last occurrence of `c` in `s`. */
  function LastIndexOf(s: string, c: char): (r: Option<nat>)
    ensures r.None? <==> c !in s
    ensures r.Some? ==> r.value < |s| && s[r.value] == c && c !in s[r.value + 1..]
    decreases |s|
  {
    if s == [] then None
    else if s[|s| - 1] == c then Some(|s| - 1)
    else
      var r := LastIndexOf(s[..|s| - 1], c);
      assert s == s[..|s| - 1] + [s[|s| - 1]];
      if r.Some? then
        assert s[r.value + 1..] == s[..|s| - 1][r.value + 1..] + [s[|s| - 1]];
        r
      else r
  }

  /** Python's `s.rsplit(c, 1)` unpacked into two names: the text before and
      after the last `c`, or nothing when `c` does not occur (the unpacking
      then raises). */
  function RSplitOnce(s: string, c: char): (r: Option<(string, string)>)
    ensures r.None? <==> c !in s
    ensures r.Some? ==> r.value.0 + [c] + r.value.1 == s && c !in r.value.1
  {
    match LastIndexOf(s, c)
    case None => None
    case Some(k) =>
      assert s == s[..k] + [c] + s[k + 1..];
      Some((s[..k], s[k + 1..]))
  }

  /** The last occurrence of `c` in `a + [c] + b`, when `b` has none, is
      the one between `a` and `b`. */
  lemma {:induction false} LastIndexOfJoin(a: string, c: char, b: string)
    requires c !in b
    ensures LastIndexOf(a + [c] + b, c) == Some(|a|)
    decreases |b|
  {
    var s := a + [c] + b;
    if b != [] {
      assert s[|s| - 1] == b[|b| - 1];
      assert s[..|s| - 1] == a + [c] + b[..|b| - 1];
      LastIndexOfJoin(a, c, b[..|b| - 1]);
    }
  }

  /** `rsplit(c, 1)` undoes joining two parts with `c` when the second part
      has no `c`. */
  lemma RSplitOnceJoin(a: string, c: char, b: string)
    requires c !in b
    ensures RSplitOnce(a + [c] + b, c) == Some((a, b))
  {
    LastIndexOfJoin(a, c, b);
    var s := a + [c] + b;
    assert s[..|a|] == a && s[|a| + 1..] == b;
  }

  /** No piece of a split contains the (one-character) separator. */
  lemma {:induction false} SplitPieceHasNoSeparator(s: string, c: char, k: nat)
    requires k < |Split(s, [c])|
    ensures c !in Split(s, [c])[k]
    decreases |s|
  {
    if |s| < 1 {
    } else if s[..1] == [c] {
      if k > 0 { SplitPieceHasNoSeparator(s[1..], c, k - 1); }
    } else {
      SplitPieceHasNoSeparator(s[1..], c, k);
      if k > 0 { SplitPieceHasNoSeparator(s[1..], c, k); }
      assert s[0] != c by { assert s[..1] == [s[0]]; }
    }
  }

  /** A character absent from `a + [x] + b` is absent from both parts. */
  lemma NotInParts(a: string, x: char, b: string, ch: char)
    requires ch !in a + [x] + b
    ensures ch !in a && ch !in b
  {
    var s := a + [x] + b;
    assert forall i :: 0 <= i < |a| ==> a[i] == s[i];
    assert forall i :: 0 <= i < |b| ==> b[i] == s[|a| + 1 + i];
  }

  /** Joining, with the last piece split off. */
  lemma {:induction false} JoinLast(parts: seq<string>, sep: string)
    requires |parts| >= 2
    ensures Join(parts, sep) == Join(parts[..|parts| - 1], sep) + sep + Last(parts)
    decreases |parts|
  {
    if |parts| > 2 {
      JoinLast(parts[1..], sep);
      assert parts[1..][..|parts| - 2] == parts[..|parts| - 1][1..];
    }
  }

  /** The last piece of a split on a one-character separator is the text
      after the separator's last occurrence (the whole string when it does
      not occur). */
  lemma LastPieceIsSuffix(s: string, c: char)
    ensures var p := Last(Split(s, [c]));
      c !in p && |p| <= |s| && s[|s| - |p|..] == p
      && (|p| < |s| ==> s[|s| - |p| - 1] == c)
  {
    var parts := Split(s, [c]);
    SplitPieceHasNoSeparator(s, c, |parts| - 1);
    JoinSplit(s, [c]);
    if |parts| >= 2 {
      JoinLast(parts, [c]);
    }
  }

  /** Prefixing the first piece prefixes the joined string. */
  lemma JoinPrefixFirst(x: string, parts: seq<string>, sep: string)
    requires |parts| >= 1
    ensures Join([x + parts[0]] + parts[1..], sep) == x + Join(parts, sep)
  {
    var ps := [x + parts[0]] + parts[1..];
    if |parts| > 1 {
      assert ps[1..] == parts[1..];
    }
  }

  /** Python's `s.replace(target, replacement)`: every non-overlapping
      occurrence of `target`, found left to right, replaced. */
  function Replace(s: string, target: string, replacement: string): (r: string)
    requires |target| > 0
  {
    Join(Split(s, target), replacement)
  }

  /** Replacing a single character works one character at a time. */
  lemma ReplaceCharStep(s: string, c: char, replacement: string)
    requires s != []
    ensures Replace(s, [c], replacement)
            == (if s[0] == c then replacement else [s[0]]) + Replace(s[1..], [c], replacement)
  {
    var rest := Split(s[1..], [c]);
    if s[0] == c {
      assert s[..1] == [c];
      assert Split(s, [c]) == [""] + rest;
      assert ([""] + rest)[1..] == rest;
    } else {
      assert s[..1] != [c] by { assert s[..1][0] == s[0]; }
      assert Split(s, [c]) == [[s[0]] + rest[0]] + rest[1..];
      JoinPrefixFirst([s[0]], rest, replacement);
    }
  }

  /** Replacing a single character distributes over concatenation. */
  lemma {:induction false} ReplaceConcat(a: string, b: string, c: char, replacement: string)
    ensures Replace(a + b, [c], replacement) == Replace(a, [c], replacement) + Replace(b, [c], replacement)
    decreases |a|
  {
    if a == [] {
      assert a + b == b;
    } else {
      ReplaceCharStep(a + b, c, replacement);
      assert (a + b)[1..] == a[1..] + b;
      ReplaceConcat(a[1..], b, c, replacement);
      ReplaceCharStep(a, c, replacement);
    }
  }

  /** The characters Python's `str.strip()` removes: those `str.isspace()`
      accepts (the ASCII separators and controls, NEL, no-break space and
      the Unicode space separators). */
  predicate IsSpace(ch: char) {
    ch == ' ' || ('\t' <= ch <= '\r') || ('\U{001C}' <= ch <= '\U{001F}')
    || ch == '\U{0085}' || ch == '\U{00A0}' || ch == '\U{1680}'
    || ('\U{2000}' <= ch <= '\U{200A}') || ch == '\U{2028}' || ch == '\U{2029}'
    || ch == '\U{202F}' || ch == '\U{205F}' || ch == '\U{3000}'
  }

  /** `s` without its leading whitespace: a suffix of `s` whose removed
      prefix is all whitespace and which starts with none. */
  function StripStart(s: string): (r: string)
    ensures |r| <= |s| && r == s[|s| - |r|..]
    ensures forall k :: 0 <= k < |s| - |r| ==> IsSpace(s[k])
    ensures r != [] ==> !IsSpace(r[0])
  {
    if s != [] && IsSpace(s[0]) then
      var t := StripStart(s[1..]);
      assert forall k :: 1 <= k < |s| - |t| ==> s[k] == s[1..][k - 1];
      t
    else s
  }

  /** `s` without its trailing whitespace: a prefix of `s` whose removed
      suffix is all whitespace and which ends with none. */
  function StripEnd(s: string): (r: string)
    ensures |r| <= |s| && r == s[..|r|]
    ensures forall k :: |r| <= k < |s| ==> IsSpace(s[k])
    ensures r != [] ==> !IsSpace(r[|r| - 1])
  {
    if s != [] && IsSpace(s[|s| - 1]) then
      var t := StripEnd(s[..|s| - 1]);
      assert forall k :: |t| <= k < |s| - 1 ==> s[k] == s[..|s| - 1][k];
      t
    else s
  }

  /** Python's `str.strip()`: the slice of `s` left once the whitespace at
      both ends is cut off; it neither starts nor ends with whitespace. */
  function Strip(s: string): (r: string)
    ensures exists i, j :: TrimmedSlice(s, r, i, j)
    ensures r != [] ==> !IsSpace(r[0]) && !IsSpace(r[|r| - 1])
  {
    var t := StripStart(s);
    var r := StripEnd(t);
    StripTrims(s, t, r);
    r
  }

  /** Cutting whitespace off the start of `s`, giving `t`, then off the end
      of `t`, giving `r`, leaves a trimmed slice of `s`. */
  lemma StripTrims(s: string, t: string, r: string)
    requires |t| <= |s| && t == s[|s| - |t|..] && forall k :: 0 <= k < |s| - |t| ==> IsSpace(s[k])
    requires |r| <= |t| && r == t[..|r|] && forall k :: |r| <= k < |t| ==> IsSpace(t[k])
    ensures TrimmedSlice(s, r, |s| - |t|, |s| - |t| + |r|)
  {
    var i := |s| - |t|;
    forall k | i + |r| <= k < |s| ensures IsSpace(s[k]) {
      assert s[k] == t[k - i];
    }
  }

  /** `r` is `s[i..j]`, and everything of `s` outside that slice is
      whitespace. */
  predicate TrimmedSlice(s: string, r: string, i: int, j: int) {
    0 <= i <= j <= |s| && r == s[i..j]
    && (forall k :: 0 <= k < i ==> IsSpace(s[k]))
    && (forall k :: j <= k < |s| ==> IsSpace(s[k]))
  }

  /** The last element of a non-empty sequence (`xs[-1]`). */
  function Last<T>(xs: seq<T>): (r: T)
    requires xs != []
  {
    xs[|xs| - 1]
  }
}
