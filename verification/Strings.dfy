/** The parts of Go's `strings` and `unicode` packages the bot relies on.
    Text is a sequence of Unicode scalar values, which is what a Go string of valid
    UTF-8 decodes to. */
module Strings {

  /** `unicode.IsSpace`. */
  predicate IsSpace(c: char) {
    || '\t' <= c <= '\r'
    || c == ' '
    || c == '\U{0085}'
    || c == '\U{00A0}'
    || c == '\U{1680}'
    || '\U{2000}' <= c <= '\U{200A}'
    || c == '\U{2028}'
    || c == '\U{2029}'
    || c == '\U{202F}'
    || c == '\U{205F}'
    || c == '\U{3000}'
  }

  predicate AllSpace(s: string) {
    forall i | 0 <= i < |s| :: IsSpace(s[i])
  }

  predicate IsTrimmed(s: string) {
    s == "" || (!IsSpace(s[0]) && !IsSpace(s[|s| - 1]))
  }

  function LeadingSpaces(s: string): (n: nat)
    ensures n <= |s| && AllSpace(s[..n])
    ensures n < |s| ==> !IsSpace(s[n])
  {
    if s == "" || !IsSpace(s[0]) then 0 else 1 + LeadingSpaces(s[1..])
  }

  function TrailingSpaces(s: string): (n: nat)
    ensures n <= |s| && AllSpace(s[|s| - n..])
    ensures n < |s| ==> !IsSpace(s[|s| - n - 1])
  {
    if s == "" || !IsSpace(s[|s| - 1]) then 0
    else
      var shorter := s[..|s| - 1];
      var m := TrailingSpaces(shorter);
      assert s[|s| - (m + 1)..] == shorter[|shorter| - m..] + [s[|s| - 1]];
      m + 1
  }

  /** `strings.TrimSpace`: the piece left when the white space at both ends is cut off. */
  function TrimSpace(s: string): (t: string)
    ensures IsTrimmed(t) && |t| <= |s|
    ensures t == "" <==> AllSpace(s)
  {
    var a, b := LeadingSpaces(s), |s| - TrailingSpaces(s);
    if b <= a then "" else s[a..b]
  }

  /** What is cut off is white space, on both sides. */
  lemma TrimSpaceSplits(s: string)
    returns (left: string, right: string)
    ensures s == left + TrimSpace(s) + right
    ensures AllSpace(left) && AllSpace(right)
    ensures s != "" && !IsSpace(s[0]) ==> left == ""
    ensures s != "" && !IsSpace(s[|s| - 1]) ==> right == ""
  {
    var a, b := LeadingSpaces(s), |s| - TrailingSpaces(s);
    if b <= a {
      left, right := s, "";
    } else {
      left, right := s[..a], s[b..];
    }
  }

  /** A text that starts with a word loses white space at its end only. */
  lemma TrimmedStartStays(s: string)
    requires s != "" && !IsSpace(s[0])
    ensures TrimSpace(s) <= s
  {
  }

  lemma Regroup(a: string, b: string, c: string, d: string)
    ensures (a + b + c) + d == a + b + (c + d)
  {
  }

  lemma TrimOfTrimmed(s: string)
    requires IsTrimmed(s)
    ensures TrimSpace(s) == s
  {
    var left, right := TrimSpaceSplits(s);
  }

  /** `strings.ToLower` maps rune by rune; `fold` stands for `unicode.ToLower`. */
  function ToLower(fold: char -> char, s: string): (t: string)
    ensures |t| == |s| && forall i | 0 <= i < |s| :: t[i] == fold(s[i])
  {
    seq(|s|, i requires 0 <= i < |s| => fold(s[i]))
  }

  /** Lower-casing never turns white space into something else or back. */
  ghost predicate KeepsSpace(fold: char -> char) {
    forall c: char :: IsSpace(fold(c)) <==> IsSpace(c)
  }

  lemma {:induction false} SameSpacesSameEnds(s: string, t: string)
    requires |s| == |t| && forall i | 0 <= i < |s| :: IsSpace(s[i]) == IsSpace(t[i])
    ensures LeadingSpaces(s) == LeadingSpaces(t)
    decreases |s|
  {
    if s != "" {
      SameSpacesSameEnds(s[1..], t[1..]);
    }
  }

  lemma {:induction false} SameSpacesSameTails(s: string, t: string)
    requires |s| == |t| && forall i | 0 <= i < |s| :: IsSpace(s[i]) == IsSpace(t[i])
    ensures TrailingSpaces(s) == TrailingSpaces(t)
    decreases |s|
  {
    if s != "" {
      SameSpacesSameTails(s[..|s| - 1], t[..|s| - 1]);
    }
  }

  /** Strings that agree up to case still agree up to case once trimmed. */
  lemma LowerOfTrim(fold: char -> char, s: string, t: string)
    requires KeepsSpace(fold)
    requires ToLower(fold, s) == ToLower(fold, t)
    ensures ToLower(fold, TrimSpace(s)) == ToLower(fold, TrimSpace(t))
  {
    var low := ToLower(fold, s);
    assert |s| == |low| == |t|;
    forall i | 0 <= i < |s|
      ensures IsSpace(s[i]) == IsSpace(t[i]) && fold(s[i]) == fold(t[i])
    {
      assert fold(s[i]) == low[i] && fold(t[i]) == low[i];
    }
    TrimAlike(fold, s, t);
  }

  lemma TrimAlike(fold: char -> char, s: string, t: string)
    requires |s| == |t| && forall i | 0 <= i < |s| :: IsSpace(s[i]) == IsSpace(t[i]) && fold(s[i]) == fold(t[i])
    ensures ToLower(fold, TrimSpace(s)) == ToLower(fold, TrimSpace(t))
  {
    SameSpacesSameEnds(s, t);
    SameSpacesSameTails(s, t);
    LowerOfSlice(fold, s, t, LeadingSpaces(s), |s| - TrailingSpaces(s));
  }

  lemma LowerOfSlice(fold: char -> char, s: string, t: string, a: nat, b: int)
    requires |s| == |t| && forall i | 0 <= i < |s| :: fold(s[i]) == fold(t[i])
    ensures a <= b <= |s| ==> ToLower(fold, s[a..b]) == ToLower(fold, t[a..b])
  {
  }

  /** Whether `sep` occurs in `s` at position `i`. */
  predicate OccursAt(s: string, sep: string, i: nat) {
    i + |sep| <= |s| && s[i..i + |sep|] == sep
  }

  /** `strings.Index`: the first place where `sep` occurs, or -1. */
  function Index(s: string, sep: string): (i: int)
    requires sep != ""
    ensures -1 <= i
    ensures i >= 0 ==> OccursAt(s, sep, i)
    ensures forall j: nat | j < (if i < 0 then |s| else i) :: !OccursAt(s, sep, j)
  {
    IndexFrom(s, sep, 0)
  }

  function IndexFrom(s: string, sep: string, from: nat): (i: int)
    requires sep != "" && from <= |s|
    ensures i == -1 || i >= from
    ensures i >= 0 ==> OccursAt(s, sep, i)
    ensures forall j: nat | from <= j < (if i < 0 then |s| else i) :: !OccursAt(s, sep, j)
    decreases |s| - from
  {
    if from == |s| then -1
    else if OccursAt(s, sep, from) then from
    else IndexFrom(s, sep, from + 1)
  }

  /** `strings.Split`: cut at every leftmost, non-overlapping occurrence of `sep`. */
  function Split(s: string, sep: string): (parts: seq<string>)
    requires sep != ""
    ensures |parts| >= 1
    decreases |s|
  {
    var i := Index(s, sep);
    if i < 0 then [s] else [s[..i]] + Split(s[i + |sep|..], sep)
  }

  function Join(parts: seq<string>, sep: string): (s: string)
  {
    if parts == [] then ""
    else if |parts| == 1 then parts[0]
    else parts[0] + sep + Join(parts[1..], sep)
  }

  lemma {:induction false} JoinOfSplit(s: string, sep: string)
    requires sep != ""
    ensures Join(Split(s, sep), sep) == s
    decreases |s|
  {
    var i := Index(s, sep);
    if i >= 0 {
      JoinOfSplit(s[i + |sep|..], sep);
      CutAround(s, sep, i);
      JoinCons(s[..i], Split(s[i + |sep|..], sep), sep);
    }
  }

  /** Splitting cuts at every leftmost separator: no part has one inside, and none starts in a part
      before the cut that follows it. */
  lemma {:induction false} SplitIsLeftmost(s: string, sep: string)
    requires sep != ""
    ensures var parts := Split(s, sep);
            && (forall k, i: nat | 0 <= k < |parts| :: !OccursAt(parts[k], sep, i))
            && (forall k, i: nat | 0 <= k < |parts| - 1 && i < |parts[k]| :: !OccursAt(parts[k] + sep, sep, i))
    decreases |s|
  {
    var i := Index(s, sep);
    if i < 0 {
      NoSeparator(s, sep, |s|);
    } else {
      var first, rest := s[..i], s[i + |sep|..];
      SplitIsLeftmost(rest, sep);
      NoSeparator(s, sep, i);
      assert Split(s, sep) == [first] + Split(rest, sep);
      CutAround(s, sep, i);
    }
  }

  /** Where nothing starts before `n`, the first `n` runes hold no separator, nor does one start in
      them before the one that follows. */
  lemma NoSeparator(s: string, sep: string, n: nat)
    requires sep != "" && n <= |s| && forall j: nat | j < n :: !OccursAt(s, sep, j)
    ensures forall i: nat :: !OccursAt(s[..n], sep, i)
    ensures OccursAt(s, sep, n) ==> forall i: nat | i < n :: !OccursAt(s[..n] + sep, sep, i)
  {
    forall i: nat
      ensures !OccursAt(s[..n], sep, i)
    {
      OccursInPrefix(s, sep, n, i);
    }
    if OccursAt(s, sep, n) {
      assert s[..n + |sep|] == s[..n] + sep;
      forall i: nat | i < n
        ensures !OccursAt(s[..n] + sep, sep, i)
      {
        OccursInPrefix(s, sep, n + |sep|, i);
      }
    }
  }

  lemma OccursInPrefix(s: string, sep: string, n: nat, i: nat)
    requires n <= |s|
    ensures OccursAt(s[..n], sep, i) ==> OccursAt(s, sep, i)
  {
    if i + |sep| <= n {
      assert s[..n][i..i + |sep|] == s[i..i + |sep|];
    }
  }

  lemma CutAround(s: string, sep: string, i: nat)
    requires OccursAt(s, sep, i)
    ensures s == s[..i] + sep + s[i + |sep|..]
  {
  }

  lemma JoinCons(first: string, rest: seq<string>, sep: string)
    requires rest != []
    ensures Join([first] + rest, sep) == first + sep + Join(rest, sep)
  {
    assert ([first] + rest)[1..] == rest;
  }

  /** Joining one part more appends a separator and the part. */
  lemma {:induction false} JoinSnoc(parts: seq<string>, last: string, sep: string)
    ensures Join(parts + [last], sep) == Join(parts, sep) + (if parts == [] then "" else sep) + last
  {
    if parts == [] {
      assert [] + [last] == [last];
    } else {
      JoinSnoc(parts[1..], last, sep);
      assert (parts + [last])[1..] == parts[1..] + [last];
    }
  }

  /** The join of the first parts is a prefix of the join of all of them. */
  lemma {:induction false} JoinPrefix(parts: seq<string>, n: nat, sep: string)
    requires n <= |parts|
    ensures Join(parts[..n], sep) <= Join(parts, sep)
    decreases |parts| - n
  {
    if n == |parts| {
      assert parts[..n] == parts;
    } else {
      JoinSnoc(parts[..n], parts[n], sep);
      assert parts[..n] + [parts[n]] == parts[..n + 1];
      JoinPrefix(parts, n + 1, sep);
    }
  }

  /** A one-rune separator occurs exactly where its rune stands. */
  lemma OccursOnce(s: string, c: char)
    ensures forall i: nat :: OccursAt(s, [c], i) <==> i < |s| && s[i] == c
  {
    forall i: nat | i < |s|
      ensures OccursAt(s, [c], i) <==> s[i] == c
    {
      assert s[i..i + 1] == [s[i]];
    }
  }

  /** Splitting undoes joining when the separator is one rune that no part contains. */
  lemma {:induction false} SplitOfJoin(parts: seq<string>, c: char)
    requires parts != []
    requires forall k | 0 <= k < |parts| :: c !in parts[k]
    ensures Split(Join(parts, [c]), [c]) == parts
  {
    var s := Join(parts, [c]);
    OccursOnce(s, c);
    if |parts| > 1 {
      SplitOfJoin(parts[1..], c);
      SplitAtFirst(parts[0], c, Join(parts[1..], [c]));
      assert parts == [parts[0]] + parts[1..];
    }
  }

  /** Splitting cuts at the first occurrence of a one-rune separator. */
  lemma SplitAtFirst(first: string, c: char, rest: string)
    requires c !in first
    ensures Split(first + [c] + rest, [c]) == [first] + Split(rest, [c])
  {
    var s := first + [c] + rest;
    OccursOnce(s, c);
    assert s[|first|] == c && forall j | 0 <= j < |first| :: s[j] == first[j];
    assert OccursAt(s, [c], |first|) && Index(s, [c]) == |first|;
    assert s[..|first|] == first && s[|first| + |[c]|..] == rest;
  }
}
