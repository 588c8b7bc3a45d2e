/** Paragraph-bounded truncation under a token budget (`articles/truncate.go`), the token
    estimate it is measured in and the word count shown to the user. */
module Truncate {
  import opened Strings

  const PARAGRAPH := "\n\n"

  /** About four runes a token, rounded up. */
  function EstimateTokens(s: string): (n: nat)
    ensures 4 * n - 4 < |s| <= 4 * n
  {
    if s == "" then 0 else (|s| + 3) / 4
  }

  predicate Fits(s: string, maxTokens: int) {
    EstimateTokens(s) <= maxTokens
  }

  /** The first `n` paragraphs of `text`, with the blank lines between them. */
  function Kept(text: string, n: nat): string
    requires n <= |Split(text, PARAGRAPH)|
  {
    Join(Split(text, PARAGRAPH)[..n], PARAGRAPH)
  }

  /** `n` is the latest paragraph boundary at which the text so far fits, and not the end. */
  ghost predicate IsLatestBoundary(text: string, maxTokens: int, n: nat) {
    var count := |Split(text, PARAGRAPH)|;
    n < count && forall m: nat | m <= count :: Fits(Kept(text, m), maxTokens) <==> m <= n
  }

  /** As many runes as the budget is sure to allow. */
  function RunePrefix(text: string, maxTokens: nat): string {
    if 4 * maxTokens > |text| then text else text[..4 * maxTokens]
  }

  /** `out` is what an over-long text is cut to: the paragraphs up to the latest boundary that
      fits, or a rune prefix when those hold nothing but white space. */
  ghost predicate IsCut(text: string, maxTokens: nat, out: string) {
    exists n: nat :: IsLatestBoundary(text, maxTokens, n) && out == CutAt(text, maxTokens, n)
  }

  function CutAt(text: string, maxTokens: nat, n: nat): string
    requires n <= |Split(text, PARAGRAPH)|
  {
    var paragraphs := TrimSpace(Kept(text, n));
    if paragraphs != "" then paragraphs else TrimSpace(RunePrefix(text, maxTokens))
  }

  lemma KeptGrows(text: string, m: nat, n: nat)
    requires m <= n <= |Split(text, PARAGRAPH)|
    ensures Kept(text, m) <= Kept(text, n) <= text
  {
    var parts := Split(text, PARAGRAPH);
    JoinOfSplit(text, PARAGRAPH);
    JoinPrefix(parts, n, PARAGRAPH);
    JoinPrefix(parts[..n], m, PARAGRAPH);
    assert parts[..n][..m] == parts[..m];
  }

  lemma KeptAll(text: string)
    ensures Kept(text, |Split(text, PARAGRAPH)|) == text
  {
    var parts := Split(text, PARAGRAPH);
    JoinOfSplit(text, PARAGRAPH);
    assert parts[..|parts|] == parts;
  }

  lemma KeptSnoc(text: string, n: nat)
    requires n < |Split(text, PARAGRAPH)|
    ensures var p := Split(text, PARAGRAPH)[n];
            Kept(text, n + 1) == Kept(text, n) + if n > 0 then PARAGRAPH + p else p
  {
    var parts := Split(text, PARAGRAPH);
    JoinSnoc(parts[..n], parts[n], PARAGRAPH);
    assert parts[..n] + [parts[n]] == parts[..n + 1];
    Append3(Kept(text, n), PARAGRAPH, parts[n]);
    Append3(Kept(text, n), "", parts[n]);
  }

  lemma Append3(a: string, b: string, c: string)
    ensures (a + b) + c == a + (b + c)
    ensures "" + c == c
  {
  }

  lemma BoundaryIsLatest(text: string, maxTokens: nat, n: nat)
    requires n < |Split(text, PARAGRAPH)|
    requires Fits(Kept(text, n), maxTokens) && !Fits(Kept(text, n + 1), maxTokens)
    ensures IsLatestBoundary(text, maxTokens, n)
  {
    forall m: nat | m <= |Split(text, PARAGRAPH)|
      ensures Fits(Kept(text, m), maxTokens) <==> m <= n
    {
      if m <= n { KeptGrows(text, m, n); } else { KeptGrows(text, n + 1, m); }
    }
  }

  /** A text over budget has exactly one latest boundary that fits, so `IsCut` fixes the result. */
  lemma CutIsUnique(text: string, maxTokens: nat, a: string, b: string)
    requires IsCut(text, maxTokens, a) && IsCut(text, maxTokens, b)
    ensures a == b
  {
    var m: nat :| IsLatestBoundary(text, maxTokens, m) && a == CutAt(text, maxTokens, m);
    var n: nat :| IsLatestBoundary(text, maxTokens, n) && b == CutAt(text, maxTokens, n);
    assert Fits(Kept(text, m), maxTokens) && Fits(Kept(text, n), maxTokens);
  }

  lemma FittingPrefix(text: string, base: string, maxTokens: nat)
    requires base <= text && Fits(base, maxTokens)
    ensures base <= RunePrefix(text, maxTokens) <= text
  {
  }

  /** What the cut was trimmed out of: a prefix of the text that fits. */
  lemma CutBase(text: string, maxTokens: nat, out: string) returns (base: string)
    requires !Fits(text, maxTokens) && IsCut(text, maxTokens, out)
    ensures base <= RunePrefix(text, maxTokens) <= text
    ensures out == TrimSpace(base)
    ensures out == "" ==> base == RunePrefix(text, maxTokens)
  {
    var n: nat :| IsLatestBoundary(text, maxTokens, n) && out == CutAt(text, maxTokens, n);
    KeptGrows(text, n, n);
    base := Kept(text, n);
    assert Fits(base, maxTokens);
    FittingPrefix(text, base, maxTokens);
    if TrimSpace(base) == "" {
      base := RunePrefix(text, maxTokens);
    }
  }

  /** The cut is a trimmed piece of the text, inside the budget. */
  lemma CutIsPieceWithinBudget(text: string, maxTokens: nat, out: string)
    returns (left: string, right: string)
    requires !Fits(text, maxTokens) && IsCut(text, maxTokens, out)
    ensures text == left + out + right
    ensures IsTrimmed(out) && Fits(out, maxTokens)
  {
    var base := CutBase(text, maxTokens, out);
    left, right := TrimmedPrefixIsPiece(text, base);
  }

  lemma TrimmedPrefixIsPiece(text: string, base: string) returns (left: string, right: string)
    requires base <= text
    ensures text == left + TrimSpace(base) + right
  {
    var rest;
    left, rest := TrimSpaceSplits(base);
    right := rest + text[|base|..];
    Regroup(left, TrimSpace(base), rest, text[|base|..]);
  }

  /** Something is kept exactly when the runes the budget allows are not all white space. Of the
      function alone, the promise that something is always kept needs that condition. */
  lemma CutKeepsSomethingIff(text: string, maxTokens: nat, out: string)
    requires !Fits(text, maxTokens) && IsCut(text, maxTokens, out)
    ensures out != "" <==> !AllSpace(RunePrefix(text, maxTokens))
  {
    var base := CutBase(text, maxTokens, out);
  }

  /** Under every budget there is a text, with a word in it, that is cut to nothing. It starts with
      white space, so that no caller passes it: they all trim first. */
  lemma CutMayKeepNothing(maxTokens: nat) returns (text: string)
    ensures !Fits(text, maxTokens) && !AllSpace(text)
    ensures forall out :: IsCut(text, maxTokens, out) ==> out == ""
  {
    var blanks := seq(4 * maxTokens, _ => ' ');
    text := blanks + "w";
    assert RunePrefix(text, maxTokens) == blanks && text[4 * maxTokens] == 'w';
    forall out | IsCut(text, maxTokens, out)
      ensures out == ""
    {
      CutKeepsSomethingIff(text, maxTokens, out);
    }
  }

  /** From a text that starts with a word, a non-empty prefix is kept. */
  lemma CutOfTrimmedIsPrefix(text: string, maxTokens: nat, out: string)
    requires maxTokens > 0 && !Fits(text, maxTokens) && IsCut(text, maxTokens, out)
    requires text != "" && !IsSpace(text[0])
    ensures out != "" && out <= text
  {
    CutKeepsSomethingIff(text, maxTokens, out);
    assert !IsSpace(RunePrefix(text, maxTokens)[0]);
    var base := CutBase(text, maxTokens, out);
    assert base != "" && base[0] == text[0];
    TrimmedStartStays(base);
  }

  /** `TruncateAtParagraph`. */
  method TruncateAtParagraph(text: string, maxTokens: int) returns (out: string, percent: int)
    ensures text == "" || maxTokens <= 0 || Fits(text, maxTokens) ==> out == text && percent == 100
    ensures maxTokens > 0 && !Fits(text, maxTokens) ==> IsCut(text, maxTokens, out)
    ensures maxTokens > 0 ==> Fits(out, maxTokens)
    ensures 0 <= percent <= 100
    ensures percent == 100 <==> out == text
    ensures text != "" ==> percent == |out| * 100 / |text|
  {
    if text == "" || maxTokens <= 0 {
      WholeShare(|text|);
      return text, 100;
    }
    if EstimateTokens(text) <= maxTokens {
      WholeShare(|text|);
      return text, 100;
    }
    out := CutText(text, maxTokens);
    CutIsShorter(text, maxTokens, out);
    percent := PercentKept(|out|, |text|);
  }

  lemma WholeShare(n: nat)
    ensures n > 0 ==> n * 100 / n == 100
  {
  }

  /** A text over budget: as many paragraphs as fit, or a rune prefix. */
  method CutText(text: string, maxTokens: int) returns (out: string)
    requires maxTokens > 0 && !Fits(text, maxTokens)
    ensures IsCut(text, maxTokens, out)
  {
    var kept := KeepParagraphs(text, maxTokens);
    out := TrimSpace(kept);
    if out == "" {
      var runeBudget := maxTokens * 4;
      if runeBudget > |text| {
        runeBudget := |text|;
      }
      out := TrimSpace(text[..runeBudget]);
      assert text[..runeBudget] == RunePrefix(text, maxTokens);
    }
  }

  /** The loop over the paragraphs, which stops at the first one that does not fit. */
  method KeepParagraphs(text: string, maxTokens: int) returns (kept: string)
    requires maxTokens > 0 && !Fits(text, maxTokens)
    ensures exists n: nat :: IsLatestBoundary(text, maxTokens, n) && kept == Kept(text, n)
  {
    var paragraphs := Split(text, PARAGRAPH);
    KeptAll(text);
    var i := 0;
    kept := "";
    while i < |paragraphs|
      invariant 0 <= i <= |paragraphs|
      invariant kept == Kept(text, i) && Fits(kept, maxTokens)
    {
      var candidate := if i > 0 then PARAGRAPH + paragraphs[i] else paragraphs[i];
      KeptSnoc(text, i);
      if EstimateTokens(kept + candidate) > maxTokens {
        break;
      }
      kept := kept + candidate;
      i := i + 1;
    }
    BoundaryIsLatest(text, maxTokens, i);
  }

  /** The share reported, rounded down. */
  method PercentKept(kept: nat, total: nat) returns (percent: int)
    requires kept < total
    ensures 0 <= percent < 100 && percent == kept * 100 / total
  {
    percent := 100;
    if total > 0 {
      percent := kept * 100 / total;
    }
  }

  lemma CutIsShorter(text: string, maxTokens: nat, out: string)
    requires !Fits(text, maxTokens) && IsCut(text, maxTokens, out)
    ensures |out| < |text| && Fits(out, maxTokens)
  {
    var left, right := CutIsPieceWithinBudget(text, maxTokens, out);
  }

  predicate IsWordBreak(c: char) {
    c == ' ' || c == '\t' || c == '\n' || c == '\r'
  }

  /** A word starts at `i`. */
  predicate StartsWord(s: string, i: nat)
    requires i < |s|
  {
    !IsWordBreak(s[i]) && (i == 0 || IsWordBreak(s[i - 1]))
  }

  /** How many words start in `s`. */
  function WordStarts(s: string): nat {
    if s == "" then 0
    else WordStarts(s[..|s| - 1]) + if StartsWord(s, |s| - 1) then 1 else 0
  }

  /** `ApproxWordCount`. */
  method ApproxWordCount(text: string) returns (count: nat)
    ensures count == WordStarts(text)
  {
    if text == "" {
      return 0;
    }
    count := 0;
    var inWord := false;
    for i := 0 to |text|
      invariant count == WordStarts(text[..i])
      invariant inWord <==> i > 0 && !IsWordBreak(text[i - 1])
    {
      var r := text[i];
      assert text[..i + 1][..i] == text[..i];
      if IsWordBreak(r) {
        inWord := false;
      } else if !inWord {
        count := count + 1;
        inWord := true;
      }
    }
    assert text[..|text|] == text;
  }

  /** A piece of a text never has more words than the text. */
  lemma {:induction false} PieceHasNoMoreWords(left: string, piece: string, right: string)
    ensures WordStarts(piece) <= WordStarts(left + piece + right)
  {
    WordsOfTail(left, piece);
    WordsOfHead(left + piece, right);
  }

  lemma {:induction false} WordsOfHead(head: string, rest: string)
    ensures WordStarts(head) <= WordStarts(head + rest)
  {
    var s := head + rest;
    if rest == "" {
      assert s == head;
    } else {
      assert s[..|s| - 1] == head + rest[..|rest| - 1];
      WordsOfHead(head, rest[..|rest| - 1]);
    }
  }

  lemma {:induction false} WordsOfTail(left: string, piece: string)
    ensures WordStarts(piece) <= WordStarts(left + piece)
    ensures piece != "" && !IsWordBreak(piece[|piece| - 1]) ==> 1 <= WordStarts(piece)
  {
    var s := left + piece;
    if piece != "" {
      var shorter := piece[..|piece| - 1];
      assert s[..|s| - 1] == left + shorter;
      WordsOfTail(left, shorter);
      if |piece| == 1 && !IsWordBreak(piece[0]) {
        LastWordCounts(s);
      }
    }
  }

  lemma {:induction false} LastWordCounts(s: string)
    requires s != "" && !IsWordBreak(s[|s| - 1])
    ensures 1 <= WordStarts(s)
  {
    if |s| > 1 && !IsWordBreak(s[|s| - 2]) {
      LastWordCounts(s[..|s| - 1]);
    }
  }

  /** The words and the share reported for a truncated article are consistent with the whole. */
  lemma CutHasNoMoreWords(text: string, maxTokens: nat, out: string)
    requires !Fits(text, maxTokens) && IsCut(text, maxTokens, out)
    ensures WordStarts(out) <= WordStarts(text)
  {
    var left, right := CutIsPieceWithinBudget(text, maxTokens, out);
    PieceHasNoMoreWords(left, out, right);
  }
}
