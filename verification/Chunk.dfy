/** Splitting a long article into paragraph-bounded pieces for the vocabulary pass
    (`articles/chunk.go`). */
module Chunk {
  import opened Strings
  import opened Truncate

  const MAX_VOCAB_CHUNKS: nat := 2

  /** `piece` is as much of `text` as truncation keeps. */
  ghost predicate IsFirstPiece(text: string, maxTokens: int, piece: string) {
    if maxTokens <= 0 || Fits(text, maxTokens) then piece == text else IsCut(text, maxTokens, piece)
  }

  /** `IsFirstPiece` as a relation, for one budget. */
  ghost function FirstPieces(maxTokens: int): (string, string) -> bool {
    (text: string, piece: string) => IsFirstPiece(text, maxTokens, piece)
  }

  /** `text` is the chunks in order, with only white space after each of them, and then `rest`;
      each chunk is a first piece of what is left. */
  ghost predicate LaidOut(first: (string, string) -> bool, text: string, chunks: seq<string>, rest: string)
    decreases |chunks|
  {
    if chunks == [] then text == rest
    else exists gap, tail ::
        && AllSpace(gap) && IsTrimmed(tail) && text == chunks[0] + gap + tail
        && first(text, chunks[0])
        && LaidOut(first, tail, chunks[1..], rest)
  }

  lemma {:induction false} LaidOutSnoc(first: (string, string) -> bool, text: string, chunks: seq<string>,
                                       rest: string, chunk: string, gap: string, tail: string)
    requires LaidOut(first, text, chunks, rest)
    requires first(rest, chunk) && AllSpace(gap) && IsTrimmed(tail) && rest == chunk + gap + tail
    ensures LaidOut(first, text, chunks + [chunk], tail)
    decreases |chunks|
  {
    var longer := chunks + [chunk];
    if chunks == [] {
      assert LaidOut(first, tail, longer[1..], tail);
    } else {
      var g, t :| AllSpace(g) && IsTrimmed(t) && text == chunks[0] + g + t && LaidOut(first, t, chunks[1..], rest);
      LaidOutSnoc(first, t, chunks[1..], rest, chunk, gap, tail);
      assert longer[0] == chunks[0] && longer[1..] == chunks[1..] + [chunk];
    }
  }

  /** The runes of `s` that are not white space. */
  function Ink(s: string): string {
    if s == "" then ""
    else if IsSpace(s[0]) then Ink(s[1..])
    else [s[0]] + Ink(s[1..])
  }

  lemma {:induction false} InkOfConcat(a: string, b: string)
    ensures Ink(a + b) == Ink(a) + Ink(b)
  {
    if a == "" {
      assert a + b == b;
    } else {
      InkOfConcat(a[1..], b);
      assert (a + b)[1..] == a[1..] + b;
    }
  }

  lemma {:induction false} InkOfSpace(s: string)
    requires AllSpace(s)
    ensures Ink(s) == ""
  {
    if s != "" { InkOfSpace(s[1..]); }
  }

  lemma InkOfTrim(s: string)
    ensures Ink(TrimSpace(s)) == Ink(s)
  {
    var left, right := TrimSpaceSplits(s);
    InkOfConcat(left + TrimSpace(s), right);
    InkOfConcat(left, TrimSpace(s));
    InkOfSpace(left);
    InkOfSpace(right);
  }

  function InkOfAll(chunks: seq<string>): string {
    if chunks == [] then "" else Ink(chunks[0]) + InkOfAll(chunks[1..])
  }

  /** Laid-out chunks lose and repeat nothing but white space. */
  lemma {:induction false} LaidOutKeepsInk(first: (string, string) -> bool, text: string,
                                           chunks: seq<string>, rest: string)
    requires LaidOut(first, text, chunks, rest)
    ensures Ink(text) == InkOfAll(chunks) + Ink(rest)
    decreases |chunks|
  {
    if chunks != [] {
      var gap, tail :| AllSpace(gap) && IsTrimmed(tail) && text == chunks[0] + gap + tail
                       && LaidOut(first, tail, chunks[1..], rest);
      InkOfPieces(chunks[0], gap, tail);
      LaidOutKeepsInk(first, tail, chunks[1..], rest);
      Regroup("", Ink(chunks[0]), InkOfAll(chunks[1..]), Ink(rest));
    }
  }

  lemma InkOfPieces(chunk: string, gap: string, tail: string)
    requires AllSpace(gap)
    ensures Ink(chunk + gap + tail) == Ink(chunk) + Ink(tail)
  {
    InkOfConcat(chunk + gap, tail);
    InkOfConcat(chunk, gap);
    InkOfSpace(gap);
  }

  lemma AllInkKept(first: (string, string) -> bool, text: string, chunks: seq<string>, rest: string)
    requires LaidOut(first, TrimSpace(text), chunks, rest)
    ensures rest == "" ==> InkOfAll(chunks) == Ink(text)
  {
    LaidOutKeepsInk(first, TrimSpace(text), chunks, rest);
    InkOfTrim(text);
  }

  predicate IsChunk(chunk: string, maxTokens: int) {
    chunk != "" && IsTrimmed(chunk) && Fits(chunk, maxTokens)
  }

  /** Some rounds of the loop over `whole`: the chunks so far and what remains. */
  ghost predicate CutSoFar(whole: string, maxTokens: int, chunks: seq<string>, remaining: string) {
    && LaidOut(FirstPieces(maxTokens), whole, chunks, remaining)
    && IsTrimmed(remaining) && |remaining| + |chunks| <= |whole|
    && forall k | 0 <= k < |chunks| :: IsChunk(chunks[k], maxTokens)
  }

  lemma CutOneMore(whole: string, maxTokens: int, chunks: seq<string>, remaining: string, chunk: string)
    requires CutSoFar(whole, maxTokens, chunks, remaining)
    requires IsChunk(chunk, maxTokens) && chunk <= remaining && FirstPieces(maxTokens)(remaining, chunk)
    ensures CutSoFar(whole, maxTokens, chunks + [chunk], TrimSpace(remaining[|chunk|..]))
  {
    NextRemaining(FirstPieces(maxTokens), whole, chunks, remaining, chunk);
  }

  /** `chunkText` with the cap on the number of chunks as a parameter. `rest` is the text left
      over. Both early breaks of the loop are shown to be out of reach. */
  method ChunkTextUpTo(text: string, maxTokens: int, cap: nat)
    returns (chunks: seq<string>, ghost rest: string)
    ensures |chunks| <= cap
    ensures text == "" || maxTokens <= 0 ==> chunks == []
    ensures text != "" && maxTokens > 0 ==>
              && LaidOut(FirstPieces(maxTokens), TrimSpace(text), chunks, rest)
              && (forall k | 0 <= k < |chunks| :: IsChunk(chunks[k], maxTokens))
              && (|chunks| < cap || cap >= |TrimSpace(text)| ==> InkOfAll(chunks) == Ink(text))
  {
    rest := text;
    if text == "" || maxTokens <= 0 {
      return [], rest;
    }
    chunks := [];
    var remaining := TrimSpace(text);
    var i := 0;
    while i < cap && remaining != ""
      invariant 0 <= i == |chunks| <= cap
      invariant CutSoFar(TrimSpace(text), maxTokens, chunks, remaining)
      decreases cap - i
    {
      var chunk := NextChunk(remaining, maxTokens);
      if chunk == "" {
        assert false;
        break;
      }
      CutOneMore(TrimSpace(text), maxTokens, chunks, remaining, chunk);
      chunks := chunks + [chunk];
      if chunk <= remaining {
        remaining := TrimSpace(remaining[|chunk|..]);
      } else {
        assert false;
        break;
      }
      i := i + 1;
    }
    rest := remaining;
    AllInkKept(FirstPieces(maxTokens), text, chunks, rest);
  }

  /** The truncation step of one round: from trimmed text it always finds a prefix. */
  method NextChunk(remaining: string, maxTokens: int) returns (chunk: string)
    requires remaining != "" && IsTrimmed(remaining) && maxTokens > 0
    ensures IsChunk(chunk, maxTokens) && chunk <= remaining
    ensures FirstPieces(maxTokens)(remaining, chunk)
  {
    var percent;
    chunk, percent := TruncateAtParagraph(remaining, maxTokens);
    ChunkIsPrefix(remaining, maxTokens, chunk);
    chunk := TrimSpace(chunk);
  }

  lemma ChunkIsPrefix(remaining: string, maxTokens: nat, chunk: string)
    requires remaining != "" && IsTrimmed(remaining) && maxTokens > 0
    requires IsFirstPiece(remaining, maxTokens, chunk)
    ensures chunk != "" && chunk <= remaining && IsTrimmed(chunk) && TrimSpace(chunk) == chunk
  {
    if !Fits(remaining, maxTokens) {
      CutOfTrimmedIsPrefix(remaining, maxTokens, chunk);
      var left, right := CutIsPieceWithinBudget(remaining, maxTokens, chunk);
    }
    TrimOfTrimmed(chunk);
  }

  /** Advancing past a chunk keeps the layout. */
  lemma NextRemaining(first: (string, string) -> bool, text: string, chunks: seq<string>,
                      remaining: string, chunk: string)
    requires LaidOut(first, text, chunks, remaining)
    requires IsTrimmed(remaining) && chunk != "" && chunk <= remaining
    requires first(remaining, chunk)
    ensures LaidOut(first, text, chunks + [chunk], TrimSpace(remaining[|chunk|..]))
  {
    var gap := GapAfter(remaining, chunk);
    LaidOutSnoc(first, text, chunks, remaining, chunk, gap, TrimSpace(remaining[|chunk|..]));
  }

  /** A text that ends with a word loses white space at its start only. */
  lemma TrimmedEndStays(tail: string) returns (gap: string)
    requires tail != "" ==> !IsSpace(tail[|tail| - 1])
    ensures AllSpace(gap) && tail == gap + TrimSpace(tail)
  {
    var right;
    gap, right := TrimSpaceSplits(tail);
    if tail != "" {
      assert right == "";
    }
    assert gap + TrimSpace(tail) + right == gap + TrimSpace(tail) by {
      assert right == "";
    }
  }

  /** Between a chunk and the trimmed rest there is only white space. */
  lemma GapAfter(remaining: string, chunk: string) returns (gap: string)
    requires IsTrimmed(remaining) && chunk <= remaining
    ensures AllSpace(gap) && remaining == chunk + gap + TrimSpace(remaining[|chunk|..])
  {
    var tail := remaining[|chunk|..];
    assert tail != "" ==> tail[|tail| - 1] == remaining[|remaining| - 1];
    gap := TrimmedEndStays(tail);
    Append3(chunk, gap, TrimSpace(tail));
    assert remaining == chunk + tail;
  }

  /** `chunkText`: at most two chunks; text beyond them is dropped. */
  method ChunkText(text: string, maxTokens: int) returns (chunks: seq<string>)
    ensures |chunks| <= MAX_VOCAB_CHUNKS
    ensures text == "" || maxTokens <= 0 ==> chunks == []
    ensures text != "" && maxTokens > 0 ==>
              && (forall k | 0 <= k < |chunks| :: IsChunk(chunks[k], maxTokens))
              && (exists rest :: LaidOut(FirstPieces(maxTokens), TrimSpace(text), chunks, rest))
              && (|chunks| < MAX_VOCAB_CHUNKS ==> InkOfAll(chunks) == Ink(text))
  {
    ghost var rest;
    chunks, rest := ChunkTextUpTo(text, maxTokens, MAX_VOCAB_CHUNKS);
  }
}
