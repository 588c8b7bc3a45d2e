/** The token gate (`articles/usecase.go`): an article that fits is analysed at once, a longer one
    is parked until its owner picks how to shorten it. Texts are trimmed where they enter: articles
    by the extractor (`articles/extractor_readability.go`), summaries by the model's client
    (`llm/groq/summarize.go`). */
module LongArticle {
  import opened Options
  import opened Strings
  import opened Truncate
  import opened Chunk
  import Park = PendingStore

  const DEFAULT_ARTICLE_INPUT_CAP: int := 5000
  const SUMMARIZE_INPUT_CAP: int := 7500

  /** What the gate decides for the text of a fetched page. */
  datatype Gate = NotArticle | Analyze(body: string) | Parked(id: string, tokens: nat, words: nat)

  datatype Mode = ModeTruncate | ModeSummarize

  /** The banner above the card: for a truncated article the share and the words kept. */
  datatype Notice = Truncated(percent: int, words: nat, totalWords: nat) | Summarized(totalWords: nat)

  /** What a resumed article is analysed as, or why it is not. */
  datatype Resumed =
    | Body(body: string, notice: Notice)
    | Expired
    | Lost(reason: Unready)
    | SummaryFailed

  /** What can be missing once the article is claimed: the user's language, the user or the key. */
  datatype Unready = NoActiveLanguage | LoadFailed | NoAPIKey

  /** Nothing is parked that does not start and end with a word. */
  ghost predicate AllTrimmed(items: Park.Items<string>) {
    forall id | id in items :: items[id].body != "" && IsTrimmed(items[id].body)
  }

  class Pipeline {
    const maxTokens: int
    const pending: Park.PendingStore<string>

    ghost predicate Valid()
      reads this, pending
    {
      maxTokens > 0 && AllTrimmed(pending.items)
    }

    constructor (maxTokens: int)
      ensures this.maxTokens == (if maxTokens <= 0 then DEFAULT_ARTICLE_INPUT_CAP else maxTokens)
      ensures Valid() && fresh(pending) && pending.items == map[]
    {
      this.maxTokens := if maxTokens <= 0 then DEFAULT_ARTICLE_INPUT_CAP else maxTokens;
      pending := new Park.PendingStore(0);
    }

    /** Extraction and the gate of `AnalyzeArticle`. */
    method AnalyzeArticle(user: int, pageText: string, freshId: string, now: int) returns (g: Gate)
      requires Valid()
      modifies pending
      ensures Valid()
      ensures var content := TrimSpace(pageText);
              if content == "" then g == NotArticle && pending.items == old(pending.items)
              else if Fits(content, maxTokens) then g == Analyze(content) && pending.items == old(pending.items)
              else g == Parked(freshId, EstimateTokens(content), WordStarts(content))
                   && (Park.Parked, pending.items)
                      == Park.Step(pending.ttl, old(pending.items), Park.Put(freshId, user, content, now))
    {
      var content := TrimSpace(pageText);
      if content == "" {
        return NotArticle;
      }
      var tokens := EstimateTokens(content);
      if tokens > maxTokens {
        var words := ApproxWordCount(content);
        pending.Put(freshId, user, content, now);
        return Parked(freshId, tokens, words);
      }
      return Analyze(content);
    }

    /** The first half of `AnalyzeExtracted`: a claimed article is shortened by cutting it, or by
        cutting what the model makes of its first part. `summarize` is the model; None is its failure.
        The claim comes first, so an article is gone even if nothing can be made of it then. */
    method AnalyzeExtracted(user: int, id: string, mode: Mode, unready: Option<Unready>,
                            summarize: string -> Option<string>, now: int)
      returns (r: Resumed)
      requires Valid()
      modifies pending
      ensures Valid()
      ensures pending.items == Park.Step(pending.ttl, old(pending.items), Park.Take(id, user, now)).1
      ensures r == Expired
              <==> Park.Step(pending.ttl, old(pending.items), Park.Take(id, user, now)).0 == Park.Refused
      ensures r != Expired ==>
                && id in old(pending.items) && old(pending.items)[id].user == user
                && id !in pending.items
                && IsResumed(old(pending.items)[id].body, maxTokens, mode, unready, summarize, r)
    {
      var claim := pending.Take(id, user, now);
      if !claim.Taken? {
        return Expired;
      }
      if unready.Some? {
        return Lost(unready.value);
      }
      var content := claim.body;
      var totalWords := ApproxWordCount(content);
      match mode
      case ModeTruncate =>
        var body, percent := Shorten(content, maxTokens);
        var words := ApproxWordCount(body);
        return Body(body, Truncated(percent, words, totalWords));
      case ModeSummarize =>
        var input, _ := Shorten(content, SUMMARIZE_INPUT_CAP);
        OnlyFirstPiece(content, SUMMARIZE_INPUT_CAP, input);
        var summary := summarize(input);
        if summary.None? {
          return SummaryFailed;
        }
        var body, _ := Shorten(TrimSpace(summary.value), maxTokens);
        return Body(body, Summarized(totalWords));
    }
  }

  /** What a claimed article becomes: lost if something is missing; cut to a non-empty prefix, with
      its true share and words; or made of the model's answer to its first part, and failed exactly
      if there is no answer. */
  ghost predicate IsResumed(content: string, maxTokens: int, mode: Mode, unready: Option<Unready>,
                            summarize: string -> Option<string>, r: Resumed)
  {
    if unready.Some? then r == Lost(unready.value)
    else
      match mode
      case ModeTruncate =>
        && r.Body? && IsFirstPiece(content, maxTokens, r.body) && Fits(r.body, maxTokens)
        && r.body != "" && r.body <= content && IsTrimmed(r.body)
        && r.notice == Truncated(|r.body| * 100 / |content|, WordStarts(r.body), WordStarts(content))
        && WordStarts(r.body) <= WordStarts(content) && 0 <= r.notice.percent <= 100
      case ModeSummarize =>
        forall input | IsFirstPiece(content, SUMMARIZE_INPUT_CAP, input) ::
          && Fits(input, SUMMARIZE_INPUT_CAP) && input != "" && input <= content
          && match summarize(input)
             case None => r == SummaryFailed
             case Some(answer) =>
               && r.Body? && r.notice == Summarized(WordStarts(content))
               && IsSummaryBody(TrimSpace(answer), maxTokens, r.body)
  }

  /** `body` is as much of the trimmed summary as fits: a prefix of it, empty only if it is. */
  ghost predicate IsSummaryBody(summary: string, maxTokens: int, body: string) {
    && IsFirstPiece(summary, maxTokens, body) && Fits(body, maxTokens)
    && body <= summary && (body == "" <==> summary == "")
  }

  /** Truncation keeps exactly one first piece. */
  lemma OnlyFirstPiece(text: string, maxTokens: int, piece: string)
    requires IsFirstPiece(text, maxTokens, piece)
    ensures forall other | IsFirstPiece(text, maxTokens, other) :: other == piece
  {
    forall other | IsFirstPiece(text, maxTokens, other)
      ensures other == piece
    {
      if maxTokens > 0 && !Fits(text, maxTokens) { CutIsUnique(text, maxTokens, other, piece); }
    }
  }

  /** Truncation of a trimmed text, with the share reported for it. */
  method Shorten(text: string, maxTokens: int) returns (body: string, percent: int)
    requires maxTokens > 0 && IsTrimmed(text)
    ensures IsFirstPiece(text, maxTokens, body) && Fits(body, maxTokens)
    ensures body <= text && IsTrimmed(body) && (body == "" <==> text == "")
    ensures WordStarts(body) <= WordStarts(text)
    ensures 0 <= percent <= 100 && (text != "" ==> percent == |body| * 100 / |text|)
  {
    body, percent := TruncateAtParagraph(text, maxTokens);
    FirstPieceOfTrimmed(text, maxTokens, body);
  }

  lemma FirstPieceOfTrimmed(text: string, maxTokens: int, body: string)
    requires maxTokens > 0 && IsTrimmed(text) && IsFirstPiece(text, maxTokens, body)
    ensures body <= text && IsTrimmed(body) && (body == "" <==> text == "")
    ensures WordStarts(body) <= WordStarts(text)
  {
    if text != "" {
      ChunkIsPrefix(text, maxTokens, body);
    }
    if !Fits(text, maxTokens) {
      CutHasNoMoreWords(text, maxTokens, body);
    }
  }
}
