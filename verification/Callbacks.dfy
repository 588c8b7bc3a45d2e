/** The payloads carried by inline buttons (`handlers/card.go`, `handlers/words.go`,
    `handlers/study.go`): a button prints its state, the handler parses it back. */
module Callbacks {
  import opened Options
  import opened Strings
  import opened Decimal
  import opened Dictionary

  const CARD_PREFIX := "art:"
  const WORD_STATUS_PREFIX := "wstat:"
  const STUDY_PREFIX := "study:"
  const ANSWER_PREFIX := "ans:"

  /** `strings.TrimPrefix`. */
  function TrimPrefix(s: string, prefix: string): string {
    if prefix <= s then s[|prefix|..] else s
  }

  const LEVEL_LOWER := "lower"
  const LEVEL_CURRENT := "current"
  const LEVEL_HIGHER := "higher"

  datatype ArticleView = ArticleView(level: string, summaryNative: bool)

  function Short(level: string): string {
    if level == LEVEL_LOWER then "l" else if level == LEVEL_HIGHER then "h" else "c"
  }

  function ParseCardLevel(s: string): string {
    if s == "l" then LEVEL_LOWER else if s == "h" then LEVEL_HIGHER else LEVEL_CURRENT
  }

  function CardCallback(articleId: int, view: ArticleView): string {
    CARD_PREFIX + Join(["v", FormatInt(articleId), Short(view.level), if view.summaryNative then "n" else "t"], ":")
  }

  function ParseCardCallback(payload: string): Option<(int, ArticleView)> {
    var parts := Split(payload, ":");
    if |parts| != 4 || parts[0] != "v" then None
    else
      match ParseInt(parts[1])
      case None => None
      case Some(id) => Some((id, ArticleView(ParseCardLevel(parts[2]), parts[3] == "n")))
  }

  lemma TrimPrefixOf(prefix: string, body: string)
    ensures TrimPrefix(prefix + body, prefix) == body
  {
  }

  /** The card buttons carry the whole view state: every id and view comes back, any level but
      the three being read as the current one. */
  lemma CardRoundTrip(articleId: int, view: ArticleView)
    requires IsInt64(articleId)
    ensures var known := view.level in {LEVEL_LOWER, LEVEL_CURRENT, LEVEL_HIGHER};
            ParseCardCallback(TrimPrefix(CardCallback(articleId, view), CARD_PREFIX))
            == Some((articleId, if known then view else view.(level := LEVEL_CURRENT)))
  {
    var parts := ["v", FormatInt(articleId), Short(view.level), if view.summaryNative then "n" else "t"];
    FormatHasNoColon(articleId);
    TrimPrefixOf(CARD_PREFIX, Join(parts, ":"));
    SplitOfJoin(parts, ':');
    ParseOfFormat(articleId);
  }

  /** Two different cards never share a payload. */
  lemma CardPayloadsDiffer(idA: int, viewA: ArticleView, idB: int, viewB: ArticleView)
    requires IsInt64(idA) && IsInt64(idB)
    requires viewA.level in {LEVEL_LOWER, LEVEL_CURRENT, LEVEL_HIGHER}
    requires viewB.level in {LEVEL_LOWER, LEVEL_CURRENT, LEVEL_HIGHER}
    requires CardCallback(idA, viewA) == CardCallback(idB, viewB)
    ensures idA == idB && viewA == viewB
  {
    CardRoundTrip(idA, viewA);
    CardRoundTrip(idB, viewB);
  }

  function Code(status: WordStatus): string {
    match status
    case Learning => "learning"
    case Known => "known"
    case Skipped => "skipped"
    case Mastered => "mastered"
  }

  function StatusCallback(articleId: int, page: int, wordId: int, status: WordStatus): string {
    WORD_STATUS_PREFIX + Join([FormatInt(articleId), FormatInt(page), FormatInt(wordId), Code(status)], ":")
  }

  datatype StatusRequest = StatusRequest(articleId: int, page: int, wordId: int, status: WordStatus)

  /** The three statuses a user can pick. */
  function ParseStatus(code: string): Option<WordStatus> {
    if code == Code(Known) then Some(Known)
    else if code == Code(Learning) then Some(Learning)
    else if code == Code(Skipped) then Some(Skipped)
    else None
  }

  lemma ParseOfCode(status: WordStatus)
    ensures ParseStatus(Code(status)) == if status == Mastered then None else Some(status)
    ensures ':' !in Code(status)
  {
    assert |Code(Known)| == 5 && |Code(Learning)| == 8 && |Code(Skipped)| == 7;
    assert Code(Mastered)[0] != Code(Learning)[0];
  }

  function ParseStatusPayload(s: string): Option<StatusRequest> {
    var parts := Split(s, ":");
    if |parts| != 4 then None
    else
      var aid, p, wid := ParseInt(parts[0]), ParseInt(parts[1]), ParseInt(parts[2]);
      var status := ParseStatus(parts[3]);
      if aid.None? || p.None? || wid.None? || status.None? then None
      else Some(StatusRequest(aid.value, p.value, wid.value, status.value))
  }

  /** The status buttons round-trip for the three statuses a user can pick; a payload naming
      the fourth is refused. */
  lemma StatusRoundTrip(articleId: int, page: int, wordId: int, status: WordStatus)
    requires IsInt64(articleId) && IsInt64(page) && IsInt64(wordId)
    ensures ParseStatusPayload(TrimPrefix(StatusCallback(articleId, page, wordId, status), WORD_STATUS_PREFIX))
            == if status == Mastered then None else Some(StatusRequest(articleId, page, wordId, status))
  {
    var parts := [FormatInt(articleId), FormatInt(page), FormatInt(wordId), Code(status)];
    FormatHasNoColon(articleId);
    FormatHasNoColon(page);
    FormatHasNoColon(wordId);
    ParseOfCode(status);
    TrimPrefixOf(WORD_STATUS_PREFIX, Join(parts, ":"));
    SplitOfJoin(parts, ':');
    ParseOfFormat(articleId);
    ParseOfFormat(page);
    ParseOfFormat(wordId);
  }

  function AnswerCallback(wordId: int, option: int): string {
    STUDY_PREFIX + (ANSWER_PREFIX + (FormatInt(wordId) + ":" + FormatInt(option)))
  }

  /** The answer payload is cut at its first colon only (`strings.SplitN` with a limit of 2). */
  function ParseAnswer(payload: string): Option<(int, int)> {
    var body := TrimPrefix(payload, ANSWER_PREFIX);
    var i := Index(body, ":");
    if i < 0 then None
    else
      var word, option := ParseInt(body[..i]), ParseInt(body[i + 1..]);
      if word.None? || option.None? then None else Some((word.value, option.value))
  }

  lemma AnswerRoundTrip(wordId: int, option: int)
    requires IsInt64(wordId) && IsInt64(option)
    ensures ParseAnswer(TrimPrefix(AnswerCallback(wordId, option), STUDY_PREFIX)) == Some((wordId, option))
  {
    var w, o := FormatInt(wordId), FormatInt(option);
    var body := w + ":" + o;
    FormatHasNoColon(wordId);
    OccursOnce(body, ':');
    assert forall j | 0 <= j < |w| :: body[j] == w[j];
    assert body[|w|] == ':';
    assert Index(body, ":") == |w|;
    assert body[..|w|] == w && body[|w| + 1..] == o;
    TrimPrefixOf(STUDY_PREFIX, ANSWER_PREFIX + body);
    TrimPrefixOf(ANSWER_PREFIX, body);
    ParseOfFormat(wordId);
    ParseOfFormat(option);
  }

  /** The payloads as they stand on the buttons. */
  lemma CardPayloadExample()
    ensures CardCallback(12, ArticleView("lower", true)) == "art:v:12:l:n"
  {
    assert FormatNat(1) == "1" && FormatInt(12) == "12" && Short("lower") == "l";
    var parts := ["v", "12", "l", "n"];
    assert parts[1..] == ["12", "l", "n"] && ["12", "l", "n"][1..] == ["l", "n"] && ["l", "n"][1..] == ["n"];
    assert Join(["n"], ":") == "n" && Join(["l", "n"], ":") == "l:n" && Join(["12", "l", "n"], ":") == "12:l:n";
    assert Join(parts, ":") == "v:12:l:n";
    assert CardCallback(12, ArticleView("lower", true)) == CARD_PREFIX + Join(parts, ":");
  }

  lemma StatusPayloadExample()
    ensures StatusCallback(-3, 0, 7, Known) == "wstat:-3:0:7:known"
  {
    var parts := ["-3", "0", "7", "known"];
    assert parts[1..] == ["0", "7", "known"] && ["0", "7", "known"][1..] == ["7", "known"];
    assert ["7", "known"][1..] == ["known"] && FormatInt(-3) == "-3";
    assert Join(["7", "known"], ":") == "7:known" && Join(["0", "7", "known"], ":") == "0:7:known";
    assert StatusCallback(-3, 0, 7, Known) == WORD_STATUS_PREFIX + Join(parts, ":");
  }

  lemma AnswerPayloadExample()
    ensures AnswerCallback(9, 2) == "study:ans:9:2"
  {
  }
}
