/** Filling in a missing level of a stored article (`articles/usecase.go`, `articles/article.go`,
    `users/codes.go`): the stored adaptations are a map from level to text, and the model is asked
    for a missing one starting from the closest one there is. */
module Adapt {
  import opened Options

  const CEFR_LEVELS: seq<string> := ["A1", "A2", "B1", "B2", "C1", "C2"]

  predicate IsCEFR(s: string) {
    s in CEFR_LEVELS
  }

  function IndexFrom(s: string, i: nat): (r: int)
    requires i <= |CEFR_LEVELS|
    ensures r == -1 || i <= r < |CEFR_LEVELS|
    ensures r >= 0 ==> CEFR_LEVELS[r] == s
    ensures r < 0 ==> forall k | i <= k < |CEFR_LEVELS| :: CEFR_LEVELS[k] != s
    decreases |CEFR_LEVELS| - i
  {
    if i == |CEFR_LEVELS| then -1 else if CEFR_LEVELS[i] == s then i else IndexFrom(s, i + 1)
  }

  function IndexOfCEFR(s: string): (r: int)
    ensures -1 <= r < |CEFR_LEVELS|
    ensures r >= 0 <==> IsCEFR(s)
    ensures r >= 0 ==> CEFR_LEVELS[r] == s
  {
    IndexFrom(s, 0)
  }

  /** The level `delta` steps away, if both exist. */
  function CEFRShift(base: string, delta: int): (level: Option<string>)
    ensures level.Some? <==> IsCEFR(base) && 0 <= IndexOfCEFR(base) + delta < |CEFR_LEVELS|
    ensures level.Some? ==> IsCEFR(level.value) && IndexOfCEFR(level.value) == IndexOfCEFR(base) + delta
  {
    var i := IndexOfCEFR(base);
    if i >= 0 && 0 <= i + delta < |CEFR_LEVELS| then
      LevelsDiffer(i + delta);
      Some(CEFR_LEVELS[i + delta])
    else None
  }

  lemma LevelsDiffer(i: nat)
    requires i < |CEFR_LEVELS|
    ensures IndexOfCEFR(CEFR_LEVELS[i]) == i
  {
    var j := IndexOfCEFR(CEFR_LEVELS[i]);
    assert CEFR_LEVELS[i] in CEFR_LEVELS;
    assert CEFR_LEVELS[j][0] == CEFR_LEVELS[i][0] && CEFR_LEVELS[j][1] == CEFR_LEVELS[i][1];
  }

  type Versions = map<string, string>

  /** The stored column: never written, not a JSON object of strings, or one. */
  datatype Blob = Blank | Malformed | Json(entries: Versions)

  /** The entries that count: known levels with a text. */
  function Parsed(blob: Blob): Versions {
    match blob
    case Json(entries) => map k | k in entries && IsCEFR(k) && entries[k] != "" :: entries[k]
    case _ => map[]
  }

  /** `ParseAdaptedVersions`: the decoded map is visited in no particular order. */
  method ParseAdaptedVersions(blob: Blob) returns (out: Versions)
    ensures out == Parsed(blob)
  {
    out := map[];
    if !blob.Json? {
      return;
    }
    var left := blob.entries.Keys;
    while left != {}
      invariant left <= blob.entries.Keys
      invariant forall k :: k in out <==> k in blob.entries && k !in left && IsCEFR(k) && blob.entries[k] != ""
      invariant forall k | k in out :: out[k] == blob.entries[k]
      decreases |left|
    {
      var k :| k in left;
      left := left - {k};
      if !IsCEFR(k) || blob.entries[k] == "" {
        continue;
      }
      out := out[k := blob.entries[k]];
    }
  }

  function Abs(x: int): nat {
    if x < 0 then -x else x
  }

  /** Level `i` is a better start for level `t` than level `j`: closer, or as close and lower. */
  predicate IsCloser(i: int, j: int, t: int) {
    Abs(i - t) < Abs(j - t) || (Abs(i - t) == Abs(j - t) && i < j)
  }

  predicate IsUsable(current: Versions, k: string) {
    k in current && IsCEFR(k) && current[k] != ""
  }

  /** `k` is the usable level closest to `target`. */
  ghost predicate IsClosest(current: Versions, target: string, k: string) {
    && IsUsable(current, k)
    && forall other | IsUsable(current, other) && other != k ::
         IsCloser(IndexOfCEFR(k), IndexOfCEFR(other), IndexOfCEFR(target))
  }

  /** Whatever the order the map is visited in, the closest level is the same. */
  lemma ClosestIsUnique(current: Versions, target: string, j: string, k: string)
    requires IsClosest(current, target, j) && IsClosest(current, target, k)
    ensures j == k
  {
  }

  /** `pickAdaptSource`. */
  method PickAdaptSource(current: Versions, target: string, articleCEFR: string)
    returns (text: string, sourceCEFR: string)
    ensures current == map[] ==> text == "" && sourceCEFR == ""
    ensures IsCEFR(target) && current != map[] ==>
              if exists k :: IsUsable(current, k) then
                IsClosest(current, target, sourceCEFR) && text == current[sourceCEFR]
              else text == "" && sourceCEFR == articleCEFR
    ensures !IsCEFR(target) && current != map[] ==>
              if exists k :: k in current && current[k] != "" then
                sourceCEFR in current && text == current[sourceCEFR] != ""
              else text == "" && sourceCEFR == ""
  {
    if |current| == 0 {
      return "", "";
    }
    var ti := IndexOfCEFR(target);
    if ti < 0 {
      text, sourceCEFR := AnyText(current);
      return;
    }
    text, sourceCEFR := ClosestText(current, ti);
    if text == "" && articleCEFR != "" {
      sourceCEFR := articleCEFR;
    }
  }

  /** For a target that is no level: the first text met. */
  method AnyText(current: Versions) returns (text: string, level: string)
    ensures if exists k :: k in current && current[k] != "" then level in current && text == current[level] != ""
            else text == "" && level == ""
  {
    var left := current.Keys;
    while left != {}
      invariant left <= current.Keys
      invariant forall k | k in current && k !in left :: current[k] == ""
      decreases |left|
    {
      var k :| k in left;
      left := left - {k};
      if current[k] != "" {
        return current[k], k;
      }
    }
    return "", "";
  }

  /** `best` is the closest of the usable levels that have been visited. */
  ghost predicate IsBestOf(current: Versions, left: set<string>, ti: int, best: string) {
    && IsUsable(current, best)
    && forall k | IsUsable(current, k) && k !in left && k != best :: IsCloser(IndexOfCEFR(best), IndexOfCEFR(k), ti)
  }

  ghost predicate NoneUsable(current: Versions, left: set<string>) {
    forall k | IsUsable(current, k) :: k in left
  }

  lemma BestAfter(current: Versions, left: set<string>, k: string, ti: int, best: string)
    requires k in left && IsUsable(current, k)
    requires NoneUsable(current, left) || IsBestOf(current, left, ti, best)
    ensures if NoneUsable(current, left) || IsCloser(IndexOfCEFR(k), IndexOfCEFR(best), ti)
            then IsBestOf(current, left - {k}, ti, k)
            else IsBestOf(current, left - {k}, ti, best)
  {
    assert k != best ==> IndexOfCEFR(k) != IndexOfCEFR(best) || !IsCEFR(best);
  }

  /** The loop over the map, keeping the best level so far. */
  method ClosestText(current: Versions, ti: int) returns (text: string, level: string)
    ensures if exists k :: IsUsable(current, k) then IsBestOf(current, {}, ti, level) && text == current[level]
            else text == "" && level == ""
  {
    var left := current.Keys;
    var bestIdx := -1;
    text, level := "", "";
    while left != {}
      invariant left <= current.Keys
      invariant bestIdx < 0 ==> text == "" && level == "" && NoneUsable(current, left)
      invariant bestIdx >= 0 ==> IsBestOf(current, left, ti, level)
                                 && bestIdx == IndexOfCEFR(level) && text == current[level] && level !in left
      decreases |left|
    {
      var k :| k in left;
      ghost var before := left;
      left := left - {k};
      if current[k] == "" {
        continue;
      }
      var ki := IndexOfCEFR(k);
      if ki < 0 {
        continue;
      }
      BestAfter(current, before, k, ti, level);
      if bestIdx < 0 || Abs(ki - ti) < Abs(bestIdx - ti) || (Abs(ki - ti) == Abs(bestIdx - ti) && ki < bestIdx) {
        bestIdx := ki;
        text := current[k];
        level := k;
      }
    }
  }

  datatype Article = Article(userId: int, cefrDetected: string, summaryTarget: string, adapted: Blob)

  /** What the other services do during one call; `reply` is the model's text, if it gives one. */
  datatype Env = Env(userLoads: bool, hasKey: bool, reply: Option<string>, updateWorks: bool)

  datatype Error = UnknownCEFR | NotFound | LoadFailed | NoAPIKey | NoSourceText | ModelFailed | UpdateFailed
  datatype Result = Adapted(text: string) | Failed(error: Error)
  datatype Request = Request(targetCEFR: string, sourceCEFR: string, sourceText: string)

  /** One call: its result, whether the model was asked, and the articles afterwards. */
  function AdaptStep(articles: map<int, Article>, user: int, id: int, level: string, env: Env)
    : (Result, bool, map<int, Article>)
  {
    if !IsCEFR(level) then (Failed(UnknownCEFR), false, articles)
    else if id !in articles || articles[id].userId != user then (Failed(NotFound), false, articles)
    else
      var a := articles[id];
      var current := Parsed(a.adapted);
      if level in current then (Adapted(current[level]), false, articles)
      else if !env.userLoads then (Failed(LoadFailed), false, articles)
      else if !env.hasKey then (Failed(NoAPIKey), false, articles)
      else if current == map[] && a.summaryTarget == "" then (Failed(NoSourceText), false, articles)
      else if env.reply.None? then (Failed(ModelFailed), true, articles)
      else if !env.updateWorks then (Failed(UpdateFailed), true, articles)
      else (Adapted(env.reply.value), true,
            articles[id := a.(adapted := Json(current[level := env.reply.value]))])
  }

  /** The model is asked to start from the closest stored level, or from the article's own summary. */
  ghost predicate StartsFromClosest(a: Article, level: string, r: Request) {
    var current := Parsed(a.adapted);
    && r.targetCEFR == level
    && if current == map[] then r.sourceText == a.summaryTarget && r.sourceCEFR == a.cefrDetected
       else IsClosest(current, level, r.sourceCEFR) && r.sourceText == current[r.sourceCEFR]
  }

  /** The stored column has that text for that level. */
  predicate HasText(blob: Blob, level: string, text: string) {
    blob.Json? && level in blob.entries && blob.entries[level] == text && text != ""
  }

  /** Only its owner gets a text of an article or has the model asked about it: for anybody else it
      is not found. The owner gets the stored text if there is one, whatever fails; otherwise the
      model is asked exactly if the user loads, has a key, and there is a source text. */
  lemma OnlyOwnerAdapts(articles: map<int, Article>, user: int, id: int, level: string, env: Env)
    ensures var (result, asked, now) := AdaptStep(articles, user, id, level, env);
            && (result.Adapted? || asked ==> IsCEFR(level) && id in articles && articles[id].userId == user)
            && (IsCEFR(level) && (id !in articles || articles[id].userId != user) ==>
                  result == Failed(NotFound) && !asked)
            && (result.Failed? || !asked ==> now == articles)
    ensures IsCEFR(level) && id in articles && articles[id].userId == user ==>
              var (result, asked, _) := AdaptStep(articles, user, id, level, env);
              var stored := articles[id].adapted;
              if stored.Json? && level in stored.entries && stored.entries[level] != "" then
                result == Adapted(stored.entries[level]) && !asked
              else
                && (asked <==> env.userLoads && env.hasKey
                               && (articles[id].summaryTarget != ""
                                   || exists k, text :: IsCEFR(k) && HasText(stored, k, text)))
                && (result.Adapted? <==> asked && env.reply.Some? && env.updateWorks)
                && (result.Adapted? ==> env.reply == Some(result.text))
  {
    if id in articles {
      var stored := articles[id].adapted;
      if Parsed(stored) != map[] {
        var k :| k in Parsed(stored).Keys;
        assert HasText(stored, k, Parsed(stored)[k]);
      } else if stored.Json? {
        forall k, text
          ensures !(IsCEFR(k) && HasText(stored, k, text))
        {
          assert k !in Parsed(stored);
        }
      }
    }
  }

  class Service {
    var articles: map<int, Article>

    constructor ()
      ensures articles == map[]
    {
      articles := map[];
    }

    method Adapt(user: int, id: int, level: string, env: Env) returns (result: Result, asked: Option<Request>)
      modifies this
      ensures (result, asked.Some?, articles) == AdaptStep(old(articles), user, id, level, env)
      ensures !IsCEFR(level) ==> result == Failed(UnknownCEFR) && asked == None
      ensures IsCEFR(level) && (id !in old(articles) || old(articles)[id].userId != user) ==>
                result == Failed(NotFound) && asked == None
      ensures result.Adapted? || asked.Some? ==>
                IsCEFR(level) && id in old(articles) && old(articles)[id].userId == user
      ensures result.Failed? || asked == None ==> articles == old(articles)
      ensures result.Adapted? ==>
                if asked == None then HasText(old(articles)[id].adapted, level, result.text)
                else env.reply == Some(result.text) && env.userLoads && env.hasKey && env.updateWorks
      ensures asked.Some? ==> id in old(articles) && StartsFromClosest(old(articles)[id], level, asked.value)
      ensures asked.Some? ==> asked.value.sourceText != ""
    {
      asked := None;
      if !IsCEFR(level) {
        return Failed(UnknownCEFR), None;
      }
      if id !in articles {
        return Failed(NotFound), None;
      }
      var article := articles[id];
      if article.userId != user {
        return Failed(NotFound), None;
      }
      var current := ParseAdaptedVersions(article.adapted);
      if level in current && current[level] != "" {
        return Adapted(current[level]), None;
      }
      if !env.userLoads {
        return Failed(LoadFailed), None;
      }
      if !env.hasKey {
        return Failed(NoAPIKey), None;
      }
      var sourceText, sourceCEFR := PickAdaptSource(current, level, article.cefrDetected);
      SomethingUsable(article.adapted);
      if sourceText == "" {
        if article.summaryTarget == "" {
          return Failed(NoSourceText), None;
        }
        sourceText := article.summaryTarget;
        sourceCEFR := article.cefrDetected;
      }
      asked := Some(Request(level, sourceCEFR, sourceText));
      if env.reply.None? {
        return Failed(ModelFailed), asked;
      }
      current := current[level := env.reply.value];
      if !env.updateWorks {
        return Failed(UpdateFailed), asked;
      }
      articles := articles[id := article.(adapted := Json(current))];
      return Adapted(env.reply.value), asked;
    }
  }

  /** Every parsed entry can serve as a source. */
  lemma SomethingUsable(blob: Blob)
    ensures forall k | k in Parsed(blob) :: IsUsable(Parsed(blob), k)
    ensures Parsed(blob) != map[] ==> exists k :: IsUsable(Parsed(blob), k)
  {
    if Parsed(blob) != map[] {
      assert Parsed(blob).Keys != {};
      var k :| k in Parsed(blob).Keys;
      assert IsUsable(Parsed(blob), k);
    }
  }

  /** A successful call with a text adds exactly the asked level and keeps every other level and
      every other article; with an empty text no level becomes available or is lost. */
  lemma AdaptAddsOnlyTarget(articles: map<int, Article>, user: int, id: int, level: string, env: Env)
    requires AdaptStep(articles, user, id, level, env).0.Adapted?
    ensures var (result, asked, now) := AdaptStep(articles, user, id, level, env);
            && id in articles && now.Keys == articles.Keys
            && (forall other | other in articles && other != id :: now[other] == articles[other])
            && Parsed(now[id].adapted)
               == if result.text != "" then Parsed(articles[id].adapted)[level := result.text]
                  else Parsed(articles[id].adapted)
  {
  }

  /** Repeating a successful call returns the same text, asks no model and writes nothing, exactly
      when that text was not empty: an empty reply is stored but never found again. */
  lemma RepeatIsCachedIff(articles: map<int, Article>, user: int, id: int, level: string, env: Env, env2: Env)
    requires AdaptStep(articles, user, id, level, env).0.Adapted?
    ensures var (result, asked, now) := AdaptStep(articles, user, id, level, env);
            AdaptStep(now, user, id, level, env2) == (result, false, now) <==> result.text != ""
  {
    AdaptAddsOnlyTarget(articles, user, id, level, env);
  }

  // ----- overlapping calls on one article -----

  /** A call for a missing level reads the stored texts, waits for the model, and writes all of them
      back with its own. */
  datatype Phase = Ready | Asking(read: Versions) | Written | Over

  datatype Asked = Asked(level: string, reply: string, phase: Phase)

  /** The texts that can be read back from the article, and the calls on it. */
  datatype Shared = Shared(stored: Versions, calls: seq<Asked>)

  /** What a call stores: what it read and its own text, unless that is empty. */
  function Brought(read: Versions, call: Asked): Versions {
    if call.reply == "" then read else read[call.level := call.reply]
  }

  /** One step of a call; the model or the write may fail. */
  datatype Move = Move(call: nat, fails: bool)

  function ShareStep(sh: Shared, m: Move): Shared {
    if m.call >= |sh.calls| then sh
    else
      var call := sh.calls[m.call];
      match call.phase
      case Ready =>
        var next := if call.level in sh.stored then Over else Asking(sh.stored);
        sh.(calls := sh.calls[m.call := call.(phase := next)])
      case Asking(read) =>
        if m.fails then sh.(calls := sh.calls[m.call := call.(phase := Over)])
        else Shared(Brought(read, call), sh.calls[m.call := call.(phase := Written)])
      case _ => sh
  }

  function ShareRun(sh: Shared, schedule: seq<Move>): Shared {
    if schedule == [] then sh else ShareStep(ShareRun(sh, schedule[..|schedule| - 1]), schedule[|schedule| - 1])
  }

  /** A call that reads and writes with nothing in between stores what a single call does. */
  lemma AloneIsAdapt(articles: map<int, Article>, user: int, id: int, call: Asked, env: Env)
    requires call.phase == Ready && env.reply == Some(call.reply)
    requires AdaptStep(articles, user, id, call.level, env).0.Adapted?
    ensures var sh := Shared(Parsed(articles[id].adapted), [call]);
            var now := ShareStep(ShareStep(sh, Move(0, false)), Move(0, false));
            now.stored == Parsed(AdaptStep(articles, user, id, call.level, env).2[id].adapted)
  {
  }

  predicate IsWrite(sh: Shared, m: Move) {
    m.call < |sh.calls| && !m.fails && sh.calls[m.call].phase.Asking?
  }

  /** A write finds the texts its own call read: no other text was stored in between. */
  predicate FindsRead(sh: Shared, m: Move) {
    IsWrite(sh, m) ==> sh.stored == sh.calls[m.call].phase.read
  }

  predicate AlwaysFindsRead(sh: Shared, schedule: seq<Move>) {
    schedule == []
    || (var before := schedule[..|schedule| - 1];
        AlwaysFindsRead(sh, before) && FindsRead(ShareRun(sh, before), schedule[|schedule| - 1]))
  }

  /** Nothing has been read yet, and no two calls are for the same level. */
  ghost predicate Fresh(sh: Shared) {
    && (forall i | 0 <= i < |sh.calls| :: sh.calls[i].phase == Ready)
    && DifferentLevels(sh)
  }

  ghost predicate DifferentLevels(sh: Shared) {
    forall i, j | 0 <= i < j < |sh.calls| :: sh.calls[i].level != sh.calls[j].level
  }

  /** The call has stored a text. */
  predicate HasStored(call: Asked) {
    call.phase == Written && call.reply != ""
  }

  /** Every text that was there at the start or that a call has stored is still there. */
  ghost predicate AllKept(start: Versions, sh: Shared) {
    && (forall k | k in start :: k in sh.stored && sh.stored[k] == start[k])
    && (forall i | 0 <= i < |sh.calls| && HasStored(sh.calls[i]) ::
          sh.calls[i].level in sh.stored && sh.stored[sh.calls[i].level] == sh.calls[i].reply)
  }

  /** `known` holds nothing but the start and texts stored by calls. */
  ghost predicate OnlyStored(start: Versions, calls: seq<Asked>, known: Versions) {
    forall k | k in known ::
      || (k in start && known[k] == start[k])
      || exists i :: 0 <= i < |calls| && HasStored(calls[i]) && calls[i].level == k && calls[i].reply == known[k]
  }

  /** Nothing known was made up; no call reads its own level, nor less than the start. */
  ghost predicate SharedOk(start: Versions, sh: Shared) {
    && DifferentLevels(sh) && OnlyStored(start, sh.calls, sh.stored)
    && forall k | 0 <= k < |sh.calls| && sh.calls[k].phase.Asking? :: sh.calls[k].level !in sh.calls[k].phase.read
  }

  /** As long as nothing was lost: everything is kept, and what a call read is still there. */
  ghost predicate NothingLost(start: Versions, sh: Shared) {
    && AllKept(start, sh)
    && forall k | 0 <= k < |sh.calls| && sh.calls[k].phase.Asking? ::
         var read := sh.calls[k].phase.read;
         && (forall x | x in start :: x in read)
         && (forall x | x in read :: x in sh.stored && sh.stored[x] == read[x])
  }

  lemma KeepOnlyStored(start: Versions, calls: seq<Asked>, i: nat, phase: Phase, known: Versions)
    requires i < |calls| && OnlyStored(start, calls, known) && (calls[i].phase != Written || phase == Written)
    ensures OnlyStored(start, calls[i := calls[i].(phase := phase)], known)
  {
    var after := calls[i := calls[i].(phase := phase)];
    forall k | k in known && !(k in start && known[k] == start[k])
      ensures exists j :: 0 <= j < |after| && HasStored(after[j]) && after[j].level == k && after[j].reply == known[k]
    {
      var j :| 0 <= j < |calls| && HasStored(calls[j]) && calls[j].level == k && calls[j].reply == known[k];
      assert HasStored(after[j]) && after[j].level == k && after[j].reply == known[k];
    }
  }

  /** A write that finds what its call read loses nothing. */
  lemma CleanWrite(start: Versions, sh: Shared, m: Move)
    requires SharedOk(start, sh) && NothingLost(start, sh) && IsWrite(sh, m) && FindsRead(sh, m)
    ensures SharedOk(start, ShareStep(sh, m)) && NothingLost(start, ShareStep(sh, m))
  {
    CleanWriteIsOk(start, sh, m);
    CleanWriteKeeps(start, sh, m);
  }

  lemma CleanWriteIsOk(start: Versions, sh: Shared, m: Move)
    requires SharedOk(start, sh) && IsWrite(sh, m) && FindsRead(sh, m)
    ensures SharedOk(start, ShareStep(sh, m))
  {
    var call, now := sh.calls[m.call], ShareStep(sh, m);
    KeepOnlyStored(start, sh.calls, m.call, Written, sh.stored);
    forall k | k in now.stored
      ensures || (k in start && now.stored[k] == start[k])
              || exists i :: 0 <= i < |now.calls| && HasStored(now.calls[i])
                             && now.calls[i].level == k && now.calls[i].reply == now.stored[k]
    {
      if call.reply != "" && k == call.level {
        assert HasStored(now.calls[m.call]);
      } else {
        assert k in sh.stored && now.stored[k] == sh.stored[k];
      }
    }
  }

  lemma CleanWriteKeeps(start: Versions, sh: Shared, m: Move)
    requires SharedOk(start, sh) && NothingLost(start, sh) && IsWrite(sh, m) && FindsRead(sh, m)
    ensures NothingLost(start, ShareStep(sh, m))
  {
    var call, now := sh.calls[m.call], ShareStep(sh, m);
    assert call.level !in sh.stored;
    assert forall k | k in sh.stored :: k in now.stored && now.stored[k] == sh.stored[k];
    forall i | 0 <= i < |now.calls| && HasStored(now.calls[i])
      ensures now.calls[i].level in now.stored && now.stored[now.calls[i].level] == now.calls[i].reply
    {
      if i != m.call { assert now.calls[i] == sh.calls[i]; }
    }
  }

  lemma NewText(read: Versions, stored: Versions) returns (x: string)
    requires read != stored && forall k | k in read :: k in stored && stored[k] == read[k]
    ensures x in stored && x !in read
  {
    if stored.Keys <= read.Keys {
      assert false;
    }
    x :| x in stored.Keys && x !in read.Keys;
  }

  /** One that does not loses a text of another call. */
  lemma DirtyWrite(start: Versions, sh: Shared, m: Move)
    requires SharedOk(start, sh) && NothingLost(start, sh) && IsWrite(sh, m) && !FindsRead(sh, m)
    ensures !AllKept(start, ShareStep(sh, m))
  {
    var call, now := sh.calls[m.call], ShareStep(sh, m);
    var read := call.phase.read;
    var x := NewText(read, sh.stored);
    var i :| 0 <= i < |sh.calls| && HasStored(sh.calls[i]) && sh.calls[i].level == x;
    assert now.calls[i] == sh.calls[i] && x != call.level;
    assert x !in now.stored;
  }

  lemma OtherStep(start: Versions, sh: Shared, m: Move)
    requires SharedOk(start, sh) && NothingLost(start, sh) && !IsWrite(sh, m)
    ensures SharedOk(start, ShareStep(sh, m)) && NothingLost(start, ShareStep(sh, m))
  {
    if m.call < |sh.calls| {
      KeepOnlyStored(start, sh.calls, m.call, ShareStep(sh, m).calls[m.call].phase, sh.stored);
    }
  }

  ghost predicate AlwaysKept(start: Shared, schedule: seq<Move>) {
    && AllKept(start.stored, ShareRun(start, schedule))
    && (schedule == [] || AlwaysKept(start, schedule[..|schedule| - 1]))
  }

  /** Overlapping calls for different levels: no text, stored before or by any of them, is ever lost
      exactly if no other text is stored between a call's read and its write. */
  lemma {:induction false} NothingLostIff(sh: Shared, schedule: seq<Move>)
    requires Fresh(sh)
    ensures AlwaysKept(sh, schedule) <==> AlwaysFindsRead(sh, schedule)
    ensures AlwaysFindsRead(sh, schedule) ==>
              SharedOk(sh.stored, ShareRun(sh, schedule)) && NothingLost(sh.stored, ShareRun(sh, schedule))
  {
    if schedule != [] {
      var before, m := schedule[..|schedule| - 1], schedule[|schedule| - 1];
      NothingLostIff(sh, before);
      if AlwaysFindsRead(sh, before) {
        var was := ShareRun(sh, before);
        if !IsWrite(was, m) {
          OtherStep(sh.stored, was, m);
        } else if FindsRead(was, m) {
          CleanWrite(sh.stored, was, m);
        } else {
          DirtyWrite(sh.stored, was, m);
        }
      }
    }
  }

  datatype Relative = Relative(lower: string, current: string, higher: string)

  function Put(m: Versions, level: Option<string>, text: string): Versions {
    if level.Some? && text != "" then m[level.value := text] else m
  }

  /** `adaptedFromLLM`: the model's relative slots, keyed by absolute level. */
  function AdaptedFromLLM(userLevel: string, v: Relative): Versions {
    var low := Put(map[], CEFRShift(userLevel, -1), v.lower);
    var mid := Put(low, if IsCEFR(userLevel) then Some(userLevel) else None, v.current);
    Put(mid, CEFRShift(userLevel, 1), v.higher)
  }

  /** The slots land on three different levels, so none overwrites another; everything stored is
      read back; and a card's view of a level finds exactly the slot it was made from. */
  lemma RelativeRoundTrip(userLevel: string, v: Relative)
    ensures var m := AdaptedFromLLM(userLevel, v);
            && Parsed(Json(m)) == m
            && (CEFRShift(userLevel, -1).Some? ==> TextAt(m, CEFRShift(userLevel, -1).value) == v.lower)
            && (IsCEFR(userLevel) ==> TextAt(m, userLevel) == v.current)
            && (CEFRShift(userLevel, 1).Some? ==> TextAt(m, CEFRShift(userLevel, 1).value) == v.higher)
            && (!IsCEFR(userLevel) ==> m == map[])
  {
    var below, above := CEFRShift(userLevel, -1), CEFRShift(userLevel, 1);
    assert below.Some? ==> IsCEFR(below.value) && below.value != userLevel;
    assert above.Some? ==> IsCEFR(above.value) && above.value != userLevel;
    assert below.Some? && above.Some? ==> below.value != above.value;
  }

  function TextAt(m: Versions, level: string): string {
    if level in m then m[level] else ""
  }
}
