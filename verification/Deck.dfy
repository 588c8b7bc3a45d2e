/** Building a quiz deck: distractor sampling (`dictionary/repo.go`), option shuffling
    (`session/quiz.go`) and deck assembly (`handlers/study.go`). Query results and random draws
    are arbitrary inputs. */
module Deck {
  import opened Options
  import opened Strings
  import opened Dedup
  import Dictionary
  import opened Quiz

  const QUIZ_DECK_SIZE: nat := 10

  /** What a string is compared by: trimmed and lower-cased. */
  function Norm(fold: char -> char, s: string): string {
    ToLower(fold, TrimSpace(s))
  }

  function Trimmed(values: seq<string>): seq<string> {
    seq(|values|, i requires 0 <= i < |values| => TrimSpace(values[i]))
  }

  function Lower(fold: char -> char): string -> string {
    (s: string) => ToLower(fold, s)
  }

  /** The distractors to be had from two pools: trimmed, neither blank nor the answer, each at
      its first occurrence up to case, the user's own first. */
  ghost function Distractors(fold: char -> char, userPool: seq<string>, globalPool: seq<string>, correct: string)
    : seq<string>
  {
    Firsts(Trimmed(userPool) + Trimmed(globalPool), Lower(fold), {"", Norm(fold, correct)})
  }

  /** The first `n` of them, or all there are. */
  ghost function Offer(fold: char -> char, userPool: seq<string>, globalPool: seq<string>, correct: string, n: nat)
    : seq<string>
  {
    var all := Distractors(fold, userPool, globalPool, correct);
    all[..Min(n, |all|)]
  }

  /** The keys that are turned down: blank, the answer's, and those seen. */
  ghost predicate TurnsDown(known: set<string>, correctNorm: string, seen: set<string>) {
    forall k :: k in known <==> k == "" || k == correctNorm || k in seen
  }

  /** `add` of `SampleDistractors`: append what `values` has to offer until there are `n`. */
  method Add(fold: char -> char, values: seq<string>, correctNorm: string, n: nat,
             out0: seq<string>, seen0: set<string>, ghost known0: set<string>)
    returns (out: seq<string>, seen: set<string>, ghost known: set<string>)
    requires |out0| < n && TurnsDown(known0, correctNorm, seen0)
    ensures var news := Firsts(Trimmed(values), Lower(fold), known0);
            out == out0 + news[..Min(n - |out0|, |news|)]
    ensures |out| < n ==> known == known0 + Keys(Trimmed(values), Lower(fold)) && TurnsDown(known, correctNorm, seen)
  {
    ghost var xs, key, added := Trimmed(values), Lower(fold), [];
    out, seen, known := out0, seen0, known0;
    var i := 0;
    while i < |values|
      invariant 0 <= i <= |values|
      invariant out == out0 + added && added == Firsts(xs[..i], key, known0) && |out| < n
      invariant known == known0 + Keys(xs[..i], key) && TurnsDown(known, correctNorm, seen)
    {
      FirstsStepSeen(xs, i, key, known0, known);
      var v := TrimSpace(values[i]);
      i := i + 1;
      if v == "" {
        continue;
      }
      var k := ToLower(fold, v);
      if k == correctNorm {
        continue;
      }
      if k in seen {
        continue;
      }
      Append(out0, added, v);
      seen, known := seen + {k}, known + {k};
      out := out + [v];
      added := added + [v];
      if |out| >= n {
        break;
      }
    }
    AddedIsPrefix(xs, i, key, known0, n - |out0|);
  }

  lemma AddedIsPrefix(xs: seq<string>, i: nat, key: string -> string, before: set<string>, room: nat)
    requires i <= |xs|
    requires |Firsts(xs[..i], key, before)| <= room
    requires i == |xs| || |Firsts(xs[..i], key, before)| == room
    ensures var all := Firsts(xs, key, before); Firsts(xs[..i], key, before) == all[..Min(room, |all|)]
    ensures i == |xs| ==> xs[..i] == xs
  {
    FirstsGrow(xs, i, key, before);
    assert i == |xs| ==> xs[..i] == xs;
  }

  /** `SampleDistractors`: the user's own words first, the global pool only if they do not suffice. */
  method SampleDistractors(fold: char -> char, userPool: seq<string>, globalPool: seq<string>, correct: string, n: int)
    returns (out: seq<string>)
    ensures n <= 0 ==> out == []
    ensures n > 0 ==> out == Offer(fold, userPool, globalPool, correct, n)
  {
    if n <= 0 {
      return [];
    }
    var correctNorm := ToLower(fold, TrimSpace(correct));
    out := SampleBoth(fold, userPool, globalPool, correctNorm, n);
  }

  /** The two queries of `SampleDistractors`. */
  method SampleBoth(fold: char -> char, userPool: seq<string>, globalPool: seq<string>, correctNorm: string, n: nat)
    returns (out: seq<string>)
    requires n > 0
    ensures var all := Firsts(Trimmed(userPool) + Trimmed(globalPool), Lower(fold), {"", correctNorm});
            out == all[..Min(n, |all|)]
  {
    var seen: set<string>;
    ghost var known;
    out, seen, known := Add(fold, userPool, correctNorm, n, [], {}, {"", correctNorm});
    ghost var first := out;
    if |out| < n {
      out, seen, known := Add(fold, globalPool, correctNorm, n, out, seen, known);
    }
    PoolsInARow(Trimmed(userPool), Trimmed(globalPool), Lower(fold), {"", correctNorm}, n, first, out);
  }

  /** The user's own words come first, in their order, and only if they do not suffice are words of
      the global pool added; every distractor is one of the two pools, trimmed. */
  lemma OwnWordsFirst(fold: char -> char, userPool: seq<string>, globalPool: seq<string>, correct: string, n: nat)
    ensures var own := Firsts(Trimmed(userPool), Lower(fold), {"", Norm(fold, correct)});
            var out := Offer(fold, userPool, globalPool, correct, n);
            && |out| <= n
            && (if |own| >= n then out == own[..n] else own <= out)
            && (|out| < n ==> out == Distractors(fold, userPool, globalPool, correct))
            && forall i | 0 <= i < |out| :: out[i] in Trimmed(userPool) || out[i] in Trimmed(globalPool)
  {
    var a, b, known := Trimmed(userPool), Trimmed(globalPool), {"", Norm(fold, correct)};
    FirstsOfConcat(a, b, Lower(fold), known);
    TakeOfRow(Firsts(a, Lower(fold), known), Firsts(b, Lower(fold), known + Keys(a, Lower(fold))), n);
    forall i | 0 <= i < |Offer(fold, userPool, globalPool, correct, n)|
      ensures var x := Offer(fold, userPool, globalPool, correct, n)[i]; x in a || x in b
    {
      FirstIsElement(a + b, Lower(fold), known, i);
    }
  }

  lemma FirstIsElement(xs: seq<string>, key: string -> string, seen: set<string>, i: nat)
    requires i < |Firsts(xs, key, seen)|
    ensures Firsts(xs, key, seen)[i] in xs
  {
    FirstsMeaning(xs, key, seen);
  }

  /** The first `n` of two lists in a row. */
  lemma TakeOfRow<T>(own: seq<T>, more: seq<T>, n: nat)
    ensures var all := own + more;
            var out := all[..Min(n, |all|)];
            && |out| <= n
            && (if |own| >= n then out == own[..n] else own <= out)
            && (|out| < n ==> out == all)
  {
  }

  lemma PoolsInARow(a: seq<string>, b: seq<string>, key: string -> string, known: set<string>, n: nat,
                    first: seq<string>, out: seq<string>)
    requires var own := Firsts(a, key, known); first == [] + own[..Min(n - 0, |own|)]
    requires var more := Firsts(b, key, known + Keys(a, key));
             out == if |first| < n then first + more[..Min(n - |first|, |more|)] else first
    ensures var all := Firsts(a + b, key, known); out == all[..Min(n, |all|)]
  {
    FirstsOfConcat(a, b, key, known);
    TakeOfConcat(Firsts(a, key, known), Firsts(b, key, known + Keys(a, key)), n);
  }

  lemma TakeOfConcat<T>(xs: seq<T>, ys: seq<T>, n: nat)
    ensures (xs + ys)[..Min(n, |xs + ys|)]
            == if |xs| < n then xs + ys[..Min(n - |xs|, |ys|)] else xs[..Min(n, |xs|)]
    ensures [] + xs[..Min(n, |xs|)] == xs[..Min(n, |xs|)] && (|xs| < n ==> xs[..Min(n, |xs|)] == xs)
  {
  }

  /** A rearrangement of `0..n`: where each place is filled from, and where each place went. */
  datatype Rearrangement = Rearrangement(from: seq<nat>, to: seq<nat>)

  ghost predicate IsRearrangement(r: Rearrangement, n: nat) {
    && |r.from| == |r.to| == n
    && (forall i | 0 <= i < n :: r.from[i] < n && r.to[r.from[i]] == i)
    && (forall i | 0 <= i < n :: r.to[i] < n && r.from[r.to[i]] == i)
  }

  /** `options` are the strings of `pool`, rearranged. */
  ghost predicate IsShuffle(options: seq<string>, pool: seq<string>, r: Rearrangement) {
    && IsRearrangement(r, |pool|)
    && |options| == |pool|
    && forall i | 0 <= i < |pool| :: options[i] == pool[r.from[i]]
  }

  function Swap<T>(xs: seq<T>, i: nat, j: nat): seq<T>
    requires i < |xs| && j < |xs|
  {
    xs[i := xs[j]][j := xs[i]]
  }

  /** The result of some swaps in turn; one that names no places is left out. */
  function Swapped<T>(xs: seq<T>, swaps: seq<(nat, nat)>): (ys: seq<T>)
    ensures |ys| == |xs|
  {
    if swaps == [] then xs
    else
      var before, (i, j) := Swapped(xs, swaps[..|swaps| - 1]), swaps[|swaps| - 1];
      if i < |xs| && j < |xs| then Swap(before, i, j) else before
  }

  lemma SwapKeepsShuffle(options: seq<string>, pool: seq<string>, r: Rearrangement, i: nat, j: nat)
    requires IsShuffle(options, pool, r) && i < |options| && j < |options|
    ensures IsShuffle(Swap(options, i, j), pool,
                      Rearrangement(Swap(r.from, i, j), r.to[r.from[i] := j][r.from[j] := i]))
  {
  }

  /** The answer and the distractors that fit beside it. */
  function OptionPool(correct: string, distractors: seq<string>, want: nat): seq<string> {
    [correct] + distractors[..Min(if want > 0 then want - 1 else 0, |distractors|)]
  }

  /** One more swap exchanges two places and leaves the others alone. */
  lemma LastSwapExchanges<T>(xs: seq<T>, swaps: seq<(nat, nat)>, i: nat, j: nat)
    requires i < |xs| && j < |xs|
    ensures var before, after := Swapped(xs, swaps), Swapped(xs, swaps + [(i, j)]);
            && after[i] == before[j] && after[j] == before[i]
            && forall k | 0 <= k < |xs| && k != i && k != j :: after[k] == before[k]
  {
    assert (swaps + [(i, j)])[..|swaps|] == swaps;
  }

  /** Any swaps are a rearrangement. */
  lemma {:induction false} SwappedIsShuffle(pool: seq<string>, swaps: seq<(nat, nat)>) returns (r: Rearrangement)
    ensures IsShuffle(Swapped(pool, swaps), pool, r)
  {
    if swaps == [] {
      r := Rearrangement(seq(|pool|, i => i), seq(|pool|, i => i));
    } else {
      var before := Swapped(pool, swaps[..|swaps| - 1]);
      var (i, j) := swaps[|swaps| - 1];
      r := SwappedIsShuffle(pool, swaps[..|swaps| - 1]);
      if i < |pool| && j < |pool| {
        SwapKeepsShuffle(before, pool, r, i, j);
        r := Rearrangement(Swap(r.from, i, j), r.to[r.from[i] := j][r.from[j] := i]);
      }
    }
  }

  /** `rng.Shuffle`: whatever the random numbers are, it is some sequence of swaps. */
  method Shuffle(pool: array<string>, swaps: seq<(nat, nat)>)
    requires forall k | 0 <= k < |swaps| :: swaps[k].0 < pool.Length && swaps[k].1 < pool.Length
    modifies pool
    ensures pool[..] == Swapped(old(pool[..]), swaps)
  {
    for k := 0 to |swaps|
      invariant pool[..] == Swapped(old(pool[..]), swaps[..k])
    {
      assert swaps[..k + 1][..k] == swaps[..k];
      var i, j := swaps[k].0, swaps[k].1;
      ghost var before := pool[..];
      pool[i], pool[j] := pool[j], pool[i];
      assert pool[..] == Swap(before, i, j);
    }
    assert swaps[..|swaps|] == swaps;
  }

  /** `BuildQuizOptions`: the answer and at most `want - 1` distractors, shuffled. The fallback
      after the search is out of reach: the answer is always among the options. */
  method BuildQuizOptions(swaps: seq<(nat, nat)>, correct: string, distractors: seq<string>, want: int)
    returns (options: seq<string>, correctIndex: int, ghost r: Rearrangement)
    requires want > 0 ==>
               forall k | 0 <= k < |swaps| ::
                 swaps[k].0 <= Min(want - 1, |distractors|) && swaps[k].1 <= Min(want - 1, |distractors|)
    ensures want <= 0 ==> options == [] && correctIndex == -1
    ensures want > 0 ==>
              && IsShuffle(options, OptionPool(correct, distractors, want), r)
              && options == Swapped(OptionPool(correct, distractors, want), swaps)
              && 0 <= correctIndex < |options| && options[correctIndex] == correct
              && correct !in options[..correctIndex]
  {
    if want <= 0 {
      return [], -1, Rearrangement([], []);
    }
    var chosen := ChooseOptions(correct, distractors, want);
    var pool := new string[|chosen|](i requires 0 <= i < |chosen| => chosen[i]);
    assert pool[..] == chosen;
    Shuffle(pool, swaps);
    options := pool[..];
    r := SwappedIsShuffle(chosen, swaps);
    CorrectIsShuffledIn(options, chosen, r);
    correctIndex := FindAnswer(options, correct);
  }

  /** The loop that fills the pool. */
  method ChooseOptions(correct: string, distractors: seq<string>, want: int) returns (chosen: seq<string>)
    requires want > 0
    ensures chosen == OptionPool(correct, distractors, want) && chosen != [] && chosen[0] == correct
    ensures |chosen| == 1 + Min(want - 1, |distractors|)
  {
    chosen := [correct];
    var d := 0;
    while d < |distractors| && |chosen| < want
      invariant 0 <= d <= |distractors| && |chosen| == d + 1 <= want
      invariant chosen == [correct] + distractors[..d]
    {
      chosen := chosen + [distractors[d]];
      d := d + 1;
    }
  }

  /** The search that ends `BuildQuizOptions`. */
  method FindAnswer(options: seq<string>, correct: string) returns (index: int)
    requires correct in options
    ensures 0 <= index < |options| && options[index] == correct && correct !in options[..index]
  {
    assert options[..|options|] == options;
    for i := 0 to |options|
      invariant correct !in options[..i]
    {
      if options[i] == correct {
        return i;
      }
    }
    assert false;
  }

  lemma CorrectIsShuffledIn(options: seq<string>, pool: seq<string>, r: Rearrangement)
    requires IsShuffle(options, pool, r) && pool != []
    ensures pool[0] in options
  {
    assert options[r.to[0]] == pool[0];
  }

  datatype LearningEntry = LearningEntry(wordId: int, lemmaText: string, pos: string, ipa: string)
  datatype DictionaryWord = DictionaryWord(language: string, entry: LearningEntry)
  datatype ArticleWordSample = ArticleWordSample(translation: string, exampleTarget: string, exampleNative: string)

  /** What chance and the database bring to one card. */
  datatype Draw = Draw(
    direction: Direction, uiMode: UIMode, samplingFails: bool,
    userPool: seq<string>, globalPool: seq<string>, swaps: seq<(nat, nat)>)
  {
    predicate InRange() {
      forall k | 0 <= k < |swaps| :: swaps[k].0 < 4 && swaps[k].1 < 4
    }
  }

  /** `LearningQueue` as a query: words of the language that the user is learning, each once (the
      status table is keyed by user and word), and all of them if they are fewer than the limit. */
  ghost predicate IsLearningQueue(rows: Dictionary.Rows, words: map<int, DictionaryWord>, user: int,
                                  language: string, limit: nat, queue: seq<LearningEntry>)
  {
    && |queue| <= limit
    && (forall i, j | 0 <= i < j < |queue| :: queue[i].wordId != queue[j].wordId)
    && (forall i | 0 <= i < |queue| :: IsLearned(rows, words, user, language, queue[i]))
    && (|queue| < limit ==> forall e | IsLearned(rows, words, user, language, e) :: e in queue)
  }

  predicate IsLearned(rows: Dictionary.Rows, words: map<int, DictionaryWord>, user: int, language: string,
                      e: LearningEntry)
  {
    && (user, e.wordId) in rows && rows[(user, e.wordId)].status == Dictionary.Learning
    && e.wordId in words && words[e.wordId] == DictionaryWord(language, e)
  }

  predicate IsSingleWord(s: string) {
    forall i | 0 <= i < |s| :: s[i] != ' ' && s[i] != '\t' && s[i] != '\n'
  }

  function SingleWords(items: seq<string>): (out: seq<string>)
    ensures |out| <= |items|
    ensures |out| == |items| ==> out == items && forall i | 0 <= i < |items| :: IsSingleWord(items[i])
  {
    if items == [] then []
    else SingleWords(items[..|items| - 1]) + if IsSingleWord(items[|items| - 1]) then [items[|items| - 1]] else []
  }

  method FilterSingleWord(items: seq<string>) returns (out: seq<string>)
    ensures out == SingleWords(items)
  {
    out := [];
    for i := 0 to |items|
      invariant out == SingleWords(items[..i])
    {
      assert items[..i + 1][..i] == items[..i];
      if IsSingleWord(items[i]) {
        out := out + [items[i]];
      }
    }
    assert items[..|items|] == items;
  }

  function Translation(samples: map<int, ArticleWordSample>, e: LearningEntry): string {
    if e.wordId in samples then TrimSpace(samples[e.wordId].translation) else ""
  }

  function AnswerFor(samples: map<int, ArticleWordSample>, e: LearningEntry, draw: Draw): string {
    if draw.direction == ForeignToNative then Translation(samples, e) else e.lemmaText
  }

  ghost function ThreeDistractors(fold: char -> char, correct: string, draw: Draw): seq<string> {
    Offer(fold, draw.userPool, draw.globalPool, correct, 3)
  }

  ghost function DrawnOptions(fold: char -> char, correct: string, draw: Draw): seq<string> {
    Swapped([correct] + ThreeDistractors(fold, correct, draw), draw.swaps)
  }

  /** An entry gets a card when it has a translation, a one-word answer, and three distractors,
      all of them one word. */
  ghost predicate Usable(fold: char -> char, samples: map<int, ArticleWordSample>, e: LearningEntry, draw: Draw) {
    var correct := AnswerFor(samples, e, draw);
    && Translation(samples, e) != "" && IsSingleWord(correct) && !draw.samplingFails
    && |SingleWords(ThreeDistractors(fold, correct, draw))| == 3
  }

  /** Four one-word options, pairwise different up to case, the answer at the correct index. */
  ghost predicate IsFairCard(fold: char -> char, c: QuizCard) {
    && |c.options| == 4 && 0 <= c.correctIndex < 4
    && c.options[c.correctIndex] == c.CorrectAnswer()
    && PairwiseDifferent(fold, c.options)
    && (forall i | 0 <= i < 4 :: IsSingleWord(c.options[i]))
  }

  /** On a fair card, exactly the option with the right answer is the right one to pick. */
  lemma OnlyTheAnswerIsRight(fold: char -> char, c: QuizCard, option: int)
    requires IsFairCard(fold, c) && 0 <= option < 4
    ensures option == c.correctIndex <==> c.options[option] == c.CorrectAnswer()
  {
    var i := c.correctIndex;
    assert option < i ==> ToLower(fold, c.options[option]) != ToLower(fold, c.options[i]);
    assert i < option ==> ToLower(fold, c.options[i]) != ToLower(fold, c.options[option]);
  }

  /** The card of an entry: its texts, and the answer and the three distractors sampled for it, in the
      order they were shuffled into. */
  ghost predicate IsCardFor(fold: char -> char, c: QuizCard, samples: map<int, ArticleWordSample>, e: LearningEntry,
                            draw: Draw)
  {
    && c.wordId == e.wordId && c.lemmaText == e.lemmaText && c.pos == e.pos && c.ipa == e.ipa
    && c.translation == Translation(samples, e) && c.direction == draw.direction
    && e.wordId in samples && c.exampleTarget == samples[e.wordId].exampleTarget
    && c.exampleNative == samples[e.wordId].exampleNative
    && c.options == DrawnOptions(fold, AnswerFor(samples, e, draw), draw)
  }

  /** The first card of a deck is an inline one, every other as drawn. */
  predicate HasMode(c: QuizCard, draw: Draw, first: bool) {
    c.uiMode == if first then Inline else draw.uiMode
  }

  /** Distractors are trimmed, differ from each other up to case, and from the trimmed answer. */
  lemma DistractorsDiffer(fold: char -> char, userPool: seq<string>, globalPool: seq<string>, correct: string)
    ensures var all := Distractors(fold, userPool, globalPool, correct);
            && (forall i | 0 <= i < |all| ::
                  IsTrimmed(all[i]) && all[i] != "" && ToLower(fold, all[i]) != Norm(fold, correct))
            && (forall i, j | 0 <= i < j < |all| :: ToLower(fold, all[i]) != ToLower(fold, all[j]))
  {
    var values, key := Trimmed(userPool) + Trimmed(globalPool), Lower(fold);
    var all := Distractors(fold, userPool, globalPool, correct);
    FirstsMeaning(values, key, {"", Norm(fold, correct)});
    forall i | 0 <= i < |all|
      ensures IsTrimmed(all[i]) && all[i] != "" && ToLower(fold, all[i]) != Norm(fold, correct)
    {
      assert all[i] in values && key(all[i]) !in {"", Norm(fold, correct)};
    }
    forall i, j | 0 <= i < j < |all|
      ensures ToLower(fold, all[i]) != ToLower(fold, all[j])
    {
      assert key(all[i]) != key(all[j]);
    }
  }

  lemma AnswerDiffers(fold: char -> char, correct: string, d: string)
    requires KeepsSpace(fold) && IsTrimmed(d) && ToLower(fold, d) != Norm(fold, correct)
    ensures ToLower(fold, correct) != ToLower(fold, d)
  {
    TrimOfTrimmed(d);
    if ToLower(fold, correct) == ToLower(fold, d) {
      LowerOfTrim(fold, correct, d);
      assert false;
    }
  }

  ghost predicate PairwiseDifferent(fold: char -> char, xs: seq<string>) {
    forall i, j | 0 <= i < j < |xs| :: ToLower(fold, xs[i]) != ToLower(fold, xs[j])
  }

  lemma PoolIsDistinct(fold: char -> char, correct: string, draw: Draw)
    requires KeepsSpace(fold)
    ensures PairwiseDifferent(fold, [correct] + ThreeDistractors(fold, correct, draw))
  {
    var three := ThreeDistractors(fold, correct, draw);
    DistractorsDiffer(fold, draw.userPool, draw.globalPool, correct);
    forall i | 0 <= i < |three|
      ensures ToLower(fold, correct) != ToLower(fold, three[i])
    {
      AnswerDiffers(fold, correct, three[i]);
    }
  }

  lemma ShuffleIsFair(fold: char -> char, pool: seq<string>, options: seq<string>, r: Rearrangement)
    requires IsShuffle(options, pool, r)
    requires PairwiseDifferent(fold, pool)
    requires forall i | 0 <= i < |pool| :: IsSingleWord(pool[i])
    ensures PairwiseDifferent(fold, options)
    ensures forall i | 0 <= i < |options| :: IsSingleWord(options[i])
  {
    forall i, j | 0 <= i < j < |options|
      ensures ToLower(fold, options[i]) != ToLower(fold, options[j])
    {
      assert r.to[r.from[i]] == i && r.to[r.from[j]] == j;
      assert r.from[i] < r.from[j] || r.from[j] < r.from[i];
    }
  }

  /** The options of a card, where there are enough distractors. */
  method BuildOptions(fold: char -> char, correct: string, draw: Draw) returns (made: Option<(seq<string>, int)>)
    requires KeepsSpace(fold) && draw.InRange() && IsSingleWord(correct)
    ensures made.Some? <==> |SingleWords(ThreeDistractors(fold, correct, draw))| == 3
    ensures made.Some? ==>
              var (options, idx) := made.value;
              && |options| == 4 && 0 <= idx < 4 && options[idx] == correct
              && options == DrawnOptions(fold, correct, draw)
              && PairwiseDifferent(fold, options)
              && forall i | 0 <= i < 4 :: IsSingleWord(options[i])
  {
    var distractors := SampleDistractors(fold, draw.userPool, draw.globalPool, correct, 3);
    PoolIsDistinct(fold, correct, draw);
    ghost var three := ThreeDistractors(fold, correct, draw);
    assert distractors == three;
    made := ShuffleOptions(fold, correct, distractors, draw.swaps);
  }

  method ShuffleOptions(fold: char -> char, correct: string, sampled: seq<string>, swaps: seq<(nat, nat)>)
    returns (made: Option<(seq<string>, int)>)
    requires |sampled| <= 3 && IsSingleWord(correct) && PairwiseDifferent(fold, [correct] + sampled)
    requires forall k | 0 <= k < |swaps| :: swaps[k].0 < 4 && swaps[k].1 < 4
    ensures made.Some? <==> |SingleWords(sampled)| == 3
    ensures made.Some? ==>
              var (options, idx) := made.value;
              && |options| == 4 && 0 <= idx < 4 && options[idx] == correct
              && options == Swapped([correct] + sampled, swaps)
              && PairwiseDifferent(fold, options)
              && forall i | 0 <= i < 4 :: IsSingleWord(options[i])
  {
    var distractors := FilterSingleWord(sampled);
    if |distractors| < 3 {
      return None;
    }
    assert distractors == sampled;
    var options, idx, r := BuildQuizOptions(swaps, correct, distractors, 4);
    assert OptionPool(correct, distractors, 4) == [correct] + sampled;
    ShuffleIsFair(fold, [correct] + sampled, options, r);
    return Some((options, idx));
  }

  /** One round of the deck loop: a card, or nothing where the loop moves on. */
  method BuildCard(fold: char -> char, samples: map<int, ArticleWordSample>, e: LearningEntry, draw: Draw, first: bool)
    returns (card: Option<QuizCard>)
    requires KeepsSpace(fold) && draw.InRange()
    ensures card.Some? <==> Usable(fold, samples, e, draw)
    ensures card.Some? ==> IsFairCard(fold, card.value) && IsCardFor(fold, card.value, samples, e, draw)
    ensures card.Some? ==> card.value.uiMode == if first then Inline else draw.uiMode
  {
    var translation, exampleT, exampleN := "", "", "";
    if e.wordId in samples {
      translation := TrimSpace(samples[e.wordId].translation);
      exampleT := samples[e.wordId].exampleTarget;
      exampleN := samples[e.wordId].exampleNative;
    }
    if translation == "" {
      return None;
    }
    var ui := if first then Inline else draw.uiMode;
    var correct := if draw.direction == ForeignToNative then translation else e.lemmaText;
    if !IsSingleWord(correct) {
      return None;
    }
    if draw.samplingFails {
      return None;
    }
    var made := BuildOptions(fold, correct, draw);
    if made.None? {
      return None;
    }
    return Some(QuizCard(e.wordId, e.lemmaText, e.pos, e.ipa, translation, exampleT, exampleN,
                         draw.direction, ui, made.value.0, made.value.1));
  }

  /** The places below `n` that satisfy `p`, in order. */
  ghost function Places(p: nat -> bool, n: nat): seq<nat> {
    if n == 0 then [] else Places(p, n - 1) + if p(n - 1) then [n - 1] else []
  }

  lemma {:induction false} PlacesMeaning(p: nat -> bool, n: nat)
    ensures var places := Places(p, n);
            && |places| <= n
            && (forall k | 0 <= k < |places| :: places[k] < n && p(places[k]))
            && (forall i, j | 0 <= i < j < |places| :: places[i] < places[j])
            && (forall i | 0 <= i < n && p(i) :: i in places)
  {
    if n > 0 {
      PlacesMeaning(p, n - 1);
    }
  }

  /** The entries of the queue that get a card. */
  ghost function UsableEntries(fold: char -> char, samples: map<int, ArticleWordSample>,
                               queue: seq<LearningEntry>, draws: seq<Draw>): nat -> bool
    requires |queue| == |draws|
  {
    (i: nat) => i < |queue| && Usable(fold, samples, queue[i], draws[i])
  }

  /** Which cards are fair and made for the `i`-th entry, in the mode drawn for it unless first. */
  ghost function CardsFor(fold: char -> char, samples: map<int, ArticleWordSample>,
                          queue: seq<LearningEntry>, draws: seq<Draw>): (QuizCard, nat, bool) -> bool
    requires |queue| == |draws|
  {
    (c: QuizCard, i: nat, first: bool) =>
      && i < |queue| && IsFairCard(fold, c)
      && IsCardFor(fold, c, samples, queue[i], draws[i]) && HasMode(c, draws[i], first)
  }

  /** The deck has, in order, one card for each of the given places. */
  ghost predicate IsDeckOf(deck: seq<QuizCard>, places: seq<nat>, cardFor: (QuizCard, nat, bool) -> bool) {
    && |deck| == |places|
    && (forall k | 0 <= k < |deck| :: cardFor(deck[k], places[k], k == 0))
  }

  /** At place `i`, `usable` and `cardFor` are what `UsableEntries` and `CardsFor` say. */
  ghost predicate DescribeAt(usable: nat -> bool, cardFor: (QuizCard, nat, bool) -> bool, fold: char -> char,
                             samples: map<int, ArticleWordSample>, queue: seq<LearningEntry>, draws: seq<Draw>, i: nat)
    requires i < |queue| == |draws|
  {
    && (usable(i) <==> Usable(fold, samples, queue[i], draws[i]))
    && (forall c: QuizCard, first: bool ::
          cardFor(c, i, first)
          <==> IsFairCard(fold, c) && IsCardFor(fold, c, samples, queue[i], draws[i]) && HasMode(c, draws[i], first))
  }

  ghost predicate Describe(usable: nat -> bool, cardFor: (QuizCard, nat, bool) -> bool, fold: char -> char,
                           samples: map<int, ArticleWordSample>, queue: seq<LearningEntry>, draws: seq<Draw>)
    requires |queue| == |draws|
  {
    forall i: nat | i < |queue| :: DescribeAt(usable, cardFor, fold, samples, queue, draws, i)
  }

  /** The card of one place of the queue. */
  method CardAt(fold: char -> char, samples: map<int, ArticleWordSample>, queue: seq<LearningEntry>,
                draws: seq<Draw>, i: nat, first: bool,
                ghost usable: nat -> bool, ghost cardFor: (QuizCard, nat, bool) -> bool)
    returns (card: Option<QuizCard>)
    requires KeepsSpace(fold) && i < |queue| == |draws| && draws[i].InRange()
    requires DescribeAt(usable, cardFor, fold, samples, queue, draws, i)
    ensures card.Some? <==> usable(i)
    ensures card.Some? ==> cardFor(card.value, i, first)
  {
    card := BuildCard(fold, samples, queue[i], draws[i], first);
  }

  /** The loop of `buildDeck`. */
  method DealCards(fold: char -> char, samples: map<int, ArticleWordSample>, queue: seq<LearningEntry>,
                   draws: seq<Draw>, ghost usable: nat -> bool, ghost cardFor: (QuizCard, nat, bool) -> bool)
    returns (deck: seq<QuizCard>)
    requires KeepsSpace(fold)
    requires |draws| == |queue| && forall k | 0 <= k < |draws| :: draws[k].InRange()
    requires Describe(usable, cardFor, fold, samples, queue, draws)
    ensures IsDeckOf(deck, Places(usable, |queue|), cardFor)
  {
    deck := [];
    for i := 0 to |queue|
      invariant IsDeckOf(deck, Places(usable, i), cardFor)
    {
      assert DescribeAt(usable, cardFor, fold, samples, queue, draws, i);
      var card := CardAt(fold, samples, queue, draws, i, |deck| == 0, usable, cardFor);
      if card.None? {
        continue;
      }
      deck := deck + [card.value];
    }
  }

  /** `buildDeck`: for every result of the queries and every draw, the deck holds one fair card for
      each usable word of the queue, in order, no word twice, and starts with an inline card. */
  method BuildDeck(fold: char -> char, loaded: bool, ghost rows: Dictionary.Rows, ghost words: map<int, DictionaryWord>,
                   ghost user: int, ghost language: string, queue: seq<LearningEntry>,
                   samples: map<int, ArticleWordSample>, draws: seq<Draw>)
    returns (deck: seq<QuizCard>, ok: bool)
    requires KeepsSpace(fold)
    requires IsLearningQueue(rows, words, user, language, QUIZ_DECK_SIZE, queue)
    requires |draws| == |queue| && forall k | 0 <= k < |draws| :: draws[k].InRange()
    ensures ok <==> deck != []
    ensures !loaded ==> deck == []
    ensures loaded ==> IsDeckOf(deck, Places(UsableEntries(fold, samples, queue, draws), |queue|),
                                CardsFor(fold, samples, queue, draws))
    ensures |deck| <= QUIZ_DECK_SIZE && NoWordTwice(deck)
    ensures forall k | 0 <= k < |deck| :: IsFairCard(fold, deck[k])
  {
    if !loaded || |queue| == 0 {
      return [], false;
    }
    ghost var usable, cardFor := UsableEntries(fold, samples, queue, draws), CardsFor(fold, samples, queue, draws);
    deck := DealCards(fold, samples, queue, draws, usable, cardFor);
    PlacesMeaning(usable, |queue|);
    DeckIsSound(fold, deck, Places(usable, |queue|), samples, queue, draws);
    return deck, |deck| > 0;
  }

  lemma DeckIsSound(fold: char -> char, deck: seq<QuizCard>, places: seq<nat>, samples: map<int, ArticleWordSample>,
                    queue: seq<LearningEntry>, draws: seq<Draw>)
    requires |queue| == |draws| && IsDeckOf(deck, places, CardsFor(fold, samples, queue, draws))
    requires forall i, j | 0 <= i < j < |places| :: places[i] < places[j]
    requires forall i, j | 0 <= i < j < |queue| :: queue[i].wordId != queue[j].wordId
    ensures NoWordTwice(deck)
    ensures forall k | 0 <= k < |deck| :: IsFairCard(fold, deck[k])
  {
    var cardFor := CardsFor(fold, samples, queue, draws);
    forall i, j | 0 <= i < j < |deck|
      ensures deck[i].wordId != deck[j].wordId
    {
      assert cardFor(deck[i], places[i], i == 0) && cardFor(deck[j], places[j], j == 0);
    }
    forall k | 0 <= k < |deck|
      ensures IsFairCard(fold, deck[k])
    {
      assert cardFor(deck[k], places[k], k == 0);
    }
  }
}
