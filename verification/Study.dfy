/** Quiz rounds (`handlers/study.go`): each button press moves the in-memory session, the word's
    status row, the progress row and the round's point counter together. A press may be stale or
    repeated, the stores may fail, and the session may expire between any two looks at it. Presses
    are handled one at a time here; `Overlap` is about handlers that overlap. */
module Study {
  import opened Options
  import D = Dictionary
  import P = Progress
  import Q = Quiz
  import Deck
  import Strings

  datatype Config = Config(ttl: int, scoring: P.Scoring)

  /** What one press meets: clock readings for its successive looks at the session, the day, whether
      the status store fails, and how many statements of a call to the progress store work before
      one fails. */
  datatype Env = Env(t0: int, t1: int, t2: int, t3: int, day: int, statusFails: bool, working: nat)

  /** The commands and buttons; `again` is pressed on the summary of the last round. `SetStatus` is a
      status button on a word list, or a word found in a new article. */
  datatype Press =
    | Command(deck: seq<Q.QuizCard>)
    | Start(deck: seq<Q.QuizCard>, again: bool)
    | Answer(word: int, option: int)
    | Skip
    | Delete(word: int)
    | Next
    | End
    | Profile
    | SetStatus(word: int, status: D.WordStatus)

  /** An accepted answer to a word, right or wrong. */
  datatype Answered = Answered(word: int, right: bool)

  /** What was done to the progress row: an event of its history, the word it was for, and the
      points reported for it. */
  datatype Entry = Entry(event: P.Event, word: Option<int>, gain: int)

  /** The statements run on each status row, in order. */
  type Statements = map<D.Key, seq<D.Event>>

  /** A record of a user's latest round, kept for the proofs: where it started from, and what was
      answered and written in it. */
  datatype Round = Round(
    deck: seq<Q.QuizCard>, baseStatements: Statements, baseHistory: seq<P.Event>, baseXP: int,
    answered: seq<Answered>, entries: seq<Entry>, skips: nat, closed: bool)

  /** The stores, and for the proofs the latest rounds, the full histories of the progress rows, and
      those of the status rows. */
  datatype World = World(
    sessions: Q.Sessions, statuses: D.Rows, progress: P.Rows, roundXP: map<int, int>,
    rounds: map<int, Round>, histories: map<int, seq<P.Event>>, statements: Statements)

  const EMPTY_WORLD := World(map[], map[], map[], map[], map[], map[], map[])

  function StatementsOf(statements: Statements, key: D.Key): seq<D.Event> {
    if key in statements then statements[key] else []
  }

  /** Runs a statement on a status row. */
  function Execute(w: World, key: D.Key, e: D.Event): World {
    w.(statuses := D.Store(w.statuses, key, D.Apply(D.Lookup(w.statuses, key), e)),
       statements := w.statements[key := StatementsOf(w.statements, key) + [e]])
  }

  function HistoryOf(histories: map<int, seq<P.Event>>, user: int): seq<P.Event> {
    if user in histories then histories[user] else []
  }

  /** Notes what was done to the progress row, in the history and in the round if there is one. */
  function Log(w: World, user: int, e: Entry): World {
    w.(histories := w.histories[user := HistoryOf(w.histories, user) + [e.event]],
       rounds := if user in w.rounds then w.rounds[user := w.rounds[user].(entries := w.rounds[user].entries + [e])]
                 else w.rounds)
  }

  function XPOf(roundXP: map<int, int>, user: int): int {
    if user in roundXP then roundXP[user] else 0
  }

  function Look(c: Config, w: World, user: int, now: int): (Option<Q.Snapshot>, World) {
    var (found, sessions) := Q.Step(c.ttl, w.sessions, Q.Look(user, now));
    (found, w.(sessions := sessions))
  }

  /** `End` and `takeRoundXP`: the round is over. */
  function Close(w: World, user: int): World {
    w.(sessions := w.sessions - {user},
       roundXP := w.roundXP - {user},
       rounds := if user in w.rounds then w.rounds[user := w.rounds[user].(closed := true)] else w.rounds)
  }

  /** `renderState`: a session that has reached its end is closed; a poll card is sent anew, which
      looks at the session once more. */
  function RenderState(c: Config, w: World, user: int, t1: int, t2: int): World {
    var (found, seen) := Look(c, w, user, t1);
    if found.None? then seen
    else if found.value.Done() then Close(seen, user)
    else if found.value.deck[found.value.cursor].uiMode == Q.Poll then Look(c, seen, user, t2).1
    else seen
  }

  /** A rollover to the current day, as far as the progress store works. */
  function RollDay(w: World, user: int, env: Env): World {
    if env.working == 0 then w
    else
      var rows := P.Begun(w.progress, user, env.day, env.working + 1);
      if env.working == 1 then w.(progress := rows)
      else Log(w.(progress := rows), user, Entry(P.Touch(env.day), None, 0))
  }

  function NewRound(w: World, user: int, deck: seq<Q.QuizCard>): Round {
    Round(deck, w.statements, HistoryOf(w.histories, user), P.RowOf(w.progress, user).xpTotal, [], [], 0, false)
  }

  /** The world with the new round, before the day is rolled over. */
  function Opened(c: Config, w: World, user: int, deck: seq<Q.QuizCard>, now: int): World {
    w.(sessions := Q.Step(c.ttl, w.sessions, Q.Start(user, deck, now)).1,
       roundXP := w.roundXP - {user},
       rounds := w.rounds[user := NewRound(w, user, deck)])
  }

  /** A new round replaces the user's session and points. */
  function Begin(c: Config, w: World, user: int, deck: seq<Q.QuizCard>, env: Env): World {
    RollDay(Opened(c, w, user, deck, env.t0), user, env)
  }

  /** The button looks at the session to repaint the summary it is on, and once more to send the
      first card instead. */
  function StartRound(c: Config, w: World, user: int, deck: seq<Q.QuizCard>, again: bool, env: Env): World {
    var (found, seen) := Look(c, Begin(c, w, user, deck, env), user, env.t1);
    if again && ShowsInline(found) then seen else Look(c, seen, user, env.t2).1
  }

  predicate ShowsInline(found: Option<Q.Snapshot>) {
    found.Some? && !found.value.Done() && found.value.deck[found.value.cursor].uiMode == Q.Inline
  }

  /** The status half of an accepted answer; there may be no row for it to hit. */
  function RecordStatus(w: World, user: int, word: int, correct: bool): (bool, World) {
    var key := (user, word);
    var next := Execute(w, key, if correct then D.Correct(Q.QUIZ_MASTERY_THRESHOLD) else D.Wrong);
    (correct && key in next.statuses && next.statuses[key].status == D.Mastered,
     next.(rounds := if user in w.rounds then w.rounds[user := WithAnswer(w.rounds[user], Answered(word, correct))]
                     else w.rounds))
  }

  function WithAnswer(r: Round, a: Answered): Round {
    r.(answered := r.answered + [a])
  }

  /** `applyProgress`: a call that fails on the way may still have rolled the row over. */
  function RecordProgress(c: Config, w: World, user: int, word: int, correct: bool, env: Env): World {
    if correct && env.working >= P.SCORING_STATEMENTS then
      var r := P.Rollover(P.RowOf(w.progress, user), env.day);
      var gain := P.Score(r, env.day, c.scoring).xpGained;
      Log(w.(progress := w.progress[user := P.Write(r, r, env.day, c.scoring)],
             roundXP := w.roundXP[user := XPOf(w.roundXP, user) + gain]),
          user, Entry(P.Correct(env.day), Some(word), gain))
    else
      var begun := w.(progress := P.Begun(w.progress, user, env.day, env.working));
      if env.working < P.ROLLING_STATEMENTS then begun
      else Log(begun, user, Entry(P.Touch(env.day), if correct then None else Some(word), 0))
  }

  function AnswerCard(c: Config, w: World, user: int, word: int, option: int, env: Env): World {
    var (found, seen) := Look(c, w, user, env.t0);
    if found.None? then seen
    else if found.value.Done() || found.value.deck[found.value.cursor].wordId != word
    then RenderState(c, seen, user, env.t1, env.t2)
    else if env.statusFails then seen
    else
      var correct := option == found.value.deck[found.value.cursor].correctIndex;
      var (mastered, noted) := RecordStatus(seen, user, word, correct);
      var scored := RecordProgress(c, noted, user, word, correct, env);
      scored.(sessions := Q.Step(c.ttl, scored.sessions, Q.Answer(user, correct, mastered, env.t1)).1)
  }

  /** `RecordSkip`, noted when the cursor moves. */
  function SkipCard(c: Config, w: World, user: int, now: int): World {
    var live := Q.Sweep(w.sessions, c.ttl, now);
    w.(sessions := Q.Step(c.ttl, w.sessions, Q.Skip(user, now)).1,
       rounds := if user in live && !live[user].state.Done() && user in w.rounds
                 then w.rounds[user := w.rounds[user].(skips := w.rounds[user].skips + 1)]
                 else w.rounds)
  }

  function SkipPressed(c: Config, w: World, user: int, env: Env): World {
    var (found, seen) := Look(c, w, user, env.t0);
    if found.None? then seen
    else if found.value.Done() then RenderState(c, seen, user, env.t1, env.t2)
    else SkipCard(c, seen, user, env.t1)
  }

  function DeleteWord(c: Config, w: World, user: int, word: int, env: Env): World {
    var (found, seen) := Look(c, w, user, env.t0);
    if found.None? then seen
    else if found.value.Done() || found.value.deck[found.value.cursor].wordId != word
    then RenderState(c, seen, user, env.t1, env.t2)
    else if env.statusFails then seen
    else SkipCard(c, Execute(seen, (user, word), D.Delete), user, env.t1)
  }

  /** `handleNext` skips a poll card that is still current, so not every card is answered. */
  function NextCard(c: Config, w: World, user: int, env: Env): World {
    var (found, seen) := Look(c, w, user, env.t0);
    if found.None? then seen
    else if !found.value.Done() && found.value.deck[found.value.cursor].uiMode == Q.Poll then
      var (after, looked) := Look(c, SkipCard(c, seen, user, env.t1), user, env.t2);
      if after.None? then looked else if after.value.Done() then Close(looked, user)
      else Look(c, looked, user, env.t3).1
    else RenderState(c, seen, user, env.t1, env.t2)
  }

  function EndRound(c: Config, w: World, user: int, env: Env): World {
    var (_, seen) := Look(c, w, user, env.t0);
    if user in seen.sessions then Close(seen, user) else seen
  }

  function Handle(c: Config, w: World, user: int, press: Press, env: Env): World {
    match press
    case Command(deck) => Look(c, Begin(c, w, user, deck, env), user, env.t1).1
    case Start(deck, again) => StartRound(c, w, user, deck, again, env)
    case Answer(word, option) => AnswerCard(c, w, user, word, option, env)
    case Skip => SkipPressed(c, w, user, env)
    case Delete(word) => DeleteWord(c, w, user, word, env)
    case Next => NextCard(c, w, user, env)
    case End => EndRound(c, w, user, env)
    case Profile => RollDay(w, user, env)
    case SetStatus(word, status) => if env.statusFails then w else Execute(w, (user, word), D.Upsert(status))
  }

  class Study {
    const quiz: Q.QuizSessions
    const statuses: D.UserWordStatusTable
    const progress: P.ProgressTable
    const scoring: P.Scoring
    var roundXP: map<int, int>
    ghost var rounds: map<int, Round>
    ghost var histories: map<int, seq<P.Event>>
    ghost var statements: Statements

    constructor (quiz: Q.QuizSessions, statuses: D.UserWordStatusTable, progress: P.ProgressTable, scoring: P.Scoring)
      ensures this.quiz == quiz && this.statuses == statuses && this.progress == progress && this.scoring == scoring
      ensures roundXP == map[] && rounds == map[] && histories == map[] && statements == map[]
    {
      this.quiz, this.statuses, this.progress, this.scoring := quiz, statuses, progress, scoring;
      roundXP, rounds, histories, statements := map[], map[], map[], map[];
    }

    ghost function View(): World
      reads this, quiz, statuses, progress
    {
      World(quiz.sessions, statuses.rows, progress.rows, roundXP, rounds, histories, statements)
    }

    ghost function Settings(): Config {
      Config(quiz.ttl, scoring)
    }

    ghost method Note(user: int, e: Entry)
      modifies this`rounds, this`histories
      ensures View() == Log(old(View()), user, e)
    {
      histories := histories[user := HistoryOf(histories, user) + [e.event]];
      if user in rounds {
        rounds := rounds[user := rounds[user].(entries := rounds[user].entries + [e])];
      }
    }

    /** `sendCurrentCard`, as far as it touches the session. */
    method SendCurrentCard(user: int, now: int)
      modifies quiz
      ensures View() == Look(Settings(), old(View()), user, now).1
    {
      var _ := quiz.Look(user, now);
    }

    /** Ends the round and hands out its points. */
    method Summarize(user: int, ghost now: int) returns (xp: int)
      modifies this, quiz
      ensures View() == Close(old(View()), user) && xp == XPOf(old(roundXP), user)
    {
      var _ := quiz.End(user, now);
      xp := if user in roundXP then roundXP[user] else 0;
      roundXP := roundXP - {user};
      if user in rounds {
        rounds := rounds[user := rounds[user].(closed := true)];
      }
    }

    method RenderCurrentState(user: int, t1: int, t2: int)
      modifies this, quiz
      ensures View() == RenderState(Settings(), old(View()), user, t1, t2)
    {
      var snap := quiz.Look(user, t1);
      if snap.None? {
        return;
      }
      if snap.value.Done() {
        var _ := Summarize(user, t1);
        return;
      }
      if snap.value.deck[snap.value.cursor].uiMode == Q.Poll {
        SendCurrentCard(user, t2);
      }
    }

    method RollOver(user: int, env: Env)
      modifies this`rounds, this`histories, progress
      ensures View() == RollDay(old(View()), user, env)
    {
      var ok := progress.RolloverIfNewDay(user, env.day, env.working);
      if ok {
        Note(user, Entry(P.Touch(env.day), None, 0));
      }
    }

    method BeginRound(user: int, deck: seq<Q.QuizCard>, env: Env)
      modifies this, quiz, progress
      ensures View() == Begin(Settings(), old(View()), user, deck, env)
    {
      rounds := rounds[user := NewRound(View(), user, deck)];
      quiz.Start(user, deck, env.t0);
      roundXP := roundXP - {user};
      RollOver(user, env);
    }

    /** The start button, and the one for another round on the summary of the last. */
    method HandleStart(fold: char -> char, user: int, again: bool, loaded: bool,
                       ghost words: map<int, Deck.DictionaryWord>, ghost language: string,
                       queue: seq<Deck.LearningEntry>, samples: map<int, Deck.ArticleWordSample>,
                       draws: seq<Deck.Draw>, env: Env)
      returns (deck: seq<Q.QuizCard>)
      requires Strings.KeepsSpace(fold)
      requires Deck.IsLearningQueue(statuses.rows, words, user, language, Deck.QUIZ_DECK_SIZE, queue)
      requires |draws| == |queue| && forall k | 0 <= k < |draws| :: draws[k].InRange()
      modifies this, quiz, progress
      ensures if loaded then Deck.IsDeckOf(deck, Deck.Places(Deck.UsableEntries(fold, samples, queue, draws), |queue|),
                                           Deck.CardsFor(fold, samples, queue, draws))
              else deck == []
      ensures Q.NoWordTwice(deck) && |deck| <= Deck.QUIZ_DECK_SIZE
      ensures forall k | 0 <= k < |deck| :: Deck.IsFairCard(fold, deck[k])
      ensures View() == if deck == [] then old(View())
                        else StartRound(Settings(), old(View()), user, deck, again, env)
    {
      var ok;
      deck, ok := Deck.BuildDeck(fold, loaded, statuses.rows, words, user, language, queue, samples, draws);
      if !ok {
        return;
      }
      BeginRound(user, deck, env);
      var snap := quiz.Look(user, env.t1);
      if again && snap.Some? && !snap.value.Done() && snap.value.deck[snap.value.cursor].uiMode == Q.Inline {
        return;
      }
      SendCurrentCard(user, env.t2);
    }

    /** `/me` (`handlers/me.go`) rolls the day over before it shows the row. */
    method HandleProfile(user: int, env: Env)
      modifies this`rounds, this`histories, progress
      ensures View() == RollDay(old(View()), user, env)
    {
      RollOver(user, env);
    }

    /** `/study`: a round starts only with a deck, and a deck never holds a word twice. */
    method HandleCommand(fold: char -> char, user: int, loaded: bool,
                         ghost words: map<int, Deck.DictionaryWord>, ghost language: string,
                         queue: seq<Deck.LearningEntry>, samples: map<int, Deck.ArticleWordSample>,
                         draws: seq<Deck.Draw>, env: Env)
      returns (deck: seq<Q.QuizCard>)
      requires Strings.KeepsSpace(fold)
      requires Deck.IsLearningQueue(statuses.rows, words, user, language, Deck.QUIZ_DECK_SIZE, queue)
      requires |draws| == |queue| && forall k | 0 <= k < |draws| :: draws[k].InRange()
      modifies this, quiz, progress
      ensures if loaded then Deck.IsDeckOf(deck, Deck.Places(Deck.UsableEntries(fold, samples, queue, draws), |queue|),
                                           Deck.CardsFor(fold, samples, queue, draws))
              else deck == []
      ensures Q.NoWordTwice(deck) && |deck| <= Deck.QUIZ_DECK_SIZE
      ensures forall k | 0 <= k < |deck| :: Deck.IsFairCard(fold, deck[k])
      ensures View() == if deck == [] then old(View()) else Handle(Settings(), old(View()), user, Command(deck), env)
    {
      var ok;
      deck, ok := Deck.BuildDeck(fold, loaded, statuses.rows, words, user, language, queue, samples, draws);
      if !ok {
        return;
      }
      BeginRound(user, deck, env);
      SendCurrentCard(user, env.t1);
    }

    ghost method NoteStatement(key: D.Key, e: D.Event)
      modifies this`statements
      ensures statements == old(statements)[key := StatementsOf(old(statements), key) + [e]]
    {
      statements := statements[key := StatementsOf(statements, key) + [e]];
    }

    /** The status half of an accepted answer. */
    method RecordWordStatus(user: int, word: int, correct: bool) returns (mastered: bool)
      modifies this`rounds, this`statements, statuses
      ensures (mastered, View()) == RecordStatus(old(View()), user, word, correct)
    {
      mastered := false;
      if correct {
        var found, streak;
        found, streak, mastered := statuses.RecordCorrect((user, word), Q.QUIZ_MASTERY_THRESHOLD);
      } else {
        var found := statuses.RecordWrong((user, word));
      }
      NoteStatement((user, word), if correct then D.Correct(Q.QUIZ_MASTERY_THRESHOLD) else D.Wrong);
      if user in rounds {
        rounds := rounds[user := WithAnswer(rounds[user], Answered(word, correct))];
      }
    }

    /** The status buttons of the word lists (`handlers/words.go`, `handlers/mywords.go`). */
    method HandleSetStatus(user: int, word: int, status: D.WordStatus, env: Env)
      modifies this`statements, statuses
      ensures View() == Handle(Settings(), old(View()), user, SetStatus(word, status), env)
    {
      if env.statusFails {
        return;
      }
      statuses.Upsert((user, word), status);
      NoteStatement((user, word), D.Upsert(status));
    }

    /** `applyProgress`. */
    method ApplyProgress(user: int, word: int, correct: bool, env: Env)
      modifies this, progress
      ensures View() == RecordProgress(Settings(), old(View()), user, word, correct, env)
    {
      if correct {
        var result := progress.RecordCorrect(user, env.day, scoring, env.working);
        if result.Some? {
          var gain := result.value.xpGained;
          roundXP := roundXP[user := (if user in roundXP then roundXP[user] else 0) + gain];
          Note(user, Entry(P.Correct(env.day), Some(word), gain));
          return;
        }
      } else {
        var _ := progress.RecordWrong(user, env.day, env.working);
      }
      if env.working >= P.ROLLING_STATEMENTS {
        Note(user, Entry(P.Touch(env.day), if correct then None else Some(word), 0));
      }
    }

    method HandleAnswer(user: int, word: int, option: int, env: Env)
      modifies this, quiz, statuses, progress
      ensures View() == AnswerCard(Settings(), old(View()), user, word, option, env)
      ensures ShowsWord(Settings(), old(View()), user, word, env.t0) && !env.statusFails ==>
                IsJudged(Settings(), old(View()), View(), user, option, env)
    {
      ghost var before := View();
      if ShowsWord(Settings(), before, user, word, env.t0) && !env.statusFails {
        AnswerIsJudged(Settings(), before, user, word, option, env);
      }
      var snap := quiz.Look(user, env.t0);
      if snap.None? {
        return;
      }
      if snap.value.Done() || snap.value.deck[snap.value.cursor].wordId != word {
        RenderCurrentState(user, env.t1, env.t2);
        return;
      }
      var card := snap.value.deck[snap.value.cursor];
      var correct := option == card.correctIndex;
      if env.statusFails {
        return;
      }
      var mastered := RecordWordStatus(user, word, correct);
      ApplyProgress(user, word, correct, env);
      var _ := quiz.RecordAnswer(user, correct, mastered, env.t1);
    }

    method RecordSkip(user: int, now: int)
      modifies this`rounds, quiz
      ensures View() == SkipCard(Settings(), old(View()), user, now)
    {
      ghost var live := Q.Sweep(quiz.sessions, quiz.ttl, now);
      var _ := quiz.RecordSkip(user, now);
      if user in live && !live[user].state.Done() && user in rounds {
        rounds := rounds[user := rounds[user].(skips := rounds[user].skips + 1)];
      }
    }

    method HandleSkip(user: int, env: Env)
      modifies this, quiz
      ensures View() == SkipPressed(Settings(), old(View()), user, env)
    {
      var snap := quiz.Look(user, env.t0);
      if snap.None? {
        return;
      }
      if snap.value.Done() {
        RenderCurrentState(user, env.t1, env.t2);
        return;
      }
      RecordSkip(user, env.t1);
    }

    method HandleDelete(user: int, word: int, env: Env)
      modifies this, quiz, statuses
      ensures View() == DeleteWord(Settings(), old(View()), user, word, env)
    {
      var snap := quiz.Look(user, env.t0);
      if snap.None? {
        return;
      }
      if snap.value.Done() {
        RenderCurrentState(user, env.t1, env.t2);
        return;
      }
      if snap.value.deck[snap.value.cursor].wordId != word {
        RenderCurrentState(user, env.t1, env.t2);
        return;
      }
      if env.statusFails {
        return;
      }
      statuses.DeleteWordStatus((user, word));
      NoteStatement((user, word), D.Delete);
      RecordSkip(user, env.t1);
    }

    method HandleNext(user: int, env: Env)
      modifies this, quiz
      ensures View() == NextCard(Settings(), old(View()), user, env)
    {
      var snap := quiz.Look(user, env.t0);
      if snap.None? {
        return;
      }
      if !snap.value.Done() && snap.value.deck[snap.value.cursor].uiMode == Q.Poll {
        RecordSkip(user, env.t1);
        var snap2 := quiz.Look(user, env.t2);
        if snap2.None? {
          return;
        }
        if snap2.value.Done() {
          var _ := Summarize(user, env.t2);
          return;
        }
        SendCurrentCard(user, env.t3);
        return;
      }
      RenderCurrentState(user, env.t1, env.t2);
    }

    method HandleEnd(user: int, env: Env) returns (xp: int)
      modifies this, quiz
      ensures View() == EndRound(Settings(), old(View()), user, env)
      ensures xp == if Look(Settings(), old(View()), user, env.t0).0.Some? then XPOf(old(roundXP), user) else 0
    {
      var _ := quiz.Look(user, env.t0);
      var final := quiz.End(user, env.t1);
      if final.None? {
        return 0;
      }
      xp := if user in roundXP then roundXP[user] else 0;
      roundXP := roundXP - {user};
      if user in rounds {
        rounds := rounds[user := rounds[user].(closed := true)];
      }
    }
  }

  // ----- what each press does -----

  /** The user has a live session, and its current card is for that word. */
  ghost predicate ShowsWord(c: Config, w: World, user: int, word: int, now: int) {
    ShowsCard(c, w, user, now) && w.sessions[user].state.deck[w.sessions[user].state.cursor].wordId == word
  }

  ghost predicate ShowsCard(c: Config, w: World, user: int, now: int) {
    && user in w.sessions && Q.IsLive(w.sessions[user], c.ttl, now)
    && w.sessions[user].state.cursor < |w.sessions[user].state.deck|
  }

  /** Only that row has got another statement. */
  ghost predicate OnlyExecuted(w: World, now: World, key: D.Key, e: D.Event) {
    && StatementsOf(now.statements, key) == StatementsOf(w.statements, key) + [e]
    && forall other: D.Key | other != key ::
         && StatementsOf(now.statements, other) == StatementsOf(w.statements, other)
         && D.Lookup(now.statuses, other) == D.Lookup(w.statuses, other)
  }

  /** If the session is still live at `t1`, it has become `state` and is as fresh as `t1`. */
  ghost predicate SessionBecame(c: Config, w: World, now: World, user: int, t1: int, state: Q.Snapshot)
    requires user in w.sessions
  {
    if Q.IsLive(w.sessions[user], c.ttl, t1) then user in now.sessions && now.sessions[user] == Q.Entry(state, t1)
    else user !in now.sessions
  }

  /** The status row after an answer, if there is one. */
  ghost predicate RowJudged(w: World, now: World, key: D.Key, right: bool) {
    && (key in now.statuses <==> key in w.statuses)
    && (key in w.statuses ==>
          var was, row := w.statuses[key], now.statuses[key];
          if right then
            && row.correctStreak == was.correctStreak + 1 && row.correctTotal == was.correctTotal + 1
            && row.wrongTotal == was.wrongTotal
            && row.status == (if was.correctStreak + 1 >= 3 then D.Mastered else was.status)
          else
            && row.correctStreak == 0 && row.wrongTotal == was.wrongTotal + 1
            && row.correctTotal == was.correctTotal && row.status == was.status)
  }

  /** What an answer to the current card comes to. It is right exactly if it is the option at the
      card's correct index; then the word gets a correct answer, and the day, the session's right
      answers and the points of the round grow, else the word gets a wrong one and the session's
      wrong answers grow. */
  ghost predicate IsJudged(c: Config, w: World, now: World, user: int, option: int, env: Env)
    requires ShowsCard(c, w, user, env.t0)
  {
    var s := w.sessions[user].state;
    var card := s.deck[s.cursor];
    var key, right := (user, card.wordId), option == card.correctIndex;
    var mastered := right && key in now.statuses && now.statuses[key].status == D.Mastered;
    && OnlyExecuted(w, now, key, if right then D.Correct(3) else D.Wrong)
    && RowJudged(w, now, key, right)
    && (env.working >= 6 ==>
          HistoryOf(now.histories, user)
          == HistoryOf(w.histories, user) + [if right then P.Correct(env.day) else P.Touch(env.day)])
    && XPOf(now.roundXP, user) - XPOf(w.roundXP, user)
       == P.RowOf(now.progress, user).xpTotal - P.RowOf(w.progress, user).xpTotal
    && (!right ==> XPOf(now.roundXP, user) == XPOf(w.roundXP, user))
    && SessionBecame(c, w, now, user, env.t1,
                     Q.Snapshot(s.deck, s.cursor + 1,
                                if right then s.correct + 1 else s.correct,
                                if right then s.wrong else s.wrong + 1,
                                if mastered then s.mastered + [card.lemmaText] else s.mastered))
  }

  lemma StatusJudged(w: World, user: int, word: int, right: bool)
    ensures var (mastered, now) := RecordStatus(w, user, word, right);
            var key := (user, word);
            && OnlyExecuted(w, now, key, if right then D.Correct(3) else D.Wrong) && RowJudged(w, now, key, right)
            && (mastered <==> right && key in now.statuses && now.statuses[key].status == D.Mastered)
            && now == w.(statuses := now.statuses, statements := now.statements, rounds := now.rounds)
  {
  }

  lemma ProgressJudged(c: Config, w: World, user: int, word: int, right: bool, env: Env)
    ensures var now := RecordProgress(c, w, user, word, right, env);
            && (env.working >= 6 ==>
                  HistoryOf(now.histories, user)
                  == HistoryOf(w.histories, user) + [if right then P.Correct(env.day) else P.Touch(env.day)])
            && XPOf(now.roundXP, user) - XPOf(w.roundXP, user)
               == P.RowOf(now.progress, user).xpTotal - P.RowOf(w.progress, user).xpTotal
            && (!right ==> XPOf(now.roundXP, user) == XPOf(w.roundXP, user))
            && now.sessions == w.sessions && StatusUnmoved(w, now)
  {
  }

  lemma AnswerIsJudged(c: Config, w: World, user: int, word: int, option: int, env: Env)
    requires ShowsWord(c, w, user, word, env.t0) && !env.statusFails
    ensures IsJudged(c, w, AnswerCard(c, w, user, word, option, env), user, option, env)
  {
    var seen, s := Look(c, w, user, env.t0).1, w.sessions[user].state;
    var right := option == s.deck[s.cursor].correctIndex;
    var (mastered, noted) := RecordStatus(seen, user, word, right);
    StatusJudged(seen, user, word, right);
    ProgressJudged(c, noted, user, word, right, env);
  }

  /** On a fair card the answer counts as correct exactly if the option pressed is the answer. */
  lemma RightOptionCounts(c: Config, w: World, user: int, option: int, env: Env, fold: char -> char)
    requires ShowsCard(c, w, user, env.t0) && !env.statusFails && 0 <= option < 4
    requires Deck.IsFairCard(fold, w.sessions[user].state.deck[w.sessions[user].state.cursor])
    ensures var card := w.sessions[user].state.deck[w.sessions[user].state.cursor];
            OnlyExecuted(w, AnswerCard(c, w, user, card.wordId, option, env), (user, card.wordId),
                         if card.options[option] == card.CorrectAnswer() then D.Correct(3) else D.Wrong)
  {
    var card := w.sessions[user].state.deck[w.sessions[user].state.cursor];
    AnswerIsJudged(c, w, user, card.wordId, option, env);
    Deck.OnlyTheAnswerIsRight(fold, card, option);
  }

  /** A started round has a session on the first card of its deck, if that does not expire at once. */
  lemma StartOpensSession(c: Config, w: World, user: int, deck: seq<Q.QuizCard>, again: bool, env: Env)
    requires c.ttl <= 0 || (env.t1 - env.t0 <= c.ttl && env.t2 - env.t0 <= c.ttl)
    ensures HasFreshSession(StartRound(c, w, user, deck, again, env), user, deck, env.t0)
    ensures HasFreshSession(Handle(c, w, user, Command(deck), env), user, deck, env.t0)
  {
    var begun := Begin(c, w, user, deck, env);
    RollDayChanges(Opened(c, w, user, deck, env.t0), user, env);
    assert HasFreshSession(begun, user, deck, env.t0);
    LookKeepsFresh(c, begun, user, deck, env.t0, env.t1);
    LookKeepsFresh(c, Look(c, begun, user, env.t1).1, user, deck, env.t0, env.t2);
  }

  ghost predicate HasFreshSession(w: World, user: int, deck: seq<Q.QuizCard>, since: int) {
    user in w.sessions && w.sessions[user] == Q.Entry(Q.Snapshot(deck, 0, 0, 0, []), since)
  }

  lemma LookKeepsFresh(c: Config, w: World, user: int, deck: seq<Q.QuizCard>, since: int, now: int)
    requires HasFreshSession(w, user, deck, since) && (c.ttl <= 0 || now - since <= c.ttl)
    ensures HasFreshSession(Look(c, w, user, now).1, user, deck, since)
  {
  }

  /** Showing the profile adds the day to the history if the rollover works, and nothing else. */
  lemma ProfileRolls(c: Config, w: World, user: int, env: Env)
    ensures var now := Handle(c, w, user, Profile, env);
            && HistoryOf(now.histories, user)
               == HistoryOf(w.histories, user) + (if env.working >= 2 then [P.Touch(env.day)] else [])
            && StatusUnmoved(w, now) && now.sessions == w.sessions && now.roundXP == w.roundXP
  {
    var rows := RollDayLogs(w, user, env);
  }

  /** A status button sets the status of one row, keeping its counters or starting them at zero. */
  lemma SetStatusSets(c: Config, w: World, user: int, word: int, status: D.WordStatus, env: Env)
    requires !env.statusFails
    ensures var now := Handle(c, w, user, SetStatus(word, status), env);
            && OnlyExecuted(w, now, (user, word), D.Upsert(status))
            && (user, word) in now.statuses
            && now.statuses[(user, word)]
               == (if (user, word) in w.statuses then w.statuses[(user, word)].(status := status)
                   else D.Row(status, 0, 0, 0))
            && Unmoved(w, now) && now.sessions == w.sessions && now.roundXP == w.roundXP
  {
  }

  /** The current card passed without an answer. */
  function Passed(s: Q.Snapshot): Q.Snapshot {
    Q.Snapshot(s.deck, s.cursor + 1, s.correct, s.wrong, s.mastered)
  }

  lemma SkipPasses(c: Config, w: World, user: int, env: Env)
    requires ShowsCard(c, w, user, env.t0)
    ensures var now := SkipPressed(c, w, user, env);
            && SessionBecame(c, w, now, user, env.t1, Passed(w.sessions[user].state))
            && Unmoved(w, now) && StatusUnmoved(w, now) && now.roundXP == w.roundXP
  {
  }

  /** Deleting the current word removes its row and passes the card. */
  lemma DeleteForgets(c: Config, w: World, user: int, word: int, env: Env)
    requires ShowsWord(c, w, user, word, env.t0) && !env.statusFails
    ensures var now := DeleteWord(c, w, user, word, env);
            && (user, word) !in now.statuses && OnlyExecuted(w, now, (user, word), D.Delete)
            && SessionBecame(c, w, now, user, env.t1, Passed(w.sessions[user].state))
            && Unmoved(w, now) && now.roundXP == w.roundXP
  {
  }

  /** Next passes a current poll card, and closes the round if that was the last one. */
  lemma NextPassesPoll(c: Config, w: World, user: int, env: Env)
    requires ShowsCard(c, w, user, env.t0) && Q.IsLive(w.sessions[user], c.ttl, env.t1)
    requires c.ttl <= 0 || (env.t1 >= env.t2 - c.ttl && env.t1 >= env.t3 - c.ttl)
    requires w.sessions[user].state.deck[w.sessions[user].state.cursor].uiMode == Q.Poll
    ensures var now, s := NextCard(c, w, user, env), w.sessions[user].state;
            && Unmoved(w, now) && StatusUnmoved(w, now)
            && if s.cursor + 1 == |s.deck| then user !in now.sessions && user !in now.roundXP
               else user in now.sessions && now.sessions[user] == Q.Entry(Passed(s), env.t1) && now.roundXP == w.roundXP
  {
    var skipped := SkipCard(c, Look(c, w, user, env.t0).1, user, env.t1);
    assert user in skipped.sessions && skipped.sessions[user] == Q.Entry(Passed(w.sessions[user].state), env.t1);
    NextUnmoved(c, w, user, env);
    NextStatusUnmoved(c, w, user, env);
  }

  /** Otherwise it leaves a current card alone, and closes a finished round. */
  lemma NextRenders(c: Config, w: World, user: int, env: Env)
    requires user in w.sessions
    requires Q.IsLive(w.sessions[user], c.ttl, env.t0) && Q.IsLive(w.sessions[user], c.ttl, env.t1)
    requires var s := w.sessions[user].state; s.Done() || s.deck[s.cursor].uiMode == Q.Inline
    ensures var now, s := NextCard(c, w, user, env), w.sessions[user].state;
            if s.Done() then user !in now.sessions && user !in now.roundXP
            else user in now.sessions && now.sessions[user] == w.sessions[user] && now.roundXP == w.roundXP
  {
    var seen := Look(c, w, user, env.t0).1;
    assert user in seen.sessions && seen.sessions[user] == w.sessions[user];
    RenderCloses(c, seen, user, env.t1, env.t2);
  }

  lemma RenderCloses(c: Config, w: World, user: int, t1: int, t2: int)
    requires user in w.sessions && Q.IsLive(w.sessions[user], c.ttl, t1)
    requires var s := w.sessions[user].state; s.Done() || s.deck[s.cursor].uiMode == Q.Inline
    ensures var now := RenderState(c, w, user, t1, t2);
            if w.sessions[user].state.Done() then user !in now.sessions && user !in now.roundXP
            else user in now.sessions && now.sessions[user] == w.sessions[user] && now.roundXP == w.roundXP
  {
  }

  /** A press that finds no session, a finished one, or another word on the card writes nothing; at
      most a finished round is closed. */
  lemma StalePressIsIdle(c: Config, w: World, user: int, word: int, option: int, env: Env)
    requires !ShowsWord(c, w, user, word, env.t0)
    ensures forall press | press in {Answer(word, option), Delete(word)} ::
              var now := Handle(c, w, user, press, env);
              && Unmoved(w, now) && StatusUnmoved(w, now)
              && (user in now.sessions ==> user in w.sessions && now.sessions[user] == w.sessions[user])
              && (now.roundXP == w.roundXP || (now.roundXP == w.roundXP - {user} && w.sessions[user].state.Done()))
  {
    var seen := Look(c, w, user, env.t0).1;
    RenderUnmoved(c, seen, user, env.t1, env.t2);
    RenderKeepsSession(c, seen, user, env.t1, env.t2);
  }

  lemma LookKeepsSession(c: Config, w: World, user: int, now: int)
    ensures var (found, seen) := Look(c, w, user, now);
            && seen == w.(sessions := seen.sessions)
            && (user in seen.sessions ==> user in w.sessions && seen.sessions[user] == w.sessions[user])
            && (found.Some? ==> user in w.sessions && found.value == w.sessions[user].state)
  {
  }

  lemma RenderKeepsSession(c: Config, w: World, user: int, t1: int, t2: int)
    ensures var now := RenderState(c, w, user, t1, t2);
            && (user in now.sessions ==> user in w.sessions && now.sessions[user] == w.sessions[user])
            && (now.roundXP == w.roundXP
                || (user in w.sessions && w.sessions[user].state.Done() && now.roundXP == w.roundXP - {user}))
  {
    var (found, seen) := Look(c, w, user, t1);
    LookKeepsSession(c, w, user, t1);
    LookKeepsSession(c, seen, user, t2);
  }

  // ----- what holds between any two presses -----

  /** The points of a round. */
  function Gains(entries: seq<Entry>): int {
    if entries == [] then 0 else Gains(entries[..|entries| - 1]) + entries[|entries| - 1].gain
  }

  function Events(entries: seq<Entry>): seq<P.Event> {
    seq(|entries|, i requires 0 <= i < |entries| => entries[i].event)
  }

  /** How many answers were right, or wrong. */
  function Tally(answered: seq<Answered>, right: bool): nat {
    if answered == [] then 0
    else Tally(answered[..|answered| - 1], right) + if answered[|answered| - 1].right == right then 1 else 0
  }

  predicate IsWordOf(deck: seq<Q.QuizCard>, n: nat, word: int)
    requires n <= |deck|
  {
    exists i | 0 <= i < n :: deck[i].wordId == word
  }

  /** Only words of the first `n` cards. */
  predicate OnCards(deck: seq<Q.QuizCard>, n: nat, answered: seq<Answered>)
    requires n <= |deck|
  {
    forall k | 0 <= k < |answered| :: IsWordOf(deck, n, answered[k].word)
  }

  predicate NoWordAnsweredTwice(answered: seq<Answered>) {
    forall i, j | 0 <= i < j < |answered| :: answered[i].word != answered[j].word
  }

  function Unit(b: bool): nat {
    if b then 1 else 0
  }

  /** The answers given to a word in a round: at most one, as no word is answered twice. */
  function AnswersTo(answered: seq<Answered>, word: int): seq<bool> {
    if answered == [] then []
    else
      var before, a := AnswersTo(answered[..|answered| - 1], word), answered[|answered| - 1];
      if a.word == word then before + [a.right] else before
  }

  /** On every status row of the user, the answers recorded since `base` are exactly those given. */
  ghost predicate StatusMoved(base: Statements, now: Statements, user: int, answered: seq<Answered>) {
    forall word: int :: WordMoved(base, now, user, answered, word)
  }

  ghost predicate WordMoved(base: Statements, now: Statements, user: int, answered: seq<Answered>, word: int) {
    var from, to := StatementsOf(base, (user, word)), StatementsOf(now, (user, word));
    from <= to && D.Answers(to[|from|..]) == AnswersTo(answered, word)
  }

  /** The entries of the progress row belong to answers of the round: a correct answer to a word
      answered right, a mere rollover to one answered wrong or to none, and no word twice. */
  ghost predicate EntriesOk(entries: seq<Entry>, answered: seq<Answered>) {
    && (forall k | 0 <= k < |entries| ::
          && (entries[k].event.Correct? ==> entries[k].word.Some?)
          && (entries[k].event.Touch? ==> entries[k].gain == 0)
          && (entries[k].word.Some? ==> Answered(entries[k].word.value, entries[k].event.Correct?) in answered))
    && (forall i, j | 0 <= i < j < |entries| && entries[i].word.Some? :: entries[i].word != entries[j].word)
  }

  /** The progress row has moved by exactly the entries of the round. */
  ghost predicate ProgressMoved(w: World, user: int, r: Round) {
    && EntriesOk(r.entries, r.answered)
    && HistoryOf(w.histories, user) == r.baseHistory + Events(r.entries)
    && P.RowOf(w.progress, user).xpTotal == r.baseXP + Gains(r.entries)
  }

  /** What was answered and written in a round, and how the stores have moved since it began. */
  ghost predicate WritesOk(w: World, user: int, r: Round) {
    && Q.NoWordTwice(r.deck)
    && NoWordAnsweredTwice(r.answered) && OnCards(r.deck, |r.deck|, r.answered)
    && StatusMoved(r.baseStatements, w.statements, user, r.answered)
    && ProgressMoved(w, user, r)
  }

  /** The session of a round that is still open: every card passed was answered or skipped, and
      the counters tell the right answers from the wrong ones. */
  ghost predicate SessionOk(s: Q.Snapshot, r: Round) {
    && s.deck == r.deck
    && s.cursor == s.correct + s.wrong + r.skips <= |s.deck|
    && s.correct == Tally(r.answered, true) && s.wrong == Tally(r.answered, false)
    && OnCards(r.deck, s.cursor, r.answered)
  }

  ghost predicate RoundOk(w: World, user: int) {
    if user !in w.rounds then user !in w.sessions && user !in w.roundXP
    else
      var r := w.rounds[user];
      && WritesOk(w, user, r)
      && (r.closed ==> user !in w.sessions && user !in w.roundXP)
      && (!r.closed ==> XPOf(w.roundXP, user) == Gains(r.entries))
      && (user in w.sessions ==> SessionOk(w.sessions[user].state, r))
  }

  ghost predicate Consistent(w: World) {
    forall user: int :: RoundOk(w, user)
  }

  /** A press of one user leaves everybody else alone, except that idle sessions may be swept. */
  ghost predicate OthersKept(w: World, now: World, user: int) {
    && (forall v: int | v != user && v in now.sessions :: v in w.sessions && now.sessions[v] == w.sessions[v])
    && (forall v: int | v != user ::
          && (v in now.rounds <==> v in w.rounds) && (v in w.rounds ==> now.rounds[v] == w.rounds[v])
          && (v in now.roundXP <==> v in w.roundXP) && (v in w.roundXP ==> now.roundXP[v] == w.roundXP[v])
          && HistoryOf(now.histories, v) == HistoryOf(w.histories, v)
          && P.RowOf(now.progress, v) == P.RowOf(w.progress, v))
    && (forall v: int, word: int | v != user ::
          && D.Lookup(now.statuses, (v, word)) == D.Lookup(w.statuses, (v, word))
          && StatementsOf(now.statements, (v, word)) == StatementsOf(w.statements, (v, word)))
  }

  lemma StatusStill(base: Statements, now: Statements, later: Statements, user: int, answered: seq<Answered>)
    requires StatusMoved(base, now, user, answered)
    requires forall word: int :: StatementsOf(later, (user, word)) == StatementsOf(now, (user, word))
    ensures StatusMoved(base, later, user, answered)
  {
    forall word
      ensures WordMoved(base, later, user, answered, word)
    {
      assert WordMoved(base, now, user, answered, word);
    }
  }

  lemma OthersStayOk(w: World, now: World, user: int)
    requires Consistent(w) && OthersKept(w, now, user) && RoundOk(now, user)
    ensures Consistent(now)
  {
    forall v: int
      ensures RoundOk(now, v)
    {
      if v != user {
        assert RoundOk(w, v);
        if v in w.rounds {
          StatusStill(w.rounds[v].baseStatements, w.statements, now.statements, v, w.rounds[v].answered);
          assert WritesOk(now, v, w.rounds[v]);
        }
      }
    }
  }

  /** Looking changes nothing but which idle sessions are left. */
  lemma LookSweeps(c: Config, w: World, user: int, now: int)
    requires RoundOk(w, user)
    ensures var (found, seen) := Look(c, w, user, now);
            && RoundOk(seen, user) && OthersKept(w, seen, user)
            && seen == w.(sessions := seen.sessions)
            && (found.Some? <==> user in seen.sessions)
            && (found.Some? ==> user in w.sessions && seen.sessions[user] == w.sessions[user]
                                && found.value == w.sessions[user].state)
  {
  }

  lemma OthersKeptTwice(w: World, middle: World, now: World, user: int)
    requires OthersKept(w, middle, user) && OthersKept(middle, now, user)
    ensures OthersKept(w, now, user)
  {
  }

  lemma CloseKeeps(w: World, user: int)
    requires RoundOk(w, user)
    ensures RoundOk(Close(w, user), user) && OthersKept(w, Close(w, user), user)
  {
    if user in w.rounds {
      assert WritesOk(Close(w, user), user, Close(w, user).rounds[user]);
    }
  }

  lemma RenderStateKeeps(c: Config, w: World, user: int, t1: int, t2: int)
    requires RoundOk(w, user)
    ensures RoundOk(RenderState(c, w, user, t1, t2), user) && OthersKept(w, RenderState(c, w, user, t1, t2), user)
  {
    var (found, seen) := Look(c, w, user, t1);
    LookSweeps(c, w, user, t1);
    CloseKeeps(seen, user);
    LookSweeps(c, seen, user, t2);
    OthersKeptTwice(w, seen, Close(seen, user), user);
    OthersKeptTwice(w, seen, Look(c, seen, user, t2).1, user);
  }

  lemma OnMoreCards(deck: seq<Q.QuizCard>, m: nat, n: nat, answered: seq<Answered>)
    requires m <= n <= |deck| && OnCards(deck, m, answered)
    ensures OnCards(deck, n, answered)
  {
    forall k | 0 <= k < |answered|
      ensures IsWordOf(deck, n, answered[k].word)
    {
      assert IsWordOf(deck, m, answered[k].word);
    }
  }

  /** Skipping the current card keeps the round, whether or not the session is still there. */
  lemma SkipCardKeeps(c: Config, w: World, user: int, now: int)
    requires RoundOk(w, user)
    ensures RoundOk(SkipCard(c, w, user, now), user) && OthersKept(w, SkipCard(c, w, user, now), user)
  {
    var next := SkipCard(c, w, user, now);
    if user in w.rounds {
      assert WritesOk(next, user, next.rounds[user]);
      if user in next.sessions && !w.sessions[user].state.Done() {
        var r, cursor := w.rounds[user], w.sessions[user].state.cursor;
        OnMoreCards(r.deck, cursor, cursor + 1, r.answered);
      }
    }
  }

  /** The word of the current card has not been answered in this round yet. */
  lemma CurrentWordIsNew(deck: seq<Q.QuizCard>, cursor: nat, answered: seq<Answered>, a: Answered)
    requires Q.NoWordTwice(deck) && cursor < |deck| && OnCards(deck, cursor, answered)
    requires NoWordAnsweredTwice(answered) && a.word == deck[cursor].wordId
    ensures forall b | b in answered :: b.word != a.word
    ensures OnCards(deck, cursor + 1, answered + [a]) && NoWordAnsweredTwice(answered + [a])
  {
    var more := answered + [a];
    forall k | 0 <= k < |answered|
      ensures answered[k].word != a.word
    {
      assert IsWordOf(deck, cursor, answered[k].word);
    }
    forall k | 0 <= k < |more|
      ensures IsWordOf(deck, cursor + 1, more[k].word)
    {
      assert k < |answered| ==> IsWordOf(deck, cursor, answered[k].word);
    }
  }

  lemma AnsweredIsPassed(deck: seq<Q.QuizCard>, cursor: nat, answered: seq<Answered>, a: Answered)
    requires Q.NoWordTwice(deck) && cursor < |deck| && OnCards(deck, cursor, answered) && a in answered
    ensures a.word != deck[cursor].wordId
  {
    var k :| 0 <= k < |answered| && answered[k] == a;
    assert IsWordOf(deck, cursor, answered[k].word);
  }

  /** What holds in the middle of an accepted answer: the round as before, with the answer noted
      and the current word possibly written, and the session still on its card. */
  ghost predicate Answering(w: World, user: int, a: Answered) {
    && user in w.rounds && user in w.sessions && !w.rounds[user].closed
    && var r, s := w.rounds[user], w.sessions[user].state;
       && WritesOk(w, user, r) && XPOf(w.roundXP, user) == Gains(r.entries)
       && s.deck == r.deck && s.cursor < |s.deck| && s.deck[s.cursor].wordId == a.word
       && s.cursor == s.correct + s.wrong + r.skips
       && Tally(r.answered, true) == s.correct + Unit(a.right)
       && Tally(r.answered, false) == s.wrong + Unit(!a.right)
       && OnCards(r.deck, s.cursor + 1, r.answered) && a in r.answered
  }

  ghost predicate NoEntryFor(entries: seq<Entry>, word: int) {
    forall k | 0 <= k < |entries| :: entries[k].word != Some(word)
  }

  lemma TallySnoc(answered: seq<Answered>, a: Answered, right: bool)
    ensures Tally(answered + [a], right) == Tally(answered, right) + Unit(a.right == right)
  {
    assert (answered + [a])[..|answered|] == answered;
  }

  lemma EntriesOkMore(entries: seq<Entry>, answered: seq<Answered>, a: Answered)
    requires EntriesOk(entries, answered)
    ensures EntriesOk(entries, answered + [a])
    ensures (forall b | b in answered :: b.word != a.word) ==> NoEntryFor(entries, a.word)
  {
  }

  lemma AnswersSnoc(h: seq<D.Event>, base: nat, e: D.Event)
    requires base <= |h|
    ensures D.Answers((h + [e])[base..])
            == D.Answers(h[base..]) + (if e.Correct? then [true] else if e.Wrong? then [false] else [])
  {
    var more := h[base..] + [e];
    assert (h + [e])[base..] == more && more[..|more| - 1] == h[base..];
  }

  lemma AnswersToSnoc(answered: seq<Answered>, a: Answered, word: int)
    ensures AnswersTo(answered + [a], word)
            == AnswersTo(answered, word) + (if a.word == word then [a.right] else [])
  {
    assert (answered + [a])[..|answered|] == answered;
  }

  /** A statement on a row adds to the answers recorded on it if it is an answer. */
  lemma StatementMoves(base: Statements, now: Statements, user: int, answered: seq<Answered>, word: int,
                       e: D.Event, after: seq<Answered>)
    requires StatusMoved(base, now, user, answered)
    requires forall other: int :: AnswersTo(after, other)
               == AnswersTo(answered, other)
                  + (if other != word then [] else if e.Correct? then [true] else if e.Wrong? then [false] else [])
    ensures StatusMoved(base, now[(user, word) := StatementsOf(now, (user, word)) + [e]], user, after)
  {
    var h, from := StatementsOf(now, (user, word)), StatementsOf(base, (user, word));
    var later := now[(user, word) := h + [e]];
    assert WordMoved(base, now, user, answered, word);
    AnswersSnoc(h, |from|, e);
    forall other
      ensures WordMoved(base, later, user, after, other)
    {
      assert WordMoved(base, now, user, answered, other);
      assert other != word ==> StatementsOf(later, (user, other)) == StatementsOf(now, (user, other));
    }
  }

  lemma StatusMoves(w: World, user: int, r: Round, a: Answered)
    requires StatusMoved(r.baseStatements, w.statements, user, r.answered)
    ensures StatusMoved(r.baseStatements, RecordStatus(w, user, a.word, a.right).1.statements, user,
                        r.answered + [a])
  {
    forall word
      ensures AnswersTo(r.answered + [a], word)
              == AnswersTo(r.answered, word) + (if a.word == word then [a.right] else [])
    {
      AnswersToSnoc(r.answered, a, word);
    }
    StatementMoves(r.baseStatements, w.statements, user, r.answered, a.word,
                   if a.right then D.Correct(Q.QUIZ_MASTERY_THRESHOLD) else D.Wrong, r.answered + [a]);
  }

  lemma RecordStatusOthers(w: World, user: int, a: Answered)
    ensures var now := RecordStatus(w, user, a.word, a.right).1;
            && OthersKept(w, now, user) && now.sessions == w.sessions && now.roundXP == w.roundXP
            && now.progress == w.progress && now.histories == w.histories
            && (user in w.rounds ==>
                  now.rounds[user] == WithAnswer(w.rounds[user], a))
  {
  }

  lemma RecordStatusKeeps(w: World, user: int, a: Answered)
    requires RoundOk(w, user) && user in w.sessions
    requires !w.sessions[user].state.Done()
    requires a.word == w.sessions[user].state.deck[w.sessions[user].state.cursor].wordId
    ensures var now := RecordStatus(w, user, a.word, a.right).1;
            && Answering(now, user, a) && OthersKept(w, now, user)
            && now.sessions == w.sessions && NoEntryFor(now.rounds[user].entries, a.word)
  {
    var now := RecordStatus(w, user, a.word, a.right).1;
    var r, s := w.rounds[user], w.sessions[user].state;
    CurrentWordIsNew(r.deck, s.cursor, r.answered, a);
    OnMoreCards(r.deck, s.cursor + 1, |r.deck|, r.answered + [a]);
    EntriesOkMore(r.entries, r.answered, a);
    RecordStatusOthers(w, user, a);
    StatusMoves(w, user, r, a);
    TallySnoc(r.answered, a, true);
    TallySnoc(r.answered, a, false);
    assert ProgressMoved(now, user, now.rounds[user]);
  }

  /** One more entry fits a round: it is for an answer of the round that has none yet, or for none. */
  ghost predicate Fits(e: Entry, r: Round) {
    && (e.event.Correct? ==> e.word.Some?)
    && (e.event.Touch? ==> e.gain == 0)
    && (e.word.Some? ==> Answered(e.word.value, e.event.Correct?) in r.answered && NoEntryFor(r.entries, e.word.value))
  }

  lemma EntriesOkSnoc(r: Round, e: Entry)
    requires EntriesOk(r.entries, r.answered) && Fits(e, r)
    ensures EntriesOk(r.entries + [e], r.answered)
    ensures Gains(r.entries + [e]) == Gains(r.entries) + e.gain
    ensures r.baseHistory + Events(r.entries + [e]) == r.baseHistory + Events(r.entries) + [e.event]
  {
    assert (r.entries + [e])[..|r.entries|] == r.entries;
    assert Events(r.entries + [e]) == Events(r.entries) + [e.event];
  }

  lemma LogWritesOk(w: World, rows: P.Rows, xp: map<int, int>, user: int, r: Round, e: Entry)
    requires user in w.rounds && w.rounds[user] == r && WritesOk(w, user, r) && Fits(e, r)
    requires P.RowOf(rows, user).xpTotal == P.RowOf(w.progress, user).xpTotal + e.gain
    ensures var now, after := Log(w.(progress := rows, roundXP := xp), user, e), r.(entries := r.entries + [e]);
            && now.rounds[user] == after && WritesOk(now, user, after)
            && Gains(after.entries) == Gains(r.entries) + e.gain
  {
    var now, after := Log(w.(progress := rows, roundXP := xp), user, e), r.(entries := r.entries + [e]);
    EntriesOkSnoc(r, e);
    assert ProgressMoved(now, user, after);
  }

  lemma LogOthers(w: World, rows: P.Rows, xp: map<int, int>, user: int, e: Entry)
    requires forall v: int | v != user ::
               && P.RowOf(rows, v) == P.RowOf(w.progress, v)
               && (v in xp <==> v in w.roundXP) && (v in xp ==> xp[v] == w.roundXP[v])
    ensures OthersKept(w, Log(w.(progress := rows, roundXP := xp), user, e), user)
  {
  }

  /** In the middle of an answer, one more entry for the current word or for none. */
  lemma LogKeeps(w: World, rows: P.Rows, xp: map<int, int>, user: int, a: Answered, e: Entry)
    requires Answering(w, user, a) && Fits(e, w.rounds[user])
    requires P.RowOf(rows, user).xpTotal == P.RowOf(w.progress, user).xpTotal + e.gain
    requires XPOf(xp, user) == XPOf(w.roundXP, user) + e.gain
    ensures Answering(Log(w.(progress := rows, roundXP := xp), user, e), user, a)
  {
    LogWritesOk(w, rows, xp, user, w.rounds[user], e);
  }

  /** A recorded answer that gets as far as the rollover is one entry for the word or for none. */
  lemma RecordProgressLogs(c: Config, w: World, user: int, a: Answered, env: Env)
    returns (rows: P.Rows, xp: map<int, int>, e: Entry)
    requires env.working >= P.ROLLING_STATEMENTS
    ensures RecordProgress(c, w, user, a.word, a.right, env) == Log(w.(progress := rows, roundXP := xp), user, e)
    ensures P.RowOf(rows, user) == P.After(P.RowOf(w.progress, user), e.event, c.scoring)
    ensures P.RowOf(rows, user).xpTotal == P.RowOf(w.progress, user).xpTotal + e.gain
    ensures XPOf(xp, user) == XPOf(w.roundXP, user) + e.gain
    ensures forall v: int | v != user ::
              && P.RowOf(rows, v) == P.RowOf(w.progress, v)
              && (v in xp <==> v in w.roundXP) && (v in xp ==> xp[v] == w.roundXP[v])
    ensures e.event.day == env.day
    ensures if e.event.Correct? then a.right && e.word == Some(a.word)
            else e.gain == 0 && e.word == if a.right then None else Some(a.word)
  {
    if a.right && env.working >= P.SCORING_STATEMENTS {
      var r := P.Rollover(P.RowOf(w.progress, user), env.day);
      var gain := P.Score(r, env.day, c.scoring).xpGained;
      rows := w.progress[user := P.Write(r, r, env.day, c.scoring)];
      xp := w.roundXP[user := XPOf(w.roundXP, user) + gain];
      e := Entry(P.Correct(env.day), Some(a.word), gain);
    } else {
      rows, xp := P.Begun(w.progress, user, env.day, env.working), w.roundXP;
      e := Entry(P.Touch(env.day), if a.right then None else Some(a.word), 0);
    }
  }

  lemma RecordProgressKeeps(c: Config, w: World, user: int, a: Answered, env: Env)
    requires Answering(w, user, a) && NoEntryFor(w.rounds[user].entries, a.word)
    ensures var now := RecordProgress(c, w, user, a.word, a.right, env);
            Answering(now, user, a) && OthersKept(w, now, user) && now.sessions == w.sessions
  {
    if env.working >= P.ROLLING_STATEMENTS {
      var rows, xp, e := RecordProgressLogs(c, w, user, a, env);
      LogKeeps(w, rows, xp, user, a, e);
      LogOthers(w, rows, xp, user, e);
    } else {
      P.BegunKeepsXP(w.progress, user, env.day, env.working);
      BegunKeeps(w, P.Begun(w.progress, user, env.day, env.working), user, a);
    }
  }

  lemma BegunKeeps(w: World, rows: P.Rows, user: int, a: Answered)
    requires Answering(w, user, a) && forall v: int :: P.RowOf(rows, v) == P.RowOf(w.progress, v)
    ensures Answering(w.(progress := rows), user, a) && OthersKept(w, w.(progress := rows), user)
  {
    assert ProgressMoved(w.(progress := rows), user, w.rounds[user]);
  }

  /** The session moves past the card, or has expired meanwhile. */
  lemma AdvanceKeeps(c: Config, w: World, user: int, a: Answered, mastered: bool, now: int)
    requires Answering(w, user, a)
    ensures var next := w.(sessions := Q.Step(c.ttl, w.sessions, Q.Answer(user, a.right, mastered, now)).1);
            RoundOk(next, user) && OthersKept(w, next, user)
  {
    var next := w.(sessions := Q.Step(c.ttl, w.sessions, Q.Answer(user, a.right, mastered, now)).1);
    assert WritesOk(next, user, next.rounds[user]);
  }

  lemma AnswerCardKeeps(c: Config, w: World, user: int, word: int, option: int, env: Env)
    requires RoundOk(w, user)
    ensures RoundOk(AnswerCard(c, w, user, word, option, env), user)
    ensures OthersKept(w, AnswerCard(c, w, user, word, option, env), user)
  {
    var (found, seen) := Look(c, w, user, env.t0);
    LookSweeps(c, w, user, env.t0);
    if found.Some? {
      if found.value.Done() || found.value.deck[found.value.cursor].wordId != word {
        RenderStateKeeps(c, seen, user, env.t1, env.t2);
        OthersKeptTwice(w, seen, RenderState(c, seen, user, env.t1, env.t2), user);
      } else if !env.statusFails {
        var a := Answered(word, option == found.value.deck[found.value.cursor].correctIndex);
        var (mastered, noted) := RecordStatus(seen, user, word, a.right);
        RecordStatusKeeps(seen, user, a);
        var scored := RecordProgress(c, noted, user, word, a.right, env);
        RecordProgressKeeps(c, noted, user, a, env);
        AdvanceKeeps(c, scored, user, a, mastered, env.t1);
        OthersKeptTwice(w, seen, noted, user);
        OthersKeptTwice(w, noted, scored, user);
        OthersKeptTwice(w, scored, AnswerCard(c, w, user, word, option, env), user);
      }
    }
  }

  lemma LogRoundOk(w: World, rows: P.Rows, user: int, e: Entry)
    requires RoundOk(w, user) && e.event.Touch? && e.word == None && e.gain == 0
    requires P.RowOf(rows, user).xpTotal == P.RowOf(w.progress, user).xpTotal
    ensures RoundOk(Log(w.(progress := rows), user, e), user)
  {
    if user in w.rounds {
      LogWritesOk(w, rows, w.roundXP, user, w.rounds[user], e);
      assert w.(progress := rows) == w.(progress := rows, roundXP := w.roundXP);
    }
  }

  lemma BegunRoundOk(w: World, rows: P.Rows, user: int)
    requires RoundOk(w, user) && forall v: int :: P.RowOf(rows, v) == P.RowOf(w.progress, v)
    ensures RoundOk(w.(progress := rows), user) && OthersKept(w, w.(progress := rows), user)
  {
    if user in w.rounds {
      assert WritesOk(w.(progress := rows), user, w.rounds[user]);
    }
  }

  /** Rolling the day over is one more entry, for no word, if it gets that far. */
  lemma RollDayLogs(w: World, user: int, env: Env) returns (rows: P.Rows)
    ensures RollDay(w, user, env) == if env.working >= 2
                                     then Log(w.(progress := rows), user, Entry(P.Touch(env.day), None, 0))
                                     else w.(progress := rows)
    ensures P.RowOf(rows, user).xpTotal == P.RowOf(w.progress, user).xpTotal
    ensures forall v: int | v != user || env.working < 2 :: P.RowOf(rows, v) == P.RowOf(w.progress, v)
  {
    rows := if env.working == 0 then w.progress else P.Begun(w.progress, user, env.day, env.working + 1);
  }

  lemma RollDayKeeps(w: World, user: int, env: Env)
    requires RoundOk(w, user)
    ensures RoundOk(RollDay(w, user, env), user) && OthersKept(w, RollDay(w, user, env), user)
  {
    var rows := RollDayLogs(w, user, env);
    var e := Entry(P.Touch(env.day), None, 0);
    if env.working >= 2 {
      LogRoundOk(w, rows, user, e);
      LogOthers(w, rows, w.roundXP, user, e);
      assert w.(progress := rows) == w.(progress := rows, roundXP := w.roundXP);
    } else {
      BegunRoundOk(w, rows, user);
    }
  }

  lemma RollDayChanges(w: World, user: int, env: Env)
    ensures var now := RollDay(w, user, env);
            && now == w.(progress := now.progress, histories := now.histories, rounds := now.rounds)
            && P.RowOf(now.progress, user).xpTotal == P.RowOf(w.progress, user).xpTotal
            && (user in w.rounds ==>
                  && user in now.rounds
                  && now.rounds[user] == w.rounds[user].(entries := now.rounds[user].entries)
                  && now.rounds[user].entries
                     == w.rounds[user].entries
                        + if env.working >= 2 then [Entry(P.Touch(env.day), None, 0)] else [])
  {
    var rows := RollDayLogs(w, user, env);
  }

  /** A round has just begun: nothing is answered or written in it, and it has no points; at most
      the day was rolled over. */
  ghost predicate JustBegun(w: World, now: World, user: int, deck: seq<Q.QuizCard>, day: int, rolls: bool) {
    && user in now.rounds && user !in now.roundXP && now.statuses == w.statuses
    && now.rounds[user] == NewRound(w, user, deck).(entries := now.rounds[user].entries)
    && now.rounds[user].entries == (if rolls then [Entry(P.Touch(day), None, 0)] else [])
    && (user in now.sessions ==> now.sessions[user].state == Q.Snapshot(deck, 0, 0, 0, []))
    && P.RowOf(now.progress, user).xpTotal == P.RowOf(w.progress, user).xpTotal
  }

  lemma OpenedKeeps(c: Config, w: World, user: int, deck: seq<Q.QuizCard>, now: int)
    requires RoundOk(w, user) && Q.NoWordTwice(deck)
    ensures RoundOk(Opened(c, w, user, deck, now), user) && OthersKept(w, Opened(c, w, user, deck, now), user)
  {
    var started := Opened(c, w, user, deck, now);
    assert started.rounds[user].baseHistory + Events([]) == HistoryOf(started.histories, user);
    assert WritesOk(started, user, NewRound(w, user, deck));
  }

  lemma BeginKeeps(c: Config, w: World, user: int, deck: seq<Q.QuizCard>, env: Env)
    requires RoundOk(w, user) && Q.NoWordTwice(deck)
    ensures var now := Begin(c, w, user, deck, env);
            RoundOk(now, user) && OthersKept(w, now, user) && JustBegun(w, now, user, deck, env.day, env.working >= 2)
  {
    var started := Opened(c, w, user, deck, env.t0);
    OpenedKeeps(c, w, user, deck, env.t0);
    RollDayKeeps(started, user, env);
    RollDayChanges(started, user, env);
    OthersKeptTwice(w, started, Begin(c, w, user, deck, env), user);
  }

  /** By the command or by the button, a new round begins with nothing written and no points. */
  lemma StartRoundKeeps(c: Config, w: World, user: int, deck: seq<Q.QuizCard>, again: bool, env: Env)
    requires RoundOk(w, user) && Q.NoWordTwice(deck)
    ensures var now := StartRound(c, w, user, deck, again, env);
            RoundOk(now, user) && OthersKept(w, now, user) && JustBegun(w, now, user, deck, env.day, env.working >= 2)
    ensures var now := Handle(c, w, user, Command(deck), env);
            RoundOk(now, user) && OthersKept(w, now, user) && JustBegun(w, now, user, deck, env.day, env.working >= 2)
  {
    var begun := Begin(c, w, user, deck, env);
    BeginKeeps(c, w, user, deck, env);
    var seen := Look(c, begun, user, env.t1).1;
    LookSweeps(c, begun, user, env.t1);
    LookSweeps(c, seen, user, env.t2);
    OthersKeptTwice(w, begun, seen, user);
    OthersKeptTwice(w, seen, Look(c, seen, user, env.t2).1, user);
  }

  lemma SkipPressedKeeps(c: Config, w: World, user: int, env: Env)
    requires RoundOk(w, user)
    ensures RoundOk(SkipPressed(c, w, user, env), user) && OthersKept(w, SkipPressed(c, w, user, env), user)
  {
    var (found, seen) := Look(c, w, user, env.t0);
    LookSweeps(c, w, user, env.t0);
    RenderStateKeeps(c, seen, user, env.t1, env.t2);
    SkipCardKeeps(c, seen, user, env.t1);
    OthersKeptTwice(w, seen, SkipPressed(c, w, user, env), user);
  }

  lemma ExecuteKeeps(w: World, user: int, word: int, e: D.Event)
    requires RoundOk(w, user) && !e.Correct? && !e.Wrong?
    ensures RoundOk(Execute(w, (user, word), e), user) && OthersKept(w, Execute(w, (user, word), e), user)
  {
    if user in w.rounds {
      var r := w.rounds[user];
      StatementMoves(r.baseStatements, w.statements, user, r.answered, word, e, r.answered);
      assert WritesOk(Execute(w, (user, word), e), user, w.rounds[user]);
    }
  }

  lemma DeleteWordKeeps(c: Config, w: World, user: int, word: int, env: Env)
    requires RoundOk(w, user)
    ensures RoundOk(DeleteWord(c, w, user, word, env), user) && OthersKept(w, DeleteWord(c, w, user, word, env), user)
  {
    var (found, seen) := Look(c, w, user, env.t0);
    LookSweeps(c, w, user, env.t0);
    RenderStateKeeps(c, seen, user, env.t1, env.t2);
    ExecuteKeeps(seen, user, word, D.Delete);
    var deleted := Execute(seen, (user, word), D.Delete);
    SkipCardKeeps(c, deleted, user, env.t1);
    OthersKeptTwice(seen, deleted, SkipCard(c, deleted, user, env.t1), user);
    OthersKeptTwice(w, seen, DeleteWord(c, w, user, word, env), user);
  }

  lemma NextCardKeeps(c: Config, w: World, user: int, env: Env)
    requires RoundOk(w, user)
    ensures RoundOk(NextCard(c, w, user, env), user) && OthersKept(w, NextCard(c, w, user, env), user)
  {
    var (found, seen) := Look(c, w, user, env.t0);
    LookSweeps(c, w, user, env.t0);
    RenderStateKeeps(c, seen, user, env.t1, env.t2);
    var skipped := SkipCard(c, seen, user, env.t1);
    SkipCardKeeps(c, seen, user, env.t1);
    var looked := Look(c, skipped, user, env.t2).1;
    LookSweeps(c, skipped, user, env.t2);
    CloseKeeps(looked, user);
    LookSweeps(c, looked, user, env.t3);
    OthersKeptTwice(w, seen, skipped, user);
    OthersKeptTwice(w, skipped, looked, user);
    OthersKeptTwice(w, looked, Close(looked, user), user);
    OthersKeptTwice(w, looked, Look(c, looked, user, env.t3).1, user);
    OthersKeptTwice(w, seen, RenderState(c, seen, user, env.t1, env.t2), user);
  }

  /** Ending a round clears its session and its points together; without a live session neither
      the points nor the round are touched. */
  lemma EndRoundKeeps(c: Config, w: World, user: int, env: Env)
    requires RoundOk(w, user)
    ensures var now := EndRound(c, w, user, env);
            && RoundOk(now, user) && OthersKept(w, now, user)
            && user !in now.sessions
            && now.statuses == w.statuses && now.progress == w.progress
            && if Look(c, w, user, env.t0).0.Some?
               then user !in now.roundXP && user in now.rounds && now.rounds[user].closed
               else now.roundXP == w.roundXP && now.rounds == w.rounds
  {
    var seen := Look(c, w, user, env.t0).1;
    LookSweeps(c, w, user, env.t0);
    CloseKeeps(seen, user);
    OthersKeptTwice(w, seen, Close(seen, user), user);
  }

  predicate IsStart(press: Press) {
    press.Command? || press.Start?
  }

  /** Every press keeps every round in order. */
  lemma HandleKeeps(c: Config, w: World, user: int, press: Press, env: Env)
    requires Consistent(w) && (IsStart(press) ==> Q.NoWordTwice(press.deck))
    ensures Consistent(Handle(c, w, user, press, env))
  {
    assert RoundOk(w, user);
    match press {
      case Command(deck) => StartRoundKeeps(c, w, user, deck, false, env);
      case Start(deck, again) => StartRoundKeeps(c, w, user, deck, again, env);
      case Answer(word, option) => AnswerCardKeeps(c, w, user, word, option, env);
      case Skip => SkipPressedKeeps(c, w, user, env);
      case Delete(word) => DeleteWordKeeps(c, w, user, word, env);
      case Next => NextCardKeeps(c, w, user, env);
      case End => EndRoundKeeps(c, w, user, env);
      case Profile => RollDayKeeps(w, user, env);
      case SetStatus(word, status) => ExecuteKeeps(w, user, word, D.Upsert(status));
    }
    OthersStayOk(w, Handle(c, w, user, press, env), user);
  }

  datatype Event = Event(user: int, press: Press, env: Env)

  function Run(c: Config, events: seq<Event>): World {
    if events == [] then EMPTY_WORLD
    else
      var e := events[|events| - 1];
      Handle(c, Run(c, events[..|events| - 1]), e.user, e.press, e.env)
  }

  /** No deck of the run holds a word twice. */
  ghost predicate DecksOk(events: seq<Event>) {
    forall k | 0 <= k < |events| && IsStart(events[k].press) :: Q.NoWordTwice(events[k].press.deck)
  }

  /** Over any run of presses by any users, with stores failing and sessions expiring, every round
      stays in order. */
  lemma {:induction false} RunKeeps(c: Config, events: seq<Event>)
    requires DecksOk(events)
    ensures Consistent(Run(c, events))
  {
    if events != [] {
      var e := events[|events| - 1];
      RunKeeps(c, events[..|events| - 1]);
      HandleKeeps(c, Run(c, events[..|events| - 1]), e.user, e.press, e.env);
    }
  }

  /** While a round is open its counter holds exactly what the user's total has grown by since the
      round began; a closed one earned exactly that. */
  lemma RoundXPIsGrowth(c: Config, events: seq<Event>, user: int)
    requires DecksOk(events) && user in Run(c, events).rounds
    ensures var w := Run(c, events);
            var growth := P.RowOf(w.progress, user).xpTotal - w.rounds[user].baseXP;
            growth == Gains(w.rounds[user].entries) && (!w.rounds[user].closed ==> XPOf(w.roundXP, user) == growth)
  {
    RunKeeps(c, events);
    assert RoundOk(Run(c, events), user);
  }

  /** The words the progress row has scored in a round. */
  function Scored(entries: seq<Entry>): set<int> {
    set k | 0 <= k < |entries| && entries[k].event.Correct? && entries[k].word.Some? :: entries[k].word.value
  }

  lemma {:induction false} ScoredIsCounted(base: seq<P.Event>, entries: seq<Entry>, answered: seq<Answered>)
    requires EntriesOk(entries, answered)
    ensures P.CountAll(base + Events(entries)) == P.CountAll(base) + |Scored(entries)|
  {
    if entries == [] {
      assert base + Events(entries) == base && Scored(entries) == {};
    } else {
      var before, e := entries[..|entries| - 1], entries[|entries| - 1];
      ScoredIsCounted(base, before, answered);
      assert entries == before + [e];
      assert e.event.Correct? ==> NoEntryFor(before, e.word.value);
      OneMoreScored(base, before, e);
    }
  }

  lemma OneMoreScored(base: seq<P.Event>, entries: seq<Entry>, e: Entry)
    requires e.event.Correct? ==> e.word.Some? && NoEntryFor(entries, e.word.value)
    ensures |Scored(entries + [e])| == |Scored(entries)| + if e.event.Correct? then 1 else 0
    ensures P.CountAll(base + Events(entries + [e]))
            == P.CountAll(base + Events(entries)) + if e.event.Correct? then 1 else 0
  {
    assert base + Events(entries + [e]) == (base + Events(entries)) + [e.event];
    P.CountAllAfter(base + Events(entries), e.event);
    ScoredMore(entries, e);
    P.SizeWith(Scored(entries), if e.event.Correct? then e.word.value else 0);
  }

  lemma ScoredMore(entries: seq<Entry>, e: Entry)
    requires e.event.Correct? ==> e.word.Some?
    ensures Scored(entries + [e]) == Scored(entries) + if e.event.Correct? then {e.word.value} else {}
    ensures e.event.Correct? && NoEntryFor(entries, e.word.value) ==> e.word.value !in Scored(entries)
  {
    var more := entries + [e];
    forall word
      ensures word in Scored(more) <==> word in Scored(entries) || (e.event.Correct? && word == e.word.value)
    {
      if word in Scored(entries) {
        var k :| 0 <= k < |entries| && entries[k].event.Correct? && entries[k].word == Some(word);
        assert more[k] == entries[k];
      }
      if e.event.Correct? && word == e.word.value {
        assert more[|entries|] == e;
      }
    }
  }

  /** In a round of any run, the user's history has grown by as many correct answers as there are
      words scored, each of which was answered right in the round: no word is scored twice. */
  lemma RoundScoresEachWordOnce(c: Config, events: seq<Event>, user: int)
    requires DecksOk(events) && user in Run(c, events).rounds
    ensures var w := Run(c, events);
            var r := w.rounds[user];
            && P.CountAll(HistoryOf(w.histories, user)) == P.CountAll(r.baseHistory) + |Scored(r.entries)|
            && forall word | word in Scored(r.entries) :: Answered(word, true) in r.answered
  {
    RunKeeps(c, events);
    var w := Run(c, events);
    assert RoundOk(w, user);
    ScoredIsCounted(w.rounds[user].baseHistory, w.rounds[user].entries, w.rounds[user].answered);
  }

  /** Neither progress rows nor their histories have changed, ... */
  ghost predicate Unmoved(w: World, now: World) {
    now.progress == w.progress && now.histories == w.histories
  }

  /** ... nor status rows. */
  ghost predicate StatusUnmoved(w: World, now: World) {
    now.statuses == w.statuses && now.statements == w.statements
  }

  lemma RenderUnmoved(c: Config, w: World, user: int, t1: int, t2: int)
    ensures Unmoved(w, RenderState(c, w, user, t1, t2)) && StatusUnmoved(w, RenderState(c, w, user, t1, t2))
  {
  }

  /** Pressing an answer for a word that was answered in the round already, once that press is
      handled, writes to neither store: later clicks and buttons of earlier cards do not count. */
  lemma AnsweredWordIsNotWrittenAgain(c: Config, w: World, user: int, a: Answered, option: int, env: Env)
    requires RoundOk(w, user) && user in w.rounds && a in w.rounds[user].answered
    ensures var now := AnswerCard(c, w, user, a.word, option, env);
            Unmoved(w, now) && StatusUnmoved(w, now)
  {
    var (found, seen) := Look(c, w, user, env.t0);
    RenderUnmoved(c, seen, user, env.t1, env.t2);
    if found.Some? && !found.value.Done() {
      SessionOfRound(c, w, user, env.t0);
      AnsweredIsPassed(found.value.deck, found.value.cursor, w.rounds[user].answered, a);
    }
  }

  /** A session that is found belongs to the user's round. */
  lemma SessionOfRound(c: Config, w: World, user: int, now: int)
    requires RoundOk(w, user) && Look(c, w, user, now).0.Some?
    ensures user in w.rounds && SessionOk(Look(c, w, user, now).0.value, w.rounds[user])
    ensures Q.NoWordTwice(w.rounds[user].deck)
  {
  }

  // ----- the progress row and its history over a run -----

  /** The history of `v` got at most one event, of the given day, and the row moved along. */
  ghost predicate Moves(c: Config, w: World, now: World, v: int, day: int) {
    var before, after := HistoryOf(w.histories, v), HistoryOf(now.histories, v);
    if after == before then P.RowOf(now.progress, v) == P.RowOf(w.progress, v)
    else
      && after != [] && after[..|after| - 1] == before && after[|after| - 1].day == day
      && P.RowOf(now.progress, v) == P.After(P.RowOf(w.progress, v), after[|after| - 1], c.scoring)
  }

  lemma LogIsMove(c: Config, w: World, rows: P.Rows, user: int, e: Entry, v: int)
    requires P.RowOf(rows, user) == P.After(P.RowOf(w.progress, user), e.event, c.scoring)
    requires v != user ==> P.RowOf(rows, v) == P.RowOf(w.progress, v)
    ensures Moves(c, w, Log(w.(progress := rows), user, e), v, e.event.day)
    ensures v != user ==> HistoryOf(Log(w.(progress := rows), user, e).histories, v) == HistoryOf(w.histories, v)
  {
    var before := HistoryOf(w.histories, user);
    assert (before + [e.event])[..|before|] == before;
  }

  lemma RollDayMoves(c: Config, w: World, user: int, env: Env, v: int)
    ensures Moves(c, w, RollDay(w, user, env), v, env.day)
    ensures v != user ==> HistoryOf(RollDay(w, user, env).histories, v) == HistoryOf(w.histories, v)
  {
    if env.working >= 2 {
      LogIsMove(c, w, P.Begun(w.progress, user, env.day, env.working + 1), user,
                Entry(P.Touch(env.day), None, 0), v);
    }
  }

  lemma RecordProgressMoves(c: Config, w: World, user: int, a: Answered, env: Env, v: int)
    ensures var now := RecordProgress(c, w, user, a.word, a.right, env);
            && Moves(c, w, now, v, env.day)
            && (v != user ==> HistoryOf(now.histories, v) == HistoryOf(w.histories, v))
  {
    if env.working >= P.ROLLING_STATEMENTS {
      var rows, xp, e := RecordProgressLogs(c, w, user, a, env);
      LogIsMove(c, w.(roundXP := xp), rows, user, e, v);
    }
  }

  /** Skips, deletions and the end of a round leave the progress rows alone. */
  lemma SkipsAndEndsUnmoved(c: Config, w: World, user: int, word: int, env: Env)
    ensures Unmoved(w, SkipPressed(c, w, user, env)) && Unmoved(w, EndRound(c, w, user, env))
    ensures Unmoved(w, DeleteWord(c, w, user, word, env))
  {
    var seen := Look(c, w, user, env.t0).1;
    RenderUnmoved(c, seen, user, env.t1, env.t2);
  }

  lemma NextUnmoved(c: Config, w: World, user: int, env: Env)
    ensures Unmoved(w, NextCard(c, w, user, env))
  {
    var seen := Look(c, w, user, env.t0).1;
    RenderUnmoved(c, seen, user, env.t1, env.t2);
  }

  /** A press of an answer either leaves all rows alone or is the two writes of an accepted one. */
  lemma AnswerCases(c: Config, w: World, user: int, word: int, option: int, env: Env)
    returns (accepted: bool, right: bool)
    ensures var now, seen := AnswerCard(c, w, user, word, option, env), Look(c, w, user, env.t0).1;
            var scored := RecordProgress(c, RecordStatus(seen, user, word, right).1, user, word, right, env);
            && Unmoved(w, seen) && StatusUnmoved(w, seen)
            && (!accepted ==> Unmoved(w, now) && StatusUnmoved(w, now))
            && (accepted ==> Unmoved(scored, now) && StatusUnmoved(scored, now))
  {
    var (found, seen) := Look(c, w, user, env.t0);
    accepted, right := false, false;
    if found.None? {
    } else if found.value.Done() || found.value.deck[found.value.cursor].wordId != word {
      RenderUnmoved(c, seen, user, env.t1, env.t2);
    } else if !env.statusFails {
      accepted, right := true, option == found.value.deck[found.value.cursor].correctIndex;
    }
  }

  lemma AnswerMoves(c: Config, w: World, user: int, word: int, option: int, env: Env, v: int)
    ensures var now := AnswerCard(c, w, user, word, option, env);
            && Moves(c, w, now, v, env.day)
            && (v != user ==> HistoryOf(now.histories, v) == HistoryOf(w.histories, v))
  {
    var accepted, right := AnswerCases(c, w, user, word, option, env);
    if accepted {
      var seen, a := Look(c, w, user, env.t0).1, Answered(word, right);
      RecordStatusOthers(seen, user, a);
      RecordProgressMoves(c, RecordStatus(seen, user, word, right).1, user, a, env, v);
    }
  }

  /** Each press adds at most one event to the history of the user who pressed, and the row follows
      it. */
  lemma HandleMoves(c: Config, w: World, user: int, press: Press, env: Env, v: int)
    ensures var now := Handle(c, w, user, press, env);
            && Moves(c, w, now, v, env.day)
            && (v != user ==> HistoryOf(now.histories, v) == HistoryOf(w.histories, v))
  {
    match press {
      case Command(deck) => StartMoves(c, w, user, deck, false, env, v);
      case Start(deck, again) => StartMoves(c, w, user, deck, again, env, v);
      case Answer(word, option) => AnswerMoves(c, w, user, word, option, env, v);
      case Delete(word) => SkipsAndEndsUnmoved(c, w, user, word, env);
      case Next => NextUnmoved(c, w, user, env);
      case Profile => RollDayMoves(c, w, user, env, v);
      case SetStatus(word, status) =>
      case _ => SkipsAndEndsUnmoved(c, w, user, 0, env);
    }
  }

  lemma StartMoves(c: Config, w: World, user: int, deck: seq<Q.QuizCard>, again: bool, env: Env, v: int)
    ensures var now := StartRound(c, w, user, deck, again, env);
            && Moves(c, w, now, v, env.day)
            && (v != user ==> HistoryOf(now.histories, v) == HistoryOf(w.histories, v))
    ensures var now := Handle(c, w, user, Command(deck), env);
            && Moves(c, w, now, v, env.day)
            && (v != user ==> HistoryOf(now.histories, v) == HistoryOf(w.histories, v))
  {
    BeginMoves(c, w, user, deck, env, v);
  }

  lemma BeginMoves(c: Config, w: World, user: int, deck: seq<Q.QuizCard>, env: Env, v: int)
    ensures var now := Begin(c, w, user, deck, env);
            && Moves(c, w, now, v, env.day)
            && (v != user ==> HistoryOf(now.histories, v) == HistoryOf(w.histories, v))
  {
    RollDayMoves(c, Opened(c, w, user, deck, env.t0), user, env, v);
  }

  /** After any run the progress row is the replay of the user's history, in whatever order the
      days come, so it pays by the stay. */
  lemma {:induction false} RunReplaysHistory(c: Config, events: seq<Event>, user: int)
    ensures var w := Run(c, events);
            var row, h := P.RowOf(w.progress, user), HistoryOf(w.histories, user);
            row == P.Replay(h, c.scoring) && P.PaidByStay(row, P.Stays(h), P.CountAll(h), c.scoring)
  {
    if events != [] {
      var e, before := events[|events| - 1], events[..|events| - 1];
      RunReplaysHistory(c, before, user);
      HandleMoves(c, Run(c, before), e.user, e.press, e.env, user);
    }
    P.AnyHistoryPaysByStay(HistoryOf(Run(c, events).histories, user), c.scoring);
  }

  /** The days of a user's presses never go back. */
  ghost predicate SteadyDays(events: seq<Event>, user: int) {
    forall i, j | 0 <= i < j < |events| && events[i].user == events[j].user == user ::
      events[i].env.day <= events[j].env.day
  }

  lemma {:induction false} RunHistoryIsSteady(c: Config, events: seq<Event>, user: int, latest: int)
    requires SteadyDays(events, user)
    requires forall k | 0 <= k < |events| && events[k].user == user :: events[k].env.day <= latest
    ensures var h := HistoryOf(Run(c, events).histories, user); P.Steady(h) && P.UpTo(h, latest)
  {
    if events != [] {
      var e, before := events[|events| - 1], events[..|events| - 1];
      RunHistoryIsSteady(c, before, user, if e.user == user then e.env.day else latest);
      PressStaysSteady(c, Run(c, before), e, user, latest);
    }
  }

  lemma PressStaysSteady(c: Config, w: World, e: Event, user: int, latest: int)
    requires var h := HistoryOf(w.histories, user);
             P.Steady(h) && P.UpTo(h, if e.user == user then e.env.day else latest)
    requires e.user == user ==> e.env.day <= latest
    ensures var h := HistoryOf(Handle(c, w, e.user, e.press, e.env).histories, user);
            P.Steady(h) && P.UpTo(h, latest)
  {
    HandleMoves(c, w, e.user, e.press, e.env, user);
    SteadyMore(HistoryOf(w.histories, user), HistoryOf(Handle(c, w, e.user, e.press, e.env).histories, user),
               e.env.day, latest);
  }

  lemma SteadyMore(h: seq<P.Event>, longer: seq<P.Event>, day: int, latest: int)
    requires P.Steady(h) && P.UpTo(h, latest)
    requires longer == h || (longer != [] && longer[..|longer| - 1] == h && longer[|longer| - 1].day == day <= latest
                             && P.UpTo(h, day))
    ensures P.Steady(longer) && P.UpTo(longer, latest)
  {
    forall i, j | 0 <= i < j < |longer|
      ensures longer[i].day <= longer[j].day
    {
      if longer != h { assert longer[i] == h[i] && (j < |h| ==> longer[j] == h[j]); }
    }
    forall i | 0 <= i < |longer|
      ensures longer[i].day <= latest
    {
      assert i < |h| ==> longer[i] == h[i];
    }
  }

  /** The latest day of some presses. */
  function LatestDay(events: seq<Event>): (latest: int)
    ensures forall k | 0 <= k < |events| :: events[k].env.day <= latest
  {
    if events == [] then 0
    else
      var before, day := LatestDay(events[..|events| - 1]), events[|events| - 1].env.day;
      if day > before then day else before
  }

  /** Over any run with steady days, the progress row is a summary of everything the user did: the
      streaks, today's count, and a total of one payment a correct answer and one bonus a day. */
  lemma RunRowSummarisesHistory(c: Config, events: seq<Event>, user: int)
    requires SteadyDays(events, user)
    ensures var w := Run(c, events);
            var h := HistoryOf(w.histories, user);
            P.Summarises(P.RowOf(w.progress, user), h, P.Today(h), c.scoring)
  {
    RunReplaysHistory(c, events, user);
    RunHistoryIsSteady(c, events, user, LatestDay(events));
    P.RowSummarisesHistory(HistoryOf(Run(c, events).histories, user), c.scoring);
  }

  // ----- the status rows and their statements over a run -----

  /** Every status row is what its statements make of it. */
  ghost predicate Replayed(rows: D.Rows, statements: Statements) {
    forall key: D.Key :: D.Lookup(rows, key) == D.Replay(StatementsOf(statements, key))
  }

  lemma ExecuteReplays(w: World, key: D.Key, e: D.Event)
    requires Replayed(w.statuses, w.statements)
    ensures Replayed(Execute(w, key, e).statuses, Execute(w, key, e).statements)
  {
    var h, now := StatementsOf(w.statements, key), Execute(w, key, e);
    assert D.Lookup(w.statuses, key) == D.Replay(h);
    D.AnswersMore(h, e);
    forall other: D.Key
      ensures D.Lookup(now.statuses, other) == D.Replay(StatementsOf(now.statements, other))
    {
      if other == key {
        assert StatementsOf(now.statements, other) == h + [e];
      } else {
        assert D.Lookup(w.statuses, other) == D.Replay(StatementsOf(w.statements, other));
        assert D.Lookup(now.statuses, other) == D.Lookup(w.statuses, other);
      }
    }
  }

  lemma ProgressStatusUnmoved(c: Config, w: World, user: int, word: int, correct: bool, env: Env)
    ensures StatusUnmoved(w, RecordProgress(c, w, user, word, correct, env))
  {
  }

  lemma AnswerReplays(c: Config, w: World, user: int, word: int, option: int, env: Env)
    requires Replayed(w.statuses, w.statements)
    ensures var now := AnswerCard(c, w, user, word, option, env); Replayed(now.statuses, now.statements)
  {
    var accepted, right := AnswerCases(c, w, user, word, option, env);
    if accepted {
      var seen := Look(c, w, user, env.t0).1;
      ExecuteReplays(seen, (user, word), if right then D.Correct(Q.QUIZ_MASTERY_THRESHOLD) else D.Wrong);
      ProgressStatusUnmoved(c, RecordStatus(seen, user, word, right).1, user, word, right, env);
    }
  }

  lemma DeleteReplays(c: Config, w: World, user: int, word: int, env: Env)
    requires Replayed(w.statuses, w.statements)
    ensures var now := DeleteWord(c, w, user, word, env); Replayed(now.statuses, now.statements)
  {
    var (found, seen) := Look(c, w, user, env.t0);
    RenderUnmoved(c, seen, user, env.t1, env.t2);
    ExecuteReplays(seen, (user, word), D.Delete);
  }

  lemma StartStatusUnmoved(c: Config, w: World, user: int, deck: seq<Q.QuizCard>, again: bool, env: Env)
    ensures StatusUnmoved(w, StartRound(c, w, user, deck, again, env))
    ensures StatusUnmoved(w, Handle(c, w, user, Command(deck), env))
  {
    BeginStatusUnmoved(c, w, user, deck, env);
  }

  lemma BeginStatusUnmoved(c: Config, w: World, user: int, deck: seq<Q.QuizCard>, env: Env)
    ensures StatusUnmoved(w, Begin(c, w, user, deck, env)) && StatusUnmoved(w, RollDay(w, user, env))
  {
  }

  lemma NextStatusUnmoved(c: Config, w: World, user: int, env: Env)
    ensures StatusUnmoved(w, NextCard(c, w, user, env))
  {
    var seen := Look(c, w, user, env.t0).1;
    RenderUnmoved(c, seen, user, env.t1, env.t2);
  }

  lemma SkipStatusUnmoved(c: Config, w: World, user: int, env: Env)
    ensures StatusUnmoved(w, SkipPressed(c, w, user, env)) && StatusUnmoved(w, EndRound(c, w, user, env))
  {
    var seen := Look(c, w, user, env.t0).1;
    RenderUnmoved(c, seen, user, env.t1, env.t2);
  }

  lemma HandleReplays(c: Config, w: World, user: int, press: Press, env: Env)
    requires Replayed(w.statuses, w.statements)
    ensures var now := Handle(c, w, user, press, env); Replayed(now.statuses, now.statements)
  {
    match press {
      case Command(deck) => StartStatusUnmoved(c, w, user, deck, false, env);
      case Start(deck, again) => StartStatusUnmoved(c, w, user, deck, again, env);
      case Answer(word, option) => AnswerReplays(c, w, user, word, option, env);
      case Delete(word) => DeleteReplays(c, w, user, word, env);
      case SetStatus(word, status) => ExecuteReplays(w, (user, word), D.Upsert(status));
      case Next => NextStatusUnmoved(c, w, user, env);
      case Profile => BeginStatusUnmoved(c, w, user, [], env);
      case _ => SkipStatusUnmoved(c, w, user, env);
    }
  }

  /** After any run, each status row is what the statements run on it make of it, so that its
      counters count the answers recorded since it was created. */
  lemma {:induction false} RunReplaysStatements(c: Config, events: seq<Event>)
    ensures Replayed(Run(c, events).statuses, Run(c, events).statements)
  {
    if events != [] {
      var e, before := events[|events| - 1], events[..|events| - 1];
      RunReplaysStatements(c, before);
      HandleReplays(c, Run(c, before), e.user, e.press, e.env);
    }
  }

  lemma RunRowCountsAnswers(c: Config, events: seq<Event>, key: D.Key)
    requires key in Run(c, events).statuses
    ensures var w := Run(c, events);
            var row, life := w.statuses[key], D.Life(StatementsOf(w.statements, key));
            && life.Some?
            && row.correctStreak == D.StreakOf(D.Answers(life.value))
            && row.correctTotal == multiset(D.Answers(life.value))[true]
            && row.wrongTotal == multiset(D.Answers(life.value))[false]
  {
    var w := Run(c, events);
    RunReplaysStatements(c, events);
    assert D.Lookup(w.statuses, key) == D.Replay(StatementsOf(w.statements, key));
    D.CountersCountAnswers(StatementsOf(w.statements, key));
  }

  lemma {:induction false} AnswersToOnce(answered: seq<Answered>, word: int)
    requires NoWordAnsweredTwice(answered)
    ensures AnswersTo(answered, word) == [] <==> forall k | 0 <= k < |answered| :: answered[k].word != word
    ensures forall k | 0 <= k < |answered| && answered[k].word == word ::
              AnswersTo(answered, word) == [answered[k].right]
  {
    if answered != [] {
      AnswersToOnce(answered[..|answered| - 1], word);
    }
  }

  /** In a round of any run, with status buttons pressed in between: a row that was there when the
      round began, and has not been deleted since, has moved by exactly the answer given to its word
      in the round, if there was one. */
  lemma RoundMovesRow(c: Config, events: seq<Event>, user: int, word: int)
    requires DecksOk(events) && user in Run(c, events).rounds
    ensures var w := Run(c, events);
            var r := w.rounds[user];
            var base, now := StatementsOf(r.baseStatements, (user, word)), StatementsOf(w.statements, (user, word));
            base <= now
            && (D.Replay(base).Some? && (forall k | |base| <= k < |now| :: !now[k].Delete?) ==>
                  && (user, word) in w.statuses
                  && var was, row := D.Replay(base).value, w.statuses[(user, word)];
                     && row.correctTotal == was.correctTotal + Unit(Answered(word, true) in r.answered)
                     && row.wrongTotal == was.wrongTotal + Unit(Answered(word, false) in r.answered))
  {
    var w := Run(c, events);
    var r := w.rounds[user];
    RunKeeps(c, events);
    RunReplaysStatements(c, events);
    assert RoundOk(w, user) && WordMoved(r.baseStatements, w.statements, user, r.answered, word);
    var base, now := StatementsOf(r.baseStatements, (user, word)), StatementsOf(w.statements, (user, word));
    assert D.Lookup(w.statuses, (user, word)) == D.Replay(now);
    RowMovesByAnswers(base, now, r.answered, word);
  }

  lemma RowMovesByAnswers(base: seq<D.Event>, now: seq<D.Event>, answered: seq<Answered>, word: int)
    requires base <= now && D.Answers(now[|base|..]) == AnswersTo(answered, word) && NoWordAnsweredTwice(answered)
    ensures D.Replay(base).Some? && (forall k | |base| <= k < |now| :: !now[k].Delete?) ==>
              && D.Replay(now).Some?
              && var was, row := D.Replay(base).value, D.Replay(now).value;
                 && row.correctTotal == was.correctTotal + Unit(Answered(word, true) in answered)
                 && row.wrongTotal == was.wrongTotal + Unit(Answered(word, false) in answered)
  {
    AnswersToOnce(answered, word);
    if D.Replay(base).Some? && forall k | |base| <= k < |now| :: !now[k].Delete? {
      D.TotalsMove(base, now[|base|..]);
      assert base + now[|base|..] == now;
    }
  }
}
