/** The in-memory quiz sessions (`session/quiz.go`): one deck a user, a cursor that only moves
    forward, and a sweep of idle sessions at the start of every call but `End`. */
module Quiz {
  import opened Options

  const QUIZ_MASTERY_THRESHOLD: int := 3

  datatype Direction = ForeignToNative | NativeToForeign
  datatype UIMode = Inline | Poll

  datatype QuizCard = QuizCard(
    wordId: int, lemmaText: string, pos: string, ipa: string, translation: string,
    exampleTarget: string, exampleNative: string,
    direction: Direction, uiMode: UIMode, options: seq<string>, correctIndex: int)
  {
    function CorrectAnswer(): string {
      if direction == NativeToForeign then lemmaText else translation
    }
  }

  ghost predicate NoWordTwice(deck: seq<QuizCard>) {
    forall i, j | 0 <= i < j < |deck| :: deck[i].wordId != deck[j].wordId
  }

  datatype Snapshot = Snapshot(deck: seq<QuizCard>, cursor: nat, correct: nat, wrong: nat, mastered: seq<string>) {
    predicate Done() {
      cursor >= |deck|
    }
  }

  datatype Entry = Entry(state: Snapshot, updated: int)
  type Sessions = map<int, Entry>

  datatype Op =
    | Start(user: int, deck: seq<QuizCard>, now: int)
    | Look(user: int, now: int)
    | Answer(user: int, correct: bool, mastered: bool, now: int)
    | Skip(user: int, now: int)
    | End(user: int, now: int)

  /** A session idle for longer than the time to live is swept; without one nothing is. */
  predicate IsLive(e: Entry, ttl: int, now: int) {
    ttl <= 0 || e.updated >= now - ttl
  }

  function Sweep<K>(sessions: map<K, Entry>, ttl: int, now: int): map<K, Entry> {
    map u | u in sessions && IsLive(sessions[u], ttl, now) :: sessions[u]
  }

  /** The current card answered: the cursor moves on and exactly one counter does. */
  function Answered(s: Snapshot, correct: bool, mastered: bool): Snapshot {
    if s.Done() then s
    else s.(cursor := s.cursor + 1,
            correct := if correct then s.correct + 1 else s.correct,
            wrong := if correct then s.wrong else s.wrong + 1,
            mastered := if correct && mastered then s.mastered + [s.deck[s.cursor].lemmaText] else s.mastered)
  }

  function Skipped(s: Snapshot): Snapshot {
    if s.Done() then s else s.(cursor := s.cursor + 1)
  }

  /** What a call that finds a session does to it; moving the cursor refreshes the session. */
  function Touch(e: Entry, op: Op): Entry {
    match op
    case Answer(_, correct, mastered, now) =>
      if e.state.Done() then e else Entry(Answered(e.state, correct, mastered), now)
    case Skip(_, now) => if e.state.Done() then e else Entry(Skipped(e.state), now)
    case _ => e
  }

  /** One call: the snapshot it returns, if any, and the sessions afterwards. */
  function Step(ttl: int, sessions: Sessions, op: Op): (Option<Snapshot>, Sessions) {
    match op
    case Start(user, deck, now) =>
      (None, Sweep(sessions, ttl, now)[user := Entry(Snapshot(deck, 0, 0, 0, []), now)])
    case End(user, _) =>
      (if user in sessions then Some(sessions[user].state) else None, sessions - {user})
    case _ =>
      var live := Sweep(sessions, ttl, op.now);
      if op.user !in live then (None, live)
      else (Some(Touch(live[op.user], op).state), live[op.user := Touch(live[op.user], op)])
  }

  /** The loop of `gcLocked`: sessions are visited in no particular order and deleted when idle. */
  method SweepLoop<K(==)>(sessions: map<K, Entry>, ttl: int, now: int) returns (kept: map<K, Entry>)
    ensures kept == Sweep(sessions, ttl, now)
  {
    kept := sessions;
    if ttl <= 0 {
      return;
    }
    var cutoff := now - ttl;
    var left := sessions.Keys;
    while left != {}
      invariant left <= kept.Keys <= sessions.Keys
      invariant forall u | u in kept :: kept[u] == sessions[u]
      invariant forall u | u in sessions && u !in left :: u in kept <==> IsLive(sessions[u], ttl, now)
      decreases |left|
    {
      var u :| u in left;
      left := left - {u};
      if kept[u].updated < cutoff {
        kept := kept - {u};
      }
    }
  }

  class QuizSessions {
    var sessions: Sessions
    const ttl: int

    constructor (ttl: int)
      ensures sessions == map[] && this.ttl == ttl
    {
      sessions := map[];
      this.ttl := ttl;
    }

    method GcLocked(now: int)
      modifies this
      ensures sessions == Sweep(old(sessions), ttl, now)
    {
      sessions := SweepLoop(sessions, ttl, now);
    }

    method Start(user: int, deck: seq<QuizCard>, now: int)
      modifies this
      ensures sessions == Step(ttl, old(sessions), Op.Start(user, deck, now)).1
    {
      GcLocked(now);
      sessions := sessions[user := Entry(Snapshot(deck, 0, 0, 0, []), now)];
    }

    method Look(user: int, now: int) returns (found: Option<Snapshot>)
      modifies this
      ensures (found, sessions) == Step(ttl, old(sessions), Op.Look(user, now))
    {
      GcLocked(now);
      if user !in sessions {
        return None;
      }
      found := Some(sessions[user].state);
      assert sessions[user := sessions[user]] == sessions;
    }

    method RecordAnswer(user: int, correct: bool, mastered: bool, now: int) returns (found: Option<Snapshot>)
      modifies this
      ensures (found, sessions) == Step(ttl, old(sessions), Op.Answer(user, correct, mastered, now))
    {
      GcLocked(now);
      if user !in sessions {
        return None;
      }
      var s := sessions[user].state;
      if s.cursor >= |s.deck| {
        assert sessions[user := sessions[user]] == sessions;
        return Some(s);
      }
      if correct {
        s := s.(correct := s.correct + 1);
        if mastered {
          s := s.(mastered := s.mastered + [s.deck[s.cursor].lemmaText]);
        }
      } else {
        s := s.(wrong := s.wrong + 1);
      }
      s := s.(cursor := s.cursor + 1);
      sessions := sessions[user := Entry(s, now)];
      return Some(s);
    }

    method RecordSkip(user: int, now: int) returns (found: Option<Snapshot>)
      modifies this
      ensures (found, sessions) == Step(ttl, old(sessions), Op.Skip(user, now))
    {
      GcLocked(now);
      if user !in sessions {
        return None;
      }
      var s := sessions[user].state;
      if s.cursor < |s.deck| {
        s := s.(cursor := s.cursor + 1);
        sessions := sessions[user := Entry(s, now)];
      } else {
        assert sessions[user := sessions[user]] == sessions;
      }
      return Some(s);
    }

    method End(user: int, ghost now: int) returns (found: Option<Snapshot>)
      modifies this
      ensures (found, sessions) == Step(ttl, old(sessions), Op.End(user, now))
    {
      if user !in sessions {
        assert sessions - {user} == sessions;
        return None;
      }
      found := Some(sessions[user].state);
      sessions := sessions - {user};
    }
  }

  /** Starting a round and moving on in it keep the session alive for the time to live from then on,
      and no longer; a look does not. */
  lemma MovesRefresh(ttl: int, sessions: Sessions, op: Op, now: int)
    requires op.Start? || op.Answer? || op.Skip?
    requires op.Start? || (op.user in sessions && (ttl <= 0 || op.now - sessions[op.user].updated <= ttl)
                           && sessions[op.user].state.cursor < |sessions[op.user].state.deck|)
    ensures var found := Step(ttl, Step(ttl, sessions, op).1, Look(op.user, now)).0;
            found.Some? <==> ttl <= 0 || now - op.now <= ttl
  {
  }

  lemma LooksDoNotRefresh(ttl: int, sessions: Sessions, user: int, early: int, now: int)
    requires user in sessions && early <= now
    ensures var found := Step(ttl, Step(ttl, sessions, Look(user, early)).1, Look(user, now)).0;
            found == if ttl <= 0 || now - sessions[user].updated <= ttl then Some(sessions[user].state) else None
  {
  }

  /** What an answer and a skip do to the state of a session that is found unfinished. */
  lemma AnswerMovesState(ttl: int, sessions: Sessions, user: int, correct: bool, mastered: bool, now: int)
    requires user in sessions && (ttl <= 0 || now - sessions[user].updated <= ttl)
    requires sessions[user].state.cursor < |sessions[user].state.deck|
    ensures var s := sessions[user].state;
            && Step(ttl, sessions, Answer(user, correct, mastered, now)).0
               == Some(Snapshot(s.deck, s.cursor + 1,
                                if correct then s.correct + 1 else s.correct, if correct then s.wrong else s.wrong + 1,
                                if correct && mastered then s.mastered + [s.deck[s.cursor].lemmaText] else s.mastered))
            && Step(ttl, sessions, Skip(user, now)).0
               == Some(Snapshot(s.deck, s.cursor + 1, s.correct, s.wrong, s.mastered))
  {
  }

  /** The simple machine: nothing is ever swept, and every lookup checks the idle time itself. */
  function LazyStep(ttl: int, sessions: Sessions, op: Op): (Option<Snapshot>, Sessions) {
    var found := op.user in sessions && IsLive(sessions[op.user], ttl, op.now);
    match op
    case Start(user, deck, now) => (None, sessions[user := Entry(Snapshot(deck, 0, 0, 0, []), now)])
    case End(user, _) => (if found then Some(sessions[user].state) else None, sessions - {user})
    case _ =>
      if !found then (None, sessions)
      else (Some(Touch(sessions[op.user], op).state), sessions[op.user := Touch(sessions[op.user], op)])
  }

  function After(ttl: int, ops: seq<Op>): Sessions {
    if ops == [] then map[] else Step(ttl, After(ttl, ops[..|ops| - 1]), ops[|ops| - 1]).1
  }

  function LazyAfter(ttl: int, ops: seq<Op>): Sessions {
    if ops == [] then map[] else LazyStep(ttl, LazyAfter(ttl, ops[..|ops| - 1]), ops[|ops| - 1]).1
  }

  ghost predicate Steady(ops: seq<Op>) {
    forall i, j | 0 <= i < j < |ops| :: ops[i].now <= ops[j].now
  }

  lemma SweepTwice<K>(sessions: map<K, Entry>, ttl: int, early: int, late: int)
    requires early <= late
    ensures Sweep(Sweep(sessions, ttl, early), ttl, late) == Sweep(sessions, ttl, late)
  {
  }

  lemma StepsAgree(ttl: int, swept: Sessions, lazy: Sessions, op: Op)
    requires Sweep(swept, ttl, op.now) == Sweep(lazy, ttl, op.now)
    ensures Sweep(Step(ttl, swept, op).1, ttl, op.now) == Sweep(LazyStep(ttl, lazy, op).1, ttl, op.now)
    ensures !op.End? ==> Step(ttl, swept, op).0 == LazyStep(ttl, lazy, op).0
    ensures op.End? ==>
              (Step(ttl, swept, op).0 == LazyStep(ttl, lazy, op).0
               <==> (op.user in swept ==> IsLive(swept[op.user], ttl, op.now)))
  {
    var live := Sweep(lazy, ttl, op.now);
    assert forall u :: u in lazy && IsLive(lazy[u], ttl, op.now) <==> u in live;
    assert forall u :: u in swept && IsLive(swept[u], ttl, op.now) <==> u in live;
    assert Sweep(live, ttl, op.now) == live;
  }

  lemma {:induction false} SweptIsLazySwept(ttl: int, ops: seq<Op>, now: int)
    requires Steady(ops) && (ops != [] ==> ops[|ops| - 1].now <= now)
    ensures Sweep(After(ttl, ops), ttl, now) == Sweep(LazyAfter(ttl, ops), ttl, now)
    decreases |ops|
  {
    if ops != [] {
      var before, op := ops[..|ops| - 1], ops[|ops| - 1];
      SweptIsLazySwept(ttl, before, op.now);
      StepsAgree(ttl, After(ttl, before), LazyAfter(ttl, before), op);
      SweepTwice(After(ttl, ops), ttl, op.now, now);
      SweepTwice(LazyAfter(ttl, ops), ttl, op.now, now);
    }
  }

  /** Over any run of a steady clock, every call but `End` answers as if sessions were never swept
      and only looked at for their age; `End`, which does not sweep, does so exactly when the
      user's session is not an expired one that no other call has swept yet. */
  lemma SweepingIsUnobservableButByEnd(ttl: int, ops: seq<Op>, op: Op)
    requires Steady(ops) && (ops != [] ==> ops[|ops| - 1].now <= op.now)
    ensures var sessions := After(ttl, ops);
            Step(ttl, sessions, op).0 == LazyStep(ttl, LazyAfter(ttl, ops), op).0
            <==> (op.End? && op.user in sessions ==> IsLive(sessions[op.user], ttl, op.now))
  {
    SweptIsLazySwept(ttl, ops, op.now);
    StepsAgree(ttl, After(ttl, ops), LazyAfter(ttl, ops), op);
  }

  /** Another user's call decides whether an expired session can still be ended: with it the
      session is gone, without it the final snapshot comes back. */
  lemma EndSeesTheSweep(deck: seq<QuizCard>)
    ensures var start, look, end := Start(1, deck, 0), Look(2, 100), End(1, 100);
            && Step(10, After(10, [start]), end).0 == Some(Snapshot(deck, 0, 0, 0, []))
            && Step(10, After(10, [start, look]), end).0 == None
  {
    var start, look := Start(1, deck, 0), Look(2, 100);
    assert [start][..0] == [] && [start, look][..1] == [start];
    assert After(10, []) == map[];
    assert After(10, [start])[1] == Entry(Snapshot(deck, 0, 0, 0, []), 0);
  }
}
