/** Button presses of one user whose handlers overlap (`handlers/study.go`). The messenger may
    deliver a second press while the first is still handled; the quiz locks each of its calls
    (`session/quiz.go`), but not a whole press. Here every press is split into its session calls
    and its statement on the word's status row, and any number of presses interleave. The call to
    the progress store in between touches no session; its own statements interleave in
    `Interleaving`. */
module Overlap {
  import opened Options
  import D = Dictionary
  import Q = Quiz
  import S = Study

  datatype Config = Config(user: int, ttl: int)

  datatype Press =
    | Answer(word: int, option: int)
    | Skip
    | Delete(word: int)
    | Next
    | End
    | Start(deck: seq<Q.QuizCard>)

  /** The card a press took its snapshot of: which round it was in, and its place in the deck. */
  datatype Seen = Seen(round: nat, card: nat)

  /** Where a press stands. */
  datatype Phase =
    | Ready                                              // its first session call
    | Accepted(seen: Seen, right: bool)                  // the statement on the status row
    | Moving(seen: Seen, right: bool, mastered: bool)    // `RecordAnswer` or `RecordSkip`
    | Looking                                            // a look that may find the deck done
    | Ending                                             // `End`
    | Over

  datatype Thread = Thread(press: Press, phase: Phase)

  /** A press acted on a card. */
  datatype Claim = Claim(press: nat, seen: Seen)

  /** The user's session and status rows by word. For the proofs: the decks of the rounds begun so
      far, the cards skipped in the latest one, the status writes of answers, and the cards acted on
      by presses that have made their move. */
  datatype System = System(
    session: Option<Q.Entry>, rows: map<int, D.Row>, threads: seq<Thread>,
    decks: seq<seq<Q.QuizCard>>, skips: nat, writes: seq<Claim>, claims: seq<Claim>)

  // ----- the session calls, seen from one user -----

  function Swept(ttl: int, session: Option<Q.Entry>, now: int): Option<Q.Entry> {
    if session.Some? && Q.IsLive(session.value, ttl, now) then session else None
  }

  /** A call on the user's own session, if there is one. */
  function Call(ttl: int, session: Option<Q.Entry>, op: Q.Op): (Option<Q.Snapshot>, Option<Q.Entry>) {
    match op
    case Start(_, deck, now) => (None, Some(Q.Entry(Q.Snapshot(deck, 0, 0, 0, []), now)))
    case End(_, _) => (if session.Some? then Some(session.value.state) else None, None)
    case _ =>
      var live := Swept(ttl, session, op.now);
      if live.None? then (None, None) else (Some(Q.Touch(live.value, op).state), Some(Q.Touch(live.value, op)))
  }

  function Lookup(sessions: Q.Sessions, user: int): Option<Q.Entry> {
    if user in sessions then Some(sessions[user]) else None
  }

  /** That is what the call does to the user's entry of the shared map; everybody else's entry is at
      most swept. */
  lemma CallIsStep(ttl: int, sessions: Q.Sessions, op: Q.Op, other: int)
    ensures var (reply, now) := Q.Step(ttl, sessions, op);
            && (reply, Lookup(now, op.user)) == Call(ttl, Lookup(sessions, op.user), op)
            && (other != op.user ==>
                  || Lookup(now, other) == Lookup(sessions, other)
                  || Lookup(now, other) == Swept(ttl, Lookup(sessions, other), op.now))
  {
  }

  // ----- the steps of a press -----

  function Enter(sys: System, i: nat, phase: Phase): System
    requires i < |sys.threads|
  {
    sys.(threads := sys.threads[i := sys.threads[i].(phase := phase)])
  }

  /** What a press makes of the card it looked at. */
  function Judge(press: Press, s: Q.Snapshot, round: nat): Phase {
    if s.Done() then Looking
    else
      var card, seen := s.deck[s.cursor], Seen(round, s.cursor);
      match press
      case Answer(word, option) => if card.wordId == word then Accepted(seen, option == card.correctIndex) else Looking
      case Delete(word) => if card.wordId == word then Accepted(seen, false) else Looking
      case Skip => Moving(seen, false, false)
      case Next => if card.uiMode == Q.Poll then Moving(seen, false, false) else Looking
      case _ => Over
  }

  function Open(c: Config, sys: System, i: nat, now: int): System
    requires i < |sys.threads|
  {
    var live := Swept(c.ttl, sys.session, now);
    match sys.threads[i].press
    case Start(deck) =>
      Enter(sys.(session := Call(c.ttl, sys.session, Q.Start(c.user, deck, now)).1,
                 decks := sys.decks + [deck], skips := 0), i, Over)
    case End => Enter(sys.(session := live), i, Ending)
    case press =>
      Enter(sys.(session := live), i, if live.None? then Over else Judge(press, live.value.state, |sys.decks|))
  }

  /** The statement on the status row: the answer, or the deletion. */
  function Write(sys: System, i: nat, seen: Seen, right: bool): System
    requires i < |sys.threads|
  {
    match sys.threads[i].press
    case Answer(word, _) =>
      var row := if word in sys.rows then Some(sys.rows[word]) else None;
      var after := D.Apply(row, if right then D.Correct(Q.QUIZ_MASTERY_THRESHOLD) else D.Wrong);
      var mastered := right && after.Some? && after.value.status == D.Mastered;
      Enter(sys.(rows := if after.Some? then sys.rows[word := after.value] else sys.rows,
                 writes := sys.writes + [Claim(i, seen)]), i, Moving(seen, right, mastered))
    case Delete(word) => Enter(sys.(rows := sys.rows - {word}), i, Moving(seen, false, false))
    case _ => Enter(sys, i, Over)
  }

  /** `RecordAnswer` or `RecordSkip`: moves whichever card is current now. */
  function MoveOn(c: Config, sys: System, i: nat, now: int): System
    requires i < |sys.threads| && sys.threads[i].phase.Moving?
  {
    var Thread(press, Moving(seen, right, mastered)) := sys.threads[i];
    var op := if press.Answer? then Q.Answer(c.user, right, mastered, now) else Q.Skip(c.user, now);
    var live := Swept(c.ttl, sys.session, now);
    var skipped := !press.Answer? && live.Some? && !live.value.state.Done();
    Enter(sys.(session := Call(c.ttl, sys.session, op).1,
               skips := if skipped then sys.skips + 1 else sys.skips,
               claims := sys.claims + [Claim(i, seen)]),
          i, if press.Next? then Looking else Over)
  }

  function Execute(c: Config, sys: System, i: nat, now: int, fails: bool): System
    requires i < |sys.threads|
  {
    match sys.threads[i].phase
    case Ready => Open(c, sys, i, now)
    case Accepted(seen, right) => if fails then Enter(sys, i, Over) else Write(sys, i, seen, right)
    case Moving(_, _, _) => MoveOn(c, sys, i, now)
    case Looking =>
      var live := Swept(c.ttl, sys.session, now);
      Enter(sys.(session := live), i, if live.Some? && live.value.state.Done() then Ending else Over)
    case Ending => Enter(sys.(session := None), i, Over)
    case Over => sys
  }

  /** One step of the schedule: a press runs its next call or statement, which may fail if it is a
      statement, or another user's call sweeps. */
  datatype Move = Act(thread: nat, now: int, fails: bool) | Elsewhere(now: int)

  function Step(c: Config, sys: System, m: Move): System {
    match m
    case Act(i, now, fails) => if i < |sys.threads| then Execute(c, sys, i, now, fails) else sys
    case Elsewhere(now) => sys.(session := Swept(c.ttl, sys.session, now))
  }

  function Run(c: Config, sys: System, schedule: seq<Move>): System {
    if schedule == [] then sys
    else Step(c, Run(c, sys, schedule[..|schedule| - 1]), schedule[|schedule| - 1])
  }

  /** Every move of the schedule satisfies `ok` when its turn comes. */
  predicate Throughout(ok: (System, Move) -> bool, c: Config, sys: System, schedule: seq<Move>) {
    schedule == []
    || (var before := schedule[..|schedule| - 1];
        Throughout(ok, c, sys, before) && ok(Run(c, sys, before), schedule[|schedule| - 1]))
  }

  predicate Fresh(sys: System) {
    && sys.session.None? && sys.decks == [] && sys.writes == [] && sys.claims == []
    && forall i | 0 <= i < |sys.threads| :: sys.threads[i].phase == Ready
  }

  // ----- what every interleaving keeps -----

  /** The session shows the deck of the latest round, and every card passed is counted once. */
  ghost predicate CountersOk(sys: System) {
    sys.session.Some? ==>
      var s := sys.session.value.state;
      && sys.decks != [] && s.deck == sys.decks[|sys.decks| - 1]
      && s.cursor == s.correct + s.wrong + sys.skips <= |s.deck|
  }

  lemma OpenKeepsCounters(c: Config, sys: System, i: nat, now: int)
    requires CountersOk(sys) && i < |sys.threads|
    ensures CountersOk(Open(c, sys, i, now))
  {
  }

  lemma MoveKeepsCounters(c: Config, sys: System, i: nat, now: int)
    requires CountersOk(sys) && i < |sys.threads| && sys.threads[i].phase.Moving?
    ensures CountersOk(MoveOn(c, sys, i, now))
  {
  }

  lemma CountersStep(c: Config, sys: System, m: Move)
    requires CountersOk(sys)
    ensures CountersOk(Step(c, sys, m))
  {
    if m.Act? && m.thread < |sys.threads| {
      if sys.threads[m.thread].phase == Ready {
        OpenKeepsCounters(c, sys, m.thread, m.now);
      } else if sys.threads[m.thread].phase.Moving? {
        MoveKeepsCounters(c, sys, m.thread, m.now);
      }
    }
  }

  /** However presses overlap, and whatever expires or fails: the cursor is the number of right,
      wrong and skipped cards, and never passes the end of the deck. */
  lemma {:induction false} CountersSurviveOverlap(c: Config, sys: System, schedule: seq<Move>)
    requires CountersOk(sys)
    ensures CountersOk(Run(c, sys, schedule))
  {
    if schedule != [] {
      CountersSurviveOverlap(c, sys, schedule[..|schedule| - 1]);
      CountersStep(c, Run(c, sys, schedule[..|schedule| - 1]), schedule[|schedule| - 1]);
    }
  }

  function SeenOf(phase: Phase): Option<Seen> {
    match phase
    case Accepted(seen, _) => Some(seen)
    case Moving(seen, _, _) => Some(seen)
    case _ => None
  }

  /** A card that was there when it was seen, with the word that was pressed, and not ahead of the
      cursor if its round is still on. */
  ghost predicate SeenOk(sys: System, press: Press, seen: Seen) {
    && 1 <= seen.round <= |sys.decks|
    && var deck := sys.decks[seen.round - 1];
       && seen.card < |deck|
       && (press.Answer? || press.Delete? ==> deck[seen.card].wordId == press.word)
       && (sys.session.Some? && seen.round == |sys.decks| ==> seen.card <= sys.session.value.state.cursor)
  }

  ghost predicate ThreadsOk(sys: System) {
    forall i | 0 <= i < |sys.threads| && SeenOf(sys.threads[i].phase).Some? ::
      SeenOk(sys, sys.threads[i].press, SeenOf(sys.threads[i].phase).value)
  }

  /** Rounds are only added, and within a round the cursor only goes forward. */
  ghost predicate Advances(sys: System, now: System) {
    && sys.decks <= now.decks
    && (now.session.Some? && |now.decks| == |sys.decks| ==>
          sys.session.Some? && sys.session.value.state.cursor <= now.session.value.state.cursor)
  }

  lemma StepAdvances(c: Config, sys: System, m: Move)
    ensures Advances(sys, Step(c, sys, m))
  {
  }

  lemma SeenStillOk(sys: System, now: System, press: Press, seen: Seen)
    requires SeenOk(sys, press, seen) && Advances(sys, now)
    ensures SeenOk(now, press, seen)
  {
  }

  /** A press takes up only the current card, and an answer or a deletion only its own word. */
  lemma JudgedCard(press: Press, s: Q.Snapshot, round: nat)
    ensures var seen := SeenOf(Judge(press, s, round));
            seen.Some? ==> !s.Done() && seen.value == Seen(round, s.cursor)
                           && (press.Answer? || press.Delete? ==> s.deck[s.cursor].wordId == press.word)
  {
  }

  /** A press keeps the card it saw until it is over, and a new one saw the current card. */
  lemma PhaseStep(c: Config, sys: System, i: nat, now: int, fails: bool)
    requires CountersOk(sys) && i < |sys.threads|
    ensures var next := Execute(c, sys, i, now, fails);
            && |next.threads| == |sys.threads| && next.threads[i].press == sys.threads[i].press
            && (forall j | 0 <= j < |sys.threads| && j != i :: next.threads[j] == sys.threads[j])
            && (SeenOf(next.threads[i].phase).Some? ==>
                  || SeenOf(next.threads[i].phase) == SeenOf(sys.threads[i].phase)
                  || (SeenOk(next, sys.threads[i].press, SeenOf(next.threads[i].phase).value)
                      && SeenOf(next.threads[i].phase).value.round == |sys.decks|))
  {
    if sys.threads[i].phase == Ready && Swept(c.ttl, sys.session, now).Some? {
      JudgedCard(sys.threads[i].press, sys.session.value.state, |sys.decks|);
    }
  }

  lemma ThreadsStep(c: Config, sys: System, m: Move)
    requires CountersOk(sys) && ThreadsOk(sys)
    ensures ThreadsOk(Step(c, sys, m))
  {
    var now := Step(c, sys, m);
    StepAdvances(c, sys, m);
    if m.Act? && m.thread < |sys.threads| {
      PhaseStep(c, sys, m.thread, m.now, m.fails);
    }
    forall i | 0 <= i < |now.threads| && SeenOf(now.threads[i].phase).Some?
      ensures SeenOk(now, now.threads[i].press, SeenOf(now.threads[i].phase).value)
    {
      if SeenOf(now.threads[i].phase) == SeenOf(sys.threads[i].phase) {
        SeenStillOk(sys, now, sys.threads[i].press, SeenOf(sys.threads[i].phase).value);
      }
    }
  }

  // ----- when no card is acted on twice -----

  ghost predicate NoCardTwice(claims: seq<Claim>) {
    forall i, j | 0 <= i < j < |claims| :: claims[i].seen != claims[j].seen
  }

  ghost predicate IsClaimed(claims: seq<Claim>, seen: Seen) {
    exists k :: 0 <= k < |claims| && claims[k].seen == seen
  }

  /** The press finds its session as it saw it: still there, in that round and on that card. */
  function FindsOwnCard(c: Config): (System, Move) -> bool {
    (sys: System, m: Move) =>
      m.Act? && m.thread < |sys.threads| && sys.threads[m.thread].phase.Moving? ==>
        var live := Swept(c.ttl, sys.session, m.now);
        live.Some? && sys.threads[m.thread].phase.seen == Seen(|sys.decks|, live.value.state.cursor)
  }

  /** No card was acted on twice, and in the round that is on exactly the cards passed were. */
  ghost predicate Orderly(sys: System) {
    && NoCardTwice(sys.claims)
    && (forall k | 0 <= k < |sys.claims| :: sys.claims[k].seen.round <= |sys.decks|)
    && (sys.session.Some? ==>
          forall card: nat :: IsClaimed(sys.claims, Seen(|sys.decks|, card)) <==> card < sys.session.value.state.cursor)
  }

  lemma ClaimedMore(claims: seq<Claim>, claim: Claim)
    ensures forall seen :: IsClaimed(claims + [claim], seen) <==> IsClaimed(claims, seen) || seen == claim.seen
    ensures NoCardTwice(claims + [claim]) <==> NoCardTwice(claims) && !IsClaimed(claims, claim.seen)
  {
    var more := claims + [claim];
    assert more[|claims|] == claim;
    assert forall k | 0 <= k < |claims| :: more[k] == claims[k];
    if IsClaimed(claims, claim.seen) {
      var k :| 0 <= k < |claims| && claims[k].seen == claim.seen;
      assert more[k].seen == more[|claims|].seen;
    }
    forall seen
      ensures IsClaimed(more, seen) <==> IsClaimed(claims, seen) || seen == claim.seen
    {
      if IsClaimed(claims, seen) {
        var k :| 0 <= k < |claims| && claims[k].seen == seen;
        assert more[k].seen == seen;
      }
    }
  }

  /** A step that is no move on a card leaves the claims and, within a round, the cursor alone. */
  predicate IsMove(sys: System, m: Move) {
    m.Act? && m.thread < |sys.threads| && sys.threads[m.thread].phase.Moving?
  }

  lemma OtherStep(c: Config, sys: System, m: Move)
    requires !IsMove(sys, m)
    ensures var now := Step(c, sys, m);
            && now.claims == sys.claims
            && (now.session.Some? && |now.decks| == |sys.decks| ==>
                  sys.session.Some? && now.session.value.state == sys.session.value.state)
            && (|now.decks| != |sys.decks| ==>
                  |now.decks| == |sys.decks| + 1 && now.session.Some? && now.session.value.state.cursor == 0)
  {
  }

  /** A move adds one claim; if it found its own card, the cursor passes that card. */
  lemma MoveStep(c: Config, sys: System, m: Move)
    requires IsMove(sys, m) && CountersOk(sys) && ThreadsOk(sys)
    ensures var now, seen := Step(c, sys, m), sys.threads[m.thread].phase.seen;
            && now.claims == sys.claims + [Claim(m.thread, seen)] && now.decks == sys.decks
            && (FindsOwnCard(c)(sys, m) ==>
                  && now.session.Some? && sys.session.Some?
                  && seen == Seen(|sys.decks|, sys.session.value.state.cursor)
                  && now.session.value.state.cursor == sys.session.value.state.cursor + 1)
  {
    var seen := sys.threads[m.thread].phase.seen;
    assert SeenOk(sys, sys.threads[m.thread].press, seen);
  }

  lemma OrderlyStep(c: Config, sys: System, m: Move)
    requires CountersOk(sys) && ThreadsOk(sys) && Orderly(sys) && FindsOwnCard(c)(sys, m)
    ensures Orderly(Step(c, sys, m))
  {
    var now := Step(c, sys, m);
    if IsMove(sys, m) {
      MoveStep(c, sys, m);
      ClaimedMore(sys.claims, Claim(m.thread, sys.threads[m.thread].phase.seen));
    } else {
      OtherStep(c, sys, m);
      if |now.decks| != |sys.decks| {
        forall card: nat
          ensures !IsClaimed(sys.claims, Seen(|now.decks|, card))
        {
        }
      }
    }
  }

  /** If every press finds its own card when it moves, no card is acted on twice in any round, and
      the cards passed are exactly those acted on; through starts, ends and expiries. */
  lemma {:induction false} OwnCardsOnly(c: Config, sys: System, schedule: seq<Move>)
    requires Fresh(sys) && Throughout(FindsOwnCard(c), c, sys, schedule)
    ensures var now := Run(c, sys, schedule);
            CountersOk(now) && ThreadsOk(now) && Orderly(now)
  {
    if schedule != [] {
      var before, m := schedule[..|schedule| - 1], schedule[|schedule| - 1];
      OwnCardsOnly(c, sys, before);
      CountersStep(c, Run(c, sys, before), m);
      ThreadsStep(c, Run(c, sys, before), m);
      OrderlyStep(c, Run(c, sys, before), m);
    }
  }

  // ----- one round -----

  /** A round has just begun, and no press on it yet. */
  ghost predicate Opened(sys: System) {
    && CountersOk(sys) && sys.session.Some? && sys.session.value.state.cursor == 0
    && sys.writes == [] && sys.claims == []
    && forall i | 0 <= i < |sys.threads| :: sys.threads[i].phase == Ready
  }

  /** The round is neither ended nor replaced, and does not expire. */
  predicate StaysOpen(c: Config, sys: System, schedule: seq<Move>) {
    schedule == []
    || (var now := Run(c, sys, schedule);
        StaysOpen(c, sys, schedule[..|schedule| - 1]) && now.session.Some? && |now.decks| == |sys.decks|)
  }

  ghost predicate SeenInRound(sys: System) {
    forall i | 0 <= i < |sys.threads| && SeenOf(sys.threads[i].phase).Some? ::
      SeenOf(sys.threads[i].phase).value.round == |sys.decks|
  }

  lemma SeenInRoundStep(c: Config, sys: System, m: Move)
    requires CountersOk(sys) && SeenInRound(sys) && |Step(c, sys, m).decks| == |sys.decks|
    ensures SeenInRound(Step(c, sys, m))
  {
    if m.Act? && m.thread < |sys.threads| {
      PhaseStep(c, sys, m.thread, m.now, m.fails);
    }
  }

  /** In a round that stays open a press that does not find its own card is late: that card has
      been passed. */
  lemma LateMove(c: Config, sys: System, m: Move)
    requires IsMove(sys, m) && ThreadsOk(sys) && SeenInRound(sys) && Step(c, sys, m).session.Some?
    ensures sys.session.Some?
    ensures var seen := sys.threads[m.thread].phase.seen;
            && seen.round == |sys.decks| && seen.card <= sys.session.value.state.cursor
            && (FindsOwnCard(c)(sys, m) <==> seen.card == sys.session.value.state.cursor)
  {
    assert SeenOk(sys, sys.threads[m.thread].press, sys.threads[m.thread].phase.seen);
  }

  /** Exactly when no card of a round is acted on twice, however the presses overlap: every press
      must find the session on the card it saw, that is, no other press may move it in between. */
  lemma {:induction false} CardsOnceIff(c: Config, sys: System, schedule: seq<Move>)
    requires Opened(sys) && StaysOpen(c, sys, schedule)
    ensures var now := Run(c, sys, schedule);
            && CountersOk(now) && ThreadsOk(now) && SeenInRound(now)
            && |now.decks| == |sys.decks| && now.session.Some?
            && (Throughout(FindsOwnCard(c), c, sys, schedule) ==> Orderly(now))
            && (NoCardTwice(now.claims) <==> Throughout(FindsOwnCard(c), c, sys, schedule))
  {
    if schedule != [] {
      var before, m := schedule[..|schedule| - 1], schedule[|schedule| - 1];
      CardsOnceIff(c, sys, before);
      var was := Run(c, sys, before);
      CountersStep(c, was, m);
      ThreadsStep(c, was, m);
      SeenInRoundStep(c, was, m);
      if IsMove(was, m) {
        MoveStep(c, was, m);
        LateMove(c, was, m);
        ClaimedMore(was.claims, Claim(m.thread, was.threads[m.thread].phase.seen));
      } else {
        OtherStep(c, was, m);
      }
      if Throughout(FindsOwnCard(c), c, sys, schedule) {
        OrderlyStep(c, was, m);
      }
    }
  }

  // ----- the answers written -----

  /** The claim is a write of an answer to that word, and its press has made or will make its move. */
  ghost predicate WriteOk(sys: System, w: Claim) {
    && w.press < |sys.threads| && sys.threads[w.press].press.Answer?
    && 1 <= w.seen.round <= |sys.decks| && w.seen.card < |sys.decks[w.seen.round - 1]|
    && sys.decks[w.seen.round - 1][w.seen.card].wordId == sys.threads[w.press].press.word
    && (if sys.threads[w.press].phase.Moving? then sys.threads[w.press].phase.seen == w.seen
        else sys.threads[w.press].phase == Over && w in sys.claims)
  }

  /** A press that has made its move; an answer wrote before. */
  ghost predicate ClaimOk(sys: System, w: Claim) {
    && w.press < |sys.threads| && sys.threads[w.press].phase in {Looking, Ending, Over}
    && (sys.threads[w.press].press.Answer? ==> w in sys.writes)
  }

  ghost predicate NoPressTwice(claims: seq<Claim>) {
    forall i, j | 0 <= i < j < |claims| :: claims[i].press != claims[j].press
  }

  ghost predicate WritesOk(sys: System) {
    && NoPressTwice(sys.writes) && NoPressTwice(sys.claims)
    && (forall k | 0 <= k < |sys.writes| :: WriteOk(sys, sys.writes[k]))
    && (forall k | 0 <= k < |sys.claims| :: ClaimOk(sys, sys.claims[k]))
    && (forall i | 0 <= i < |sys.threads| && sys.threads[i].press.Answer? && sys.threads[i].phase.Moving? ::
          Claim(i, sys.threads[i].phase.seen) in sys.writes)
  }

  /** The press writes its answer; ... */
  ghost predicate Writes(sys: System, now: System, i: nat)
    requires i < |sys.threads| == |now.threads|
  {
    var t, after := sys.threads[i], now.threads[i].phase;
    && t.press.Answer? && t.phase.Accepted? && after.Moving? && after.seen == t.phase.seen
    && now.writes == sys.writes + [Claim(i, t.phase.seen)] && now.claims == sys.claims
  }

  /** ... makes its move; ... */
  ghost predicate Claims(sys: System, now: System, i: nat)
    requires i < |sys.threads| == |now.threads|
  {
    var t, after := sys.threads[i], now.threads[i].phase;
    && t.phase.Moving? && after == (if t.press.Next? then Looking else Over)
    && now.claims == sys.claims + [Claim(i, t.phase.seen)] && now.writes == sys.writes
  }

  /** ... or does neither. */
  ghost predicate Passes(sys: System, now: System, i: nat)
    requires i < |sys.threads| == |now.threads|
  {
    var t, after := sys.threads[i], now.threads[i].phase;
    && now.writes == sys.writes && now.claims == sys.claims
    && (t.phase in {Looking, Ending, Over} ==> after in {Looking, Ending, Over})
    && (t.phase == Over ==> after == Over)
    && !t.phase.Moving? && (t.press.Answer? ==> !after.Moving?)
  }

  lemma StepTraced(c: Config, sys: System, i: nat, now: int, fails: bool)
    requires i < |sys.threads|
    ensures var next := Execute(c, sys, i, now, fails);
            && |next.threads| == |sys.threads| && next.threads[i].press == sys.threads[i].press
            && (forall j | 0 <= j < |sys.threads| && j != i :: next.threads[j] == sys.threads[j])
            && (Writes(sys, next, i) || Claims(sys, next, i) || Passes(sys, next, i))
  {
  }

  /** The presses of `writes` and `claims` are recorded in this order; one that is about to write
      or to move has no such record yet. */
  lemma NoRecordYet(sys: System, i: nat)
    requires WritesOk(sys) && i < |sys.threads|
    ensures sys.threads[i].phase.Accepted? ==> forall k | 0 <= k < |sys.writes| :: sys.writes[k].press != i
    ensures sys.threads[i].phase.Accepted? || sys.threads[i].phase.Moving? ==>
              forall k | 0 <= k < |sys.claims| :: sys.claims[k].press != i
  {
    forall k | 0 <= k < |sys.writes|
      ensures sys.threads[i].phase.Accepted? ==> sys.writes[k].press != i
    {
      assert WriteOk(sys, sys.writes[k]);
    }
    forall k | 0 <= k < |sys.claims|
      ensures sys.threads[i].phase.Accepted? || sys.threads[i].phase.Moving? ==> sys.claims[k].press != i
    {
      assert ClaimOk(sys, sys.claims[k]);
    }
  }

  lemma WriteStillOk(sys: System, now: System, i: nat, w: Claim)
    requires WriteOk(sys, w) && sys.decks <= now.decks && i < |sys.threads| == |now.threads|
    requires now.threads[i].press == sys.threads[i].press
    requires forall j | 0 <= j < |sys.threads| && j != i :: now.threads[j] == sys.threads[j]
    requires forall x | x in sys.claims :: x in now.claims
    requires Writes(sys, now, i) || Claims(sys, now, i) || Passes(sys, now, i)
    ensures WriteOk(now, w)
  {
    if w.press == i && Claims(sys, now, i) {
      assert now.claims[|sys.claims|] == w;
    }
  }

  lemma ClaimStillOk(sys: System, now: System, i: nat, w: Claim)
    requires ClaimOk(sys, w) && i < |sys.threads| == |now.threads|
    requires now.threads[i].press == sys.threads[i].press
    requires forall j | 0 <= j < |sys.threads| && j != i :: now.threads[j] == sys.threads[j]
    requires forall x | x in sys.writes :: x in now.writes
    requires Writes(sys, now, i) || Claims(sys, now, i) || Passes(sys, now, i)
    ensures ClaimOk(now, w)
  {
  }

  lemma WritesStep(c: Config, sys: System, m: Move)
    requires CountersOk(sys) && ThreadsOk(sys) && WritesOk(sys)
    ensures WritesOk(Step(c, sys, m))
  {
    if m.Act? && m.thread < |sys.threads| {
      var i, now := m.thread, Step(c, sys, m);
      StepTraced(c, sys, i, m.now, m.fails);
      StepAdvances(c, sys, m);
      NoRecordYet(sys, i);
      if Writes(sys, now, i) {
        assert SeenOk(sys, sys.threads[i].press, sys.threads[i].phase.seen);
        assert now.writes[|sys.writes|] == Claim(i, sys.threads[i].phase.seen);
      }
      forall k | 0 <= k < |now.writes|
        ensures WriteOk(now, now.writes[k])
      {
        if k < |sys.writes| { WriteStillOk(sys, now, i, sys.writes[k]); }
      }
      forall k | 0 <= k < |now.claims|
        ensures ClaimOk(now, now.claims[k])
      {
        if k < |sys.claims| { ClaimStillOk(sys, now, i, sys.claims[k]); }
      }
    }
  }

  lemma {:induction false} WritesOkAlways(c: Config, sys: System, schedule: seq<Move>)
    requires CountersOk(sys) && sys.writes == [] && sys.claims == []
    requires forall i | 0 <= i < |sys.threads| :: sys.threads[i].phase == Ready
    ensures var now := Run(c, sys, schedule); CountersOk(now) && ThreadsOk(now) && WritesOk(now)
  {
    if schedule != [] {
      var before, m := schedule[..|schedule| - 1], schedule[|schedule| - 1];
      WritesOkAlways(c, sys, before);
      CountersStep(c, Run(c, sys, before), m);
      ThreadsStep(c, Run(c, sys, before), m);
      WritesStep(c, Run(c, sys, before), m);
    }
  }

  /** No press is between its statement and its move. */
  predicate Settled(sys: System) {
    forall i | 0 <= i < |sys.threads| :: !sys.threads[i].phase.Moving?
  }

  ghost predicate DecksOk(sys: System) {
    forall r | 0 <= r < |sys.decks| :: Q.NoWordTwice(sys.decks[r])
  }

  /** Two answers to the same word written in the same round. */
  ghost predicate SameWord(sys: System, a: Claim, b: Claim)
    requires WriteOk(sys, a) && WriteOk(sys, b)
  {
    a.seen.round == b.seen.round && sys.threads[a.press].press.word == sys.threads[b.press].press.word
  }

  ghost predicate NoWordTwice(sys: System)
    requires WritesOk(sys)
  {
    forall i, j | 0 <= i < j < |sys.writes| :: !SameWord(sys, sys.writes[i], sys.writes[j])
  }

  /** A deck without repetitions shows the same word only at the same place. */
  lemma SameWordSameCard(sys: System, a: Claim, b: Claim)
    requires WriteOk(sys, a) && WriteOk(sys, b) && DecksOk(sys)
    ensures SameWord(sys, a, b) <==> a.seen == b.seen
  {
    assert Q.NoWordTwice(sys.decks[a.seen.round - 1]);
  }

  /** Of settled presses, two writes to one word are two claims on one card. */
  lemma DoubleWriteIsDoubleClaim(sys: System, i: nat, j: nat)
    requires WritesOk(sys) && DecksOk(sys) && Settled(sys) && NoCardTwice(sys.claims)
    requires i < j < |sys.writes|
    ensures !SameWord(sys, sys.writes[i], sys.writes[j])
  {
    var a, b := sys.writes[i], sys.writes[j];
    assert WriteOk(sys, a) && WriteOk(sys, b);
    var k :| 0 <= k < |sys.claims| && sys.claims[k] == a;
    var l :| 0 <= l < |sys.claims| && sys.claims[l] == b;
    assert a.press != b.press;
    SameWordSameCard(sys, a, b);
  }

  /** If every press finds its own card when it moves, no word is answered twice in a round, once the
      presses are settled; through starts, ends and expiries. */
  lemma OwnCardsAnswerOnce(c: Config, sys: System, schedule: seq<Move>)
    requires Fresh(sys) && Throughout(FindsOwnCard(c), c, sys, schedule)
    requires Settled(Run(c, sys, schedule)) && DecksOk(Run(c, sys, schedule))
    ensures WritesOk(Run(c, sys, schedule)) && NoWordTwice(Run(c, sys, schedule))
  {
    var now := Run(c, sys, schedule);
    OwnCardsOnly(c, sys, schedule);
    WritesOkAlways(c, sys, schedule);
    forall i, j | 0 <= i < j < |now.writes|
      ensures !SameWord(now, now.writes[i], now.writes[j])
    {
      DoubleWriteIsDoubleClaim(now, i, j);
    }
  }

  /** In a round of overlapping answers that stays open: no word is answered twice exactly if no
      other press moves the session between an answer's look and its own move. */
  lemma AnsweredOnceIff(c: Config, sys: System, schedule: seq<Move>)
    requires Opened(sys) && StaysOpen(c, sys, schedule)
    requires forall i | 0 <= i < |sys.threads| :: sys.threads[i].press.Answer?
    requires Settled(Run(c, sys, schedule)) && DecksOk(Run(c, sys, schedule))
    ensures WritesOk(Run(c, sys, schedule))
    ensures NoWordTwice(Run(c, sys, schedule)) <==> Throughout(FindsOwnCard(c), c, sys, schedule)
  {
    var now := Run(c, sys, schedule);
    CardsOnceIff(c, sys, schedule);
    WritesOkAlways(c, sys, schedule);
    PressesStay(c, sys, schedule);
    if NoCardTwice(now.claims) {
      forall i, j | 0 <= i < j < |now.writes|
        ensures !SameWord(now, now.writes[i], now.writes[j])
      {
        DoubleWriteIsDoubleClaim(now, i, j);
      }
    } else {
      var i, j :| 0 <= i < j < |now.claims| && now.claims[i].seen == now.claims[j].seen;
      DoubleClaimIsDoubleWrite(now, i, j);
    }
  }

  lemma {:induction false} PressesStay(c: Config, sys: System, schedule: seq<Move>)
    ensures var now := Run(c, sys, schedule);
            |now.threads| == |sys.threads|
            && forall i | 0 <= i < |sys.threads| :: now.threads[i].press == sys.threads[i].press
  {
    if schedule != [] {
      var before, m := schedule[..|schedule| - 1], schedule[|schedule| - 1];
      PressesStay(c, sys, before);
      if m.Act? && m.thread < |sys.threads| {
        StepTraced(c, Run(c, sys, before), m.thread, m.now, m.fails);
      }
    }
  }

  lemma DoubleClaimIsDoubleWrite(sys: System, i: nat, j: nat)
    requires WritesOk(sys) && DecksOk(sys) && i < j < |sys.claims| && sys.claims[i].seen == sys.claims[j].seen
    requires forall k | 0 <= k < |sys.threads| :: sys.threads[k].press.Answer?
    ensures !NoWordTwice(sys)
  {
    var a, b := sys.claims[i], sys.claims[j];
    assert ClaimOk(sys, a) && ClaimOk(sys, b);
    var k :| 0 <= k < |sys.writes| && sys.writes[k] == a;
    var l :| 0 <= l < |sys.writes| && sys.writes[l] == b;
    assert WriteOk(sys, sys.writes[k]) && WriteOk(sys, sys.writes[l]);
    assert k != l;
    SameWordSameCard(sys, sys.writes[k], sys.writes[l]);
    SameWordSameCard(sys, sys.writes[l], sys.writes[k]);
  }

  // ----- a double click -----

  /** One step of each of two presses in turn. */
  function Both(c: Config, sys: System): System {
    Step(c, Step(c, sys, Act(0, 0, false)), Act(1, 0, false))
  }

  function Turns(): seq<Move> {
    [Act(0, 0, false)] + [Act(1, 0, false)]
  }

  lemma RunOnce(c: Config, sys: System, schedule: seq<Move>, m: Move)
    ensures Run(c, sys, schedule + [m]) == Step(c, Run(c, sys, schedule), m)
  {
    assert (schedule + [m])[..|schedule|] == schedule;
  }

  lemma RunBoth(c: Config, sys: System, schedule: seq<Move>)
    ensures Run(c, sys, schedule + Turns()) == Both(c, Run(c, sys, schedule))
  {
    var a, b := [Act(0, 0, false)], [Act(1, 0, false)];
    RunOnce(c, sys, schedule, a[0]);
    RunOnce(c, sys, schedule + a, b[0]);
    assert schedule + (a + b) == (schedule + a) + b;
  }

  /** A card on which two presses of the right answer are at work, each in the given phase. */
  function Clicked(session: Q.Snapshot, row: D.Row, phase: Phase, writes: seq<Claim>, claims: seq<Claim>): System
    requires |session.deck| == 2
  {
    var card := session.deck[0];
    var t := Thread(Answer(card.wordId, card.correctIndex), phase);
    System(Some(Q.Entry(session, 0)), map[card.wordId := row], [t, t], [session.deck], 0, writes, claims)
  }

  lemma BothLook(c: Config, s: Q.Snapshot, row: D.Row)
    requires c.ttl <= 0 && |s.deck| == 2 && s.cursor == 0
    ensures Both(c, Clicked(s, row, Ready, [], [])) == Clicked(s, row, Accepted(Seen(1, 0), true), [], [])
  {
  }

  lemma BothWrite(c: Config, s: Q.Snapshot, row: D.Row)
    requires |s.deck| == 2
    ensures var now := Both(c, Clicked(s, row, Accepted(Seen(1, 0), true), [], []));
            && s.deck[0].wordId in now.rows
            && now.rows[s.deck[0].wordId].correctTotal == row.correctTotal + 2
            && now.session == Some(Q.Entry(s, 0)) && |now.threads| == 2
            && (forall i | 0 <= i < 2 ::
                  now.threads[i].press.Answer? && now.threads[i].phase.Moving? && now.threads[i].phase.right)
  {
  }

  lemma BothMove(c: Config, sys: System)
    requires c.ttl <= 0 && sys.session.Some? && |sys.threads| == 2
    requires sys.session.value.state.cursor + 2 == |sys.session.value.state.deck|
    requires forall i | 0 <= i < 2 ::
               sys.threads[i].press.Answer? && sys.threads[i].phase.Moving? && sys.threads[i].phase.right
    ensures var now, s := Both(c, sys), sys.session.value.state;
            && now.rows == sys.rows && now.session.Some?
            && now.session.value.state.Done()
            && now.session.value.state.correct == s.correct + 2
  {
  }

  /** A right answer clicked twice, the second handler looking before the first one has moved: the
      word is counted twice, and the next card, which is the last here, is passed as answered right
      without having been shown. */
  lemma CrossedDoubleClick(c: Config, deck: seq<Q.QuizCard>, row: D.Row)
    requires c.ttl <= 0 && |deck| == 2
    ensures var sys := Clicked(Q.Snapshot(deck, 0, 0, 0, []), row, Ready, [], []);
            var now := Run(c, sys, Turns() + Turns() + Turns());
            && Opened(sys)
            && deck[0].wordId in now.rows && now.rows[deck[0].wordId].correctTotal == row.correctTotal + 2
            && now.session.Some? && now.session.value.state.Done() && now.session.value.state.correct == 2
  {
    var s := Q.Snapshot(deck, 0, 0, 0, []);
    var sys := Clicked(s, row, Ready, [], []);
    var turns := Turns();
    RunBoth(c, sys, []);
    RunBoth(c, sys, turns);
    RunBoth(c, sys, turns + turns);
    assert [] + turns == turns;
    BothLook(c, s, row);
    BothWrite(c, s, row);
    BothMove(c, Both(c, Both(c, sys)));
  }

  // ----- one press alone -----

  /** The user's part of the stores of `Study`, as far as one word goes. */
  ghost predicate Agrees(sys: System, w: S.World, user: int, word: int) {
    && sys.session == Lookup(w.sessions, user)
    && RowOf(sys, word) == D.Lookup(w.statuses, (user, word))
  }

  lemma LookAlone(c: Config, sys: System, now: int)
    requires |sys.threads| == 1 && sys.threads[0].press.Answer? && sys.threads[0].phase == Ready
    requires sys.session.Some? && Q.IsLive(sys.session.value, c.ttl, now)
    requires var s := sys.session.value.state;
             s.cursor < |s.deck| && s.deck[s.cursor].wordId == sys.threads[0].press.word
    ensures var s := sys.session.value.state;
            var right := sys.threads[0].press.option == s.deck[s.cursor].correctIndex;
            Step(c, sys, Act(0, now, false))
            == sys.(threads := [Thread(sys.threads[0].press, Accepted(Seen(|sys.decks|, s.cursor), right))])
  {
  }

  lemma WriteAlone(c: Config, sys: System, seen: Seen, right: bool)
    requires |sys.threads| == 1 && sys.threads[0].press.Answer? && sys.threads[0].phase == Accepted(seen, right)
    ensures var word := sys.threads[0].press.word;
            var was := if word in sys.rows then Some(sys.rows[word]) else None;
            var row := D.Apply(was, if right then D.Correct(3) else D.Wrong);
            var now := Step(c, sys, Act(0, 0, false));
            && now.session == sys.session
            && (if word in now.rows then Some(now.rows[word]) else None) == row
            && now.threads == [Thread(sys.threads[0].press,
                                      Moving(seen, right, right && row.Some? && row.value.status == D.Mastered))]
  {
  }

  lemma MoveAlone(c: Config, sys: System, now: int)
    requires |sys.threads| == 1 && sys.threads[0].press.Answer? && sys.threads[0].phase.Moving?
    requires sys.session.Some? && sys.session.value.state.cursor < |sys.session.value.state.deck|
    ensures var s, phase := sys.session.value.state, sys.threads[0].phase;
            var after := Step(c, sys, Act(0, now, false));
            && after.rows == sys.rows
            && after.session
               == if !Q.IsLive(sys.session.value, c.ttl, now) then None
                  else Some(Q.Entry(Q.Snapshot(s.deck, s.cursor + 1,
                                               if phase.right then s.correct + 1 else s.correct,
                                               if phase.right then s.wrong else s.wrong + 1,
                                               if phase.right && phase.mastered
                                               then s.mastered + [s.deck[s.cursor].lemmaText] else s.mastered), now))
  {
  }

  /** The three steps in a row. */
  function Alone(c: Config, sys: System, t0: int, t1: int): System {
    Step(c, Step(c, Step(c, sys, Act(0, t0, false)), Act(0, 0, false)), Act(0, t1, false))
  }

  /** An answered session, if it is still live. */
  function AfterAnswer(ttl: int, e: Q.Entry, right: bool, mastered: bool, now: int): Option<Q.Entry>
    requires e.state.cursor < |e.state.deck|
  {
    var s := e.state;
    if !Q.IsLive(e, ttl, now) then None
    else Some(Q.Entry(Q.Snapshot(s.deck, s.cursor + 1,
                                 if right then s.correct + 1 else s.correct, if right then s.wrong else s.wrong + 1,
                                 if right && mastered then s.mastered + [s.deck[s.cursor].lemmaText] else s.mastered),
                      now))
  }

  function RowOf(sys: System, word: int): Option<D.Row> {
    if word in sys.rows then Some(sys.rows[word]) else None
  }

  lemma AloneSteps(c: Config, sys: System, t0: int, t1: int)
    requires |sys.threads| == 1 && sys.threads[0].press.Answer? && sys.threads[0].phase == Ready
    requires sys.session.Some? && Q.IsLive(sys.session.value, c.ttl, t0)
    requires var s := sys.session.value.state;
             s.cursor < |s.deck| && s.deck[s.cursor].wordId == sys.threads[0].press.word
    ensures var s, word := sys.session.value.state, sys.threads[0].press.word;
            var right := sys.threads[0].press.option == s.deck[s.cursor].correctIndex;
            var row := D.Apply(RowOf(sys, word), if right then D.Correct(3) else D.Wrong);
            var moved := Alone(c, sys, t0, t1);
            && RowOf(moved, word) == row
            && moved.session
               == AfterAnswer(c.ttl, sys.session.value, right, row.Some? && row.value.status == D.Mastered, t1)
  {
    var s := sys.session.value.state;
    LookAlone(c, sys, t0);
    var looked := Step(c, sys, Act(0, t0, false));
    WriteAlone(c, looked, Seen(|sys.decks|, s.cursor), sys.threads[0].press.option == s.deck[s.cursor].correctIndex);
    MoveAlone(c, Step(c, looked, Act(0, 0, false)), t1);
  }

  /** An answer whose three steps nothing comes between does to the session and the word's row what
      the press does that is handled as a whole. */
  lemma AloneIsHandled(c: S.Config, sys: System, w: S.World, user: int, word: int, option: int, env: S.Env)
    requires |sys.threads| == 1 && sys.threads[0] == Thread(Answer(word, option), Ready)
    requires Agrees(sys, w, user, word) && S.ShowsWord(c, w, user, word, env.t0) && !env.statusFails
    ensures Agrees(Alone(Config(user, c.ttl), sys, env.t0, env.t1),
                   S.AnswerCard(c, w, user, word, option, env), user, word)
  {
    AloneSteps(Config(user, c.ttl), sys, env.t0, env.t1);
    S.AnswerIsJudged(c, w, user, word, option, env);
    AgreesWithJudged(c, Alone(Config(user, c.ttl), sys, env.t0, env.t1), w,
                     S.AnswerCard(c, w, user, word, option, env), user, option, env);
  }

  /** What an answer makes of a row, column by column. */
  lemma RowOfApply(row: Option<D.Row>, right: bool)
    ensures var after := D.Apply(row, if right then D.Correct(3) else D.Wrong);
            && (after.Some? <==> row.Some?)
            && (row.Some? ==>
                  var r := row.value;
                  after.value == if right
                                 then D.Row(if r.correctStreak + 1 >= 3 then D.Mastered else r.status,
                                            r.correctStreak + 1, r.correctTotal + 1, r.wrongTotal)
                                 else D.Row(r.status, 0, r.correctTotal, r.wrongTotal + 1))
  {
  }

  lemma AgreesWithJudged(c: S.Config, moved: System, w: S.World, now: S.World, user: int, option: int, env: S.Env)
    requires S.ShowsCard(c, w, user, env.t0) && S.IsJudged(c, w, now, user, option, env)
    requires var s := w.sessions[user].state;
             var card, right := s.deck[s.cursor], option == s.deck[s.cursor].correctIndex;
             var row := D.Apply(D.Lookup(w.statuses, (user, card.wordId)), if right then D.Correct(3) else D.Wrong);
             && RowOf(moved, card.wordId) == row
             && moved.session
                == AfterAnswer(c.ttl, w.sessions[user], right, row.Some? && row.value.status == D.Mastered, env.t1)
    ensures Agrees(moved, now, user, w.sessions[user].state.deck[w.sessions[user].state.cursor].wordId)
  {
    var s := w.sessions[user].state;
    RowOfApply(D.Lookup(w.statuses, (user, s.deck[s.cursor].wordId)), option == s.deck[s.cursor].correctIndex);
  }
}
