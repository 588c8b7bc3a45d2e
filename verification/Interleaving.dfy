/** `RecordCorrect` is six separate SQL statements with no transaction around them
    (`progress/progress.go`). Here any number of calls for one user run statement by statement
    in any interleaving, and any statement may fail. */
module Interleaving {
  import opened Options
  import opened Progress

  datatype Job = CorrectJob(day: int, scoring: Scoring) | WrongJob(day: int) | RolloverJob(day: int)

  /** Where a call stands; each phase but the last two has one statement to run next. */
  datatype Phase =
    | Start                    // ensureRow of the call itself
    | Ensured                  // ensureRow inside RolloverIfNewDay
    | Rolling                  // the rollover UPDATE
    | Rolled                   // ensureRow inside Get
    | Reading                  // the SELECT
    | Writing(cur: Row)        // the final UPDATE, computed from the row that was read
    | Finished(result: Option<RecordResult>)
    | Failed

  datatype Thread = Thread(job: Job, phase: Phase)
  datatype System = System(row: Option<Row>, threads: seq<Thread>)

  function Ensure(row: Option<Row>): Option<Row> {
    if row.None? then Some(ZERO_ROW) else row
  }

  /** The next statement of a thread, when it does not fail. An UPDATE without a row hits nothing. */
  function Execute(row: Option<Row>, t: Thread): (Option<Row>, Phase) {
    match t.phase
    case Start => (Ensure(row), if t.job.RolloverJob? then Rolling else Ensured)
    case Ensured => (Ensure(row), Rolling)
    case Rolling =>
      (if row.None? then None else Some(Rollover(row.value, t.job.day)),
       if t.job.CorrectJob? then Rolled else Finished(None))
    case Rolled => (Ensure(row), Reading)
    case Reading => (row, if row.None? then Failed else Writing(row.value))
    case Writing(cur) =>
      if t.job.CorrectJob? then
        (if row.None? then None else Some(Write(row.value, cur, t.job.day, t.job.scoring)),
         Finished(Some(Score(cur, t.job.day, t.job.scoring))))
      else (row, t.phase)
    case Finished(_) => (row, t.phase)
    case Failed => (row, t.phase)
  }

  /** One step of the schedule: which thread moves, and whether its statement fails. */
  datatype Move = Move(thread: nat, fails: bool)

  function Step(sys: System, m: Move): (next: System)
    ensures |next.threads| == |sys.threads|
  {
    if m.thread >= |sys.threads| then sys
    else
      var t := sys.threads[m.thread];
      if m.fails then
        if t.phase.Finished? then sys else sys.(threads := sys.threads[m.thread := t.(phase := Failed)])
      else
        var (row, phase) := Execute(sys.row, t);
        System(row, sys.threads[m.thread := t.(phase := phase)])
  }

  function Run(sys: System, schedule: seq<Move>): (now: System)
    ensures |now.threads| == |sys.threads|
  {
    if schedule == [] then sys else Step(Run(sys, schedule[..|schedule| - 1]), schedule[|schedule| - 1])
  }

  predicate Fresh(sys: System) {
    forall i | 0 <= i < |sys.threads| :: sys.threads[i].phase == Start
  }

  function Gain(t: Thread): int {
    if t.phase.Finished? && t.phase.result.Some? then t.phase.result.value.xpGained else 0
  }

  /** The points the finished calls reported to their callers. */
  function Paid(threads: seq<Thread>): int {
    if threads == [] then 0 else Gain(threads[0]) + Paid(threads[1..])
  }

  function XP(row: Option<Row>): int {
    if row.None? then 0 else row.value.xpTotal
  }

  predicate StreakInOrder(r: Row) {
    r.dayStreak <= r.longestStreak
  }

  /** What holds between any two statements. */
  ghost predicate Consistent(sys: System) {
    && (sys.row.Some? ==> StreakInOrder(sys.row.value))
    && forall i | 0 <= i < |sys.threads| ::
         && (sys.threads[i].phase.Writing? ==> StreakInOrder(sys.threads[i].phase.cur))
         && (sys.threads[i].phase in {Ensured, Rolling, Rolled, Reading} || sys.threads[i].phase.Writing?
             ==> sys.row.Some?)
  }

  lemma {:induction false} PaidAfter(threads: seq<Thread>, i: nat, t: Thread)
    requires i < |threads|
    ensures Paid(threads[i := t]) == Paid(threads) - Gain(threads[i]) + Gain(t)
  {
    if i > 0 {
      PaidAfter(threads[1..], i - 1, t);
      assert threads[i := t][1..] == threads[1..][i - 1 := t];
    } else {
      assert threads[0 := t][1..] == threads[1..];
    }
  }

  lemma ExecuteKeeps(row: Option<Row>, t: Thread)
    requires row.Some? ==> StreakInOrder(row.value)
    requires t.phase.Writing? ==> row.Some? && StreakInOrder(t.phase.cur)
    requires t.phase in {Ensured, Rolling, Rolled, Reading} ==> row.Some?
    ensures var (after, phase) := Execute(row, t);
            && (row.Some? ==> after.Some?)
            && (after.Some? ==> StreakInOrder(after.value))
            && (phase.Writing? ==> StreakInOrder(phase.cur))
            && (phase in {Ensured, Rolling, Rolled, Reading} || phase.Writing? ==> after.Some?)
            && XP(after) - XP(row) == Gain(t.(phase := phase)) - Gain(t)
  {
  }

  lemma StepKeeps(sys: System, m: Move)
    requires Consistent(sys)
    ensures Consistent(Step(sys, m))
    ensures XP(Step(sys, m).row) - XP(sys.row) == Paid(Step(sys, m).threads) - Paid(sys.threads)
  {
    if m.thread < |sys.threads| {
      var t := sys.threads[m.thread];
      ExecuteKeeps(sys.row, t);
      PaidAfter(sys.threads, m.thread, t.(phase := Failed));
      PaidAfter(sys.threads, m.thread, t.(phase := Execute(sys.row, t).1));
    }
  }

  /** However the calls interleave and fail, the total grows by exactly the points reported to
      the callers, and the streak never exceeds the longest one, in every reachable state. */
  lemma {:induction false} EveryInterleavingKeepsXP(sys: System, schedule: seq<Move>)
    requires Fresh(sys) && (sys.row.Some? ==> StreakInOrder(sys.row.value))
    ensures var now := Run(sys, schedule);
            && XP(now.row) == XP(sys.row) + Paid(now.threads)
            && (now.row.Some? ==> StreakInOrder(now.row.value))
            && Consistent(now)
  {
    if schedule == [] {
      NothingPaidYet(sys.threads);
    } else {
      EveryInterleavingKeepsXP(sys, schedule[..|schedule| - 1]);
      StepKeeps(Run(sys, schedule[..|schedule| - 1]), schedule[|schedule| - 1]);
    }
  }

  lemma {:induction false} NothingPaidYet(threads: seq<Thread>)
    requires forall i | 0 <= i < |threads| :: threads[i].phase == Start
    ensures Paid(threads) == 0
  {
    if threads != [] { NothingPaidYet(threads[1..]); }
  }

  function Times(n: nat, m: Move): seq<Move> {
    if n == 0 then [] else Times(n - 1, m) + [m]
  }

  lemma RunOnce(sys: System, schedule: seq<Move>, m: Move)
    ensures Run(sys, schedule + [m]) == Step(Run(sys, schedule), m)
  {
    assert (schedule + [m])[..|schedule|] == schedule;
  }

  /** The row and the phase of call `i` after `n` statements of its own. */
  function Alone(sys: System, i: nat, n: nat): (Option<Row>, Phase)
    requires i < |sys.threads|
  {
    var now := Run(sys, Times(n, Move(i, false)));
    (now.row, now.threads[i].phase)
  }

  lemma {:induction false} AloneKeepsJob(sys: System, i: nat, n: nat)
    requires i < |sys.threads|
    ensures Run(sys, Times(n, Move(i, false))).threads[i].job == sys.threads[i].job
    ensures Alone(sys, i, n + 1)
            == Execute(Alone(sys, i, n).0, Thread(sys.threads[i].job, Alone(sys, i, n).1))
  {
    if n > 0 {
      AloneKeepsJob(sys, i, n - 1);
      RunOnce(sys, Times(n - 1, Move(i, false)), Move(i, false));
    }
    RunOnce(sys, Times(n, Move(i, false)), Move(i, false));
  }

  /** A call that runs its six statements undisturbed is the one atomic step on the row; the first
      five roll the row over and read it. */
  lemma AloneIsAtomic(sys: System, i: nat)
    requires i < |sys.threads| && sys.threads[i].phase == Start && sys.threads[i].job.CorrectJob?
    ensures var job := sys.threads[i].job;
            var r := Rollover(Ensure(sys.row).value, job.day);
            && Alone(sys, i, 5) == (Some(r), Writing(r))
            && Alone(sys, i, 6) == (Some(Write(r, r, job.day, job.scoring)),
                                    Finished(Some(Score(r, job.day, job.scoring))))
  {
    var job, at := sys.threads[i].job, (n: nat) => Alone(sys, i, n);
    forall n: nat
      ensures at(n + 1) == Execute(at(n).0, Thread(job, at(n).1))
    {
      AloneKeepsJob(sys, i, n);
    }
    SixStatements(at, job, sys.row);
  }

  lemma SixStatements(at: nat -> (Option<Row>, Phase), job: Job, row: Option<Row>)
    requires forall n: nat :: at(n + 1) == Execute(at(n).0, Thread(job, at(n).1))
    requires job.CorrectJob? && at(0) == (row, Start)
    ensures var r := Rollover(Ensure(row).value, job.day);
            && at(5) == (Some(r), Writing(r))
            && at(6) == (Some(Write(r, r, job.day, job.scoring)), Finished(Some(Score(r, job.day, job.scoring))))
  {
    assert at(0 + 1) == (Ensure(row), Ensured);
    assert at(1 + 1) == (Ensure(row), Rolling);
    var rolled := Some(Rollover(Ensure(row).value, job.day));
    assert at(2 + 1) == (rolled, Rolled);
    assert at(3 + 1) == (rolled, Reading);
    assert at(4 + 1) == (rolled, Writing(rolled.value));
    assert at(5 + 1) == Execute(rolled, Thread(job, Writing(rolled.value)));
  }

  // ----- the day's count and the daily bonus -----

  predicate SameDay(sys: System, day: int) {
    forall i | 0 <= i < |sys.threads| :: sys.threads[i].job.day == day
  }

  /** The count and the goal flag of `day` in a row that may not have been rolled over to it. */
  function CountToday(row: Option<Row>, day: int): nat {
    if row.Some? && row.value.todayDate == Some(day) then row.value.todayCorrect else 0
  }

  predicate FlagToday(row: Option<Row>, day: int) {
    row.Some? && row.value.todayDate == Some(day) && row.value.goalHitToday
  }

  predicate IsDone(t: Thread) {
    t.phase.Finished? && t.phase.result.Some?
  }

  function Done(t: Thread): nat {
    if IsDone(t) then 1 else 0
  }

  function Bonus(t: Thread): nat {
    if IsDone(t) && t.phase.result.value.goalJustHit then 1 else 0
  }

  /** How many calls have returned a result, and how many of those reported the goal as just hit. */
  function Total(f: Thread -> nat, threads: seq<Thread>): nat {
    if threads == [] then 0 else f(threads[0]) + Total(f, threads[1..])
  }

  lemma {:induction false} TotalAfter(f: Thread -> nat, threads: seq<Thread>, i: nat, t: Thread)
    requires i < |threads|
    ensures Total(f, threads[i := t]) == Total(f, threads) - f(threads[i]) + f(t)
  {
    if i > 0 {
      TotalAfter(f, threads[1..], i - 1, t);
      assert threads[i := t][1..] == threads[1..][i - 1 := t];
    } else {
      assert threads[0 := t][1..] == threads[1..];
    }
  }

  lemma {:induction false} NothingCountedYet(f: Thread -> nat, threads: seq<Thread>)
    requires forall i | 0 <= i < |threads| :: f(threads[i]) == 0
    ensures Total(f, threads) == 0
  {
    if threads != [] { NothingCountedYet(f, threads[1..]); }
  }

  /** The move is the final UPDATE of a correct answer. */
  predicate IsUpdate(sys: System, m: Move) {
    && m.thread < |sys.threads| && !m.fails
    && sys.threads[m.thread].phase.Writing? && sys.threads[m.thread].job.CorrectJob?
  }

  /** An UPDATE finds the day's count as its own call read it, ... */
  predicate FindsCount(sys: System, m: Move) {
    IsUpdate(sys, m) ==>
      sys.row.Some? && sys.row.value.todayCorrect == sys.threads[m.thread].phase.cur.todayCorrect
  }

  /** ... finds the goal flag as its own call read it, ... */
  predicate FindsFlag(sys: System, m: Move) {
    IsUpdate(sys, m) ==>
      sys.row.Some? && sys.row.value.goalHitToday == sys.threads[m.thread].phase.cur.goalHitToday
  }

  /** ... or runs while no other call stands between its SELECT and its UPDATE. */
  predicate Uncrossed(sys: System, m: Move) {
    IsUpdate(sys, m) ==>
      forall i | 0 <= i < |sys.threads| && i != m.thread :: !sys.threads[i].phase.Writing?
  }

  /** Every move of the schedule satisfies `ok` when its turn comes. */
  ghost predicate Throughout(ok: (System, Move) -> bool, sys: System, schedule: seq<Move>) {
    forall k | 0 <= k < |schedule| :: ok(Run(sys, schedule[..k]), schedule[k])
  }

  lemma ThroughoutSnoc(ok: (System, Move) -> bool, sys: System, schedule: seq<Move>)
    requires schedule != []
    ensures var before := schedule[..|schedule| - 1];
            Throughout(ok, sys, schedule)
            <==> Throughout(ok, sys, before) && ok(Run(sys, before), schedule[|schedule| - 1])
  {
    var before := schedule[..|schedule| - 1];
    forall k | 0 <= k < |before|
      ensures schedule[..k] == before[..k] && schedule[k] == before[k]
    {
    }
    assert forall k | 0 <= k < |before| ::
        ok(Run(sys, schedule[..k]), schedule[k]) == ok(Run(sys, before[..k]), before[k]);
  }

  /** Between a call's rollover and its end the row is on the day. */
  ghost predicate OnDay(sys: System, day: int) {
    && SameDay(sys, day)
    && forall i | 0 <= i < |sys.threads| ::
         && (sys.threads[i].phase in {Ensured, Rolling} ==> sys.row.Some?)
         && (sys.threads[i].phase in {Rolled, Reading} || sys.threads[i].phase.Writing?
             ==> sys.row.Some? && sys.row.value.todayDate == Some(day) && sys.threads[i].job.CorrectJob?)
  }

  lemma OnDayStep(sys: System, m: Move, day: int)
    requires OnDay(sys, day)
    ensures OnDay(Step(sys, m), day)
  {
  }

  /** No count read or stored is ahead of the calls that finished, and one that was read and is
      level with them is still the stored one. */
  ghost predicate NotAhead(sys: System, day: int, start: nat) {
    var all := start + Total(Done, sys.threads);
    && CountToday(sys.row, day) <= all
    && forall i | 0 <= i < |sys.threads| && sys.threads[i].phase.Writing? ::
         var read := sys.threads[i].phase.cur.todayCorrect;
         read <= all && (read == all ==> CountToday(sys.row, day) == all)
  }

  lemma CountStep(sys: System, m: Move, day: int, start: nat)
    requires OnDay(sys, day) && NotAhead(sys, day, start)
    ensures NotAhead(Step(sys, m), day, start)
    ensures CountToday(Step(sys, m).row, day) == start + Total(Done, Step(sys, m).threads)
            <==> CountToday(sys.row, day) == start + Total(Done, sys.threads) && FindsCount(sys, m)
  {
    if m.thread < |sys.threads| {
      var t := sys.threads[m.thread];
      TotalAfter(Done, sys.threads, m.thread, t.(phase := Failed));
      TotalAfter(Done, sys.threads, m.thread, t.(phase := Execute(sys.row, t).1));
    }
  }

  /** With any number of calls of one day, failing or not: the day's count is its start plus the
      finished correct answers exactly if every UPDATE finds the count its own call read. */
  lemma {:induction false} EveryAnswerCountsIff(sys: System, schedule: seq<Move>, day: int)
    requires Fresh(sys) && SameDay(sys, day)
    ensures var now := Run(sys, schedule);
            && OnDay(now, day) && NotAhead(now, day, CountToday(sys.row, day))
            && (CountToday(now.row, day) == CountToday(sys.row, day) + Total(Done, now.threads)
                <==> Throughout(FindsCount, sys, schedule))
  {
    if schedule == [] {
      NothingCountedYet(Done, sys.threads);
    } else {
      var before := schedule[..|schedule| - 1];
      EveryAnswerCountsIff(sys, before, day);
      ThroughoutSnoc(FindsCount, sys, schedule);
      OnDayStep(Run(sys, before), schedule[|schedule| - 1], day);
      CountStep(Run(sys, before), schedule[|schedule| - 1], day, CountToday(sys.row, day));
    }
  }

  /** While no call has finished, the streak columns are those of the start; from the first finished
      call on they are those of a single answer on that day. */
  ghost predicate StreakAsAlone(row: Row, start: Row, day: int, any: bool) {
    if any then
      var n := NextStreak(start, day);
      && row.lastActive == Some(day) && row.dayStreak == n
      && row.longestStreak
         == if start.lastActive != Some(day) && n > start.longestStreak then n else start.longestStreak
    else
      row.lastActive == start.lastActive && row.dayStreak == start.dayStreak
      && row.longestStreak == start.longestStreak
  }

  ghost predicate StreaksAsAlone(sys: System, start: Row, day: int) {
    && StreakAsAlone(Ensure(sys.row).value, start, day, Total(Done, sys.threads) > 0)
    && forall i | 0 <= i < |sys.threads| && sys.threads[i].phase.Writing? ::
         var read := sys.threads[i].phase.cur;
         StreakAsAlone(read, start, day, false)
         || (Total(Done, sys.threads) > 0 && StreakAsAlone(read, start, day, true))
  }

  lemma StreakStep(sys: System, m: Move, start: Row, day: int)
    requires OnDay(sys, day) && StreaksAsAlone(sys, start, day)
    ensures StreaksAsAlone(Step(sys, m), start, day)
  {
    if m.thread < |sys.threads| {
      var t := sys.threads[m.thread];
      TotalAfter(Done, sys.threads, m.thread, t.(phase := Failed));
      TotalAfter(Done, sys.threads, m.thread, t.(phase := Execute(sys.row, t).1));
    }
  }

  /** Crossed calls lose counts and repeat the bonus, but never damage the streak: for every
      schedule of calls of one day, failing or not, the streak columns are those of the start until
      a call has finished, and then exactly what a single correct answer makes of them. */
  lemma {:induction false} StreakSurvivesInterleaving(sys: System, schedule: seq<Move>, day: int)
    requires Fresh(sys) && SameDay(sys, day)
    ensures StreaksAsAlone(Run(sys, schedule), Ensure(sys.row).value, day)
  {
    if schedule == [] {
      NothingCountedYet(Done, sys.threads);
    } else {
      var before := schedule[..|schedule| - 1];
      StreakSurvivesInterleaving(sys, before, day);
      EveryAnswerCountsIff(sys, before, day);
      StreakStep(Run(sys, before), schedule[|schedule| - 1], Ensure(sys.row).value, day);
    }
  }

  function Unit(b: bool): nat {
    if b then 1 else 0
  }

  lemma FlagStep(sys: System, m: Move, day: int)
    requires OnDay(sys, day) && FindsFlag(sys, m)
    ensures Total(Bonus, Step(sys, m).threads) + Unit(FlagToday(sys.row, day))
            == Total(Bonus, sys.threads) + Unit(FlagToday(Step(sys, m).row, day))
  {
    if m.thread < |sys.threads| {
      var t := sys.threads[m.thread];
      TotalAfter(Bonus, sys.threads, m.thread, t.(phase := Failed));
      TotalAfter(Bonus, sys.threads, m.thread, t.(phase := Execute(sys.row, t).1));
    }
  }

  /** If every UPDATE finds the goal flag its own call read, the bonus is paid once if the flag
      has come up, and not at all otherwise. */
  lemma {:induction false} BonusFollowsFlag(sys: System, schedule: seq<Move>, day: int)
    requires Fresh(sys) && SameDay(sys, day) && Throughout(FindsFlag, sys, schedule)
    ensures var now := Run(sys, schedule);
            Total(Bonus, now.threads) + Unit(FlagToday(sys.row, day)) == Unit(FlagToday(now.row, day)) <= 1
  {
    if schedule == [] {
      NothingCountedYet(Bonus, sys.threads);
    } else {
      var before := schedule[..|schedule| - 1];
      ThroughoutSnoc(FindsFlag, sys, schedule);
      BonusFollowsFlag(sys, before, day);
      EveryAnswerCountsIff(sys, before, day);
      FlagStep(Run(sys, before), schedule[|schedule| - 1], day);
    }
  }

  /** Every call that has read the row still agrees with it on the day. */
  ghost predicate Agreeing(sys: System) {
    forall i | 0 <= i < |sys.threads| && sys.threads[i].phase.Writing? ::
      && sys.row.Some? && sys.row.value.todayCorrect == sys.threads[i].phase.cur.todayCorrect
      && sys.row.value.goalHitToday == sys.threads[i].phase.cur.goalHitToday
  }

  lemma AgreeingStep(sys: System, m: Move, day: int)
    requires OnDay(sys, day) && Agreeing(sys) && Uncrossed(sys, m)
    ensures Agreeing(Step(sys, m)) && FindsCount(sys, m) && FindsFlag(sys, m)
  {
  }

  lemma {:induction false} UncrossedAgrees(sys: System, schedule: seq<Move>, day: int)
    requires Fresh(sys) && SameDay(sys, day) && Throughout(Uncrossed, sys, schedule)
    ensures Agreeing(Run(sys, schedule))
    ensures Throughout(FindsCount, sys, schedule) && Throughout(FindsFlag, sys, schedule)
  {
    if schedule != [] {
      var before := schedule[..|schedule| - 1];
      ThroughoutSnoc(Uncrossed, sys, schedule);
      UncrossedAgrees(sys, before, day);
      EveryAnswerCountsIff(sys, before, day);
      AgreeingStep(Run(sys, before), schedule[|schedule| - 1], day);
      ThroughoutSnoc(FindsCount, sys, schedule);
      ThroughoutSnoc(FindsFlag, sys, schedule);
    }
  }

  /** Interleaved calls whose reads and writes are not crossed count every answer and are paid at
      most one bonus, namely when the flag comes up. */
  lemma UncrossedCallsPayOnce(sys: System, schedule: seq<Move>, day: int)
    requires Fresh(sys) && SameDay(sys, day) && Throughout(Uncrossed, sys, schedule)
    ensures var now := Run(sys, schedule);
            && CountToday(now.row, day) == CountToday(sys.row, day) + Total(Done, now.threads)
            && Total(Bonus, now.threads) + Unit(FlagToday(sys.row, day)) == Unit(FlagToday(now.row, day)) <= 1
  {
    UncrossedAgrees(sys, schedule, day);
    EveryAnswerCountsIff(sys, schedule, day);
    BonusFollowsFlag(sys, schedule, day);
  }

  /** The move is an UPDATE that pays the bonus. */
  predicate Pays(sys: System, m: Move) {
    && IsUpdate(sys, m)
    && var t := sys.threads[m.thread];
       Score(t.phase.cur, t.job.day, t.job.scoring).goalJustHit
  }

  /** The move does not take the day's flag down again. */
  function KeepsFlag(day: int): (System, Move) -> bool {
    (sys: System, m: Move) => FlagToday(sys.row, day) ==> FlagToday(Step(sys, m).row, day)
  }

  /** Every UPDATE that pays finds the day's flag down, and no earlier one has taken it down. */
  ghost predicate PaysWhileUnflagged(sys: System, schedule: seq<Move>, day: int) {
    schedule == []
    || (var before, m := schedule[..|schedule| - 1], schedule[|schedule| - 1];
        && PaysWhileUnflagged(sys, before, day)
        && (Pays(Run(sys, before), m) ==>
              !FlagToday(Run(sys, before).row, day) && Throughout(KeepsFlag(day), sys, before)))
  }

  /** The bonuses paid for the day, counting one for a flag that was up from the start. */
  function BonusesWith(sys: System, start: bool): nat {
    Total(Bonus, sys.threads) + Unit(start)
  }

  /** A flag that was stored or read was paid for. */
  ghost predicate FlagsPaid(sys: System, day: int, start: bool) {
    && (FlagToday(sys.row, day) ==> BonusesWith(sys, start) > 0)
    && forall i | 0 <= i < |sys.threads| && sys.threads[i].phase.Writing? ::
         sys.threads[i].phase.cur.goalHitToday ==> BonusesWith(sys, start) > 0
  }

  lemma PayStep(sys: System, m: Move, day: int, start: bool)
    requires OnDay(sys, day) && FlagsPaid(sys, day, start)
    ensures FlagsPaid(Step(sys, m), day, start)
    ensures BonusesWith(Step(sys, m), start) == BonusesWith(sys, start) + Unit(Pays(sys, m))
    ensures Pays(sys, m) ==> FlagToday(Step(sys, m).row, day)
  {
    if m.thread < |sys.threads| {
      var t := sys.threads[m.thread];
      TotalAfter(Bonus, sys.threads, m.thread, t.(phase := Failed));
      TotalAfter(Bonus, sys.threads, m.thread, t.(phase := Execute(sys.row, t).1));
    }
  }

  /** Exactly when the day's bonus is paid at most once, however the calls interleave: every paying
      UPDATE must find the flag down, and never after another UPDATE took it down. */
  lemma {:induction false} BonusPaidOnceIff(sys: System, schedule: seq<Move>, day: int)
    requires Fresh(sys) && SameDay(sys, day)
    ensures var now, start := Run(sys, schedule), FlagToday(sys.row, day);
            && FlagsPaid(now, day, start)
            && (BonusesWith(now, start) > 0
                <==> FlagToday(now.row, day) || !Throughout(KeepsFlag(day), sys, schedule))
            && (BonusesWith(now, start) <= 1 <==> PaysWhileUnflagged(sys, schedule, day))
  {
    if schedule == [] {
      NothingCountedYet(Bonus, sys.threads);
    } else {
      var before := schedule[..|schedule| - 1];
      BonusPaidOnceIff(sys, before, day);
      EveryAnswerCountsIff(sys, before, day);
      ThroughoutSnoc(KeepsFlag(day), sys, schedule);
      PayStep(Run(sys, before), schedule[|schedule| - 1], day, FlagToday(sys.row, day));
    }
  }

  /** The calls of two answers to a goal of one, both of them started when the other has not written. */
  function Crossed(): seq<Move> {
    Times(5, Move(0, false)) + Times(5, Move(1, false)) + [Move(0, false), Move(1, false)]
  }

  lemma {:induction false} RunOn(sys: System, first: seq<Move>, more: seq<Move>)
    ensures Run(sys, first + more) == Run(Run(sys, first), more)
    decreases |more|
  {
    if more == [] {
      assert first + more == first;
    } else {
      var shorter := more[..|more| - 1];
      assert (first + more)[..|first + more| - 1] == first + shorter;
      RunOn(sys, first, shorter);
    }
  }

  /** Crossed calls can both be paid: from no row at all, both calls read before either writes;
      both report the bonus and only one answer is counted. */
  lemma CrossedCallsPayTwice(sys: System, day: int, s: Scoring)
    requires s.dailyGoal == 1
    requires sys == System(None, [Thread(CorrectJob(day, s), Start), Thread(CorrectJob(day, s), Start)])
    ensures Fresh(sys) && SameDay(sys, day)
    ensures var now := Run(sys, Crossed());
            && Total(Bonus, now.threads) == Total(Done, now.threads) == 2
            && CountToday(now.row, day) == 1
  {
    var a, b, t := Move(0, false), Move(1, false), Start;
    var job := CorrectJob(day, s);
    var r := Rollover(ZERO_ROW, day);
    FiveStatements(sys, 0, 5);
    var one := Run(sys, Times(5, a));
    FiveStatements(one, 1, 5);
    var two := Run(one, Times(5, b));
    assert two == System(Some(r), [Thread(job, Writing(r)), Thread(job, Writing(r))]);
    RunOn(sys, Times(5, a), Times(5, b));
    RunOn(sys, Times(5, a) + Times(5, b), [a, b]);
    RunOnce(two, [], a);
    RunOnce(two, [a], b);
    assert [] + [a] == [a] && [a] + [b] == [a, b];
    var done := Finished(Some(Score(r, day, s)));
    assert Run(two, [a]).threads == [Thread(job, done), Thread(job, Writing(r))];
    assert Run(two, [a, b]).threads == [Thread(job, done), Thread(job, done)];
    assert Total(Bonus, []) == 0 && Total(Done, []) == 0;
  }

  /** A call that runs alone changes nothing but the row and its own phase. */
  lemma {:induction false} AloneMovesOne(sys: System, i: nat, n: nat)
    requires i < |sys.threads|
    ensures var (row, phase) := Alone(sys, i, n);
            Run(sys, Times(n, Move(i, false))) == System(row, sys.threads[i := sys.threads[i].(phase := phase)])
  {
    if n > 0 {
      AloneMovesOne(sys, i, n - 1);
      RunOnce(sys, Times(n - 1, Move(i, false)), Move(i, false));
    }
  }

  /** After its first five statements a call has read the row rolled over to its day. */
  lemma FiveStatements(sys: System, i: nat, n: nat)
    requires i < |sys.threads| && sys.threads[i].phase == Start && sys.threads[i].job.CorrectJob? && n == 5
    ensures var r := Some(Rollover(Ensure(sys.row).value, sys.threads[i].job.day));
            Run(sys, Times(n, Move(i, false)))
            == System(r, sys.threads[i := sys.threads[i].(phase := Writing(r.value))])
  {
    AloneMovesOne(sys, i, n);
    AloneIsAtomic(sys, i);
  }
}
