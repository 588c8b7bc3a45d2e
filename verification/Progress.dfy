/** Experience points, day streak and daily goal (`progress/progress.go`). Calendar dates are
    day numbers. The table keeps one small row a user and updates it incrementally; the second
    half of the module says what that row means in terms of everything that ever happened. */
module Progress {
  import opened Options

  datatype Row = Row(
    xpTotal: int, dayStreak: nat, longestStreak: nat, lastActive: Option<int>,
    todayCorrect: nat, todayDate: Option<int>, goalHitToday: bool)

  const ZERO_ROW := Row(0, 0, 0, None, 0, None, false)

  datatype Scoring = Scoring(xpPerCorrect: int, dailyGoal: int, xpBonus: int)

  datatype RecordResult = RecordResult(
    baseXP: int, bonusXP: int, xpGained: int, goalJustHit: bool,
    newDayStreak: nat, newXPTotal: int, todayCorrect: nat)

  type Rows = map<int, Row>

  /** A missing row reads as the zero row that would be inserted for it. */
  function RowOf(rows: Rows, user: int): Row {
    if user in rows then rows[user] else ZERO_ROW
  }

  /** `RolloverIfNewDay` on a row. */
  function Rollover(r: Row, day: int): Row {
    if r.todayDate == Some(day) then r
    else r.(todayCorrect := 0, goalHitToday := false, todayDate := Some(day))
  }

  /** The streak once the first correct answer of `day` is in. */
  function NextStreak(r: Row, day: int): nat {
    if r.lastActive == Some(day) then r.dayStreak
    else if r.lastActive == Some(day - 1) then r.dayStreak + 1
    else 1
  }

  /** What `RecordCorrect` computes from the row it read. */
  function Score(r: Row, day: int, s: Scoring): RecordResult {
    var hit := !r.goalHitToday && s.dailyGoal > 0 && r.todayCorrect + 1 >= s.dailyGoal;
    var bonus := if hit then s.xpBonus else 0;
    RecordResult(s.xpPerCorrect, bonus, s.xpPerCorrect + bonus, hit,
                 NextStreak(r, day), r.xpTotal + s.xpPerCorrect + bonus, r.todayCorrect + 1)
  }

  /** What its final UPDATE writes over the row `current` after reading `r`: the total is
      incremented in place, everything else is overwritten. */
  function Write(current: Row, r: Row, day: int, s: Scoring): Row {
    var result := Score(r, day, s);
    var longest := if r.lastActive != Some(day) && result.newDayStreak > r.longestStreak
                   then result.newDayStreak else r.longestStreak;
    Row(current.xpTotal + result.xpGained, result.newDayStreak, longest, Some(day),
        result.todayCorrect, Some(day), r.goalHitToday || result.goalJustHit)
  }

  /** The rows after the first `working` statements of a recorded answer, whose next one fails: two
      that insert a missing row, the rollover, and, for a correct answer, two that read. */
  function Begun(rows: Rows, user: int, today: int, working: nat): Rows {
    if working == 0 then rows
    else if working < ROLLING_STATEMENTS then rows[user := RowOf(rows, user)]
    else rows[user := Rollover(RowOf(rows, user), today)]
  }

  const ROLLING_STATEMENTS: nat := 3
  const SCORING_STATEMENTS: nat := 6

  /** Every call is told how many of its statements the database executes before one fails. */
  class ProgressTable {
    var rows: Rows

    constructor ()
      ensures rows == map[]
    {
      rows := map[];
    }

    method EnsureRow(user: int)
      modifies this
      ensures rows == old(rows)[user := RowOf(old(rows), user)]
    {
      if user !in rows {
        rows := rows[user := ZERO_ROW];
      }
    }

    method Get(user: int, working: nat) returns (r: Option<Row>)
      modifies this
      ensures rows == if working == 0 then old(rows) else old(rows)[user := RowOf(old(rows), user)]
      ensures r == if working < 2 then None else Some(RowOf(old(rows), user))
    {
      if working < 1 {
        return None;
      }
      EnsureRow(user);
      if working < 2 {
        return None;
      }
      return Some(rows[user]);
    }

    method RolloverIfNewDay(user: int, today: int, working: nat) returns (ok: bool)
      modifies this
      ensures ok <==> working >= 2
      ensures rows == if working == 0 then old(rows) else Begun(old(rows), user, today, working + 1)
    {
      if working < 1 {
        return false;
      }
      EnsureRow(user);
      if working < 2 {
        return false;
      }
      var r := rows[user];
      if r.todayDate.None? || r.todayDate.value != today {
        rows := rows[user := r.(todayCorrect := 0, goalHitToday := false, todayDate := Some(today))];
      }
      return true;
    }

    method RecordCorrect(user: int, today: int, s: Scoring, working: nat) returns (result: Option<RecordResult>)
      modifies this
      ensures var r := Rollover(RowOf(old(rows), user), today);
              if working >= SCORING_STATEMENTS
              then result == Some(Score(r, today, s)) && rows == old(rows)[user := Write(r, r, today, s)]
              else result == None && rows == Begun(old(rows), user, today, working)
    {
      if working < 1 {
        return None;
      }
      EnsureRow(user);
      var ok := RolloverIfNewDay(user, today, working - 1);
      if !ok {
        return None;
      }
      var got := Get(user, working - 3);
      if got.None? {
        return None;
      }
      var cur := got.value;
      var newDayStreak, newLongest := cur.dayStreak, cur.longestStreak;
      if cur.lastActive != Some(today) {
        match cur.lastActive {
          case None =>
            newDayStreak := 1;
          case Some(d) =>
            if d == today - 1 {
              newDayStreak := cur.dayStreak + 1;
            } else {
              newDayStreak := 1;
            }
        }
        if newDayStreak > newLongest {
          newLongest := newDayStreak;
        }
      }
      var newTodayCorrect := cur.todayCorrect + 1;
      var baseXP, bonusXP, goalJustHit := s.xpPerCorrect, 0, false;
      if !cur.goalHitToday && s.dailyGoal > 0 && newTodayCorrect >= s.dailyGoal {
        goalJustHit := true;
        bonusXP := s.xpBonus;
      }
      var xp := baseXP + bonusXP;
      if working < SCORING_STATEMENTS {
        return None;
      }
      rows := rows[user := Row(rows[user].xpTotal + xp, newDayStreak, newLongest, Some(today),
                               newTodayCorrect, Some(today), cur.goalHitToday || goalJustHit)];
      return Some(RecordResult(baseXP, bonusXP, xp, goalJustHit, newDayStreak, cur.xpTotal + xp, newTodayCorrect));
    }

    method RecordWrong(user: int, today: int, working: nat) returns (ok: bool)
      modifies this
      ensures ok <==> working >= ROLLING_STATEMENTS
      ensures rows == Begun(old(rows), user, today, working)
    {
      if working < 1 {
        return false;
      }
      EnsureRow(user);
      ok := RolloverIfNewDay(user, today, working - 1);
    }
  }

  /** A recorded answer that fails on the way moves no points and nobody else's row; before the
      rollover it moves no row at all. */
  lemma BegunKeepsXP(rows: Rows, user: int, today: int, working: nat)
    ensures var begun := Begun(rows, user, today, working);
            && RowOf(begun, user).xpTotal == RowOf(rows, user).xpTotal
            && (forall v | v != user || working < ROLLING_STATEMENTS :: RowOf(begun, v) == RowOf(rows, v))
  {
  }

  // ----- the meaning of a row: the user's full history -----

  /** A correct answer, or anything else that rolls the row over to its day. */
  datatype Event = Correct(day: int) | Touch(day: int)

  function After(r: Row, e: Event, s: Scoring): Row {
    var rolled := Rollover(r, e.day);
    if e.Correct? then Write(rolled, rolled, e.day, s) else rolled
  }

  function Replay(h: seq<Event>, s: Scoring): Row {
    if h == [] then ZERO_ROW else After(Replay(h[..|h| - 1], s), h[|h| - 1], s)
  }

  ghost predicate Steady(h: seq<Event>) {
    forall i, j | 0 <= i < j < |h| :: h[i].day <= h[j].day
  }

  /** Correct answers on one day, ... */
  function CountOn(h: seq<Event>, day: int): nat {
    if h == [] then 0
    else CountOn(h[..|h| - 1], day) + if h[|h| - 1] == Correct(day) then 1 else 0
  }

  /** ... and in all. */
  function CountAll(h: seq<Event>): nat {
    if h == [] then 0
    else CountAll(h[..|h| - 1]) + if h[|h| - 1].Correct? then 1 else 0
  }

  /** A day with a correct answer. */
  predicate Active(h: seq<Event>, day: int) {
    Correct(day) in h
  }

  /** The days with at least `goal` correct answers. */
  function GoalDays(h: seq<Event>, goal: int): set<int> {
    set e | e in h && e.Correct? && CountOn(h, e.day) >= goal :: e.day
  }

  /** Exactly `n` consecutive active days end at `day`. */
  ghost predicate IsBlock(h: seq<Event>, day: int, n: nat) {
    !Active(h, day - n) && forall d | day - n < d <= day :: Active(h, d)
  }

  ghost predicate IsLongestBlock(h: seq<Event>, n: nat) {
    && (exists day :: IsBlock(h, day, n))
    && (forall day, m: nat | IsBlock(h, day, m) :: m <= n)
  }

  ghost predicate IsLastActive(h: seq<Event>, day: Option<int>) {
    match day
    case None => forall d :: !Active(h, d)
    case Some(last) => Active(h, last) && forall d | Active(h, d) :: d <= last
  }

  function Today(h: seq<Event>): Option<int> {
    if h == [] then None else Some(h[|h| - 1].day)
  }

  /** Every correct answer pays once, and every day that met the goal pays the bonus once. */
  function TotalXP(h: seq<Event>, s: Scoring): int {
    s.xpPerCorrect * CountAll(h) + if s.dailyGoal > 0 then s.xpBonus * |GoalDays(h, s.dailyGoal)| else 0
  }

  /** The row says about the history what its column names promise, seen from the day `today`. */
  ghost predicate Summarises(r: Row, h: seq<Event>, today: Option<int>, s: Scoring) {
    && r.todayDate == today
    && r.todayCorrect == (if today.Some? then CountOn(h, today.value) else 0)
    && (r.goalHitToday <==> today.Some? && 0 < s.dailyGoal <= CountOn(h, today.value))
    && IsLastActive(h, r.lastActive)
    && (if r.lastActive.None? then r.dayStreak == 0 else IsBlock(h, r.lastActive.value, r.dayStreak))
    && IsLongestBlock(h, r.longestStreak)
    && r.xpTotal == TotalXP(h, s)
  }

  /** After any history of non-decreasing days the row is a summary of it: the streak is the
      block of days ending at the last active one, the longest streak the longest block, today's
      count and flag are those of the latest day, and the total is what the history earns. */
  lemma {:induction false} RowSummarisesHistory(h: seq<Event>, s: Scoring)
    requires Steady(h)
    ensures Summarises(Replay(h, s), h, Today(h), s)
  {
    if h == [] {
      assert IsBlock(h, 0, 0);
      forall day, m: nat | IsBlock(h, day, m)
        ensures m == 0
      {
        assert m > 0 ==> Active(h, day);
      }
      assert GoalDays(h, s.dailyGoal) == {};
    } else {
      var before, e := h[..|h| - 1], h[|h| - 1];
      RowSummarisesHistory(before, s);
      RolloverKeepsSummary(Replay(before, s), before, e.day, s);
      assert before + [e] == h;
      var r := Rollover(Replay(before, s), e.day);
      if e.Correct? {
        CorrectKeepsSummary(r, before, e.day, s);
      } else {
        TouchKeepsSummary(r, before, e.day, s);
      }
    }
  }

  ghost predicate UpTo(h: seq<Event>, day: int) {
    forall i | 0 <= i < |h| :: h[i].day <= day
  }

  lemma {:induction false} CountIsActive(h: seq<Event>, day: int)
    ensures CountOn(h, day) > 0 <==> Active(h, day)
  {
    if h != [] {
      CountIsActive(h[..|h| - 1], day);
      assert h == h[..|h| - 1] + [h[|h| - 1]];
    }
  }

  /** Rolling the row over to a day changes nothing but the day it is seen from. */
  lemma RolloverKeepsSummary(r: Row, h: seq<Event>, day: int, s: Scoring)
    requires Steady(h) && UpTo(h, day) && Summarises(r, h, Today(h), s)
    ensures Summarises(Rollover(r, day), h, Some(day), s)
  {
    CountIsActive(h, day);
    if Today(h) != Some(day) {
      assert !Active(h, day) by {
        if h != [] {
          assert forall i | 0 <= i < |h| :: h[i].day <= h[|h| - 1].day < day;
        }
      }
    }
  }

  lemma AppendToHistory(h: seq<Event>, e: Event)
    ensures forall d :: Active(h + [e], d) <==> Active(h, d) || e == Correct(d)
    ensures forall d :: CountOn(h + [e], d) == CountOn(h, d) + if e == Correct(d) then 1 else 0
  {
    assert (h + [e])[..|h|] == h;
  }

  lemma GoalDayIff(h: seq<Event>, goal: int, day: int)
    requires goal > 0
    ensures day in GoalDays(h, goal) <==> CountOn(h, day) >= goal
  {
    CountIsActive(h, day);
    if Active(h, day) { assert Correct(day).Correct?; }
  }

  lemma GoalDaysAfter(h: seq<Event>, e: Event, goal: int)
    requires goal > 0
    ensures GoalDays(h + [e], goal)
            == GoalDays(h, goal) + if e.Correct? && CountOn(h, e.day) + 1 >= goal then {e.day} else {}
  {
    AppendToHistory(h, e);
    forall d
      ensures d in GoalDays(h + [e], goal)
              <==> d in GoalDays(h, goal) || (e == Correct(d) && CountOn(h, d) + 1 >= goal)
    {
      GoalDayIff(h, goal, d);
      GoalDayIff(h + [e], goal, d);
    }
  }

  lemma GoalDaysCounted(h: seq<Event>, day: int, goal: int)
    requires goal > 0
    ensures |GoalDays(h + [Touch(day)], goal)| == |GoalDays(h, goal)|
    ensures |GoalDays(h + [Correct(day)], goal)|
            == |GoalDays(h, goal)| + if goal == CountOn(h, day) + 1 then 1 else 0
  {
    GoalDaysAfter(h, Correct(day), goal);
    GoalDaysAfter(h, Touch(day), goal);
    GoalDayIff(h, goal, day);
    SizeWith(GoalDays(h, goal), day);
  }

  lemma SizeWith(days: set<int>, day: int)
    ensures days + {} == days
    ensures |days + {day}| == |days| + if day in days then 0 else 1
  {
    if day in days {
      assert days + {day} == days;
    }
  }

  lemma CountAllAfter(h: seq<Event>, e: Event)
    ensures CountAll(h + [e]) == CountAll(h) + if e.Correct? then 1 else 0
  {
    assert (h + [e])[..|h|] == h;
  }

  /** One more correct answer earns its points, and the bonus when it is the goal-th of its day. */
  lemma XPAfter(h: seq<Event>, day: int, s: Scoring)
    ensures TotalXP(h + [Touch(day)], s) == TotalXP(h, s)
    ensures TotalXP(h + [Correct(day)], s)
            == TotalXP(h, s) + s.xpPerCorrect
               + if 0 < s.dailyGoal == CountOn(h, day) + 1 then s.xpBonus else 0
  {
    CountAllAfter(h, Correct(day));
    CountAllAfter(h, Touch(day));
    OneMore(s.xpPerCorrect, CountAll(h));
    if s.dailyGoal > 0 {
      GoalDaysCounted(h, day, s.dailyGoal);
      OneMore(s.xpBonus, |GoalDays(h, s.dailyGoal)|);
    }
  }

  lemma OneMore(x: int, n: nat)
    ensures x * (n + 1) == x * n + x
  {
  }

  lemma SameBlocks(g: seq<Event>, h: seq<Event>)
    requires forall d :: Active(g, d) <==> Active(h, d)
    ensures forall day, n: nat :: IsBlock(g, day, n) <==> IsBlock(h, day, n)
  {
  }

  lemma TouchKeepsSummary(r: Row, h: seq<Event>, day: int, s: Scoring)
    requires Summarises(r, h, Some(day), s)
    ensures Summarises(r, h + [Touch(day)], Some(day), s)
  {
    AppendToHistory(h, Touch(day));
    SameBlocks(h, h + [Touch(day)]);
    XPAfter(h, day, s);
    LongestAlike(h, h + [Touch(day)], r.longestStreak);
  }

  lemma LongestAlike(g: seq<Event>, h: seq<Event>, n: nat)
    requires forall day, m: nat :: IsBlock(g, day, m) <==> IsBlock(h, day, m)
    requires IsLongestBlock(g, n)
    ensures IsLongestBlock(h, n)
  {
    var day :| IsBlock(g, day, n);
    assert IsBlock(h, day, n);
  }

  lemma CorrectKeepsSummary(r: Row, h: seq<Event>, day: int, s: Scoring)
    requires UpTo(h, day) && Summarises(r, h, Some(day), s)
    ensures Summarises(Write(r, r, day, s), h + [Correct(day)], Some(day), s)
  {
    AppendToHistory(h, Correct(day));
    XPAfter(h, day, s);
    StreakAfter(r, h, day);
  }

  /** The streak logic: the new streak is the block ending today, and the longest block is either
      the old one or that. */
  lemma StreakAfter(r: Row, h: seq<Event>, day: int)
    requires UpTo(h, day) && IsLastActive(h, r.lastActive) && IsLongestBlock(h, r.longestStreak)
    requires if r.lastActive.None? then r.dayStreak == 0 else IsBlock(h, r.lastActive.value, r.dayStreak)
    ensures var after, n := h + [Correct(day)], NextStreak(r, day);
            && IsLastActive(after, Some(day))
            && IsBlock(after, day, n)
            && IsLongestBlock(after, if r.lastActive != Some(day) && n > r.longestStreak then n else r.longestStreak)
  {
    var after, n := h + [Correct(day)], NextStreak(r, day);
    AppendToHistory(h, Correct(day));
    if r.lastActive == Some(day) {
      SameBlocks(h, after);
      LongestAlike(h, after, r.longestStreak);
    } else {
      if r.lastActive.Some? {
        assert Active(h, r.lastActive.value) && r.lastActive.value < day;
      }
      assert forall d | d >= day :: !Active(h, d);
      BlocksAfter(h, day, r.longestStreak, n);
    }
  }

  lemma BlocksAfter(h: seq<Event>, day: int, longest: nat, n: nat)
    requires forall d | d >= day :: !Active(h, d)
    requires IsLongestBlock(h, longest)
    requires n > 0 && IsBlock(h + [Correct(day)], day, n)
    ensures IsLongestBlock(h + [Correct(day)], if n > longest then n else longest)
  {
    var after := h + [Correct(day)];
    AppendToHistory(h, Correct(day));
    forall e, m: nat
      ensures e < day ==> (IsBlock(after, e, m) <==> IsBlock(h, e, m))
    {
    }
    if n <= longest {
      var e :| IsBlock(h, e, longest);
      assert e < day by { assert Active(h, e); }
      assert IsBlock(after, e, longest);
    }
    forall e, m: nat | IsBlock(after, e, m)
      ensures m <= if n > longest then n else longest
    {
      if e == day {
        assert m > n ==> Active(after, day - n);
      } else if e > day {
        assert m > 0 ==> Active(after, e);
      }
    }
  }

  /** The bonus is paid at exactly the goal-th correct answer of a day: never earlier, never again. */
  lemma BonusAtGoalthAnswer(h: seq<Event>, day: int, s: Scoring)
    requires Steady(h) && UpTo(h, day)
    ensures var result := Score(Rollover(Replay(h, s), day), day, s);
            && (result.goalJustHit <==> 0 < s.dailyGoal == CountOn(h, day) + 1)
            && result.newXPTotal == TotalXP(h + [Correct(day)], s)
            && result.xpGained == TotalXP(h + [Correct(day)], s) - TotalXP(h, s)
            && result.xpGained == s.xpPerCorrect + result.bonusXP && result.baseXP == s.xpPerCorrect
  {
    RowSummarisesHistory(h, s);
    RolloverKeepsSummary(Replay(h, s), h, day, s);
    XPAfter(h, day, s);
  }

  /** The streak and the day's count that are reported are those of the history with the answer in. */
  lemma ReportedDay(h: seq<Event>, day: int, s: Scoring)
    requires Steady(h) && UpTo(h, day)
    ensures var result, after := Score(Rollover(Replay(h, s), day), day, s), h + [Correct(day)];
            result.todayCorrect == CountOn(after, day) && IsBlock(after, day, result.newDayStreak)
  {
    var r := Rollover(Replay(h, s), day);
    RowSummarisesHistory(h, s);
    RolloverKeepsSummary(Replay(h, s), h, day, s);
    StreakAfter(r, h, day);
    AppendToHistory(h, Correct(day));
  }

  // ----- histories of any order of days -----

  type Stay = s: seq<Event> | s != [] witness [Correct(0)]

  function LatestDay(stays: seq<Stay>): Option<int> {
    if stays == [] then None else Some(stays[|stays| - 1][0].day)
  }

  /** One more event: the latest stay goes on if it is on that day. */
  function AddTo(stays: seq<Stay>, e: Event): (more: seq<Stay>)
    ensures more != []
  {
    var n := |stays|;
    if LatestDay(stays) == Some(e.day) then stays[..n - 1] + [stays[n - 1] + [e]] else stays + [[e]]
  }

  /** A history cut into stays: each a maximal run of events of one day. */
  function Stays(h: seq<Event>): (stays: seq<Stay>)
    ensures h != [] ==> stays != []
  {
    if h == [] then [] else AddTo(Stays(h[..|h| - 1]), h[|h| - 1])
  }

  function Concat(stays: seq<Stay>): seq<Event> {
    if stays == [] then [] else Concat(stays[..|stays| - 1]) + stays[|stays| - 1]
  }

  ghost predicate OnOneDay(stay: Stay) {
    forall k | 0 <= k < |stay| :: stay[k].day == stay[0].day
  }

  /** Each stay is on one day, and its neighbours are on other days. */
  ghost predicate AreStays(stays: seq<Stay>) {
    && (forall i | 0 <= i < |stays| :: OnOneDay(stays[i]))
    && (forall i | 0 < i < |stays| :: stays[i - 1][0].day != stays[i][0].day)
  }

  ghost predicate AreStaysOf(stays: seq<Stay>, h: seq<Event>) {
    Concat(stays) == h && AreStays(stays) && LatestDay(stays) == Today(h)
  }

  /** The stays are the history, in order. */
  lemma {:induction false} StaysCutHistory(h: seq<Event>)
    ensures AreStaysOf(Stays(h), h)
  {
    if h != [] {
      var before, e := h[..|h| - 1], h[|h| - 1];
      StaysCutHistory(before);
      CutMore(before, Stays(before), e);
      StaysAfter(before, e);
      assert before + [e] == h;
    }
  }

  lemma CutMore(before: seq<Event>, stays: seq<Stay>, e: Event)
    requires AreStaysOf(stays, before)
    ensures AreStaysOf(AddTo(stays, e), before + [e])
  {
    AddToCut(stays, e);
  }

  lemma StaysAfter(h: seq<Event>, e: Event)
    ensures Stays(h + [e]) == AddTo(Stays(h), e)
  {
    assert (h + [e])[..|h|] == h;
  }

  lemma AddToCut(stays: seq<Stay>, e: Event)
    requires AreStays(stays)
    ensures var more := AddTo(stays, e);
            Concat(more) == Concat(stays) + [e] && AreStays(more) && LatestDay(more) == Some(e.day)
  {
    var more, n := AddTo(stays, e), |stays|;
    if LatestDay(stays) == Some(e.day) {
      assert more[..|more| - 1] == stays[..n - 1];
    } else {
      assert more[..|more| - 1] == stays;
    }
  }

  predicate Meets(stay: Stay, goal: int) {
    0 < goal <= CountAll(stay)
  }

  /** How many stays reach the goal, and how many of those are on one day. */
  function MetStays(stays: seq<Stay>, goal: int): nat {
    if stays == [] then 0
    else MetStays(stays[..|stays| - 1], goal) + if Meets(stays[|stays| - 1], goal) then 1 else 0
  }

  predicate MeetsOn(stay: Stay, goal: int, day: int) {
    Meets(stay, goal) && stay[0].day == day
  }

  function MetStaysOn(stays: seq<Stay>, goal: int, day: int): nat {
    if stays == [] then 0
    else MetStaysOn(stays[..|stays| - 1], goal, day) + if MeetsOn(stays[|stays| - 1], goal, day) then 1 else 0
  }

  /** How often a history was paid the bonus for answers on `day`. */
  function BonusesOn(h: seq<Event>, s: Scoring, day: int): nat {
    if h == [] then 0
    else
      var before, e := h[..|h| - 1], h[|h| - 1];
      BonusesOn(before, s, day)
      + if e == Correct(day) && Score(Rollover(Replay(before, s), day), day, s).goalJustHit then 1 else 0
  }

  /** The correct answers of the latest stay. */
  function Latest(stays: seq<Stay>): nat {
    if stays == [] then 0 else CountAll(stays[|stays| - 1])
  }

  /** The correct answers of the stay that `e` joins or starts, without it. */
  function Before(stays: seq<Stay>, e: Event): nat {
    if LatestDay(stays) == Some(e.day) then Latest(stays) else 0
  }

  /** 1 if `e` makes its stay reach the goal, else 0. */
  function MetBy(stays: seq<Stay>, e: Event, goal: int): nat {
    if e.Correct? && 0 < goal == Before(stays, e) + 1 then 1 else 0
  }

  /** How one more event moves the numbers of the stays. */
  lemma AddToCounts(stays: seq<Stay>, e: Event, goal: int)
    ensures var more := AddTo(stays, e);
            && LatestDay(more) == Some(e.day)
            && Latest(more) == Before(stays, e) + (if e.Correct? then 1 else 0)
            && MetStays(more, goal) == MetStays(stays, goal) + MetBy(stays, e, goal)
            && forall day :: MetStaysOn(more, goal, day)
                             == MetStaysOn(stays, goal, day) + if day == e.day then MetBy(stays, e, goal) else 0
  {
    var more, n := AddTo(stays, e), |stays|;
    if LatestDay(stays) == Some(e.day) {
      assert more[..|more| - 1] == stays[..n - 1];
      CountAllAfter(stays[n - 1], e);
    } else {
      assert more[..|more| - 1] == stays;
      CountAllAfter([], e);
    }
  }

  /** The row of a user whose stays are these and who has answered `count` times correctly. */
  ghost predicate PaidByStay(r: Row, stays: seq<Stay>, count: nat, s: Scoring) {
    && r.todayDate == LatestDay(stays) && r.todayCorrect == Latest(stays)
    && (r.goalHitToday <==> 0 < s.dailyGoal <= Latest(stays))
    && r.xpTotal == s.xpPerCorrect * count + s.xpBonus * MetStays(stays, s.dailyGoal)
  }

  lemma RolledIsBefore(r: Row, stays: seq<Stay>, count: nat, e: Event, s: Scoring)
    requires PaidByStay(r, stays, count, s)
    ensures var rolled := Rollover(r, e.day);
            && rolled.todayCorrect == Before(stays, e)
            && (rolled.goalHitToday <==> 0 < s.dailyGoal <= Before(stays, e))
            && (e.Correct? ==> (Score(rolled, e.day, s).goalJustHit <==> MetBy(stays, e, s.dailyGoal) == 1))
  {
  }

  lemma EventPays(r: Row, stays: seq<Stay>, count: nat, e: Event, s: Scoring)
    requires PaidByStay(r, stays, count, s)
    ensures After(r, e, s).xpTotal == s.xpPerCorrect * (if e.Correct? then count + 1 else count)
                                      + s.xpBonus * (MetStays(stays, s.dailyGoal) + MetBy(stays, e, s.dailyGoal))
  {
    RolledIsBefore(r, stays, count, e, s);
    Scaled(s.xpPerCorrect, count, if e.Correct? then 1 else 0);
    Scaled(s.xpBonus, MetStays(stays, s.dailyGoal), MetBy(stays, e, s.dailyGoal));
  }

  lemma EventOfDay(r: Row, stays: seq<Stay>, count: nat, e: Event, s: Scoring)
    requires PaidByStay(r, stays, count, s)
    ensures var n := Before(stays, e) + if e.Correct? then 1 else 0;
            && After(r, e, s).todayDate == Some(e.day) && After(r, e, s).todayCorrect == n
            && (After(r, e, s).goalHitToday <==> 0 < s.dailyGoal <= n)
  {
    RolledIsBefore(r, stays, count, e, s);
  }

  lemma EventPaysByStay(r: Row, stays: seq<Stay>, count: nat, e: Event, s: Scoring)
    requires PaidByStay(r, stays, count, s)
    ensures PaidByStay(After(r, e, s), AddTo(stays, e), if e.Correct? then count + 1 else count, s)
  {
    AddToCounts(stays, e, s.dailyGoal);
    EventOfDay(r, stays, count, e, s);
    EventPays(r, stays, count, e, s);
  }

  lemma Scaled(x: int, n: nat, d: nat)
    requires d <= 1
    ensures x * (n + d) == x * n + if d == 1 then x else 0
  {
    OneMore(x, n);
  }

  /** What the row says after any history whatsoever: the day's count and flag are those of the
      latest stay, and the total is the per-answer points and one bonus for each stay, not each
      day, that reaches the goal. */
  lemma {:induction false} AnyHistoryPaysByStay(h: seq<Event>, s: Scoring)
    ensures PaidByStay(Replay(h, s), Stays(h), CountAll(h), s)
    ensures forall day :: BonusesOn(h, s, day) == MetStaysOn(Stays(h), s.dailyGoal, day)
  {
    if h != [] {
      var before := h[..|h| - 1];
      AnyHistoryPaysByStay(before, s);
      EventPaysByStay(Replay(before, s), Stays(before), CountAll(before), h[|h| - 1], s);
      RolledIsBefore(Replay(before, s), Stays(before), CountAll(before), h[|h| - 1], s);
      AddToCounts(Stays(before), h[|h| - 1], s.dailyGoal);
    }
  }

  lemma {:induction false} MetStayIsCounted(stays: seq<Stay>, goal: int, day: int, i: nat)
    requires i < |stays| && MeetsOn(stays[i], goal, day)
    ensures MetStaysOn(stays, goal, day) > 0
  {
    var n := |stays| - 1;
    if i < n { MetStayIsCounted(stays[..n], goal, day, i); }
  }

  lemma {:induction false} CountedStayIsMet(stays: seq<Stay>, goal: int, day: int) returns (i: nat)
    requires MetStaysOn(stays, goal, day) > 0
    ensures i < |stays| && MeetsOn(stays[i], goal, day)
  {
    i := |stays| - 1;
    if !MeetsOn(stays[i], goal, day) { i := CountedStayIsMet(stays[..i], goal, day); }
  }

  lemma {:induction false} AtMostOneMetStay(stays: seq<Stay>, goal: int, day: int)
    ensures MetStaysOn(stays, goal, day) <= 1
            <==> forall i, j | 0 <= i < j < |stays| :: !(MeetsOn(stays[i], goal, day) && MeetsOn(stays[j], goal, day))
  {
    if stays != [] {
      var n := |stays| - 1;
      var before := stays[..n];
      AtMostOneMetStay(before, goal, day);
      if MeetsOn(stays[n], goal, day) {
        if MetStaysOn(before, goal, day) > 0 {
          var i := CountedStayIsMet(before, goal, day);
          assert MeetsOn(stays[i], goal, day);
        } else {
          forall i: nat | i < n
            ensures !MeetsOn(stays[i], goal, day)
          {
            if MeetsOn(before[i], goal, day) { MetStayIsCounted(before, goal, day, i); }
          }
        }
      }
    }
  }

  /** With days in any order, a day is paid at most one bonus exactly when no two separate stays
      on it both reach the goal. */
  lemma DayPaidOnceIff(h: seq<Event>, s: Scoring, day: int)
    ensures var stays := Stays(h);
            BonusesOn(h, s, day) <= 1
            <==> forall i, j | 0 <= i < j < |stays| ::
                   !(MeetsOn(stays[i], s.dailyGoal, day) && MeetsOn(stays[j], s.dailyGoal, day))
  {
    AnyHistoryPaysByStay(h, s);
    assert BonusesOn(h, s, day) == MetStaysOn(Stays(h), s.dailyGoal, day);
    AtMostOneMetStay(Stays(h), s.dailyGoal, day);
  }

  ghost predicate Ascending(stays: seq<Stay>) {
    forall i, j | 0 <= i < j < |stays| :: stays[i][0].day < stays[j][0].day
  }

  lemma AddToAscending(stays: seq<Stay>, e: Event)
    requires Ascending(stays) && (LatestDay(stays).Some? ==> LatestDay(stays).value <= e.day)
    ensures Ascending(AddTo(stays, e))
  {
  }

  /** Steady days never come back, so no day has two stays and each is paid at most once. */
  lemma {:induction false} SteadyDaysStayOnce(h: seq<Event>)
    requires Steady(h)
    ensures Ascending(Stays(h))
  {
    if h != [] {
      var before, e := h[..|h| - 1], h[|h| - 1];
      SteadyDaysStayOnce(before);
      StaysCutHistory(before);
      assert LatestDay(Stays(before)) == Today(before);
      AddToAscending(Stays(before), e);
      StaysAfter(before, e);
      assert before + [e] == h;
    }
  }

  lemma SteadyDaysPayOnce(h: seq<Event>, s: Scoring, day: int)
    requires Steady(h)
    ensures BonusesOn(h, s, day) <= 1
  {
    SteadyDaysStayOnce(h);
    DayPaidOnceIff(h, s, day);
  }

  /** A clock that returns to yesterday and comes again makes two stays of one day. */
  lemma UnsteadyDaysPayTwice(h: seq<Event>, s: Scoring)
    requires h == [Correct(1), Touch(0), Correct(1)] && s.dailyGoal == 1
    ensures BonusesOn(h, s, 1) > 1
  {
    var a: Stay, b: Stay := [Correct(1)], [Touch(0)];
    StaysAfter([], Correct(1));
    StaysAfter(a, Touch(0));
    StaysAfter(a + b, Correct(1));
    assert Stays([]) == [] && [] + a == a && a + b + a == h;
    assert Stays(a) == [a] && Stays(a + b) == [a, b] && Stays(h) == [a, b, a];
    CountAllAfter([], Correct(1));
    DayPaidOnceIff(h, s, 1);
    assert MeetsOn(Stays(h)[0], 1, 1) && MeetsOn(Stays(h)[2], 1, 1);
  }
}
