/** The per-user word status rows (`dictionary/repo.go`, `dictionary/word.go`): answer counters
    that evolve with the quiz, and a status that the user or the quiz can set. */
module Dictionary {
  import opened Options

  datatype WordStatus = Learning | Known | Skipped | Mastered

  datatype Row = Row(status: WordStatus, correctStreak: nat, correctTotal: nat, wrongTotal: nat)

  type Key = (int, int)  // (user, word), the primary key
  type Rows = map<Key, Row>

  datatype Event =
    | Upsert(status: WordStatus)
    | Correct(threshold: int)
    | Wrong
    | Delete

  function Lookup(rows: Rows, key: Key): Option<Row> {
    if key in rows then Some(rows[key]) else None
  }

  function Store(rows: Rows, key: Key, row: Option<Row>): Rows {
    match row
    case None => rows - {key}
    case Some(r) => rows[key := r]
  }

  /** What one statement does to the row of its key. */
  function Apply(row: Option<Row>, e: Event): Option<Row> {
    match (e, row)
    case (Upsert(status), None) => Some(Row(status, 0, 0, 0))
    case (Upsert(status), Some(r)) => Some(r.(status := status))
    case (Correct(threshold), Some(r)) =>
      Some(r.(status := if r.correctStreak + 1 >= threshold then Mastered else r.status,
              correctStreak := r.correctStreak + 1,
              correctTotal := r.correctTotal + 1))
    case (Wrong, Some(r)) => Some(r.(correctStreak := 0, wrongTotal := r.wrongTotal + 1))
    case (Delete, _) => None
    case (_, None) => None
  }

  class UserWordStatusTable {
    var rows: Rows

    constructor ()
      ensures rows == map[]
    {
      rows := map[];
    }

    method Upsert(key: Key, status: WordStatus)
      modifies this
      ensures rows == Store(old(rows), key, Apply(Lookup(old(rows), key), Event.Upsert(status)))
      ensures key in rows && rows[key].status == status
    {
      if key in rows {
        rows := rows[key := rows[key].(status := status)];
      } else {
        rows := rows[key := Row(status, 0, 0, 0)];
      }
    }

    /** `mastered` says that the row is mastered now; that is "it flipped in this call" exactly for
        a row that was not mastered before. */
    method RecordCorrect(key: Key, threshold: int) returns (found: bool, newStreak: nat, mastered: bool)
      modifies this
      ensures rows == Store(old(rows), key, Apply(Lookup(old(rows), key), Correct(threshold)))
      ensures found <==> key in old(rows)
      ensures found ==> newStreak == rows[key].correctStreak && (mastered <==> rows[key].status == Mastered)
      ensures found ==> (mastered <==> newStreak >= threshold || old(rows)[key].status == Mastered)
      ensures found ==>
                var before := old(rows)[key].status;
                ((mastered <==> before != Mastered && rows[key].status == Mastered) <==> before != Mastered)
      ensures !found ==> newStreak == 0 && !mastered && rows == old(rows)
    {
      if key !in rows {
        return false, 0, false;
      }
      var r := rows[key];
      rows := rows[key := Row(if r.correctStreak + 1 >= threshold then Mastered else r.status,
                              r.correctStreak + 1, r.correctTotal + 1, r.wrongTotal)];
      return true, rows[key].correctStreak, rows[key].status == Mastered;
    }

    method RecordWrong(key: Key) returns (found: bool)
      modifies this
      ensures rows == Store(old(rows), key, Apply(Lookup(old(rows), key), Wrong))
      ensures found <==> key in old(rows)
    {
      if key !in rows {
        return false;
      }
      rows := rows[key := rows[key].(correctStreak := 0, wrongTotal := rows[key].wrongTotal + 1)];
      return true;
    }

    method DeleteWordStatus(key: Key)
      modifies this
      ensures rows == Store(old(rows), key, Apply(Lookup(old(rows), key), Delete))
      ensures key !in rows
    {
      rows := rows - {key};
    }
  }

  /** The row after a history of statements on its key. */
  function Replay(h: seq<Event>): Option<Row> {
    if h == [] then None else Apply(Replay(h[..|h| - 1]), h[|h| - 1])
  }

  /** The statements since the row was created, creation first. */
  function Life(h: seq<Event>): Option<seq<Event>> {
    if h == [] then None
    else
      var e, before := h[|h| - 1], Life(h[..|h| - 1]);
      if e.Delete? then None
      else if before.Some? then Some(before.value + [e])
      else if e.Upsert? then Some([e])
      else None
  }

  /** The answers among some statements, in order: true for correct. */
  function Answers(life: seq<Event>): seq<bool> {
    if life == [] then []
    else
      var e, before := life[|life| - 1], Answers(life[..|life| - 1]);
      if e.Correct? then before + [true] else if e.Wrong? then before + [false] else before
  }

  /** `n` correct answers follow the last wrong one. */
  predicate IsStreak(answers: seq<bool>, n: nat) {
    && n <= |answers|
    && (forall i | |answers| - n <= i < |answers| :: answers[i])
    && (n < |answers| ==> !answers[|answers| - n - 1])
  }

  function StreakOf(answers: seq<bool>): (n: nat)
    ensures IsStreak(answers, n)
  {
    if answers == [] || !answers[|answers| - 1] then 0 else 1 + StreakOf(answers[..|answers| - 1])
  }

  /** Over any history, the counters count the answers recorded since the row was created. */
  lemma {:induction false} CountersCountAnswers(h: seq<Event>)
    ensures Replay(h).Some? <==> Life(h).Some?
    ensures Replay(h).Some? ==>
              var row, answers := Replay(h).value, Answers(Life(h).value);
              && row.correctStreak == StreakOf(answers)
              && row.correctTotal == multiset(answers)[true]
              && row.wrongTotal == multiset(answers)[false]
              && row.correctTotal + row.wrongTotal == |answers|
  {
    if h != [] {
      var before, e := h[..|h| - 1], h[|h| - 1];
      CountersCountAnswers(before);
      if Life(h).Some? && Life(before).Some? {
        assert Life(h).value[..|Life(h).value| - 1] == Life(before).value;
        var earlier, later := Answers(Life(before).value), Answers(Life(h).value);
        assert e.Correct? || e.Wrong? ==> later[..|earlier|] == earlier;
      }
    }
  }

  lemma ApplyMoves(r: Row, e: Event)
    requires !e.Delete?
    ensures Apply(Some(r), e).Some?
    ensures Apply(Some(r), e).value.correctTotal == r.correctTotal + if e.Correct? then 1 else 0
    ensures Apply(Some(r), e).value.wrongTotal == r.wrongTotal + if e.Wrong? then 1 else 0
  {
  }

  lemma AnswersMore(h: seq<Event>, e: Event)
    ensures Replay(h + [e]) == Apply(Replay(h), e)
    ensures multiset(Answers(h + [e]))[true] == multiset(Answers(h))[true] + if e.Correct? then 1 else 0
    ensures multiset(Answers(h + [e]))[false] == multiset(Answers(h))[false] + if e.Wrong? then 1 else 0
  {
    assert (h + [e])[..|h|] == h;
  }

  /** Statements that delete nothing move the totals of a row by exactly the answers among them. */
  lemma {:induction false} TotalsMove(base: seq<Event>, more: seq<Event>)
    requires Replay(base).Some? && forall k | 0 <= k < |more| :: !more[k].Delete?
    ensures Replay(base + more).Some?
    ensures var was, row := Replay(base).value, Replay(base + more).value;
            && row.correctTotal == was.correctTotal + multiset(Answers(more))[true]
            && row.wrongTotal == was.wrongTotal + multiset(Answers(more))[false]
  {
    if more == [] {
      assert base + more == base;
    } else {
      var before, e := more[..|more| - 1], more[|more| - 1];
      assert more == before + [e] && base + more == (base + before) + [e];
      TotalsMove(base, before);
      AnswersMore(base + before, e);
      AnswersMore(before, e);
      ApplyMoves(Replay(base + before).value, e);
    }
  }

  /** The latest upsert of a life. */
  ghost predicate LastUpsert(life: seq<Event>, u: nat) {
    u < |life| && life[u].Upsert? && forall k | u < k < |life| :: !life[k].Upsert?
  }

  /** The answer at `k` brought the streak to its threshold. */
  ghost predicate ReachesThreshold(life: seq<Event>, k: nat) {
    k < |life| && life[k].Correct? && StreakOf(Answers(life[..k + 1])) >= life[k].threshold
  }

  /** Mastered if an answer since the upsert at `u` reached its threshold, else as set there. */
  ghost predicate IsStatusSince(life: seq<Event>, u: nat, status: WordStatus)
    requires u < |life| && life[u].Upsert?
  {
    if exists k :: u < k < |life| && ReachesThreshold(life, k) then status == Mastered else status == life[u].status
  }

  lemma StatusMore(shorter: seq<Event>, e: Event, u: nat, before: Row, after: Row)
    requires LastUpsert(shorter, u) && IsStatusSince(shorter, u, before.status)
    requires Apply(Some(before), e) == Some(after) && !e.Upsert?
    requires after.correctStreak == StreakOf(Answers(shorter + [e]))
    ensures LastUpsert(shorter + [e], u) && IsStatusSince(shorter + [e], u, after.status)
  {
    var life, n := shorter + [e], |shorter|;
    forall k: nat | k < n
      ensures ReachesThreshold(life, k) <==> ReachesThreshold(shorter, k)
    {
      assert life[..k + 1] == shorter[..k + 1];
    }
    assert life[..n + 1] == life;
    assert ReachesThreshold(life, n) <==> e.Correct? && after.correctStreak >= e.threshold;
  }

  /** A row is mastered exactly when it was last set so, or when an answer since then brought
      the streak to its threshold; otherwise it has the status it was last set to. */
  lemma {:induction false} StatusSinceLastUpsert(h: seq<Event>) returns (u: nat)
    requires Life(h).Some?
    ensures Replay(h).Some? && LastUpsert(Life(h).value, u)
    ensures IsStatusSince(Life(h).value, u, Replay(h).value.status)
  {
    CountersCountAnswers(h);
    var before, e := h[..|h| - 1], h[|h| - 1];
    if Life(before).None? || e.Upsert? {
      u := |Life(h).value| - 1;
    } else {
      u := StatusSinceLastUpsert(before);
      StatusMore(Life(before).value, e, u, Replay(before).value, Replay(h).value);
    }
  }

  /** A row set to mastered by its owner is reported as mastered by every later correct answer, and
      no wrong answer or further correct one before makes that a flip. */
  lemma {:induction false} OwnersMasteryNeverFlips(h: seq<Event>, threshold: int)
    requires h != [] && h[0] == Upsert(Mastered)
    requires forall k | 0 < k < |h| :: h[k].Correct? || h[k].Wrong?
    ensures IsMastered(Replay(h)) && IsMastered(Apply(Replay(h), Correct(threshold)))
  {
    if |h| > 1 {
      OwnersMasteryNeverFlips(h[..|h| - 1], threshold);
    } else {
      assert h[..0] == [];
    }
  }

  ghost predicate IsMastered(row: Option<Row>) {
    row.Some? && row.value.status == Mastered
  }

  /** Once mastered, a word stops being so only by an upsert or a deletion in between. */
  lemma {:induction false} MasteryLasts(h: seq<Event>, i: nat, j: nat) returns (k: nat)
    requires i <= j <= |h|
    requires IsMastered(Replay(h[..i])) && !IsMastered(Replay(h[..j]))
    ensures i <= k < j && (h[k].Upsert? || h[k].Delete?)
    decreases j
  {
    k := j - 1;
    assert h[..j][..k] == h[..k];
    if IsMastered(Replay(h[..k])) {
      assert Apply(Replay(h[..k]), h[k]) == Replay(h[..j]);
    } else {
      k := MasteryLasts(h, i, j - 1);
    }
  }
}
