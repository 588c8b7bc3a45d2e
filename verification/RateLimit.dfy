/** The per-user token bucket in front of the URL pipeline (`telegram/ratelimit.go`).
    Time is in nanoseconds; a bucket counts the nanoseconds of refill it holds, so one token
    is `refill` of them and nothing is rounded. */
module RateLimit {
  import opened Options

  const SECOND: int := 1_000_000_000

  datatype Config = Config(capacity: int, refill: int) {
    predicate Enabled() {
      capacity > 0 && refill > 0
    }

    function Full(): int {
      capacity * refill
    }
  }

  datatype Bucket = Bucket(tokens: int, last: int)
  datatype Verdict = Verdict(ok: bool, retryAfter: int)
  datatype Call = Call(user: int, now: int)
  type Buckets = map<int, Bucket>

  function Lookup(buckets: Buckets, user: int): Option<Bucket> {
    if user in buckets then Some(buckets[user]) else None
  }

  /** What a user's bucket holds at `now`, before any token is taken. */
  function Level(c: Config, b: Option<Bucket>, now: int): int {
    match b
    case None => c.Full()
    case Some(Bucket(tokens, last)) =>
      if now > last then (if tokens + (now - last) > c.Full() then c.Full() else tokens + (now - last))
      else tokens
  }

  /** Rounded up to whole seconds. */
  function RoundUp(wait: int): int {
    if wait % SECOND != 0 then wait + (SECOND - wait % SECOND) else wait
  }

  /** One call on all buckets: the answer and the buckets afterwards. */
  function Step(c: Config, buckets: Buckets, call: Call): (Verdict, Buckets) {
    if !c.Enabled() then (Verdict(true, 0), buckets)
    else
      var level := Level(c, Lookup(buckets, call.user), call.now);
      if level >= c.refill
      then (Verdict(true, 0), buckets[call.user := Bucket(level - c.refill, call.now)])
      else (Verdict(false, RoundUp(c.refill - level)), buckets[call.user := Bucket(level, call.now)])
  }

  function After(c: Config, buckets: Buckets, calls: seq<Call>): Buckets
    decreases |calls|
  {
    if calls == [] then buckets else After(c, Step(c, buckets, calls[0]).1, calls[1..])
  }

  /** How many of a user's calls are allowed. */
  function Allowed(c: Config, buckets: Buckets, calls: seq<Call>, user: int): nat
    decreases |calls|
  {
    if calls == [] then 0
    else
      var (verdict, next) := Step(c, buckets, calls[0]);
      (if calls[0].user == user && verdict.ok then 1 else 0) + Allowed(c, next, calls[1..], user)
  }

  class URLRateLimiter {
    const config: Config
    var buckets: Buckets

    constructor (capacity: int, window: int)
      ensures buckets == map[]
      ensures config.capacity == capacity
      ensures config.Enabled() <==> capacity > 0 && window >= capacity
      ensures capacity > 0 && window > 0 ==> config.Full() <= window < config.Full() + capacity
    {
      buckets := map[];
      config := Config(capacity, if capacity > 0 && window > 0 then window / capacity else 0);
      new;
      if capacity > 0 && window > 0 {
        assert window == capacity * (window / capacity) + window % capacity;
        if window / capacity <= 0 {
          assert capacity * (window / capacity) <= 0;
        }
      }
    }

    method Allow(user: int, now: int) returns (ok: bool, retryAfter: int)
      modifies this
      ensures (Verdict(ok, retryAfter), buckets) == Step(config, old(buckets), Call(user, now))
    {
      if config.capacity <= 0 || config.refill <= 0 {
        return true, 0;
      }
      var b: Bucket;
      if user !in buckets {
        b := Bucket(config.capacity * config.refill, now);
      } else {
        b := buckets[user];
        var elapsed := now - b.last;
        if elapsed > 0 {
          b := b.(tokens := b.tokens + elapsed);
          if b.tokens > config.capacity * config.refill {
            b := b.(tokens := config.capacity * config.refill);
          }
        }
        b := b.(last := now);
      }
      if b.tokens >= config.refill {
        buckets := buckets[user := b.(tokens := b.tokens - config.refill)];
        return true, 0;
      }
      buckets := buckets[user := b];
      var missing := config.refill - b.tokens;
      retryAfter := missing;
      var rem := retryAfter % SECOND;
      if rem != 0 {
        retryAfter := retryAfter + (SECOND - rem);
      }
      ok := false;
    }
  }

  ghost predicate Sound(c: Config, buckets: Buckets) {
    forall u | u in buckets :: 0 <= buckets[u].tokens <= c.Full()
  }

  lemma StepKeepsSound(c: Config, buckets: Buckets, call: Call)
    requires c.Enabled() && Sound(c, buckets)
    ensures Sound(c, Step(c, buckets, call).1)
  {
    assert c.Full() >= 0;
  }

  lemma {:induction false} AfterKeepsSound(c: Config, buckets: Buckets, calls: seq<Call>)
    requires c.Enabled() && Sound(c, buckets)
    ensures Sound(c, After(c, buckets, calls))
    decreases |calls|
  {
    if calls != [] {
      StepKeepsSound(c, buckets, calls[0]);
      AfterKeepsSound(c, Step(c, buckets, calls[0]).1, calls[1..]);
    }
  }

  /** How far the clock moves forward, in all, between a user's calls. */
  function Climb(calls: seq<Call>, user: int, last: Option<int>): nat {
    if calls == [] then 0
    else if calls[0].user != user then Climb(calls[1..], user, last)
    else
      (if last.Some? && calls[0].now > last.value then calls[0].now - last.value else 0)
      + Climb(calls[1..], user, Some(calls[0].now))
  }

  lemma {:induction false} AllowedWithinLevel(c: Config, buckets: Buckets, calls: seq<Call>, user: int)
    requires c.Enabled() && Sound(c, buckets) && user in buckets
    ensures Allowed(c, buckets, calls, user) * c.refill
            <= buckets[user].tokens + Climb(calls, user, Some(buckets[user].last))
    decreases |calls|
  {
    if calls != [] {
      var (verdict, next) := Step(c, buckets, calls[0]);
      StepKeepsSound(c, buckets, calls[0]);
      AllowedWithinLevel(c, next, calls[1..], user);
      OneMore(Allowed(c, next, calls[1..], user), c.refill);
    }
  }

  lemma OneMore(n: int, d: int)
    ensures (1 + n) * d == d + n * d && (0 + n) * d == n * d
  {
  }

  /** Whatever the clock does and whatever other users do, a user's allowed calls are paid for
      by one full bucket and by the time that passes between the calls. */
  lemma {:induction false} AllowedWithinClimb(c: Config, buckets: Buckets, calls: seq<Call>, user: int)
    requires c.Enabled() && Sound(c, buckets)
    ensures Allowed(c, buckets, calls, user) * c.refill <= c.Full() + Climb(calls, user, None)
    decreases |calls|
  {
    if calls == [] {
      assert c.Full() >= 0;
    } else {
      var (verdict, next) := Step(c, buckets, calls[0]);
      StepKeepsSound(c, buckets, calls[0]);
      OneMore(Allowed(c, next, calls[1..], user), c.refill);
      if calls[0].user == user {
        AllowedWithinLevel(c, next, calls[1..], user);
      } else {
        AllowedWithinClimb(c, next, calls[1..], user);
      }
    }
  }

  ghost predicate Steady(calls: seq<Call>) {
    forall i, j | 0 <= i < j < |calls| :: calls[i].now <= calls[j].now
  }

  /** Between calls of a steady clock no more time passes than from the first to the last. */
  lemma {:induction false} ClimbOfSteady(calls: seq<Call>, user: int, last: Option<int>, from: int, to: int)
    requires Steady(calls) && from <= to
    requires forall i | 0 <= i < |calls| :: from <= calls[i].now <= to
    requires last.Some? ==> from == last.value
    ensures Climb(calls, user, last) <= to - from
    decreases calls
  {
    if calls != [] {
      if calls[0].user == user {
        ClimbOfSteady(calls[1..], user, Some(calls[0].now), calls[0].now, to);
      } else {
        ClimbOfSteady(calls[1..], user, last, from, to);
      }
    }
  }

  /** In any window of any run of a steady clock, a user gets at most the capacity and one call
      more for each refill time that fits into the window. */
  lemma WindowBound(c: Config, buckets: Buckets, calls: seq<Call>, i: nat, j: nat, length: nat, user: int)
    requires c.Enabled() && Sound(c, buckets) && Steady(calls)
    requires i <= j <= |calls| && (i < j ==> calls[j - 1].now - calls[i].now <= length)
    ensures Allowed(c, After(c, buckets, calls[..i]), calls[i..j], user) <= c.capacity + length / c.refill
  {
    var start, window := After(c, buckets, calls[..i]), calls[i..j];
    var n := Allowed(c, start, window, user);
    if i < j {
      AfterKeepsSound(c, buckets, calls[..i]);
      AllowedWithinClimb(c, start, window, user);
      ClimbOfSteady(window, user, None, calls[i].now, calls[j - 1].now);
      WholeRefills(n, c.capacity, c.refill, length);
    }
  }

  lemma WholeRefills(n: int, capacity: int, refill: int, length: nat)
    requires refill > 0 && n * refill <= capacity * refill + length
    ensures n <= capacity + length / refill
  {
    var q := length / refill;
    assert length < q * refill + refill;
    assert n * refill < (capacity + q + 1) * refill;
    LessFromProducts(n, capacity + q + 1, refill);
  }

  lemma LessFromProducts(a: int, b: int, d: int)
    requires d > 0 && a * d < b * d
    ensures a < b
  {
    assert (b - a) * d > 0;
  }

  /** The clock must be steady: one that jumps back a minute and forward again refills a bucket
      that should be empty. Only a clock put in from outside does that: the default one is monotonic
      within a process. */
  lemma UnsteadyClockRefills()
    ensures var c := Config(1, 60 * SECOND);
            var calls := [Call(1, 60 * SECOND), Call(1, 0), Call(1, 60 * SECOND)];
            Allowed(c, map[], calls, 1) == 2 > c.capacity + 0 / c.refill
  {
    var c := Config(1, 60 * SECOND);
    var a, b, d := Call(1, 60 * SECOND), Call(1, 0), Call(1, 60 * SECOND);
    var s1 := Step(c, map[], a).1;
    var s2 := Step(c, s1, b).1;
    assert [a, b, d][1..] == [b, d] && [b, d][1..] == [d] && [d][1..] == [];
    assert Allowed(c, Step(c, s2, d).1, [], 1) == 0;
    assert Allowed(c, s2, [d], 1) == 1;
    assert Allowed(c, s1, [b, d], 1) == 1;
  }

  /** A denial names a positive number of whole seconds: the fewest that cover what is missing. */
  lemma DenialWait(c: Config, buckets: Buckets, call: Call)
    requires c.Enabled() && Sound(c, buckets)
    requires !Step(c, buckets, call).0.ok
    ensures var wait := Step(c, buckets, call).0.retryAfter;
            var missing := c.refill - Step(c, buckets, call).1[call.user].tokens;
            && 0 < wait <= RoundUp(c.refill)
            && wait % SECOND == 0
            && wait - SECOND < missing <= wait
  {
    var missing := c.refill - Level(c, Lookup(buckets, call.user), call.now);
    assert c.Full() >= 0;
    RoundUpLeast(missing);
    RoundUpLeast(c.refill);
    RoundUpMonotone(missing, c.refill);
  }

  lemma RoundUpLeast(d: int)
    ensures RoundUp(d) % SECOND == 0 && RoundUp(d) - SECOND < d <= RoundUp(d)
  {
    var q, r := d / SECOND, d % SECOND;
    assert d == q * SECOND + r;
    if r != 0 {
      assert RoundUp(d) == (q + 1) * SECOND;
    }
  }

  lemma RoundUpMonotone(a: int, b: int)
    requires a <= b
    ensures RoundUp(a) <= RoundUp(b)
  {
    RoundUpLeast(a);
    RoundUpLeast(b);
  }

  /** While a user is denied, the bucket holds exactly what it held plus the time passed. */
  lemma {:induction false} DeniedTracksTime(c: Config, buckets: Buckets, calls: seq<Call>, user: int, now: int)
    requires c.Enabled() && user in buckets && buckets[user].tokens < c.refill
    requires Steady(calls) && forall i | 0 <= i < |calls| :: buckets[user].last <= calls[i].now <= now
    requires buckets[user].last <= now
    requires Allowed(c, buckets, calls, user) == 0
    ensures var b := After(c, buckets, calls);
            && user in b
            && b[user].tokens - b[user].last == buckets[user].tokens - buckets[user].last
            && b[user].last <= now
    decreases |calls|
  {
    if calls != [] {
      var next := Step(c, buckets, calls[0]).1;
      assert c.Full() >= c.refill;
      DeniedTracksTime(c, next, calls[1..], user, now);
    }
  }

  /** A user denied at `denial.now` who comes back after the announced wait is let in, whoever
      else calls meanwhile and however often the user is denied again before. */
  lemma RetryAfterWaitIsAllowed(c: Config, buckets: Buckets, denial: Call, calls: seq<Call>, now: int)
    requires c.Enabled() && Sound(c, buckets)
    requires var (verdict, next) := Step(c, buckets, denial);
             && !verdict.ok
             && Allowed(c, next, calls, denial.user) == 0
             && now >= denial.now + verdict.retryAfter
    requires Steady(calls) && forall i | 0 <= i < |calls| :: denial.now <= calls[i].now <= now
    ensures Step(c, After(c, Step(c, buckets, denial).1, calls), Call(denial.user, now)).0.ok
  {
    var next := Step(c, buckets, denial).1;
    DenialWait(c, buckets, denial);
    DeniedTracksTime(c, next, calls, denial.user, now);
    LevelReaches(c, After(c, next, calls)[denial.user], now);
  }

  lemma LevelReaches(c: Config, b: Bucket, now: int)
    requires c.Enabled() && b.last <= now && b.tokens + (now - b.last) >= c.refill
    ensures Level(c, Some(b), now) >= c.refill
  {
    assert c.Full() >= c.refill;
  }

  /** And one second earlier it is still too early: every call of that user up to then is denied. */
  lemma RetryTooEarlyIsDenied(c: Config, buckets: Buckets, denial: Call, calls: seq<Call>)
    requires c.Enabled() && Sound(c, buckets) && !Step(c, buckets, denial).0.ok
    requires Steady(calls)
    requires forall i | 0 <= i < |calls| ::
               denial.now <= calls[i].now <= denial.now + Step(c, buckets, denial).0.retryAfter - SECOND
    ensures Allowed(c, Step(c, buckets, denial).1, calls, denial.user) == 0
  {
    var (verdict, next) := Step(c, buckets, denial);
    DenialWait(c, buckets, denial);
    NoneBeforeRefill(c, next, calls, denial.user, denial.now + verdict.retryAfter - SECOND);
  }

  lemma {:induction false} NoneBeforeRefill(c: Config, buckets: Buckets, calls: seq<Call>, user: int, to: int)
    requires c.Enabled() && user in buckets && buckets[user].tokens < c.refill
    requires Steady(calls) && forall i | 0 <= i < |calls| :: buckets[user].last <= calls[i].now <= to
    requires to - buckets[user].last < c.refill - buckets[user].tokens
    ensures Allowed(c, buckets, calls, user) == 0
    decreases |calls|
  {
    if calls != [] {
      assert c.Full() >= c.refill;
      NoneBeforeRefill(c, Step(c, buckets, calls[0]).1, calls[1..], user, to);
    }
  }

  // ----- exactly which calls are denied -----

  /** The answer to the `k`-th call of a run that starts without any buckets. */
  function VerdictAt(c: Config, calls: seq<Call>, k: nat): Verdict
    requires k < |calls|
  {
    Step(c, After(c, map[], calls[..k]), calls[k]).0
  }

  /** How many of a user's calls from the `j`-th up to, but without, the `k`-th are allowed. */
  function AllowedIn(c: Config, calls: seq<Call>, j: nat, k: nat, user: int): nat
    requires k <= |calls|
  {
    if k <= j then 0
    else
      AllowedIn(c, calls, j, k - 1, user)
      + if calls[k - 1].user == user && VerdictAt(c, calls, k - 1).ok then 1 else 0
  }

  /** Letting the `k`-th call through would put more calls into the window that starts with the
      user's `j`-th one than the capacity and the whole refills of its length. */
  ghost predicate Overfills(c: Config, calls: seq<Call>, j: nat, k: nat)
    requires j < k < |calls| && c.Enabled()
  {
    && calls[j].user == calls[k].user
    && AllowedIn(c, calls, j, k, calls[k].user) + 1 > c.capacity + (calls[k].now - calls[j].now) / c.refill
  }

  lemma {:induction false} AfterSnoc(c: Config, buckets: Buckets, calls: seq<Call>, call: Call)
    ensures After(c, buckets, calls + [call]) == Step(c, After(c, buckets, calls), call).1
    decreases |calls|
  {
    if calls == [] {
      assert [] + [call] == [call] && [call][1..] == [];
    } else {
      assert (calls + [call])[1..] == calls[1..] + [call];
      AfterSnoc(c, Step(c, buckets, calls[0]).1, calls[1..], call);
    }
  }

  lemma AfterNext(c: Config, calls: seq<Call>, k: nat)
    requires k < |calls|
    ensures After(c, map[], calls[..k + 1]) == Step(c, After(c, map[], calls[..k]), calls[k]).1
  {
    assert calls[..k + 1] == calls[..k] + [calls[k]];
    AfterSnoc(c, map[], calls[..k], calls[k]);
  }

  /** What the window from the `j`-th call leaves for its user, in nanoseconds of refill, at `now`. */
  function Room(c: Config, calls: seq<Call>, j: nat, k: nat, user: int, now: int): int
    requires j < k <= |calls|
  {
    c.Full() + now - calls[j].now - AllowedIn(c, calls, j, k, user) * c.refill
  }

  /** A bucket holds what the tightest window leaves. */
  ghost predicate IsTightest(c: Config, calls: seq<Call>, k: nat, user: int, level: int, now: int)
    requires k <= |calls|
  {
    && (forall j | 0 <= j < k && calls[j].user == user :: level <= Room(c, calls, j, k, user, now))
    && (exists j | 0 <= j < k && calls[j].user == user :: level == Room(c, calls, j, k, user, now))
  }

  ghost predicate BucketIsTightest(c: Config, calls: seq<Call>, k: nat, user: int)
    requires k <= |calls|
  {
    var buckets := After(c, map[], calls[..k]);
    if user in buckets then
      && IsTightest(c, calls, k, user, buckets[user].tokens, buckets[user].last)
      && (forall j | 0 <= j < k :: calls[j].user == user ==> calls[j].now <= buckets[user].last)
      && (k > 0 ==> buckets[user].last <= calls[k - 1].now)
    else forall j | 0 <= j < k :: calls[j].user != user
  }

  /** One more call of that user moves every window alike. */
  lemma RoomNext(c: Config, calls: seq<Call>, j: nat, k: nat, user: int, last: int)
    requires j < k < |calls| && calls[k].user == user
    ensures Room(c, calls, j, k + 1, user, calls[k].now)
            == Room(c, calls, j, k, user, last) + (calls[k].now - last)
               - if VerdictAt(c, calls, k).ok then c.refill else 0
  {
    OneMore(AllowedIn(c, calls, j, k, user), c.refill);
  }

  lemma RoomStart(c: Config, calls: seq<Call>, k: nat, user: int)
    requires k < |calls| && calls[k].user == user
    ensures Room(c, calls, k, k + 1, user, calls[k].now) == c.Full() - if VerdictAt(c, calls, k).ok then c.refill else 0
  {
    assert AllowedIn(c, calls, k, k, user) == 0;
  }

  lemma RoomOfOthers(c: Config, calls: seq<Call>, k: nat, user: int, now: int)
    requires k < |calls| && calls[k].user != user
    ensures forall j | 0 <= j < k :: Room(c, calls, j, k + 1, user, now) == Room(c, calls, j, k, user, now)
  {
  }

  /** `level` is the least of the rooms that count. */
  ghost predicate IsLeast(rooms: seq<int>, own: seq<bool>, level: int)
    requires |own| == |rooms|
  {
    && (forall j | 0 <= j < |rooms| && own[j] :: level <= rooms[j])
    && (exists j :: 0 <= j < |rooms| && own[j] && level == rooms[j])
  }

  /** The least of some rooms that all move alike, and of a new one. */
  lemma LeastMoves(before: seq<int>, own: seq<bool>, after: seq<int>, tokens: int, moved: int, start: int)
    requires |own| == |before| && IsLeast(before, own, tokens)
    requires |after| == |before| + 1 && after[|before|] == start
    requires forall j | 0 <= j < |before| :: after[j] == before[j] + moved
    ensures IsLeast(after, own + [true], if tokens + moved > start then start else tokens + moved)
  {
    var owns := own + [true];
    var i :| 0 <= i < |before| && own[i] && tokens == before[i];
    assert owns[i] && after[i] == tokens + moved;
    assert owns[|before|] && after[|before|] == start;
  }

  function Owns(calls: seq<Call>, k: nat, user: int): seq<bool>
    requires k <= |calls|
  {
    seq(k, j requires 0 <= j < k => calls[j].user == user)
  }

  function Rooms(c: Config, calls: seq<Call>, k: nat, user: int, now: int): seq<int>
    requires k <= |calls|
  {
    seq(k, j requires 0 <= j < k => Room(c, calls, j, k, user, now))
  }

  /** What a call costs its user's bucket. */
  function Cost(c: Config, calls: seq<Call>, k: nat): int
    requires k < |calls|
  {
    if VerdictAt(c, calls, k).ok then c.refill else 0
  }

  lemma OwnRoomsMove(c: Config, calls: seq<Call>, k: nat, user: int, last: int)
    requires k < |calls| && calls[k].user == user
    ensures var before, after := Rooms(c, calls, k, user, last), Rooms(c, calls, k + 1, user, calls[k].now);
            && (forall j | 0 <= j < k :: after[j] == before[j] + (calls[k].now - last - Cost(c, calls, k)))
            && after[k] == c.Full() - Cost(c, calls, k)
  {
    RoomStart(c, calls, k, user);
    forall j | 0 <= j < k
      ensures Room(c, calls, j, k + 1, user, calls[k].now)
              == Room(c, calls, j, k, user, last) + (calls[k].now - last - Cost(c, calls, k))
    {
      RoomNext(c, calls, j, k, user, last);
    }
  }

  lemma TightestIsLeast(c: Config, calls: seq<Call>, k: nat, user: int, level: int, now: int)
    requires k <= |calls|
    ensures IsTightest(c, calls, k, user, level, now)
            <==> IsLeast(Rooms(c, calls, k, user, now), Owns(calls, k, user), level)
  {
    var rooms, own := Rooms(c, calls, k, user, now), Owns(calls, k, user);
    assert forall j | 0 <= j < k :: rooms[j] == Room(c, calls, j, k, user, now) && own[j] == (calls[j].user == user);
    if IsTightest(c, calls, k, user, level, now) {
      var j :| 0 <= j < k && calls[j].user == user && level == Room(c, calls, j, k, user, now);
      assert own[j] && level == rooms[j];
    }
    if IsLeast(rooms, own, level) {
      var j :| 0 <= j < k && own[j] && level == rooms[j];
      assert calls[j].user == user && level == Room(c, calls, j, k, user, now);
    }
  }

  /** What a call of the user leaves in the bucket. */
  lemma OwnCallLevel(c: Config, calls: seq<Call>, k: nat)
    requires c.Enabled() && k < |calls|
    ensures var user, now := calls[k].user, calls[k].now;
            var before, after := After(c, map[], calls[..k]), After(c, map[], calls[..k + 1]);
            && user in after && after[user].last == now
            && after[user].tokens == Level(c, Lookup(before, user), now) - Cost(c, calls, k)
  {
    AfterNext(c, calls, k);
  }

  lemma FirstCallIsTightest(c: Config, calls: seq<Call>, k: nat, user: int)
    requires c.Enabled() && k < |calls| && calls[k].user == user
    requires user !in After(c, map[], calls[..k]) && forall j | 0 <= j < k :: calls[j].user != user
    ensures var after := After(c, map[], calls[..k + 1]);
            user in after && IsTightest(c, calls, k + 1, user, after[user].tokens, calls[k].now)
  {
    OwnCallLevel(c, calls, k);
    RoomStart(c, calls, k, user);
    assert After(c, map[], calls[..k + 1])[user].tokens == Room(c, calls, k, k + 1, user, calls[k].now);
  }

  /** A refilled bucket holds what was left and the time since, up to the capacity. */
  lemma LevelOf(c: Config, b: Bucket, now: int)
    requires b.last <= now && b.tokens <= c.Full()
    ensures Level(c, Some(b), now)
            == if b.tokens + (now - b.last) > c.Full() then c.Full() else b.tokens + (now - b.last)
  {
  }

  lemma NextCallIsTightest(c: Config, calls: seq<Call>, k: nat, user: int, b: Bucket)
    requires c.Enabled() && k < |calls| && calls[k].user == user
    requires Lookup(After(c, map[], calls[..k]), user) == Some(b)
    requires b.last <= calls[k].now && b.tokens <= c.Full() && IsTightest(c, calls, k, user, b.tokens, b.last)
    ensures var after := After(c, map[], calls[..k + 1]);
            user in after && IsTightest(c, calls, k + 1, user, after[user].tokens, calls[k].now)
  {
    var now := calls[k].now;
    var before, after := Rooms(c, calls, k, user, b.last), Rooms(c, calls, k + 1, user, now);
    OwnCallLevel(c, calls, k);
    var own, level := Owns(calls, k, user), After(c, map[], calls[..k + 1])[user].tokens;
    LevelOf(c, b, now);
    OwnRoomsMove(c, calls, k, user, b.last);
    TightestIsLeast(c, calls, k, user, b.tokens, b.last);
    LeastMoves(before, own, after, b.tokens, now - b.last - Cost(c, calls, k), c.Full() - Cost(c, calls, k));
    assert Owns(calls, k + 1, user) == own + [true];
    TightestIsLeast(c, calls, k + 1, user, level, now);
  }

  /** A user's call leaves the bucket at what the tightest window leaves after it. */
  lemma OwnCallIsTightest(c: Config, calls: seq<Call>, k: nat, user: int)
    requires c.Enabled() && Steady(calls) && k < |calls| && calls[k].user == user
    requires BucketIsTightest(c, calls, k, user)
    ensures BucketIsTightest(c, calls, k + 1, user)
  {
    var before := After(c, map[], calls[..k]);
    OwnCallLevel(c, calls, k);
    if user in before {
      AfterKeepsSound(c, map[], calls[..k]);
      NextCallIsTightest(c, calls, k, user, before[user]);
    } else {
      FirstCallIsTightest(c, calls, k, user);
    }
  }

  lemma OtherCallIsTightest(c: Config, calls: seq<Call>, k: nat, user: int)
    requires c.Enabled() && Steady(calls) && k < |calls| && calls[k].user != user
    requires BucketIsTightest(c, calls, k, user)
    ensures BucketIsTightest(c, calls, k + 1, user)
  {
    var before := After(c, map[], calls[..k]);
    AfterNext(c, calls, k);
    if user in before {
      var b := before[user];
      RoomOfOthers(c, calls, k, user, b.last);
      var j :| 0 <= j < k && calls[j].user == user && b.tokens == Room(c, calls, j, k, user, b.last);
      assert b.tokens == Room(c, calls, j, k + 1, user, b.last);
    }
  }

  lemma {:induction false} BucketsAreTightest(c: Config, calls: seq<Call>, k: nat, user: int)
    requires c.Enabled() && Steady(calls) && k <= |calls|
    ensures BucketIsTightest(c, calls, k, user)
  {
    if k > 0 {
      BucketsAreTightest(c, calls, k - 1, user);
      if calls[k - 1].user == user {
        OwnCallIsTightest(c, calls, k - 1, user);
      } else {
        OtherCallIsTightest(c, calls, k - 1, user);
      }
    }
  }

  lemma OverfillsIff(n: nat, capacity: int, refill: int, length: nat)
    requires refill > 0
    ensures n + 1 > capacity + length / refill <==> capacity * refill + length - n * refill < refill
  {
    var q := length / refill;
    var x := capacity + q - n - 1;
    assert x * refill == capacity * refill + q * refill - n * refill - refill by {
      Spread(capacity, q, n, refill);
    }
    SignOfMultiple(x, refill, length % refill);
  }

  lemma Spread(capacity: int, q: int, n: int, refill: int)
    ensures (capacity + q - n - 1) * refill == capacity * refill + q * refill - n * refill - refill
  {
  }

  lemma SignOfMultiple(x: int, refill: int, rest: int)
    requires 0 <= rest < refill
    ensures x * refill + rest < 0 <==> x < 0
  {
    if x < 0 {
      assert x * refill <= -refill;
    } else {
      assert x * refill >= 0;
    }
  }

  lemma OverfillsRoom(c: Config, calls: seq<Call>, j: nat, k: nat)
    requires c.Enabled() && Steady(calls) && j < k < |calls| && calls[j].user == calls[k].user
    ensures Overfills(c, calls, j, k) <==> Room(c, calls, j, k, calls[k].user, calls[k].now) < c.refill
  {
    OverfillsIff(AllowedIn(c, calls, j, k, calls[k].user), c.capacity, c.refill, calls[k].now - calls[j].now);
  }

  /** A call is denied exactly if the bucket, refilled, holds less than a token. */
  lemma DeniedByLevel(c: Config, calls: seq<Call>, k: nat)
    requires c.Enabled() && Steady(calls) && k < |calls|
    requires BucketIsTightest(c, calls, k, calls[k].user)
    ensures var before, user := After(c, map[], calls[..k]), calls[k].user;
            VerdictAt(c, calls, k).ok
            <==> user !in before || before[user].tokens + (calls[k].now - before[user].last) >= c.refill
  {
    assert c.Full() >= c.refill;
  }

  lemma RoomLater(c: Config, calls: seq<Call>, j: nat, k: nat, user: int, early: int, late: int)
    requires j < k <= |calls|
    ensures Room(c, calls, j, k, user, late) == Room(c, calls, j, k, user, early) + (late - early)
  {
  }

  /** Over any run of a steady clock that starts without buckets, a call is denied exactly if
      letting it through would overfill some window of its user's calls that ends with it. So the
      bound of a window is reached whenever a user asks often enough. */
  lemma DeniedIff(c: Config, calls: seq<Call>, k: nat)
    requires c.Enabled() && Steady(calls) && k < |calls|
    ensures !VerdictAt(c, calls, k).ok <==> exists j :: 0 <= j < k && Overfills(c, calls, j, k)
  {
    var user, now := calls[k].user, calls[k].now;
    BucketsAreTightest(c, calls, k, user);
    DeniedByLevel(c, calls, k);
    var before := After(c, map[], calls[..k]);
    if user in before {
      var b := before[user];
      forall j | 0 <= j < k && calls[j].user == user
        ensures Overfills(c, calls, j, k) <==> Room(c, calls, j, k, user, b.last) + (now - b.last) < c.refill
      {
        OverfillsRoom(c, calls, j, k);
        RoomLater(c, calls, j, k, user, b.last, now);
      }
      var i :| 0 <= i < k && calls[i].user == user && b.tokens == Room(c, calls, i, k, user, b.last);
      assert Overfills(c, calls, i, k) <==> b.tokens + (now - b.last) < c.refill;
    }
  }

  /** How many calls a user makes from the `j`-th call of the run up to the `k`-th. */
  function CallsOf(calls: seq<Call>, j: nat, k: nat, user: int): nat
    requires k <= |calls|
  {
    if k <= j then 0 else CallsOf(calls, j, k - 1, user) + if calls[k - 1].user == user then 1 else 0
  }

  lemma {:induction false} AllowedInAtMostCalls(c: Config, calls: seq<Call>, j: nat, k: nat, user: int)
    requires k <= |calls|
    ensures AllowedIn(c, calls, j, k, user) <= CallsOf(calls, j, k, user) <= CallsOf(calls, 0, k, user)
  {
    if k > j {
      AllowedInAtMostCalls(c, calls, j, k - 1, user);
    }
  }

  /** The first `capacity` calls of a user are allowed, however fast they come. */
  lemma FirstCallsAllowed(c: Config, calls: seq<Call>, k: nat)
    requires c.Enabled() && Steady(calls) && k < |calls|
    requires CallsOf(calls, 0, k, calls[k].user) < c.capacity
    ensures VerdictAt(c, calls, k).ok
  {
    DeniedIff(c, calls, k);
    forall j | 0 <= j < k
      ensures !Overfills(c, calls, j, k)
    {
      FewCallsDoNotOverfill(c, calls, j, k);
    }
  }

  lemma FewCallsDoNotOverfill(c: Config, calls: seq<Call>, j: nat, k: nat)
    requires c.Enabled() && Steady(calls) && j < k < |calls|
    requires CallsOf(calls, 0, k, calls[k].user) < c.capacity
    ensures !Overfills(c, calls, j, k)
  {
    AllowedInAtMostCalls(c, calls, j, k, calls[k].user);
    NoLessThanZero(calls[k].now - calls[j].now, c.refill);
  }

  lemma NoLessThanZero(length: int, refill: int)
    requires length >= 0 && refill > 0
    ensures length / refill >= 0
  {
  }
}
