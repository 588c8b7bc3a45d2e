/** The parking lot for over-long articles (`articles/pending_store.go`): items wait for their
    owner until a deadline; every call first sweeps out what has expired. */
module PendingStore {

  const DEFAULT_PENDING_TTL: int := 600_000_000_000

  datatype Item<T> = Item(user: int, body: T, expiresAt: int)
  type Items<T> = map<string, Item<T>>

  /** The calls on a store; `id` of a `Put` is the fresh id the call returns. */
  datatype Op<T> =
    | Put(id: string, user: int, body: T, now: int)
    | Take(id: string, user: int, now: int)
    | Size(now: int)

  datatype Reply<T> = Parked | Taken(body: T) | Refused | Counted(n: nat)

  function Sweep<T>(items: Items<T>, now: int): Items<T> {
    map id | id in items && now <= items[id].expiresAt :: items[id]
  }

  function Step<T>(ttl: int, items: Items<T>, op: Op<T>): (Reply<T>, Items<T>) {
    var live := Sweep(items, op.now);
    match op
    case Put(id, user, body, now) => (Parked, live[id := Item(user, body, now + ttl)])
    case Take(id, user, now) =>
      if id in live && live[id].user == user then (Taken(live[id].body), live - {id}) else (Refused, live)
    case Size(now) => (Counted(|live|), live)
  }

  class PendingStore<T> {
    var items: Items<T>
    const ttl: int

    constructor (ttl: int)
      ensures items == map[]
      ensures this.ttl == (if ttl <= 0 then DEFAULT_PENDING_TTL else ttl) > 0
    {
      items := map[];
      this.ttl := if ttl <= 0 then DEFAULT_PENDING_TTL else ttl;
    }

    /** The sweep visits the items in no particular order and deletes as it goes. */
    method GcLocked(now: int)
      modifies this
      ensures items == Sweep(old(items), now)
    {
      var left := items.Keys;
      while left != {}
        invariant left <= items.Keys <= old(items).Keys
        invariant forall id | id in items :: items[id] == old(items)[id]
        invariant forall id | id in old(items) && id !in left :: id in items <==> now <= old(items)[id].expiresAt
        decreases |left|
      {
        var id :| id in left;
        left := left - {id};
        if now > items[id].expiresAt {
          items := items - {id};
        }
      }
    }

    method Put(id: string, user: int, body: T, now: int)
      modifies this
      ensures (Parked, items) == Step(ttl, old(items), Op.Put(id, user, body, now))
    {
      GcLocked(now);
      items := items[id := Item(user, body, now + ttl)];
    }

    method Take(id: string, user: int, now: int) returns (reply: Reply<T>)
      modifies this
      ensures (reply, items) == Step(ttl, old(items), Op.Take(id, user, now))
    {
      GcLocked(now);
      if id !in items {
        return Refused;
      }
      var item := items[id];
      if item.user != user {
        return Refused;
      }
      items := items - {id};
      return Taken(item.body);
    }

    method Size(now: int) returns (n: nat)
      modifies this
      ensures (Counted(n), items) == Step(ttl, old(items), Op.Size(now))
    {
      GcLocked(now);
      return |items|;
    }
  }

  /** The store after a run of calls on an empty one. */
  function After<T>(ttl: int, ops: seq<Op<T>>): Items<T> {
    if ops == [] then map[] else Step(ttl, After(ttl, ops[..|ops| - 1]), ops[|ops| - 1]).1
  }

  function ReplyTo<T>(ttl: int, ops: seq<Op<T>>, op: Op<T>): Reply<T> {
    Step(ttl, After(ttl, ops), op).0
  }

  ghost predicate Steady<T>(ops: seq<Op<T>>) {
    forall i, j | 0 <= i < j < |ops| :: ops[i].now <= ops[j].now
  }

  ghost predicate FreshIds<T>(ops: seq<Op<T>>) {
    forall i, j | 0 <= i < j < |ops| && ops[i].Put? && ops[j].Put? :: ops[i].id != ops[j].id
  }

  predicate Claims<T>(take: Op<T>, put: Op<T>) {
    take.Take? && put.Put? && take.id == put.id && take.user == put.user
  }

  /** The `i`-th call parked `id`, and its owner has not asked for it since. */
  ghost predicate ParkedAt<T>(ops: seq<Op<T>>, i: nat, id: string) {
    && i < |ops| && ops[i].Put? && ops[i].id == id
    && forall j | i < j < |ops| :: !Claims(ops[j], ops[i])
  }

  ghost predicate LiveAt<T>(ttl: int, ops: seq<Op<T>>, i: nat, id: string, now: int) {
    ParkedAt(ops, i, id) && now <= ops[i].now + ttl
  }

  /** The item the `i`-th call parked. */
  function ItemOf<T>(ttl: int, put: Op<T>): Item<T>
    requires put.Put?
  {
    Item(put.user, put.body, put.now + ttl)
  }

  /** The store holds nothing but items its history says are parked and not expired, ... */
  ghost predicate OnlyHistory<T>(ttl: int, items: Items<T>, ops: seq<Op<T>>, now: int) {
    forall id | id in items :: exists i: nat :: LiveAt(ttl, ops, i, id, now) && items[id] == ItemOf(ttl, ops[i])
  }

  /** ... and all of them. */
  ghost predicate AllHistory<T>(ttl: int, items: Items<T>, ops: seq<Op<T>>, now: int) {
    forall i: nat, id | LiveAt(ttl, ops, i, id, now) :: id in items && items[id] == ItemOf(ttl, ops[i])
  }

  lemma ParkedAfter<T>(before: seq<Op<T>>, op: Op<T>, i: nat, id: string)
    ensures ParkedAt(before + [op], i, id)
            <==> (if i < |before| then ParkedAt(before, i, id) && !Claims(op, before[i])
                  else i == |before| && op.Put? && op.id == id)
  {
    var ops := before + [op];
    assert ops[|before|] == op && forall j | 0 <= j < |before| :: ops[j] == before[j];
  }

  lemma StepKeepsOnly<T>(ttl: int, items: Items<T>, before: seq<Op<T>>, op: Op<T>)
    requires ttl >= 0 && OnlyHistory(ttl, Sweep(items, op.now), before, op.now)
    ensures OnlyHistory(ttl, Step(ttl, items, op).1, before + [op], op.now)
  {
    var live, next, ops := Sweep(items, op.now), Step(ttl, items, op).1, before + [op];
    forall id | id in next
      ensures exists i: nat :: LiveAt(ttl, ops, i, id, op.now) && next[id] == ItemOf(ttl, ops[i])
    {
      if op.Put? && op.id == id {
        ParkedAfter(before, op, |before|, id);
        assert LiveAt(ttl, ops, |before|, id, op.now);
      } else {
        assert id in live;
        var i: nat :| LiveAt(ttl, before, i, id, op.now) && live[id] == ItemOf(ttl, before[i]);
        ParkedAfter(before, op, i, id);
        assert LiveAt(ttl, ops, i, id, op.now);
      }
    }
  }

  lemma StepKeepsAll<T>(ttl: int, items: Items<T>, before: seq<Op<T>>, op: Op<T>)
    requires FreshIds(before + [op]) && AllHistory(ttl, Sweep(items, op.now), before, op.now)
    ensures AllHistory(ttl, Step(ttl, items, op).1, before + [op], op.now)
  {
    var next, ops := Step(ttl, items, op).1, before + [op];
    forall i: nat, id | LiveAt(ttl, ops, i, id, op.now)
      ensures id in next && next[id] == ItemOf(ttl, ops[i])
    {
      ParkedAfter(before, op, i, id);
      if i < |before| {
        assert ops[i] == before[i] && ops[|before|] == op;
        assert LiveAt(ttl, before, i, id, op.now);
      }
    }
  }

  lemma SweepKeepsHistory<T>(ttl: int, items: Items<T>, ops: seq<Op<T>>, swept: int, now: int)
    requires OnlyHistory(ttl, items, ops, swept) && AllHistory(ttl, items, ops, swept) && swept <= now
    ensures OnlyHistory(ttl, Sweep(items, now), ops, now) && AllHistory(ttl, Sweep(items, now), ops, now)
  {
    forall id | id in Sweep(items, now)
      ensures exists i: nat :: LiveAt(ttl, ops, i, id, now) && items[id] == ItemOf(ttl, ops[i])
    {
      var i: nat :| LiveAt(ttl, ops, i, id, swept) && items[id] == ItemOf(ttl, ops[i]);
      assert LiveAt(ttl, ops, i, id, now);
    }
    forall i: nat, id | LiveAt(ttl, ops, i, id, now)
      ensures id in Sweep(items, now) && items[id] == ItemOf(ttl, ops[i])
    {
      assert LiveAt(ttl, ops, i, id, swept);
    }
  }

  lemma {:induction false} StoreIsHistory<T>(ttl: int, ops: seq<Op<T>>, now: int)
    requires ttl >= 0 && Steady(ops) && FreshIds(ops)
    requires ops != [] ==> ops[|ops| - 1].now <= now
    ensures OnlyHistory(ttl, Sweep(After(ttl, ops), now), ops, now)
    ensures AllHistory(ttl, Sweep(After(ttl, ops), now), ops, now)
    decreases |ops|
  {
    if ops != [] {
      var before, op := ops[..|ops| - 1], ops[|ops| - 1];
      assert before + [op] == ops;
      StoreIsHistory(ttl, before, op.now);
      StepKeepsOnly(ttl, After(ttl, before), before, op);
      StepKeepsAll(ttl, After(ttl, before), before, op);
      SweepKeepsHistory(ttl, After(ttl, ops), ops, op.now, now);
    }
  }

  /** Over any run with fresh ids, a `Take` succeeds exactly when that user parked that id, has
      not claimed it since, and the deadline has not passed; it then returns what was parked. */
  lemma TakeSucceedsIff<T>(ttl: int, ops: seq<Op<T>>, id: string, user: int, body: T, now: int)
    requires ttl >= 0 && Steady(ops) && FreshIds(ops)
    requires ops != [] ==> ops[|ops| - 1].now <= now
    ensures ReplyTo(ttl, ops, Take(id, user, now)) == Taken(body)
            <==> exists i: nat :: LiveAt(ttl, ops, i, id, now) && ops[i].user == user && ops[i].body == body
  {
    StoreIsHistory(ttl, ops, now);
    var live := Sweep(After(ttl, ops), now);
    if id in live {
      var i: nat :| LiveAt(ttl, ops, i, id, now) && live[id] == ItemOf(ttl, ops[i]);
    }
  }

  /** No parked item is handed out twice. */
  lemma TakenAtMostOnce<T>(ttl: int, ops: seq<Op<T>>, j: nat, k: nat)
    requires ttl >= 0 && Steady(ops) && FreshIds(ops) && j < k < |ops|
    requires ops[j].Take? && ops[k].Take? && ops[j].id == ops[k].id
    requires ReplyTo(ttl, ops[..j], ops[j]).Taken?
    ensures ReplyTo(ttl, ops[..k], ops[k]) == Refused
  {
    var first, second := ReplyTo(ttl, ops[..j], ops[j]), ReplyTo(ttl, ops[..k], ops[k]);
    var id, user := ops[k].id, ops[k].user;
    TakeSucceedsIff(ttl, ops[..j], id, ops[j].user, first.body, ops[j].now);
    var a: nat :| LiveAt(ttl, ops[..j], a, id, ops[j].now) && ops[..j][a].user == ops[j].user;
    forall body
      ensures second != Taken(body)
    {
      TakeSucceedsIff(ttl, ops[..k], id, user, body, ops[k].now);
      forall b: nat
        ensures !LiveAt(ttl, ops[..k], b, id, ops[k].now)
      {
        ClaimedIsNotParked(ops, a, j, k, b);
      }
    }
  }

  lemma ClaimedIsNotParked<T>(ops: seq<Op<T>>, a: nat, j: nat, k: nat, b: nat)
    requires FreshIds(ops) && a < j < k < |ops| && Claims(ops[j], ops[a])
    ensures !ParkedAt(ops[..k], b, ops[j].id)
  {
    if b == a {
      assert Claims(ops[..k][j], ops[..k][b]);
    }
  }

  /** `Size` counts exactly the ids that are parked and not expired. */
  lemma SizeCountsParked<T>(ttl: int, ops: seq<Op<T>>, now: int)
    requires ttl >= 0 && Steady(ops) && FreshIds(ops)
    requires ops != [] ==> ops[|ops| - 1].now <= now
    ensures ReplyTo(ttl, ops, Size(now))
            == Counted(|set i: nat | i < |ops| && ops[i].Put? && LiveAt(ttl, ops, i, ops[i].id, now) :: ops[i].id|)
  {
    StoreIsHistory(ttl, ops, now);
    var live := Sweep(After(ttl, ops), now);
    var ids := set i: nat | i < |ops| && ops[i].Put? && LiveAt(ttl, ops, i, ops[i].id, now) :: ops[i].id;
    forall id | id in live
      ensures id in ids
    {
      var i: nat :| LiveAt(ttl, ops, i, id, now);
    }
    assert live.Keys == ids;
  }

  /** The simple store: nothing is swept, and a lookup checks the deadline itself. */
  function LazyStep<T>(ttl: int, items: Items<T>, op: Op<T>): (Reply<T>, Items<T>) {
    match op
    case Put(id, user, body, now) => (Parked, items[id := Item(user, body, now + ttl)])
    case Take(id, user, now) =>
      if id in items && now <= items[id].expiresAt && items[id].user == user
      then (Taken(items[id].body), items - {id})
      else (Refused, items)
    case Size(now) => (Counted(|Sweep(items, now)|), items)
  }

  function LazyAfter<T>(ttl: int, ops: seq<Op<T>>): Items<T> {
    if ops == [] then map[] else LazyStep(ttl, LazyAfter(ttl, ops[..|ops| - 1]), ops[|ops| - 1]).1
  }

  lemma SweepTwice<T>(items: Items<T>, early: int, late: int)
    requires early <= late
    ensures Sweep(Sweep(items, early), late) == Sweep(items, late)
  {
  }

  /** One call takes stores that look alike once swept to stores that look alike once swept. */
  lemma StepsAgree<T>(ttl: int, swept: Items<T>, lazy: Items<T>, op: Op<T>)
    requires Sweep(swept, op.now) == Sweep(lazy, op.now)
    ensures Sweep(Step(ttl, swept, op).1, op.now) == Sweep(LazyStep(ttl, lazy, op).1, op.now)
    ensures Step(ttl, swept, op).0 == LazyStep(ttl, lazy, op).0
  {
    var live := Sweep(lazy, op.now);
    assert forall id :: id in lazy && op.now <= lazy[id].expiresAt <==> id in live;
    assert Sweep(live, op.now) == live;
  }

  lemma {:induction false} SweptIsLazySwept<T>(ttl: int, ops: seq<Op<T>>, now: int)
    requires Steady(ops) && (ops != [] ==> ops[|ops| - 1].now <= now)
    ensures Sweep(After(ttl, ops), now) == Sweep(LazyAfter(ttl, ops), now)
    decreases |ops|
  {
    if ops != [] {
      var before, op := ops[..|ops| - 1], ops[|ops| - 1];
      SweptIsLazySwept(ttl, before, op.now);
      StepsAgree(ttl, After(ttl, before), LazyAfter(ttl, before), op);
      SweepTwice(After(ttl, ops), op.now, now);
      SweepTwice(LazyAfter(ttl, ops), op.now, now);
    }
  }

  /** Sweeping cannot be observed: every call is answered as the simple store answers it. */
  lemma SweepingIsUnobservable<T>(ttl: int, ops: seq<Op<T>>, op: Op<T>)
    requires Steady(ops) && (ops != [] ==> ops[|ops| - 1].now <= op.now)
    ensures ReplyTo(ttl, ops, op) == LazyStep(ttl, LazyAfter(ttl, ops), op).0
  {
    SweptIsLazySwept(ttl, ops, op.now);
    StepsAgree(ttl, After(ttl, ops), LazyAfter(ttl, ops), op);
  }
}
