/** The agent's write-ahead queue (internal/client/wqueue/wqueue.go): enqueue, oldest-first eligible
    listing, backoff and dead-lettering.  Times are in nanoseconds. */
module WriteQueue {
  import opened Outcomes
  import Keyset

  const MAX_ATTEMPTS := 12

  const SECOND := 1_000_000_000

  // ---------------------------------------------------------------- backoff

  const BASE := 2 * SECOND
  const CAP := 1800 * SECOND

  const MIN_INT64 := -0x8000_0000_0000_0000
  const MAX_INT64 := 0x7FFF_FFFF_FFFF_FFFF

  function Pow2(n: nat): nat { if n == 0 then 1 else 2 * Pow2(n - 1) }

  /** int64(math.Pow(2, e)): exact while it fits; out of range the result depends on the processor. */
  function Converted(e: nat, saturates: bool): int {
    if e < 63 then Pow2(e) else if saturates then MAX_INT64 else MIN_INT64
  }

  /** Two's-complement overflow of an int64 product. */
  function Wrapped(x: int): int { (x + 0x8000_0000_0000_0000) % 0x1_0000_0000_0000_0000 - 0x8000_0000_0000_0000 }

  function BackoffFor(attempts: int, saturates: bool): int {
    var n := if attempts < 1 then 1 else attempts;
    var d := Wrapped(Converted(n - 1, saturates) * BASE);
    if d > CAP || d <= 0 then CAP else d
  }

  /** The schedule as documented: 2s, 4s, 8s, ... capped at thirty minutes. */
  function Delay(attempts: nat): int {
    (if attempts <= 10 then Pow2(attempts) else 1800) * SECOND
  }

  lemma {:induction false} Pow2Splits(m: nat, n: nat)
    ensures Pow2(m + n) == Pow2(m) * Pow2(n)
  {
    if m > 0 {
      Pow2Splits(m - 1, n);
      DoubledFactor(Pow2(m - 1), Pow2(n));
    }
  }

  lemma DoubledFactor(a: int, b: int)
    ensures (2 * a) * b == 2 * (a * b)
  {
  }

  lemma {:induction false} Pow2Ascends(m: nat, n: nat)
    requires m <= n
    ensures 1 <= Pow2(m) <= Pow2(n)
    decreases n
  {
    if m < n { Pow2Ascends(m, n - 1); } else if m > 0 { Pow2Ascends(m - 1, m - 1); }
  }

  lemma Powers()
    ensures Pow2(10) == 1024 && Pow2(33) == 0x2_0000_0000
  {
    assert Pow2(5) == 32;
    assert Pow2(10) == 1024;
    Pow2Splits(10, 10);
    Pow2Splits(20, 10);
    assert Pow2(33) == 8 * Pow2(30);
  }

  lemma WrapsNothing(x: int)
    requires MIN_INT64 <= x <= MAX_INT64
    ensures Wrapped(x) == x
  {
  }

  /** Products that fit are not touched. */
  lemma SmallProduct(e: nat)
    requires e <= 32
    ensures Wrapped(Pow2(e) * BASE) == Pow2(e) * BASE
  {
    hide Pow2, Wrapped;
    Powers();
    Pow2Ascends(e, 33);
    PowerDoubles(e, 33);
    WrapsNothing(Pow2(e) * BASE);
  }

  lemma PowerDoubles(m: nat, n: nat)
    requires m < n
    ensures 2 * Pow2(m) <= Pow2(n)
  {
    Pow2Ascends(m + 1, n);
  }

  /** A multiple of 2^43 wraps to a multiple of 2^43: negative, zero, or beyond the cap. */
  lemma WrappedMultiple(q: int)
    ensures var w := Wrapped(0x800_0000_0000 * q); w <= 0 || w > CAP
  {
    var x := 0x800_0000_0000 * q;
    var k := (x + 0x8000_0000_0000_0000) / 0x1_0000_0000_0000_0000;
    assert Wrapped(x) == 0x800_0000_0000 * (q - 0x20_0000 * k);
  }

  lemma LargeProduct(e: nat)
    requires 33 <= e < 63
    ensures var w := Wrapped(Pow2(e) * BASE); w <= 0 || w > CAP
  {
    hide Pow2, Wrapped;
    Powers();
    Pow2Splits(33, e - 33);
    var p := Pow2(e - 33);
    assert Pow2(e) == 0x2_0000_0000 * p;
    assert Pow2(e) * BASE == 0x800_0000_0000 * (1_953_125 * p);
    WrappedMultiple(1_953_125 * p);
  }

  /** Out of range the product is -2 or 0 modulo 2^64, times a billion: never a delay. */
  lemma HugeProduct(saturates: bool)
    ensures Wrapped((if saturates then MAX_INT64 else MIN_INT64) * BASE) <= 0
  {
  }

  /** Despite 64-bit overflow and out-of-range conversion, of either kind, the delay is as documented. */
  lemma BackoffIsTheSchedule(attempts: int, saturates: bool)
    ensures BackoffFor(attempts, saturates) == Delay(if attempts < 1 then 1 else attempts)
  {
    hide Pow2, Wrapped;
    var n: nat := if attempts < 1 then 1 else attempts;
    if n <= 33 {
      SmallProduct(n - 1);
      SmallDelay(n);
    } else if n <= 63 {
      LargeProduct(n - 1);
    } else {
      HugeProduct(saturates);
    }
  }

  lemma SmallDelay(n: nat)
    requires 1 <= n <= 33
    ensures Pow2(n) == 2 * Pow2(n - 1) && Pow2(n - 1) >= 1
    ensures n <= 10 ==> Pow2(n) <= 1024
    ensures n > 10 ==> Pow2(n - 1) >= 1024
  {
    Powers();
    Pow2Ascends(n - 1, n - 1);
    if n <= 10 { Pow2Ascends(n, 10); } else { Pow2Ascends(10, n - 1); }
  }

  // ---------------------------------------------------------------- the queue

  datatype Item = Item(kind: string, payload: string, attempts: nat, createdAt: int, nextAt: int,
                       lastError: string, dead: bool)

  /** AUTOINCREMENT ids are never given out again. */
  datatype State = State(rows: map<nat, Item>, nextId: nat)

  datatype Listed = Listed(id: nat, item: Item)

  datatype Error = InvalidKind

  predicate ValidKind(kind: string) { kind == "usage" || kind == "proposal" }

  function Fresh(kind: string, payload: string, now: int): Item { Item(kind, payload, 0, now, 0, "", false) }

  function Enqueued(q: State, kind: string, payload: string, now: int): State {
    State(q.rows[q.nextId := Fresh(kind, payload, now)], q.nextId + 1)
  }

  predicate Due(item: Item, now: int) { !item.dead && item.nextAt <= now }

  function EligibleIndex(q: State, now: int): Keyset.Table<Listed> {
    map id | id in q.rows && Due(q.rows[id], now) :: [id as int] := Listed(id, q.rows[id])
  }

  function Limit(limit: int): (n: nat)
    ensures n > 0
  {
    if limit <= 0 then 50 else limit
  }

  /** WHERE dead = 0 AND next_attempt_at <= now ORDER BY id LIMIT n */
  function NextEligible(q: State, now: int, limit: int): seq<Listed> {
    var index := EligibleIndex(q, now);
    Keyset.Rows(index, Keyset.Scan(index.Keys, [], Limit(limit)))
  }

  /** A failed attempt on top of so many: count it, and either give up or wait. */
  function FailedAfter(item: Item, attempts: nat, now: int, message: string): Item {
    var n := attempts + 1;
    if n >= MAX_ATTEMPTS then item.(attempts := n, lastError := message, dead := true)
    else item.(attempts := n, nextAt := now + Delay(n), lastError := message)
  }

  function Failed(item: Item, now: int, message: string): Item { FailedAfter(item, item.attempts, now, message) }

  /** The UPDATE of MarkAttempt, with the count its SELECT has read. */
  function Written(q: State, id: nat, attempts: nat, now: int, message: string): State {
    if id in q.rows then q.(rows := q.rows[id := FailedAfter(q.rows[id], attempts, now, message)]) else q
  }

  /** MarkAttempt as a whole: a row deleted meanwhile is left deleted. */
  function Marked(q: State, id: nat, now: int, message: string): State {
    if id in q.rows then Written(q, id, q.rows[id].attempts, now, message) else q
  }

  function Deleted(q: State, id: nat): State { q.(rows := q.rows - {id}) }

  function Live(q: State): set<nat> { set id | id in q.rows && !q.rows[id].dead }

  function Purged(q: State, all: bool): State {
    q.(rows := if all then map[] else q.rows - (q.rows.Keys - Live(q)))
  }

  class Queue {
    const saturates: bool
    var rows: map<nat, Item>
    var nextId: nat

    constructor (saturates: bool)
      ensures this.saturates == saturates && Value() == State(map[], 1)
    {
      this.saturates, rows, nextId := saturates, map[], 1;
    }

    function Value(): State
      reads this
    {
      State(rows, nextId)
    }

    method Enqueue(kind: string, payload: string, now: int) returns (r: Result<nat, Error>)
      modifies this
      ensures r == if ValidKind(kind) then Ok(old(nextId)) else Err(InvalidKind)
      ensures Value() == if ValidKind(kind) then Enqueued(old(Value()), kind, payload, now) else old(Value())
      ensures r.Ok? <==> kind == "usage" || kind == "proposal"
      ensures r.Ok? ==> r.value == old(nextId) && nextId == old(nextId) + 1 && rows.Keys == old(rows).Keys + {r.value}
      ensures r.Ok? ==> rows[r.value] == Item(kind, payload, 0, now, 0, "", false)
      ensures forall id | id in old(rows) && id < old(nextId) :: rows[id] == old(rows)[id]
      ensures r.Err? ==> rows == old(rows) && nextId == old(nextId)
    {
      if !ValidKind(kind) { return Err(InvalidKind); }
      var id := nextId;
      rows := rows[id := Item(kind, payload, 0, now, 0, "", false)];
      nextId := id + 1;
      r := Ok(id);
    }

    /** Counts live items. */
    method Depth() returns (n: nat)
      ensures n == |Live(Value())|
    {
      var live := set id | id in rows && !rows[id].dead;
      assert live == Live(Value());
      n := |live|;
    }

    method MarkAttempt(id: nat, now: int, message: string)
      modifies this
      ensures Value() == Marked(old(Value()), id, now, message)
      ensures nextId == old(nextId) && rows.Keys == old(rows).Keys
      ensures forall other | other in rows && other != id :: rows[other] == old(rows)[other]
      ensures id in rows ==>
        var was, item := old(rows)[id], rows[id];
        && (item.kind, item.payload, item.createdAt) == (was.kind, was.payload, was.createdAt)
        && item.attempts == was.attempts + 1 && item.lastError == message
        && (item.dead <==> was.dead || was.attempts >= 11)
        && item.nextAt == if was.attempts >= 11 then was.nextAt else now + Delay(item.attempts)
    {
      if id !in rows { return; }
      var attempts := rows[id].attempts;
      attempts := attempts + 1;
      if attempts >= MAX_ATTEMPTS {
        rows := rows[id := rows[id].(attempts := attempts, lastError := message, dead := true)];
        return;
      }
      BackoffIsTheSchedule(attempts, saturates);
      var next := now + BackoffFor(attempts, saturates);
      rows := rows[id := rows[id].(attempts := attempts, nextAt := next, lastError := message)];
    }

    method Delete(id: nat)
      modifies this
      ensures Value() == Deleted(old(Value()), id)
    {
      rows := rows - {id};
    }

    /** Returns how many rows went; without `all` it is the dead ones, whatever `deadOnly` says. */
    method Purge(deadOnly: bool, all: bool) returns (n: nat)
      modifies this
      ensures Value() == Purged(old(Value()), all)
      ensures nextId == old(nextId) && forall id :: id in rows <==> id in old(rows) && !all && !old(rows)[id].dead
      ensures forall id | id in rows :: rows[id] == old(rows)[id]
      ensures n == |old(rows)| - |rows|
    {
      var doomed := if all then rows.Keys else set id | id in rows && rows[id].dead;
      assert !all ==> doomed == rows.Keys - Live(Value());
      assert rows.Keys == (rows - doomed).Keys + doomed;
      n := |doomed|;
      rows := rows - doomed;
    }
  }

  // ---------------------------------------------------------------- what the listing means

  predicate Before(a: nat, b: nat) { a < b }

  ghost predicate OldestFirst(page: seq<Listed>) {
    forall i, j | 0 <= i < j < |page| :: Before(page[i].id, page[j].id)
  }

  ghost predicate OnPage(page: seq<Listed>, id: nat) { exists i | 0 <= i < |page| :: page[i].id == id }

  /** What NextEligible returns, without reference to how it is found: due items, oldest first, at most
      `limit`, and an item is only left out behind a full page of older ones. */
  lemma NextEligibleMeans(q: State, now: int, limit: int)
    ensures var page := NextEligible(q, now, limit);
            var max := if limit > 0 then limit else 50;
            && |page| <= max
            && OldestFirst(page)
            && (forall it | it in page ::
                  it.id in q.rows && q.rows[it.id] == it.item && !it.item.dead && it.item.nextAt <= now && Due(it.item, now))
            && (forall id | id in q.rows && !q.rows[id].dead && q.rows[id].nextAt <= now && !OnPage(page, id) ::
                  |page| == max && forall it | it in page :: Before(it.id, id))
  {
    hide Keyset.Scan, Keyset.ScanAll, Keyset.Less;
    var index := EligibleIndex(q, now);
    var ks, all := Keyset.Scan(index.Keys, [], Limit(limit)), Keyset.ScanAll(index.Keys, []);
    Keyset.ScanIsPrefix(index.Keys, [], Limit(limit));
    Keyset.ScanAllIsSortedRest(index.Keys, []);
    var page := NextEligible(q, now, limit);
    forall i | 0 <= i < |page| ensures ks[i] == all[i] == [page[i].id as int] && OnPage(page, page[i].id) {}
    forall i, j | 0 <= i < j < |page| ensures Before(page[i].id, page[j].id) { SingletonLess(page[i].id, page[j].id); }
    forall id | id in q.rows && Due(q.rows[id], now) && !OnPage(page, id)
      ensures |page| == Limit(limit) && forall it | it in page :: Before(it.id, id)
    {
      EmptyIsLess([id as int]);
      assert [id as int] in index;
      var n :| 0 <= n < |all| && all[n] == [id as int];
      assert n >= |page|;
      forall it | it in page ensures Before(it.id, id) {
        var i :| 0 <= i < |page| && page[i] == it;
        SingletonLess(it.id, id);
      }
    }
  }

  lemma SingletonLess(a: nat, b: nat)
    ensures Keyset.Less([a as int], [b as int]) <==> a < b
  {
  }

  lemma EmptyIsLess(k: Keyset.Key)
    requires k != []
    ensures Keyset.Less([], k)
  {
  }

  /** Rows stay below the next id, and an item is dead exactly when its attempts are used up. */
  ghost predicate QueueOk(q: State) {
    forall id | id in q.rows ::
      && id < q.nextId
      && ValidKind(q.rows[id].kind)
      && (q.rows[id].dead <==> q.rows[id].attempts >= MAX_ATTEMPTS)
  }

  lemma QueueStaysOk(q: State, kind: string, payload: string, id: nat, now: int, message: string, all: bool)
    requires QueueOk(q)
    ensures ValidKind(kind) ==> QueueOk(Enqueued(q, kind, payload, now))
    ensures QueueOk(Marked(q, id, now, message))
    ensures QueueOk(Deleted(q, id))
    ensures QueueOk(Purged(q, all))
    ensures Live(Purged(q, false)) == Live(q)
  {
  }

  /** What holds also when other statements come between MarkAttempt's read and its write: a live item
      has attempts left. */
  ghost predicate BooksOk(q: State) {
    forall id | id in q.rows ::
      && id < q.nextId
      && ValidKind(q.rows[id].kind)
      && (q.rows[id].attempts >= MAX_ATTEMPTS ==> q.rows[id].dead)
  }

  lemma BooksStayOk(q: State, kind: string, payload: string, id: nat, attempts: nat, now: int, message: string, all: bool)
    requires BooksOk(q)
    ensures ValidKind(kind) ==> BooksOk(Enqueued(q, kind, payload, now))
    ensures BooksOk(Written(q, id, attempts, now, message))
    ensures BooksOk(Deleted(q, id))
    ensures BooksOk(Purged(q, all))
  {
    hide Delay;
  }

  /** A late write breaks "dead exactly after twelve" exactly when it puts a lower count on a row that
      somebody else has given up meanwhile. */
  lemma LateWriteKeepsQueueOkIff(q: State, id: nat, attempts: nat, now: int, message: string)
    requires QueueOk(q) && id in q.rows
    ensures BooksOk(q)
    ensures QueueOk(Written(q, id, attempts, now, message)) <==> (q.rows[id].dead ==> attempts + 1 >= MAX_ATTEMPTS)
  {
    hide Delay;
    var r := Written(q, id, attempts, now, message);
    assert r.rows[id].attempts == attempts + 1;
    assert forall j | j in q.rows && j != id :: r.rows[j] == q.rows[j];
  }

  /** A new row is live and due from the beginning of time, so the first drain takes it whatever the clock. */
  lemma EnqueuedMeans(q: State, kind: string, payload: string, now: int)
    requires QueueOk(q)
    ensures var r := Enqueued(q, kind, payload, now);
            && r.nextId == q.nextId + 1 && r.rows.Keys == q.rows.Keys + {q.nextId}
            && (forall id | id in q.rows :: r.rows[id] == q.rows[id])
            && (var item := r.rows[q.nextId];
                && item.kind == kind && item.payload == payload && item.createdAt == now && item.attempts == 0
                && item.lastError == "" && !item.dead && item.nextAt <= 0)
  {
  }

  // ---------------------------------------------------------------- the life of an item

  datatype Failure = Failure(at: int, message: string)

  /** An item after a series of failed attempts. */
  function Battered(item: Item, failures: seq<Failure>): Item {
    if failures == [] then item
    else
      var f := failures[|failures| - 1];
      Failed(Battered(item, failures[..|failures| - 1]), f.at, f.message)
  }

  /** Every attempt is made while the item is alive and no earlier than scheduled. */
  ghost predicate OnSchedule(item: Item, failures: seq<Failure>) {
    forall i | 0 <= i < |failures| :: Due(Battered(item, failures[..i]), failures[i].at)
  }

  /** The waiting that `n` failures add up to. */
  function Waiting(n: nat): int { if n == 0 then 0 else Waiting(n - 1) + Delay(n) }

  lemma OnSchedulePrefix(item: Item, failures: seq<Failure>)
    requires OnSchedule(item, failures) && failures != []
    ensures OnSchedule(item, failures[..|failures| - 1])
    ensures Due(Battered(item, failures[..|failures| - 1]), failures[|failures| - 1].at)
  {
    var front := failures[..|failures| - 1];
    forall i | 0 <= i < |front| ensures Due(Battered(item, front[..i]), front[i].at) {
      assert front[..i] == failures[..i];
    }
  }

  lemma FailedMeans(item: Item, now: int, message: string)
    requires !item.dead && item.attempts < MAX_ATTEMPTS
    ensures var end := Failed(item, now, message);
            && (end.kind, end.payload, end.createdAt) == (item.kind, item.payload, item.createdAt)
            && end.attempts == item.attempts + 1 && end.lastError == message
            && (end.dead <==> end.attempts == MAX_ATTEMPTS)
            && (!end.dead ==> end.nextAt == now + Delay(end.attempts))
  {
    hide Delay;
  }

  /** A new item fails at most twelve times, is dead exactly after the twelfth, and its failures are
      spread over at least the scheduled waiting. */
  lemma {:induction false} LifeOfAnItem(item: Item, failures: seq<Failure>)
    requires item.attempts == 0 && !item.dead && OnSchedule(item, failures)
    ensures var n := |failures|;
            var end := Battered(item, failures);
            && n <= MAX_ATTEMPTS && end.attempts == n
            && (end.dead <==> n == MAX_ATTEMPTS)
            && (0 < n < MAX_ATTEMPTS ==> end.nextAt == failures[n - 1].at + Delay(n))
            && (0 < n ==> failures[n - 1].at - failures[0].at >= Waiting(n - 1))
  {
    hide Delay, Failed, OnSchedule;
    if failures != [] {
      var n := |failures|;
      OnSchedulePrefix(item, failures);
      LifeOfAnItem(item, failures[..n - 1]);
      FailedMeans(Battered(item, failures[..n - 1]), failures[n - 1].at, failures[n - 1].message);
    }
  }

  lemma FullWaiting()
    ensures Waiting(11) == 3846 * SECOND
  {
    Powers();
    assert Delay(1) == 2 * SECOND && Delay(2) == 4 * SECOND && Delay(3) == 8 * SECOND && Delay(4) == 16 * SECOND;
    assert Pow2(5) == 32 && Pow2(6) == 64 && Pow2(7) == 128 && Pow2(8) == 256 && Pow2(9) == 512;
    assert Waiting(4) == 30 * SECOND;
    assert Waiting(8) == 510 * SECOND;
    assert Waiting(11) == Waiting(8) + Delay(9) + Delay(10) + Delay(11);
  }

  /** An item is given up only at its twelfth failure, at least 64 minutes and 6 seconds after its first. */
  lemma DeadLetteredNoSoonerThan(item: Item, failures: seq<Failure>)
    requires item.attempts == 0 && !item.dead && OnSchedule(item, failures) && Battered(item, failures).dead
    ensures |failures| == 12 && failures[11].at - failures[0].at >= 3846 * SECOND
  {
    hide Battered, OnSchedule, Waiting;
    LifeOfAnItem(item, failures);
    FullWaiting();
  }

  /** Failures made at the first moment the schedule allows. */
  function Punctual(start: int, n: nat): (fs: seq<Failure>)
    ensures |fs| == n
  {
    if n == 0 then [] else Punctual(start, n - 1) + [Failure(start + Waiting(n - 1), "")]
  }

  lemma NextIsDue(item: Item, start: int, n: nat)
    requires item.attempts == 0 && !item.dead && item.nextAt <= start && 0 < n <= MAX_ATTEMPTS
    requires OnSchedule(item, Punctual(start, n - 1))
    ensures Due(Battered(item, Punctual(start, n - 1)), start + Waiting(n - 1))
  {
    hide Delay, Failed, OnSchedule, Punctual;
    LifeOfAnItem(item, Punctual(start, n - 1));
    if n > 1 { PunctualAt(start, n - 1); } else { assert Punctual(start, 0) == []; }
  }

  lemma OnScheduleSnoc(item: Item, front: seq<Failure>, f: Failure)
    requires OnSchedule(item, front) && Due(Battered(item, front), f.at)
    ensures OnSchedule(item, front + [f])
  {
    hide Due, Battered;
    var fs := front + [f];
    forall i | 0 <= i < |fs| ensures Due(Battered(item, fs[..i]), fs[i].at) {
      if i < |front| { assert fs[..i] == front[..i]; } else { assert fs[..i] == front; }
    }
  }

  lemma {:induction false} PunctualIsOnSchedule(item: Item, start: int, n: nat)
    requires item.attempts == 0 && !item.dead && item.nextAt <= start && n <= MAX_ATTEMPTS
    ensures OnSchedule(item, Punctual(start, n))
  {
    hide OnSchedule, Battered, Waiting, Due;
    if n > 0 {
      PunctualIsOnSchedule(item, start, n - 1);
      NextIsDue(item, start, n);
      OnScheduleSnoc(item, Punctual(start, n - 1), Failure(start + Waiting(n - 1), ""));
    } else {
      NothingIsOnSchedule(item);
    }
  }

  lemma NothingIsOnSchedule(item: Item)
    ensures OnSchedule(item, [])
  {
  }

  /** The bound is met: an item that fails as early as it may is dead 3846 seconds after its first failure. */
  lemma DeadLetteringBoundIsMet(item: Item, start: int)
    requires item.attempts == 0 && !item.dead && item.nextAt <= start
    ensures var fs := Punctual(start, 12);
            && OnSchedule(item, fs) && Battered(item, fs).dead
            && fs[11].at - fs[0].at == 3846 * SECOND
  {
    hide OnSchedule, Battered, Waiting, Due, Punctual;
    PunctualIsOnSchedule(item, start, 12);
    LifeOfAnItem(item, Punctual(start, 12));
    PunctualAt(start, 12);
    FullWaiting();
  }

  lemma {:induction false} PunctualAt(start: int, n: nat)
    requires n > 0
    ensures Punctual(start, n)[0].at == start
    ensures Punctual(start, n)[n - 1].at == start + Waiting(n - 1)
  {
    if n > 1 { PunctualAt(start, n - 1); }
  }
}
