/** The two actors on the write queue: the background drainer (internal/client/drainer.go) and the
    in-line attempt of a tool call (internal/mcp/wqueue_helper.go), and what they note about
    connectivity (internal/client/connectivity.go). */
module Drainer {
  import opened Outcomes
  import opened WriteQueue
  import Keyset

  datatype Contact = Contact(lastSuccess: Option<int>, lastFailure: Option<int>, lastError: string) {
    /** Go's zero time is before every other. */
    predicate Online() {
      lastFailure == None || (lastSuccess.Some? && lastFailure.value <= lastSuccess.value)
    }

    function Success(now: int): Contact { Contact(Some(now), lastFailure, "") }

    function Failure(now: int, message: string): Contact { Contact(lastSuccess, Some(now), message) }
  }

  class Connectivity {
    var contact: Contact

    constructor ()
      ensures contact == Contact(None, None, "") && contact.Online()
    {
      contact := Contact(None, None, "");
    }

    method NoteSuccess(now: int)
      modifies this
      ensures contact == old(contact).Success(now)
    {
      contact := contact.(lastSuccess := Some(now), lastError := "");
    }

    method NoteFailure(now: int, message: string)
      modifies this
      ensures contact == old(contact).Failure(now, message)
    {
      contact := contact.(lastFailure := Some(now), lastError := message);
    }
  }

  /** The error of one replay, if any; `answer` is what the daemon's endpoint would say. */
  function Replay(kind: string, answer: Option<string>): Option<string> {
    if ValidKind(kind) then answer else Some("drainer: unknown kind \"" + kind + "\"")
  }

  /** How many items from the n-th on are delivered before one fails. */
  function Lead(items: seq<Listed>, answers: nat -> Option<string>, n: nat): (k: nat)
    requires n <= |items|
    ensures n <= k <= |items|
    ensures forall i | n <= i < k :: Replay(items[i].item.kind, answers(i)) == None
    ensures k < |items| ==> Replay(items[k].item.kind, answers(k)).Some?
    decreases |items| - n
  {
    if n == |items| || Replay(items[n].item.kind, answers(n)).Some? then n else Lead(items, answers, n + 1)
  }

  function Ids(items: seq<Listed>): set<nat> { set it | it in items :: it.id }

  function WithoutFirst(q: State, items: seq<Listed>, k: nat): State
    requires k <= |items|
  {
    q.(rows := q.rows - Ids(items[..k]))
  }

  /** The queue after a drain that got k items delivered. */
  function Settled(q: State, items: seq<Listed>, k: nat, at: nat -> int, answers: nat -> Option<string>): State
    requires k <= |items|
    requires k < |items| ==> Replay(items[k].item.kind, answers(k)).Some?
  {
    var rest := WithoutFirst(q, items, k);
    if k == |items| then rest else Marked(rest, items[k].id, at(k), Replay(items[k].item.kind, answers(k)).value)
  }

  function HeardFrom(c: Contact, k: nat, at: nat -> int): Contact {
    if k == 0 then c else c.Success(at(k - 1))
  }

  /** A drain at `start`: the i-th replay happens at `at(i)` and gets `answers(i)`. */
  datatype Drain = Drain(start: int, at: nat -> int, answers: nat -> Option<string>) {
    function Items(q: State): seq<Listed> { NextEligible(q, start, 50) }

    function Delivered(q: State): nat { Lead(Items(q), answers, 0) }

    /** The item that stopped the drain counts as replayed too. */
    function Replayed(q: State): nat {
      Delivered(q) + if Delivered(q) < |Items(q)| then 1 else 0
    }

    function After(q: State): State { Settled(q, Items(q), Delivered(q), at, answers) }

    function ContactAfter(q: State, c: Contact): Contact {
      var k := Delivered(q);
      var heard := HeardFrom(c, k, at);
      if k == |Items(q)| then heard
      else heard.Failure(at(k), Replay(Items(q)[k].item.kind, answers(k)).value)
    }
  }

  lemma LeadIs(items: seq<Listed>, answers: nat -> Option<string>, n: nat, k: nat)
    requires n <= k <= |items|
    requires forall i | n <= i < k :: Replay(items[i].item.kind, answers(i)) == None
    requires k < |items| ==> Replay(items[k].item.kind, answers(k)).Some?
    ensures Lead(items, answers, n) == k
  {
  }

  lemma WithoutNext(q: State, items: seq<Listed>, k: nat)
    requires k < |items|
    ensures Deleted(WithoutFirst(q, items, k), items[k].id) == WithoutFirst(q, items, k + 1)
  {
    assert items[..k + 1] == items[..k] + [items[k]];
    assert Ids(items[..k + 1]) == Ids(items[..k]) + {items[k].id};
  }

  lemma WithoutNone(q: State, items: seq<Listed>)
    ensures WithoutFirst(q, items, 0) == q
  {
    assert Ids(items[..0]) == {};
    assert q.rows - {} == q.rows;
  }

  class Drainer {
    const queue: Queue
    const conn: Connectivity

    constructor (queue: Queue, conn: Connectivity)
      ensures this.queue == queue && this.conn == conn
    {
      this.queue, this.conn := queue, conn;
    }

    /** Replay what is due, oldest first, stopping at the first failure. */
    method DrainOnce(d: Drain) returns (drained: nat)
      modifies queue, conn
      ensures drained == d.Delivered(old(queue.Value()))
      ensures queue.Value() == d.After(old(queue.Value()))
      ensures conn.contact == d.ContactAfter(old(queue.Value()), old(conn.contact))
    {
      hide NextEligible, Lead, WithoutFirst, Deleted, Marked;
      ghost var q := queue.Value();
      ghost var c := conn.contact;
      var items := NextEligible(queue.Value(), d.start, 50);
      drained := 0;
      WithoutNone(q, items);
      for n := 0 to |items|
        invariant drained == n
        invariant queue.Value() == WithoutFirst(q, items, n)
        invariant conn.contact == HeardFrom(c, n, d.at)
        invariant forall i | 0 <= i < n :: Replay(items[i].item.kind, d.answers(i)) == None
      {
        var it := items[n];
        var now := d.at(n);
        var rErr := Replay(it.item.kind, d.answers(n));
        if rErr.Some? {
          LeadIs(items, d.answers, 0, n);
          queue.MarkAttempt(it.id, now, rErr.value);
          conn.NoteFailure(now, rErr.value);
          return;
        }
        WithoutNext(q, items, n);
        queue.Delete(it.id);
        conn.NoteSuccess(now);
        drained := drained + 1;
      }
      LeadIs(items, d.answers, 0, |items|);
    }
  }

  // ---------------------------------------------------------------- in-line attempts

  /** Whether the write reached the daemon, and else how many items are pending. */
  datatype Enqueuing = Posted | Pending(depth: nat)

  /** A write handler: `outcome` is the error its own call to the daemon would get. */
  class Writer {
    const queue: Queue?
    const conn: Connectivity?

    constructor (queue: Queue?, conn: Connectivity?)
      ensures this.queue == queue && this.conn == conn
    {
      this.queue, this.conn := queue, conn;
    }

    /** Persist, try at once, and keep the row when the try fails. Only queue errors are reported,
        unless there is no queue at all. */
    method EnqueueAndAttempt(kind: string, payload: string, enqueuedAt: int, now: int, outcome: Option<string>)
      returns (r: Result<Enqueuing, string>)
      modifies if queue == null then {} else {queue}
      modifies if conn == null then {} else {conn}
      ensures queue == null ==> r == (if outcome == None then Ok(Posted) else Err(outcome.value))
      ensures queue == null && conn != null ==> conn.contact == old(conn.contact)
      ensures queue != null ==> queue.Value() == Attempted(old(queue.Value()), kind, payload, enqueuedAt, now, outcome)
      ensures queue != null && kind != "usage" && kind != "proposal" ==> queue.Value() == old(queue.Value())
      ensures queue != null ==>
        r == if !ValidKind(kind) then Err("enqueue: invalid kind")
             else if outcome == None then Ok(Posted) else Ok(Pending(|Live(queue.Value())|))
      ensures queue != null && conn != null ==>
        conn.contact == if !ValidKind(kind) then old(conn.contact) else Heard(old(conn.contact), now, outcome)
    {
      if queue == null {
        if outcome.Some? { return Err(outcome.value); }
        return Ok(Posted);
      }
      var id := queue.Enqueue(kind, payload, enqueuedAt);
      if id.Err? { return Err("enqueue: invalid kind"); }
      if outcome.Some? {
        queue.MarkAttempt(id.value, now, outcome.value);
        if conn != null { conn.NoteFailure(now, outcome.value); }
        var depth := queue.Depth();
        return Ok(Pending(depth));
      }
      queue.Delete(id.value);
      if conn != null { conn.NoteSuccess(now); }
      r := Ok(Posted);
    }
  }

  function Heard(c: Contact, now: int, outcome: Option<string>): Contact {
    if outcome == None then c.Success(now) else c.Failure(now, outcome.value)
  }

  /** The queue after an undisturbed in-line attempt. */
  function Attempted(q: State, kind: string, payload: string, enqueuedAt: int, now: int, outcome: Option<string>): State {
    if !ValidKind(kind) then q
    else
      var enqueued := Enqueued(q, kind, payload, enqueuedAt);
      if outcome == None then Deleted(enqueued, q.nextId) else Marked(enqueued, q.nextId, now, outcome.value)
  }

  /** A write that got through leaves only the used-up id; one that did not is live, waiting two seconds
      with one attempt on it, and every other row is as it was. */
  lemma AttemptedMeans(q: State, kind: string, payload: string, enqueuedAt: int, now: int, outcome: Option<string>)
    requires QueueOk(q) && ValidKind(kind)
    ensures var end := Attempted(q, kind, payload, enqueuedAt, now, outcome);
            && end.nextId == q.nextId + 1
            && (outcome == None ==> end.rows == q.rows)
            && (outcome.Some? ==>
                  end.rows == q.rows[q.nextId := Item(kind, payload, 1, enqueuedAt, now + 2 * SECOND, outcome.value, false)])
  {
    assert Pow2(1) == 2;
    assert q.nextId !in q.rows;
  }

  // ---------------------------------------------------------------- what a drain delivers

  ghost predicate Gone(before: State, after: State, id: nat) { id in before.rows && id !in after.rows }

  ghost predicate Failing(before: State, after: State, id: nat, now: int, message: string) {
    id in before.rows && id in after.rows && after.rows[id] == WriteQueue.Failed(before.rows[id], now, message)
  }

  /** A drain delivers a prefix of the due items in id order. At most one further item changes: the
      oldest due item not delivered, whose attempt is counted; everything else stays as it was. */
  lemma DrainDeliversPrefix(d: Drain, q: State)
    ensures var end := d.After(q);
            var k := d.Delivered(q);
            && end.nextId == q.nextId && end.rows.Keys <= q.rows.Keys
            && (forall id | Gone(q, end, id) :: Due(q.rows[id], d.start))
            && (forall id, older | Gone(q, end, id) && older in q.rows && Due(q.rows[older], d.start) && Before(older, id) ::
                  Gone(q, end, older))
            && (k == |d.Items(q)| ==> forall id | id in end.rows :: end.rows[id] == q.rows[id])
            && (k < |d.Items(q)| ==>
                  var head := d.Items(q)[k].id;
                  && Due(q.rows[head], d.start)
                  && Failing(q, end, head, d.at(k), Replay(q.rows[head].kind, d.answers(k)).value)
                  && (forall id | id in end.rows && id != head :: end.rows[id] == q.rows[id])
                  && (forall older | older in q.rows && Due(q.rows[older], d.start) && Before(older, head) :: Gone(q, end, older)))
  {
    hide NextEligible, Lead, Due, FailedAfter, Replay;
    var items, k := d.Items(q), d.Delivered(q);
    NextEligibleMeans(q, d.start, 50);
    var first := items[..k];
    forall id ensures id in Ids(first) <==> OnPage(first, id) { OnFirst(items, k, id); }
    forall id | id in q.rows && Due(q.rows[id], d.start) && !OnPage(first, id)
      ensures forall i | 0 <= i < k :: Before(items[i].id, id)
      ensures k < |items| ==> items[k].id == id || Before(items[k].id, id)
    {
      LeftBehind(q, d.start, k, id);
    }
    if k < |items| {
      assert !OnPage(first, items[k].id);
      assert items[k] in items;
    }
  }

  /** The items delivered are the due ones up to the first that is of no known kind or that the daemon
      refuses; an unknown kind is an error of its own. */
  lemma DeliveredMeans(d: Drain, q: State)
    ensures var items, k := d.Items(q), d.Delivered(q);
            && k <= |items|
            && (forall i | 0 <= i < k :: (items[i].item.kind == "usage" || items[i].item.kind == "proposal") && d.answers(i) == None)
            && (k < |items| ==>
                  var kind, message := items[k].item.kind, Replay(items[k].item.kind, d.answers(k));
                  && message.Some?
                  && (kind == "usage" || kind == "proposal" ==> message == d.answers(k))
                  && (kind != "usage" && kind != "proposal" ==> message == Some("drainer: unknown kind \"" + kind + "\"")))
  {
    hide NextEligible, Lead;
    forall i | 0 <= i < d.Delivered(q) ensures Replay(d.Items(q)[i].item.kind, d.answers(i)) == None {}
  }

  lemma OnFirst(items: seq<Listed>, k: nat, id: nat)
    requires k <= |items|
    ensures id in Ids(items[..k]) <==> OnPage(items[..k], id)
    ensures OnPage(items[..k], id) ==> OnPage(items, id)
  {
    if OnPage(items[..k], id) {
      var i :| 0 <= i < k && items[..k][i].id == id;
      assert items[i].id == id && items[i] in items[..k];
    }
  }

  lemma LeftBehind(q: State, now: int, k: nat, id: nat)
    requires k <= |NextEligible(q, now, 50)|
    requires id in q.rows && Due(q.rows[id], now) && !OnPage(NextEligible(q, now, 50)[..k], id)
    ensures var items := NextEligible(q, now, 50);
            && (forall i | 0 <= i < k :: Before(items[i].id, id))
            && (k < |items| ==> items[k].id == id || Before(items[k].id, id))
  {
    hide NextEligible;
    NextEligibleMeans(q, now, 50);
    var items := NextEligible(q, now, 50);
    if OnPage(items, id) {
      var j :| 0 <= j < |items| && items[j].id == id;
      forall i | 0 <= i < k ensures items[i].id != id { assert items[..k][i] == items[i]; }
      assert j >= k;
    } else {
      forall i | 0 <= i < |items| ensures Before(items[i].id, id) { assert items[i] in items; }
    }
  }

  predicate Past(t: Option<int>, now: int) { t.Some? ==> t.value < now }

  /** After a drain that replayed something, on a clock that moves, the client counts as online exactly
      when no failure stopped it, and remembers that failure's message. */
  lemma ContactTellsLastReplay(d: Drain, q: State, c: Contact)
    requires d.Replayed(q) > 0
    requires Past(c.lastSuccess, d.at(0)) && Past(c.lastFailure, d.at(0))
    requires forall i: nat, j: nat | i < j :: d.at(i) < d.at(j)
    ensures var end := d.ContactAfter(q, c);
            && (end.Online() <==> d.Delivered(q) == |d.Items(q)|)
            && (!end.Online() ==>
                  Some(end.lastError) == Replay(d.Items(q)[d.Delivered(q)].item.kind, d.answers(d.Delivered(q))))
            && (!end.Online() ==>
                  && end.lastFailure == Some(d.at(d.Delivered(q)))
                  && end.lastSuccess == if d.Delivered(q) == 0 then c.lastSuccess else Some(d.at(d.Delivered(q) - 1)))
            && (end.Online() ==>
                  && end.lastError == "" && end.lastSuccess == Some(d.at(d.Replayed(q) - 1)) && end.lastFailure == c.lastFailure)
  {
    hide NextEligible, Lead;
    var k := d.Delivered(q);
    if k > 0 { assert d.at(0) <= d.at(k - 1); }
    if 0 < k < |d.Items(q)| { assert d.at(k - 1) < d.at(k); }
  }

  // ---------------------------------------------------------------- the retry budget

  /** The attempts an item still has. */
  function Budget(q: State, id: nat): nat {
    if id in q.rows && q.rows[id].attempts < MAX_ATTEMPTS && !q.rows[id].dead then MAX_ATTEMPTS - q.rows[id].attempts else 0
  }

  function BudgetBelow(q: State, n: nat): nat {
    if n == 0 then 0 else BudgetBelow(q, n - 1) + Budget(q, n - 1)
  }

  /** Summed over the live items. */
  function Potential(q: State): nat { BudgetBelow(q, q.nextId) }

  lemma {:induction false} BudgetShift(q: State, r: State, id: nat, n: nat)
    requires forall j: nat | j != id :: Budget(r, j) == Budget(q, j)
    ensures BudgetBelow(r, n) - BudgetBelow(q, n) == if id < n then Budget(r, id) - Budget(q, id) else 0
  {
    hide Budget;
    if n > 0 { BudgetShift(q, r, id, n - 1); }
  }

  lemma {:induction false} NoBudget(q: State, n: nat)
    requires BudgetBelow(q, n) == 0
    ensures forall id: nat | id < n :: Budget(q, id) == 0
  {
    if n > 0 { NoBudget(q, n - 1); }
  }

  lemma NoPotentialNoLife(q: State)
    requires QueueOk(q) && Potential(q) == 0
    ensures Live(q) == {}
  {
    forall id | id in Live(q) ensures id < q.nextId && Budget(q, id) >= 1 {}
    NoBudget(q, q.nextId);
  }

  ghost predicate DistinctLive(q: State, items: seq<Listed>) {
    && (forall i | 0 <= i < |items| :: items[i].id in q.rows && !q.rows[items[i].id].dead)
    && (forall i, j | 0 <= i < j < |items| :: items[i].id != items[j].id)
  }

  lemma ListedAreDistinctLive(q: State, now: int)
    ensures DistinctLive(q, NextEligible(q, now, 50))
  {
    hide NextEligible;
    NextEligibleMeans(q, now, 50);
    var items := NextEligible(q, now, 50);
    forall i | 0 <= i < |items| ensures items[i].id in q.rows && !q.rows[items[i].id].dead { assert items[i] in items; }
  }

  lemma StillThere(q: State, items: seq<Listed>, k: nat, n: nat)
    requires DistinctLive(q, items) && k <= n < |items|
    ensures var rest := WithoutFirst(q, items, k);
            items[n].id in rest.rows && rest.rows[items[n].id] == q.rows[items[n].id]
  {
    forall it | it in items[..k] ensures it.id != items[n].id {
      var i :| 0 <= i < k && items[..k][i] == it;
      assert items[i] == it;
    }
  }

  lemma WithoutFirstIsOk(q: State, items: seq<Listed>, k: nat)
    requires QueueOk(q) && k <= |items|
    ensures QueueOk(WithoutFirst(q, items, k)) && WithoutFirst(q, items, k).nextId == q.nextId
  {
  }

  /** Every delivery uses up at least one unit of budget. */
  lemma {:induction false} DeliveriesSpend(q: State, items: seq<Listed>, k: nat)
    requires QueueOk(q) && k <= |items| && DistinctLive(q, items)
    ensures Potential(WithoutFirst(q, items, k)) + k <= Potential(q)
  {
    hide DistinctLive, WithoutFirst, BudgetBelow;
    if k == 0 {
      WithoutNone(q, items);
    } else {
      DeliveriesSpend(q, items, k - 1);
      StillThere(q, items, k - 1, k - 1);
      WithoutFirstIsOk(q, items, k - 1);
      WithoutNext(q, items, k - 1);
      DeletionSpends(WithoutFirst(q, items, k - 1), items[k - 1].id);
      assert !q.rows[items[k - 1].id].dead by { LiveAt(q, items, k - 1); }
    }
  }

  lemma LiveAt(q: State, items: seq<Listed>, n: nat)
    requires DistinctLive(q, items) && n < |items|
    ensures items[n].id in q.rows && !q.rows[items[n].id].dead
  {
  }

  lemma DeletionSpends(q: State, id: nat)
    requires QueueOk(q) && id in q.rows
    ensures Potential(Deleted(q, id)) + Budget(q, id) == Potential(q)
    ensures !q.rows[id].dead ==> Budget(q, id) >= 1
  {
    hide BudgetBelow;
    BudgetShift(q, Deleted(q, id), id, q.nextId);
  }

  lemma FailureSpends(q: State, id: nat, now: int, message: string)
    requires QueueOk(q) && id in q.rows && !q.rows[id].dead
    ensures Potential(Marked(q, id, now, message)) + 1 == Potential(q)
  {
    hide BudgetBelow, Delay;
    BudgetShift(q, Marked(q, id, now, message), id, q.nextId);
  }

  /** Every replay of a drain is paid for, and a drain replays something exactly when something is due. */
  lemma DrainSpends(d: Drain, q: State)
    requires QueueOk(q)
    ensures QueueOk(d.After(q))
    ensures Potential(d.After(q)) + d.Replayed(q) <= Potential(q)
    ensures d.Replayed(q) > 0 <==> exists id :: id in q.rows && Due(q.rows[id], d.start)
  {
    hide NextEligible, Lead, Potential, WithoutFirst, Marked, DistinctLive, QueueOk;
    var items, k := d.Items(q), d.Delivered(q);
    var rest := WithoutFirst(q, items, k);
    ListedAreDistinctLive(q, d.start);
    WithoutFirstIsOk(q, items, k);
    DeliveriesSpend(q, items, k);
    if k < |items| {
      StillThere(q, items, k, k);
      LiveAt(q, items, k);
      var message := Replay(items[k].item.kind, d.answers(k)).value;
      FailureSpends(rest, items[k].id, d.at(k), message);
      QueueStaysOk(rest, "usage", "", items[k].id, d.at(k), message, false);
    }
    SomethingListed(q, d.start);
  }

  lemma SomethingListed(q: State, now: int)
    ensures NextEligible(q, now, 50) != [] <==> exists id :: id in q.rows && Due(q.rows[id], now)
  {
    hide NextEligible;
    NextEligibleMeans(q, now, 50);
    var items := NextEligible(q, now, 50);
    if items != [] { assert items[0] in items; }
  }

  // ---------------------------------------------------------------- whole runs

  datatype Step = Add(kind: string, payload: string, now: int) | Replays(drain: Drain) | Clear(all: bool)

  function Next(q: State, s: Step): State {
    match s
    case Add(kind, payload, now) => if ValidKind(kind) then Enqueued(q, kind, payload, now) else q
    case Replays(d) => d.After(q)
    case Clear(all) => Purged(q, all)
  }

  function RunTo(q: State, steps: seq<Step>): State {
    if steps == [] then q else Next(RunTo(q, steps[..|steps| - 1]), steps[|steps| - 1])
  }

  function Replayed(q: State, s: Step): nat {
    if s.Replays? then s.drain.Replayed(q) else 0
  }

  predicate Effective(q: State, s: Step) {
    s.Replays? && exists id :: id in q.rows && Due(q.rows[id], s.drain.start)
  }

  function TotalReplays(q: State, steps: seq<Step>): nat {
    if steps == [] then 0
    else TotalReplays(q, steps[..|steps| - 1]) + Replayed(RunTo(q, steps[..|steps| - 1]), steps[|steps| - 1])
  }

  function EffectiveDrains(q: State, steps: seq<Step>): nat {
    if steps == [] then 0
    else EffectiveDrains(q, steps[..|steps| - 1])
         + if Effective(RunTo(q, steps[..|steps| - 1]), steps[|steps| - 1]) then 1 else 0
  }

  function Added(steps: seq<Step>): nat {
    if steps == [] then 0 else Added(steps[..|steps| - 1]) + if steps[|steps| - 1].Add? then 1 else 0
  }

  lemma AdditionAdds(q: State, kind: string, payload: string, now: int)
    requires QueueOk(q)
    ensures Potential(Enqueued(q, kind, payload, now)) == Potential(q) + 12
  {
    var r := Enqueued(q, kind, payload, now);
    BudgetShift(q, r, q.nextId, q.nextId);
  }

  lemma {:induction false} BudgetFalls(q: State, r: State, n: nat)
    requires forall j: nat :: Budget(r, j) <= Budget(q, j)
    ensures BudgetBelow(r, n) <= BudgetBelow(q, n)
  {
    if n > 0 { BudgetFalls(q, r, n - 1); }
  }

  lemma StepSpends(q: State, s: Step)
    requires QueueOk(q)
    ensures QueueOk(Next(q, s))
    ensures Potential(Next(q, s)) + Replayed(q, s) <= Potential(q) + if s.Add? then 12 else 0
    ensures Effective(q, s) ==> Replayed(q, s) >= 1
  {
    hide Potential, Enqueued, Purged, Drain.After, Drain.Replayed, QueueOk;
    match s
    case Add(kind, payload, now) =>
      if ValidKind(kind) {
        AdditionAdds(q, kind, payload, now);
        QueueStaysOk(q, kind, payload, 0, now, "", false);
      }
    case Replays(d) => DrainSpends(d, q);
    case Clear(all) =>
      QueueStaysOk(q, "usage", "", 0, 0, "", all);
      ClearingSpends(q, all);
  }

  lemma ClearingSpends(q: State, all: bool)
    ensures Potential(Purged(q, all)) <= Potential(q)
  {
    BudgetFalls(q, Purged(q, all), q.nextId);
  }

  /** Over any run the replays never exceed twelve for each item added, counting those the queue started
      with by the attempts they had left. So only so many drains can find something to do, and once they
      have been made nothing is left alive: no failing item blocks the queue for good. */
  lemma {:induction false} ReplaysAreBounded(q: State, steps: seq<Step>)
    requires QueueOk(q)
    ensures var end := RunTo(q, steps);
            && QueueOk(end)
            && TotalReplays(q, steps) + Potential(end) <= Potential(q) + 12 * Added(steps)
            && EffectiveDrains(q, steps) <= TotalReplays(q, steps)
            && (EffectiveDrains(q, steps) == Potential(q) + 12 * Added(steps) ==> Live(end) == {})
  {
    hide Potential, Next, Effective, Replayed, QueueOk, Live;
    if steps == [] {
      if Potential(q) == 0 { NoPotentialNoLife(q); }
    } else {
      var n := |steps| - 1;
      ReplaysAreBounded(q, steps[..n]);
      StepSpends(RunTo(q, steps[..n]), steps[n]);
      if Potential(RunTo(q, steps)) == 0 { NoPotentialNoLife(RunTo(q, steps)); }
    }
  }
}
