/** Usage telemetry (internal/pgstore/usage.go, migrations/0003_usage_events.up.sql): batches inserted
    in one transaction, deduplicated by a unique key. */
module Usage {
  import opened Outcomes

  /** One event of a batch; `ts` is in nanoseconds, None for Go's zero time. */
  datatype Event = Event(skill: string, session: string, machine: string, kind: string,
                         context: Option<string>, ts: Option<int>)

  /** UNIQUE (profile, skill_name, session_id, event, ts); a timestamptz holds microseconds. */
  datatype DedupKey = DedupKey(profile: string, skill: string, session: string, kind: string, micros: int)

  datatype Row = Row(key: DedupKey, machine: string, context: Option<string>)

  type Table = seq<Row>

  datatype Error = ConstraintViolation

  const KINDS := {"invoked", "helpful", "ignored", "error"}

  /** Blank events are passed over, and so cannot fail the batch. */
  predicate Skipped(e: Event) { e.kind == "" || e.skill == "" }

  predicate Storable(e: Event) {
    e.kind == "" || e.skill == "" || e.kind in {"invoked", "helpful", "ignored", "error"}
  }

  function KeyOf(profile: string, e: Event, now: int): DedupKey {
    DedupKey(profile, e.skill, e.session, e.kind, (if e.ts.Some? then e.ts.value else now) / 1000)
  }

  function RowOf(profile: string, e: Event, now: int): Row { Row(KeyOf(profile, e, now), e.machine, e.context) }

  predicate Holds(t: Table, k: DedupKey) { exists i | 0 <= i < |t| :: t[i].key == k }

  /** INSERT ... ON CONFLICT DO NOTHING */
  function Inserted(t: Table, row: Row): Table {
    if Holds(t, row.key) then t else t + [row]
  }

  /** The table after a batch; None when a CHECK fails. `at(i)` is the clock when the i-th event is handled. */
  function Ingested(t: Table, profile: string, events: seq<Event>, at: nat -> int): Option<Table> {
    if events == [] then Some(t)
    else
      var n := |events| - 1;
      var e := events[n];
      match Ingested(t, profile, events[..n], at)
      case None => None
      case Some(u) =>
        if Skipped(e) then Some(u)
        else if e.kind !in KINDS then None
        else Some(Inserted(u, RowOf(profile, e, at(n))))
  }

  lemma IngestedNothing(t: Table, profile: string, events: seq<Event>, at: nat -> int)
    ensures Ingested(t, profile, events[..0], at) == Some(t)
  {
  }

  lemma IngestedNext(t: Table, profile: string, events: seq<Event>, at: nat -> int, n: nat)
    requires n < |events| && Ingested(t, profile, events[..n], at).Some?
    ensures var u, e := Ingested(t, profile, events[..n], at).value, events[n];
            Ingested(t, profile, events[..n + 1], at) ==
            if Skipped(e) then Some(u) else if e.kind !in KINDS then None else Some(Inserted(u, RowOf(profile, e, at(n))))
  {
    assert events[..n + 1][..n] == events[..n];
  }

  /** The table the daemon writes to: a transaction commits into `rows` or leaves it alone. */
  class Store {
    var rows: Table

    constructor ()
      ensures rows == []
    {
      rows := [];
    }

    /** What is accepted is what the table grew by; a batch with one bad kind changes nothing. */
    method IngestUsage(profile: string, events: seq<Event>, at: nat -> int) returns (r: Result<nat, Error>)
      modifies this
      ensures r.Ok? <==> forall e | e in events :: Storable(e)
      ensures r.Err? ==> rows == old(rows)
      ensures r.Ok? ==> Ingested(old(rows), profile, events, at) == Some(rows) && |rows| == |old(rows)| + r.value
    {
      hide Holds, Ingested;
      IngestedNothing(rows, profile, events, at);
      if |events| == 0 {
        assert events[..0] == events;
        return Ok(0);
      }
      var tx := rows;
      var accepted: nat := 0;
      for n := 0 to |events|
        invariant rows == old(rows) && Ingested(rows, profile, events[..n], at) == Some(tx)
        invariant |tx| == |rows| + accepted
        invariant forall i | 0 <= i < n :: Storable(events[i])
      {
        var e := events[n];
        IngestedNext(rows, profile, events, at, n);
        if e.kind == "" || e.skill == "" { continue; }
        var ts := if e.ts == None then at(n) else e.ts.value;
        if e.kind !in KINDS {
          assert e in events && !Storable(e);
          return Err(ConstraintViolation);
        }
        var before := |tx|;
        tx := Inserted(tx, Row(DedupKey(profile, e.skill, e.session, e.kind, ts / 1000), e.machine, e.context));
        accepted := accepted + (|tx| - before);
      }
      assert events[..|events|] == events;
      rows := tx;
      r := Ok(accepted);
    }
  }

  // ---------------------------------------------------------------- a batch is a set union

  ghost predicate UniqueKeys(t: Table) {
    forall i, j | 0 <= i < j < |t| :: t[i].key != t[j].key
  }

  function Keys(t: Table): set<DedupKey> { set i | 0 <= i < |t| :: t[i].key }

  /** The keys a batch offers. */
  function Offered(profile: string, events: seq<Event>, at: nat -> int): set<DedupKey> {
    set i: nat | 0 <= i < |events| && !Skipped(events[i]) :: KeyOf(profile, events[i], at(i))
  }

  lemma {:induction false} TableSize(t: Table)
    requires UniqueKeys(t)
    ensures |t| == |Keys(t)|
  {
    if t != [] {
      var front, last := t[..|t| - 1], t[|t| - 1];
      TableSize(front);
      assert Keys(t) == Keys(front) + {last.key} by { KeysSnoc(front, last); assert t == front + [last]; }
    }
  }

  lemma KeysSnoc(t: Table, row: Row)
    ensures Keys(t + [row]) == Keys(t) + {row.key}
  {
    var u := t + [row];
    forall k | k in Keys(t) + {row.key} ensures k in Keys(u) {
      if k == row.key { assert u[|t|].key == k; }
      else {
        var i :| 0 <= i < |t| && t[i].key == k;
        assert u[i].key == k;
      }
    }
  }

  lemma InsertedKeys(t: Table, row: Row)
    requires UniqueKeys(t)
    ensures UniqueKeys(Inserted(t, row)) && t <= Inserted(t, row)
    ensures Keys(Inserted(t, row)) == Keys(t) + {row.key}
  {
    KeysSnoc(t, row);
  }

  lemma OfferedSnoc(profile: string, events: seq<Event>, at: nat -> int)
    requires events != []
    ensures var n := |events| - 1;
            Offered(profile, events, at) ==
            Offered(profile, events[..n], at) + if Skipped(events[n]) then {} else {KeyOf(profile, events[n], at(n))}
  {
    var n := |events| - 1;
    var front := events[..n];
    forall k | k in Offered(profile, events, at)
      ensures k in Offered(profile, front, at) || (!Skipped(events[n]) && k == KeyOf(profile, events[n], at(n)))
    {
      var i: nat :| i < |events| && !Skipped(events[i]) && k == KeyOf(profile, events[i], at(i));
      if i < n { assert front[i] == events[i]; }
    }
    forall k | k in Offered(profile, front, at) ensures k in Offered(profile, events, at) {
      var i: nat :| i < |front| && !Skipped(front[i]) && k == KeyOf(profile, front[i], at(i));
      assert events[i] == front[i];
    }
  }

  /** A batch fails exactly when one of its events has an unknown kind; otherwise the table keeps every
      row it had, holds each key once, and its keys grow by exactly the keys offered. */
  lemma {:induction false} IngestIsUnion(t: Table, profile: string, events: seq<Event>, at: nat -> int)
    requires UniqueKeys(t)
    ensures var u := Ingested(t, profile, events, at);
            && (u.Some? <==> forall e | e in events :: Storable(e))
            && (u.Some? ==> t <= u.value && UniqueKeys(u.value)
                            && Keys(u.value) == Keys(t) + Offered(profile, events, at))
  {
    hide UniqueKeys, Keys, Inserted, Offered;
    if events == [] {
      assert Offered(profile, events, at) == {} by { NothingOffered(profile, at); }
    } else {
      var n := |events| - 1;
      var front := events[..n];
      IngestIsUnion(t, profile, front, at);
      OfferedSnoc(profile, events, at);
      assert events == front + [events[n]];
      assert (forall e | e in events :: Storable(e)) <==> (forall e | e in front :: Storable(e)) && Storable(events[n]);
      var u := Ingested(t, profile, front, at);
      if u.Some? { InsertedKeys(u.value, RowOf(profile, events[n], at(n))); }
    }
  }

  lemma NothingOffered(profile: string, at: nat -> int)
    ensures Offered(profile, [], at) == {}
  {
  }

  // ---------------------------------------------------------------- what the rows say

  /** The key is the event's: who used what in which session and how, to the microsecond of its own
      timestamp or of its arrival. */
  predicate Keyed(k: DedupKey, profile: string, e: Event, now: int) {
    && k.profile == profile && k.skill == e.skill && k.session == e.session && k.kind == e.kind
    && (match e.ts case Some(ts) => 1000 * k.micros <= ts < 1000 * k.micros + 1000
                   case None => 1000 * k.micros <= now < 1000 * k.micros + 1000)
  }

  /** The n-th row is the record of the i-th event, the first of the batch with its key. */
  ghost predicate RecordOf(row: Row, profile: string, events: seq<Event>, at: nat -> int, i: nat) {
    && i < |events| && events[i].kind != "" && events[i].skill != ""
    && Keyed(row.key, profile, events[i], at(i)) && row.machine == events[i].machine && row.context == events[i].context
    && forall j: nat | j < i && events[j].kind != "" && events[j].skill != "" :: !Keyed(row.key, profile, events[j], at(j))
  }

  ghost predicate Recorded(row: Row, profile: string, events: seq<Event>, at: nat -> int) {
    exists i: nat :: RecordOf(row, profile, events, at, i)
  }

  ghost predicate HoldsEvent(t: Table, profile: string, e: Event, now: int) {
    exists n | 0 <= n < |t| :: Keyed(t[n].key, profile, e, now)
  }

  lemma RecordedSnoc(row: Row, profile: string, front: seq<Event>, e: Event, at: nat -> int)
    requires Recorded(row, profile, front, at)
    ensures Recorded(row, profile, front + [e], at)
  {
    hide Keyed;
    var i: nat :| RecordOf(row, profile, front, at, i);
    assert RecordOf(row, profile, front + [e], at, i);
  }

  lemma KeyedIsKey(k: DedupKey, profile: string, e: Event, now: int)
    ensures Keyed(k, profile, e, now) <==> k == KeyOf(profile, e, now)
  {
  }

  lemma StillHeld(t: Table, u: Table, profile: string, e: Event, now: int)
    requires t <= u && HoldsEvent(t, profile, e, now)
    ensures HoldsEvent(u, profile, e, now)
  {
    hide Keyed;
    var n :| 0 <= n < |t| && Keyed(t[n].key, profile, e, now);
    assert u[n] == t[n];
  }

  lemma InsertHolds(t: Table, profile: string, e: Event, now: int)
    ensures t <= Inserted(t, RowOf(profile, e, now)) && HoldsEvent(Inserted(t, RowOf(profile, e, now)), profile, e, now)
  {
    hide Keyed;
    var u := Inserted(t, RowOf(profile, e, now));
    if Holds(t, KeyOf(profile, e, now)) {
      var n :| 0 <= n < |t| && t[n].key == KeyOf(profile, e, now);
      KeyedIsKey(t[n].key, profile, e, now);
    } else {
      KeyedIsKey(u[|t|].key, profile, e, now);
    }
  }

  lemma FirstIsRecorded(t: Table, profile: string, events: seq<Event>, at: nat -> int)
    requires events != [] && !Skipped(events[|events| - 1])
    requires forall j: nat | j < |events| - 1 && !Skipped(events[j]) :: HoldsEvent(t, profile, events[j], at(j))
    requires !Holds(t, KeyOf(profile, events[|events| - 1], at(|events| - 1)))
    ensures Recorded(RowOf(profile, events[|events| - 1], at(|events| - 1)), profile, events, at)
  {
    hide Keyed;
    var n := |events| - 1;
    var row := RowOf(profile, events[n], at(n));
    KeyedIsKey(row.key, profile, events[n], at(n));
    forall j: nat | j < n && !Skipped(events[j]) ensures !Keyed(row.key, profile, events[j], at(j)) {
      var m :| 0 <= m < |t| && Keyed(t[m].key, profile, events[j], at(j));
      KeyedIsKey(t[m].key, profile, events[j], at(j));
      KeyedIsKey(row.key, profile, events[j], at(j));
    }
    assert RecordOf(row, profile, events, at, n);
  }

  /** What a batch that succeeds leaves: all old rows, a row under the key of every event that names a
      skill and a kind, and each new row with the machine and context of the first event with its key. */
  lemma {:induction false} IngestRecords(t: Table, profile: string, events: seq<Event>, at: nat -> int)
    requires Ingested(t, profile, events, at).Some?
    ensures var u := Ingested(t, profile, events, at).value;
            && t <= u
            && (forall i: nat | i < |events| && events[i].kind != "" && events[i].skill != "" ::
                  HoldsEvent(u, profile, events[i], at(i)))
            && (forall n | |t| <= n < |u| :: Recorded(u[n], profile, events, at))
  {
    hide Keyed, RecordOf, Inserted, Recorded, HoldsEvent;
    if events != [] {
      var n := |events| - 1;
      var front, e := events[..n], events[n];
      assert events == front + [e];
      IngestRecords(t, profile, front, at);
      var c, u := Ingested(t, profile, front, at).value, Ingested(t, profile, events, at).value;
      if !Skipped(e) { InsertHolds(c, profile, e, at(n)); }
      forall i: nat | i < |events| && events[i].kind != "" && events[i].skill != "" ensures HoldsEvent(u, profile, events[i], at(i)) {
        if i < n { assert front[i] == events[i]; StillHeld(c, u, profile, events[i], at(i)); }
      }
      forall m | |t| <= m < |u| ensures Recorded(u[m], profile, events, at) {
        if m < |c| {
          RecordedSnoc(c[m], profile, front, e, at);
        } else {
          NewRow(c, RowOf(profile, e, at(n)), m);
          forall j: nat | j < n && !Skipped(events[j]) ensures HoldsEvent(c, profile, events[j], at(j)) { assert front[j] == events[j]; }
          FirstIsRecorded(c, profile, events, at);
        }
      }
    }
  }

  lemma NewRow(t: Table, row: Row, m: nat)
    requires |t| <= m < |Inserted(t, row)|
    ensures !Holds(t, row.key) && Inserted(t, row)[m] == row
  {
  }

  // ---------------------------------------------------------------- sequences of batches

  datatype Batch = Batch(profile: string, events: seq<Event>, at: nat -> int)

  /** Failed batches leave the table alone. */
  function IngestedAll(t: Table, batches: seq<Batch>): Table {
    if batches == [] then t
    else
      var u := IngestedAll(t, batches[..|batches| - 1]);
      var b := batches[|batches| - 1];
      match Ingested(u, b.profile, b.events, b.at)
      case None => u
      case Some(v) => v
  }

  /** The counts reported to the callers, summed. */
  function Accepted(t: Table, batches: seq<Batch>): int {
    if batches == [] then 0
    else
      var front := batches[..|batches| - 1];
      Accepted(t, front) + |IngestedAll(t, batches)| - |IngestedAll(t, front)|
  }

  predicate Whole(b: Batch) { forall e | e in b.events :: Storable(e) }

  predicate Explicit(e: Event) { e.ts.Some? }

  ghost predicate Offers(batches: seq<Batch>, k: DedupKey) {
    exists b: nat :: b < |batches| && Whole(batches[b]) && k in Offered(batches[b].profile, batches[b].events, batches[b].at)
  }

  lemma OffersSnoc(batches: seq<Batch>, k: DedupKey)
    requires batches != []
    ensures var b := batches[|batches| - 1];
            Offers(batches, k) <==> Offers(batches[..|batches| - 1], k)
                                    || (Whole(b) && k in Offered(b.profile, b.events, b.at))
  {
    hide Offered, Whole;
    var n := |batches| - 1;
    var front := batches[..n];
    if Offers(front, k) {
      var i: nat :| i < |front| && Whole(front[i]) && k in Offered(front[i].profile, front[i].events, front[i].at);
      assert batches[i] == front[i];
    }
    if Offers(batches, k) {
      var i: nat :| i < |batches| && Whole(batches[i]) && k in Offered(batches[i].profile, batches[i].events, batches[i].at);
      if i < n { assert front[i] == batches[i]; }
    }
  }

  /** Over any sequence of batches, failed ones included: the counts reported sum to the table's growth,
      each key is held once, and the keys are the old ones and those the whole batches offered. */
  lemma {:induction false} BatchesAreUnion(t: Table, batches: seq<Batch>)
    requires UniqueKeys(t)
    ensures var u := IngestedAll(t, batches);
            && t <= u && UniqueKeys(u)
            && |u| == |t| + Accepted(t, batches)
            && |u| == |Keys(u)|
            && forall k :: k in Keys(u) <==> k in Keys(t) || Offers(batches, k)
  {
    hide UniqueKeys, Keys, Ingested, Offered, Offers, Whole;
    if batches == [] {
      forall k ensures !Offers(batches, k) { NoBatchOffers(k); }
    } else {
      var n := |batches| - 1;
      var b := batches[n];
      BatchesAreUnion(t, batches[..n]);
      StepIsUnion(IngestedAll(t, batches[..n]), b);
      forall k ensures k in Keys(IngestedAll(t, batches)) <==> k in Keys(t) || Offers(batches, k) {
        OffersSnoc(batches, k);
      }
    }
    TableSize(IngestedAll(t, batches));
  }

  lemma NoBatchOffers(k: DedupKey)
    ensures !Offers([], k)
  {
  }

  lemma StepIsUnion(t: Table, b: Batch)
    requires UniqueKeys(t)
    ensures var u := Ingested(t, b.profile, b.events, b.at);
            && (u.Some? <==> Whole(b))
            && (u.Some? ==> t <= u.value && UniqueKeys(u.value)
                            && Keys(u.value) == Keys(t) + Offered(b.profile, b.events, b.at))
  {
    hide UniqueKeys, Keys, Ingested, Offered;
    IngestIsUnion(t, b.profile, b.events, b.at);
  }

  /** An event, as part of a batch that succeeds. */
  ghost predicate Carries(batches: seq<Batch>, profile: string, e: Event) {
    exists b: nat :: b < |batches| && batches[b].profile == profile && e in batches[b].events && Whole(batches[b])
  }

  ghost predicate AllExplicit(batches: seq<Batch>) {
    forall b, e | 0 <= b < |batches| && e in batches[b].events :: Explicit(e)
  }

  /** With explicit timestamps the clock plays no part in what is offered. */
  lemma OffersExplicit(batches: seq<Batch>, k: DedupKey)
    requires AllExplicit(batches)
    ensures Offers(batches, k) <==>
            exists profile, e :: Carries(batches, profile, e) && !Skipped(e) && k == KeyOf(profile, e, 0)
  {
    if Offers(batches, k) {
      var b: nat :| b < |batches| && Whole(batches[b]) && k in Offered(batches[b].profile, batches[b].events, batches[b].at);
      var i: nat :| i < |batches[b].events| && !Skipped(batches[b].events[i])
                    && k == KeyOf(batches[b].profile, batches[b].events[i], batches[b].at(i));
      var e := batches[b].events[i];
      assert e in batches[b].events && Explicit(e);
      assert Carries(batches, batches[b].profile, e) && k == KeyOf(batches[b].profile, e, 0);
    }
    if profile, e :| Carries(batches, profile, e) && !Skipped(e) && k == KeyOf(profile, e, 0) {
      var b: nat :| b < |batches| && batches[b].profile == profile && e in batches[b].events && Whole(batches[b]);
      var i: nat :| i < |batches[b].events| && batches[b].events[i] == e;
      assert Explicit(e);
      assert k in Offered(batches[b].profile, batches[b].events, batches[b].at);
    }
  }

  /** Order, grouping and repetition of the batches do not matter: two sequences that carry the same
      events leave the same keys, and so report the same total. */
  lemma RegroupingIsIrrelevant(t: Table, bs: seq<Batch>, cs: seq<Batch>)
    requires UniqueKeys(t) && AllExplicit(bs) && AllExplicit(cs)
    requires forall profile, e :: Carries(bs, profile, e) <==> Carries(cs, profile, e)
    ensures Keys(IngestedAll(t, bs)) == Keys(IngestedAll(t, cs))
    ensures Accepted(t, bs) == Accepted(t, cs)
  {
    hide UniqueKeys, Keys, IngestedAll, Accepted, Offers, Carries, AllExplicit;
    BatchesAreUnion(t, bs);
    BatchesAreUnion(t, cs);
    forall k ensures k in Keys(IngestedAll(t, bs)) <==> k in Keys(IngestedAll(t, cs)) {
      OffersExplicit(bs, k);
      OffersExplicit(cs, k);
    }
    assert Keys(IngestedAll(t, bs)) == Keys(IngestedAll(t, cs));
  }

  /** Without a timestamp the daemon stamps each arrival: a repeat is recognised exactly when it falls
      into the same microsecond or the sender had put a timestamp on it. */
  lemma RepeatIsRecognisedIff(t: Table, profile: string, e: Event, first: int, second: int)
    requires UniqueKeys(t) && !Skipped(e) && e.kind in KINDS
    requires !Holds(t, KeyOf(profile, e, second))
    ensures var once := Inserted(t, RowOf(profile, e, first));
            Inserted(once, RowOf(profile, e, second)) == once <==> e.ts.Some? || first / 1000 == second / 1000
  {
    var once := Inserted(t, RowOf(profile, e, first));
    InsertedKeys(t, RowOf(profile, e, first));
    assert Holds(t, KeyOf(profile, e, second)) <==> KeyOf(profile, e, second) in Keys(t);
    assert Holds(once, KeyOf(profile, e, second)) <==> KeyOf(profile, e, second) in Keys(once);
  }
}
