/** The offline write path as a protocol: any number of in-line attempts and drainers work on one queue,
    requests and responses get lost, actors crash and the operator purges, in any interleaving of their
    atomic steps. */
module QueueProtocol {
  import opened Outcomes
  import opened WriteQueue
  import Drainer
  import Usage

  /** The daemon as the client's token sees it: its profile, how it reads the body of a usage post (None
      when it is not valid JSON), and which proposals it takes. */
  datatype Daemon = Daemon(profile: string, events: string -> Option<seq<Usage.Event>>, admits: string -> bool)

  /** Ready to send the first item, or told that it arrived, or left with an error, or with an error and
      the attempts read from the row, about to be written back. */
  datatype Phase = Ready | Acknowledged | Refused(message: string) | Counted(attempts: nat, message: string)

  /** An actor and the items it still means to send; the in-line attempt has one, a drainer a page. */
  datatype Worker = Worker(todo: seq<Listed>, phase: Phase)

  const IDLE := Worker([], Ready)

  datatype Sent = Sent(kind: string, payload: string)

  /** `history` remembers every write ever enqueued, `purged` the ids the operator threw away, and
      `others` the usage batches that other agents have sent to the daemon. */
  datatype World = World(q: State, table: Usage.Table, proposals: seq<string>, workers: map<nat, Worker>,
                         history: map<nat, Sent>, purged: set<nat>, others: seq<Usage.Batch>)

  datatype Event =
    | Start(worker: nat, kind: string, payload: string, now: int)
    | Fetch(worker: nat, now: int)
    | Post(worker: nat, reaches: bool, at: nat -> int, heard: bool, message: string)
    | Settle(worker: nat, now: int)
    | Crash(worker: nat)
    | Purge(all: bool)
    | Batch(batch: Usage.Batch)
    | Filed(payload: string)

  function WorkerAt(w: World, n: nat): Worker {
    if n in w.workers then w.workers[n] else IDLE
  }

  function WithWorker(w: World, n: nat, worker: Worker): World { w.(workers := w.workers[n := worker]) }

  /** The daemon handles one request. None is an error response, after which nothing has changed. */
  function Served(d: Daemon, w: World, kind: string, payload: string, at: nat -> int): Option<World> {
    if kind == "usage" then
      match d.events(payload)
      case None => None
      case Some(es) =>
        (match Usage.Ingested(w.table, d.profile, es, at)
         case None => None
         case Some(t) => Some(w.(table := t)))
    else if kind == "proposal" && d.admits(payload) then Some(w.(proposals := w.proposals + [payload]))
    else None
  }

  /** The request may get lost, and so may the response, after the daemon has committed. */
  function Posted(d: Daemon, w: World, e: Event): World
    requires e.Post? && WorkerAt(w, e.worker).todo != []
  {
    var worker := WorkerAt(w, e.worker);
    var item := worker.todo[0].item;
    var refused := worker.(phase := Refused(e.message));
    if !e.reaches then WithWorker(w, e.worker, refused)
    else match Served(d, w, item.kind, item.payload, e.at)
      case None => WithWorker(w, e.worker, refused)
      case Some(v) => WithWorker(v, e.worker, if e.heard then worker.(phase := Acknowledged) else refused)
  }

  /** The statements that settle a request, one at a time: a DELETE after a success, and MarkAttempt's
      SELECT and its UPDATE after a failure. */
  function SettledBy(w: World, n: nat, now: int): World
    requires WorkerAt(w, n).todo != []
  {
    var worker := WorkerAt(w, n);
    var id := worker.todo[0].id;
    match worker.phase
    case Ready => w
    case Acknowledged => WithWorker(w.(q := Deleted(w.q, id)), n, Worker(worker.todo[1..], Ready))
    case Refused(message) =>
      if id in w.q.rows then WithWorker(w, n, worker.(phase := Counted(w.q.rows[id].attempts, message))) else WithWorker(w, n, IDLE)
    case Counted(attempts, message) => WithWorker(w.(q := Written(w.q, id, attempts, now, message)), n, IDLE)
  }

  function PurgedBy(w: World, all: bool): World {
    var q := Purged(w.q, all);
    w.(q := q, purged := w.purged + (w.q.rows.Keys - q.rows.Keys))
  }

  /** A batch of another agent, of whatever profile. */
  function FromOther(w: World, b: Usage.Batch): World {
    match Usage.Ingested(w.table, b.profile, b.events, b.at)
    case None => w.(others := w.others + [b])
    case Some(t) => w.(table := t, others := w.others + [b])
  }

  /** One atomic step; a step that is not possible in this state does nothing. */
  function Next(d: Daemon, w: World, e: Event): World {
    match e
    case Start(n, kind, payload, now) =>
      if WorkerAt(w, n).todo != [] || !ValidKind(kind) then w
      else
        var id := w.q.nextId;
        WithWorker(Begun(w, kind, payload, now), n, Worker([Listed(id, Fresh(kind, payload, now))], Ready))
    case Fetch(n, now) =>
      if WorkerAt(w, n).todo != [] then w else WithWorker(w, n, Worker(NextEligible(w.q, now, 50), Ready))
    case Post(n, _, _, _, _) =>
      if WorkerAt(w, n).todo == [] || WorkerAt(w, n).phase != Ready then w else Posted(d, w, e)
    case Settle(n, now) =>
      if WorkerAt(w, n).todo == [] then w else SettledBy(w, n, now)
    case Crash(n) => WithWorker(w, n, IDLE)
    case Purge(all) => PurgedBy(w, all)
    case Batch(b) => FromOther(w, b)
    case Filed(payload) => if d.admits(payload) then w.(proposals := w.proposals + [payload]) else w
  }

  function RunTo(d: Daemon, w: World, events: seq<Event>): World {
    if events == [] then w else Next(d, RunTo(d, w, events[..|events| - 1]), events[|events| - 1])
  }

  /** A new queue in front of a daemon that may already hold usage and proposals. */
  function Initial(table: Usage.Table, proposals: seq<string>): World {
    World(State(map[], 1), table, proposals, map[], map[], {}, [])
  }

  // ---------------------------------------------------------------- what it means to have arrived

  /** The key is one this event asks for; without a timestamp any time will do. */
  predicate Names(k: Usage.DedupKey, profile: string, e: Usage.Event) {
    && k.profile == profile && k.skill == e.skill && k.session == e.session && k.kind == e.kind
    && (e.ts.Some? ==> k.micros == e.ts.value / 1000)
  }

  ghost predicate EventStored(t: Usage.Table, profile: string, e: Usage.Event) {
    exists i | 0 <= i < |t| :: Names(t[i].key, profile, e)
  }

  ghost predicate AllStored(t: Usage.Table, profile: string, es: seq<Usage.Event>) {
    forall e | e in es && !Usage.Skipped(e) :: EventStored(t, profile, e)
  }

  ghost predicate Arrived(d: Daemon, w: World, s: Sent) {
    if s.kind == "usage" then
      d.events(s.payload).Some? && AllStored(w.table, d.profile, d.events(s.payload).value)
    else s.payload in w.proposals
  }

  /** Some enqueued usage payload asks for this key. */
  ghost predicate AskedFor(d: Daemon, history: map<nat, Sent>, k: Usage.DedupKey) {
    exists id | id in history :: AsksFor(d, history[id], k)
  }

  ghost predicate AsksFor(d: Daemon, s: Sent, k: Usage.DedupKey) {
    && s.kind == "usage" && d.events(s.payload).Some?
    && exists e | e in d.events(s.payload).value :: !Usage.Skipped(e) && Names(k, d.profile, e)
  }

  predicate Remembers(history: map<nat, Sent>, id: nat, item: Item) {
    id in history && history[id] == Sent(item.kind, item.payload)
  }

  ghost predicate WorkerOk(d: Daemon, w: World, worker: Worker) {
    && (forall i | 0 <= i < |worker.todo| :: Remembers(w.history, worker.todo[i].id, worker.todo[i].item))
    && (worker.phase == Acknowledged && worker.todo != [] ==>
          Arrived(d, w, Sent(worker.todo[0].item.kind, worker.todo[0].item.payload)))
  }

  ghost predicate WorkersOk(d: Daemon, w: World) {
    forall n | n in w.workers :: WorkerOk(d, w, w.workers[n])
  }

  ghost predicate RowsRemembered(w: World) {
    && (forall id | id in w.q.rows :: Remembers(w.history, id, w.q.rows[id]))
    && (forall id | id in w.history :: id < w.q.nextId)
  }

  /** Nothing is lost: what was enqueued is still queued, live or dead, or was thrown away, or arrived. */
  ghost predicate NothingLost(d: Daemon, w: World) {
    forall id | id in w.history :: id in w.q.rows || id in w.purged || Arrived(d, w, w.history[id])
  }

  /** Nothing is invented or counted twice: each key is held once, and is an old one, was asked for here,
      or was offered by another agent, whose keys are all there. */
  ghost predicate NothingInvented(d: Daemon, start: Usage.Table, w: World) {
    && start <= w.table
    && Usage.UniqueKeys(w.table)
    && (forall k | k in Usage.Keys(w.table) :: k in Usage.Keys(start) || AskedFor(d, w.history, k) || Usage.Offers(w.others, k))
    && (forall k | Usage.Offers(w.others, k) :: k in Usage.Keys(w.table))
  }

  ghost predicate Inv(d: Daemon, start: Usage.Table, w: World) {
    BooksOk(w.q) && RowsRemembered(w) && WorkersOk(d, w) && NothingLost(d, w) && NothingInvented(d, start, w)
  }

  // ---------------------------------------------------------------- each step keeps it

  lemma ArrivedStays(d: Daemon, w: World, v: World, s: Sent)
    requires Arrived(d, w, s) && w.table <= v.table && w.proposals <= v.proposals
    ensures Arrived(d, v, s)
  {
    if s.kind == "usage" {
      var es := d.events(s.payload).value;
      forall e | e in es && !Usage.Skipped(e) ensures EventStored(v.table, d.profile, e) {
        assert EventStored(w.table, d.profile, e);
        var i :| 0 <= i < |w.table| && Names(w.table[i].key, d.profile, e);
        assert v.table[i] == w.table[i];
      }
    } else {
      var i :| 0 <= i < |w.proposals| && w.proposals[i] == s.payload;
      assert v.proposals[i] == s.payload;
    }
  }

  /** What a request that the daemon answers well leaves behind. */
  lemma ServedArrives(d: Daemon, w: World, kind: string, payload: string, at: nat -> int)
    requires Usage.UniqueKeys(w.table) && Served(d, w, kind, payload, at).Some?
    ensures var v := Served(d, w, kind, payload, at).value;
            && v == w.(table := v.table, proposals := v.proposals)
            && w.table <= v.table && w.proposals <= v.proposals && Usage.UniqueKeys(v.table)
            && Arrived(d, v, Sent(kind, payload))
            && (forall k | k in Usage.Keys(v.table) :: k in Usage.Keys(w.table) || AsksFor(d, Sent(kind, payload), k))
            && Usage.Keys(w.table) <= Usage.Keys(v.table)
  {
    hide Usage.UniqueKeys, Usage.Ingested, Usage.Keys, Usage.Offered;
    if kind == "usage" {
      IngestedIsStored(w.table, d.profile, d.events(payload).value, at);
      TableKeysStay(w.table, Served(d, w, kind, payload, at).value.table);
    } else {
      assert (w.proposals + [payload])[|w.proposals|] == payload;
    }
  }

  lemma IngestedIsStored(t: Usage.Table, profile: string, es: seq<Usage.Event>, at: nat -> int)
    requires Usage.UniqueKeys(t) && Usage.Ingested(t, profile, es, at).Some?
    ensures var u := Usage.Ingested(t, profile, es, at).value;
            && t <= u && Usage.UniqueKeys(u) && AllStored(u, profile, es)
            && forall k | k in Usage.Keys(u) ::
                 k in Usage.Keys(t) || exists e | e in es :: !Usage.Skipped(e) && Names(k, profile, e)
  {
    hide Usage.UniqueKeys, Usage.Ingested;
    Usage.IngestIsUnion(t, profile, es, at);
    var u := Usage.Ingested(t, profile, es, at).value;
    forall e | e in es && !Usage.Skipped(e) ensures EventStored(u, profile, e) {
      var i: nat :| i < |es| && es[i] == e;
      assert Usage.KeyOf(profile, es[i], at(i)) in Usage.Offered(profile, es, at);
      assert Usage.KeyOf(profile, es[i], at(i)) in Usage.Keys(u);
      var j :| 0 <= j < |u| && u[j].key == Usage.KeyOf(profile, es[i], at(i));
      assert Names(u[j].key, profile, e);
    }
    forall k | k in Usage.Keys(u) && k !in Usage.Keys(t)
      ensures exists e | e in es :: !Usage.Skipped(e) && Names(k, profile, e)
    {
      assert k in Usage.Offered(profile, es, at);
      var i: nat :| i < |es| && !Usage.Skipped(es[i]) && k == Usage.KeyOf(profile, es[i], at(i));
      assert es[i] in es && Names(k, profile, es[i]);
    }
  }

  /** The daemon's side of a step: the queue, the history and the actors stay as they are. */
  lemma ServingKeepsInv(d: Daemon, start: Usage.Table, w: World, id: nat, kind: string, payload: string, at: nat -> int)
    requires Inv(d, start, w) && Served(d, w, kind, payload, at).Some?
    requires id in w.history && w.history[id] == Sent(kind, payload)
    ensures Inv(d, start, Served(d, w, kind, payload, at).value)
    ensures Arrived(d, Served(d, w, kind, payload, at).value, Sent(kind, payload))
  {
    hide Served, Arrived, AsksFor, Usage.UniqueKeys, Usage.Keys, BooksOk;
    var v := Served(d, w, kind, payload, at).value;
    ServedArrives(d, w, kind, payload, at);
    forall s | Arrived(d, w, s) ensures Arrived(d, v, s) { ArrivedStays(d, w, v, s); }
    forall n | n in v.workers ensures WorkerOk(d, v, v.workers[n]) {
      assert WorkerOk(d, w, w.workers[n]);
    }
  }

  lemma WorkerKeepsInv(d: Daemon, start: Usage.Table, w: World, n: nat, worker: Worker)
    requires Inv(d, start, w) && WorkerOk(d, w, worker)
    ensures Inv(d, start, WithWorker(w, n, worker))
  {
    hide BooksOk, Arrived, AskedFor, Usage.UniqueKeys, Usage.Keys;
    var v := WithWorker(w, n, worker);
    forall s ensures Arrived(d, w, s) <==> Arrived(d, v, s) { SameArrivals(d, w, v, s); }
  }

  lemma SameArrivals(d: Daemon, w: World, v: World, s: Sent)
    requires w.table == v.table && w.proposals == v.proposals
    ensures Arrived(d, w, s) <==> Arrived(d, v, s)
  {
  }

  lemma PostKeepsInv(d: Daemon, start: Usage.Table, w: World, e: Event)
    requires Inv(d, start, w) && e.Post? && WorkerAt(w, e.worker).todo != []
    ensures Inv(d, start, Posted(d, w, e))
  {
    hide Inv, Served, Arrived;
    var worker := WorkerAt(w, e.worker);
    var item := worker.todo[0].item;
    WorkerIsOk(d, start, w, e.worker);
    if e.reaches && Served(d, w, item.kind, item.payload, e.at).Some? {
      var v := Served(d, w, item.kind, item.payload, e.at).value;
      ServingKeepsInv(d, start, w, worker.todo[0].id, item.kind, item.payload, e.at);
      ServedHistory(d, w, item.kind, item.payload, e.at);
      WorkerKeepsInv(d, start, v, e.worker, if e.heard then worker.(phase := Acknowledged) else worker.(phase := Refused(e.message)));
    } else {
      WorkerKeepsInv(d, start, w, e.worker, worker.(phase := Refused(e.message)));
    }
  }

  lemma ServedHistory(d: Daemon, w: World, kind: string, payload: string, at: nat -> int)
    requires Served(d, w, kind, payload, at).Some?
    ensures Served(d, w, kind, payload, at).value.history == w.history
  {
  }

  lemma WorkerIsOk(d: Daemon, start: Usage.Table, w: World, n: nat)
    requires Inv(d, start, w)
    ensures WorkerOk(d, w, WorkerAt(w, n))
    ensures forall i | 0 <= i < |WorkerAt(w, n).todo| :: WorkerAt(w, n).todo[i].id in w.history
  {
  }

  /** Queue changes that neither forget a write nor add one. */
  lemma QueueKeepsInv(d: Daemon, start: Usage.Table, w: World, q: State, purged: set<nat>)
    requires Inv(d, start, w) && BooksOk(q) && q.nextId == w.q.nextId && w.purged <= purged
    requires forall id | id in q.rows ::
               id in w.q.rows && q.rows[id].kind == w.q.rows[id].kind && q.rows[id].payload == w.q.rows[id].payload
    requires forall id | id in w.q.rows && id !in q.rows :: id in purged || (id in w.history && Arrived(d, w, w.history[id]))
    ensures Inv(d, start, w.(q := q, purged := purged))
  {
    hide BooksOk, Arrived, AskedFor, Usage.UniqueKeys, Usage.Keys;
    var v := w.(q := q, purged := purged);
    forall s ensures Arrived(d, w, s) <==> Arrived(d, v, s) { SameArrivals(d, w, v, s); }
    forall n | n in v.workers ensures WorkerOk(d, v, v.workers[n]) {
      assert WorkerOk(d, w, w.workers[n]);
    }
  }

  lemma SettleKeepsInv(d: Daemon, start: Usage.Table, w: World, n: nat, now: int)
    requires Inv(d, start, w) && WorkerAt(w, n).todo != []
    ensures Inv(d, start, SettledBy(w, n, now))
  {
    hide Inv, Arrived, BooksOk, Delay;
    var worker := WorkerAt(w, n);
    var id := worker.todo[0].id;
    WorkerIsOk(d, start, w, n);
    InvQueue(d, start, w);
    match worker.phase
    case Ready =>
    case Acknowledged =>
      BooksStayOk(w.q, "usage", "", id, 0, now, "", false);
      QueueKeepsInv(d, start, w, Deleted(w.q, id), w.purged);
      var v := w.(q := Deleted(w.q, id));
      WorkerKeepsInv(d, start, v, n, Worker(worker.todo[1..], Ready));
    case Refused(message) =>
      WorkerKeepsInv(d, start, w, n, if id in w.q.rows then worker.(phase := Counted(w.q.rows[id].attempts, message)) else IDLE);
    case Counted(attempts, message) =>
      BooksStayOk(w.q, "usage", "", id, attempts, now, message, false);
      QueueKeepsInv(d, start, w, Written(w.q, id, attempts, now, message), w.purged);
      WorkerKeepsInv(d, start, w.(q := Written(w.q, id, attempts, now, message)), n, IDLE);
  }

  lemma InvQueue(d: Daemon, start: Usage.Table, w: World)
    requires Inv(d, start, w)
    ensures BooksOk(w.q) && RowsRemembered(w)
  {
  }

  function Begun(w: World, kind: string, payload: string, now: int): World {
    w.(q := Enqueued(w.q, kind, payload, now), history := w.history[w.q.nextId := Sent(kind, payload)])
  }

  lemma BeginningIsRemembered(w: World, kind: string, payload: string, now: int)
    requires RowsRemembered(w)
    ensures RowsRemembered(Begun(w, kind, payload, now)) && w.q.nextId !in w.history
  {
  }

  lemma BeginningKeepsWorker(d: Daemon, w: World, kind: string, payload: string, now: int, worker: Worker)
    requires WorkerOk(d, w, worker) && w.q.nextId !in w.history
    ensures WorkerOk(d, Begun(w, kind, payload, now), worker)
  {
    hide Arrived, Enqueued;
    forall s ensures Arrived(d, w, s) <==> Arrived(d, Begun(w, kind, payload, now), s) {
      SameArrivals(d, w, Begun(w, kind, payload, now), s);
    }
  }

  lemma BeginningLosesNothing(d: Daemon, w: World, kind: string, payload: string, now: int)
    requires NothingLost(d, w)
    ensures NothingLost(d, Begun(w, kind, payload, now))
  {
    hide Arrived;
    forall s ensures Arrived(d, w, s) <==> Arrived(d, Begun(w, kind, payload, now), s) {
      SameArrivals(d, w, Begun(w, kind, payload, now), s);
    }
  }

  lemma StartKeepsInv(d: Daemon, start: Usage.Table, w: World, kind: string, payload: string, now: int)
    requires Inv(d, start, w) && ValidKind(kind)
    ensures Inv(d, start, Begun(w, kind, payload, now))
  {
    hide BooksOk, WorkerOk, RowsRemembered, NothingLost, AskedFor, Usage.UniqueKeys, Usage.Keys, Usage.Offers, Enqueued;
    var v := Begun(w, kind, payload, now);
    BooksStayOk(w.q, kind, payload, w.q.nextId, 0, now, "", false);
    BeginningIsRemembered(w, kind, payload, now);
    BeginningLosesNothing(d, w, kind, payload, now);
    forall n | n in v.workers ensures WorkerOk(d, v, v.workers[n]) {
      BeginningKeepsWorker(d, w, kind, payload, now, w.workers[n]);
    }
    forall k | AskedFor(d, w.history, k) ensures AskedFor(d, v.history, k) {
      StillAskedFor(d, w, w.q.nextId, Sent(kind, payload), k);
    }
  }

  lemma StillAskedFor(d: Daemon, w: World, id: nat, s: Sent, k: Usage.DedupKey)
    requires AskedFor(d, w.history, k) && id !in w.history
    ensures AskedFor(d, w.history[id := s], k)
  {
    hide AsksFor;
    var j :| j in w.history && AsksFor(d, w.history[j], k);
    assert w.history[id := s][j] == w.history[j];
  }

  lemma FetchKeepsInv(d: Daemon, start: Usage.Table, w: World, n: nat, now: int)
    requires Inv(d, start, w)
    ensures Inv(d, start, WithWorker(w, n, Worker(NextEligible(w.q, now, 50), Ready)))
  {
    hide NextEligible, Inv, Arrived;
    InvQueue(d, start, w);
    NextEligibleMeans(w.q, now, 50);
    var todo := NextEligible(w.q, now, 50);
    forall i | 0 <= i < |todo| ensures Remembers(w.history, todo[i].id, todo[i].item) {
      assert todo[i] in todo;
    }
    WorkerKeepsInv(d, start, w, n, Worker(todo, Ready));
  }

  lemma NextKeepsInv(d: Daemon, start: Usage.Table, w: World, e: Event)
    requires Inv(d, start, w)
    ensures Inv(d, start, Next(d, w, e))
  {
    hide Inv, Arrived, Posted, SettledBy, NextEligible, Purged, Enqueued;
    match e
    case Start(n, kind, payload, now) =>
      if WorkerAt(w, n).todo == [] && ValidKind(kind) {
        var id := w.q.nextId;
        StartKeepsInv(d, start, w, kind, payload, now);
        WorkerKeepsInv(d, start, Begun(w, kind, payload, now), n, Worker([Listed(id, Fresh(kind, payload, now))], Ready));
      }
    case Fetch(n, now) =>
      if WorkerAt(w, n).todo == [] { FetchKeepsInv(d, start, w, n, now); }
    case Post(n, _, _, _, _) =>
      if WorkerAt(w, n).todo != [] && WorkerAt(w, n).phase == Ready { PostKeepsInv(d, start, w, e); }
    case Settle(n, now) =>
      if WorkerAt(w, n).todo != [] { SettleKeepsInv(d, start, w, n, now); }
    case Crash(n) =>
      WorkerKeepsInv(d, start, w, n, IDLE);
    case Purge(all) =>
      PurgeKeepsInv(d, start, w, all);
    case Batch(b) =>
      OtherKeepsInv(d, start, w, b);
    case Filed(payload) =>
      FiledKeepsInv(d, start, w, payload);
  }

  lemma FiledKeepsInv(d: Daemon, start: Usage.Table, w: World, payload: string)
    requires Inv(d, start, w)
    ensures Inv(d, start, w.(proposals := w.proposals + [payload]))
  {
    hide BooksOk, Arrived, AskedFor, Usage.UniqueKeys, Usage.Keys;
    var v := w.(proposals := w.proposals + [payload]);
    forall s | Arrived(d, w, s) ensures Arrived(d, v, s) { ArrivedStays(d, w, v, s); }
    forall n | n in v.workers ensures WorkerOk(d, v, v.workers[n]) {
      assert WorkerOk(d, w, w.workers[n]);
    }
  }

  lemma OtherTable(w: World, b: Usage.Batch)
    requires Usage.UniqueKeys(w.table)
    ensures var v := FromOther(w, b);
            && w.table <= v.table && Usage.UniqueKeys(v.table)
            && v == w.(table := v.table, others := w.others + [b])
    ensures var v := FromOther(w, b);
            (forall k | Usage.Offers(w.others, k) :: k in Usage.Keys(w.table)) ==>
              forall k | Usage.Offers(v.others, k) :: k in Usage.Keys(v.table)
    ensures forall k | Usage.Offers(w.others, k) :: Usage.Offers(FromOther(w, b).others, k)
    ensures forall k | k in Usage.Keys(FromOther(w, b).table) :: k in Usage.Keys(w.table) || Usage.Offers(FromOther(w, b).others, k)
  {
    hide Usage.UniqueKeys, Usage.Ingested, Usage.Keys, Usage.Offered, Usage.Offers, Usage.Whole;
    Usage.StepIsUnion(w.table, b);
    var others := w.others + [b];
    assert others[..|others| - 1] == w.others && others[|others| - 1] == b;
    forall k ensures Usage.Offers(others, k) <==>
                     Usage.Offers(w.others, k) || (Usage.Whole(b) && k in Usage.Offered(b.profile, b.events, b.at))
    {
      Usage.OffersSnoc(others, k);
    }
  }

  lemma OtherKeepsInv(d: Daemon, start: Usage.Table, w: World, b: Usage.Batch)
    requires Inv(d, start, w)
    ensures Inv(d, start, FromOther(w, b))
  {
    hide BooksOk, Arrived, AskedFor, Usage.UniqueKeys, Usage.Keys, Usage.Offers, FromOther;
    var v := FromOther(w, b);
    OtherTable(w, b);
    forall s | Arrived(d, w, s) ensures Arrived(d, v, s) { ArrivedStays(d, w, v, s); }
    forall n | n in v.workers ensures WorkerOk(d, v, v.workers[n]) {
      assert WorkerOk(d, w, w.workers[n]);
    }
  }

  lemma PurgeKeepsInv(d: Daemon, start: Usage.Table, w: World, all: bool)
    requires Inv(d, start, w)
    ensures Inv(d, start, PurgedBy(w, all))
  {
    hide Inv, Arrived, BooksOk;
    InvQueue(d, start, w);
    BooksStayOk(w.q, "usage", "", 0, 0, 0, "", all);
    var q := Purged(w.q, all);
    QueueKeepsInv(d, start, w, q, w.purged + (w.q.rows.Keys - q.rows.Keys));
  }

  /** Over every run, from a new queue and beside other agents: no enqueued write is ever lost, and usage
      is never invented and never counted twice, whatever was retried, raced or lost. */
  lemma {:induction false} EveryRunKeepsInv(d: Daemon, table: Usage.Table, proposals: seq<string>, events: seq<Event>)
    requires Usage.UniqueKeys(table)
    ensures Inv(d, table, RunTo(d, Initial(table, proposals), events))
  {
    hide Next, Usage.UniqueKeys, Usage.Keys;
    if events != [] {
      hide Inv;
      EveryRunKeepsInv(d, table, proposals, events[..|events| - 1]);
      NextKeepsInv(d, table, RunTo(d, Initial(table, proposals), events[..|events| - 1]), events[|events| - 1]);
    }
  }

  predicate AllExplicit(d: Daemon, history: map<nat, Sent>) {
    forall id | id in history && history[id].kind == "usage" && d.events(history[id].payload).Some? ::
      forall e | e in d.events(history[id].payload).value :: Usage.Explicit(e)
  }

  lemma ArrivedHolds(d: Daemon, t: World, s: Sent, k: Usage.DedupKey)
    requires Arrived(d, t, s) && AsksFor(d, s, k)
    requires forall e | e in d.events(s.payload).value :: Usage.Explicit(e)
    ensures k in Usage.Keys(t.table)
  {
    var e :| e in d.events(s.payload).value && !Usage.Skipped(e) && Names(k, d.profile, e);
    assert EventStored(t.table, d.profile, e) && Usage.Explicit(e);
    var i :| 0 <= i < |t.table| && Names(t.table[i].key, d.profile, e);
    assert t.table[i].key == k;
  }

  /** Exactly-once effect: when the queue has run empty and nothing was thrown away, the table holds one
      row for each key it had, was asked for here or was offered by other agents, and no other; and every
      proposal is there at least once. */
  lemma EmptyQueueIsExact(d: Daemon, table: Usage.Table, proposals: seq<string>, events: seq<Event>)
    requires Usage.UniqueKeys(table)
    requires var end := RunTo(d, Initial(table, proposals), events);
             end.q.rows == map[] && end.purged == {} && AllExplicit(d, end.history)
    ensures var end := RunTo(d, Initial(table, proposals), events);
            && Usage.UniqueKeys(end.table)
            && (forall k :: k in Usage.Keys(end.table) <==>
                  k in Usage.Keys(table) || AskedFor(d, end.history, k) || Usage.Offers(end.others, k))
            && (forall id | id in end.history && end.history[id].kind == "proposal" :: end.history[id].payload in end.proposals)
  {
    hide RunTo, Usage.UniqueKeys, Usage.Keys, BooksOk, RowsRemembered, WorkersOk, AsksFor;
    EveryRunKeepsInv(d, table, proposals, events);
    var end := RunTo(d, Initial(table, proposals), events);
    forall k | AskedFor(d, end.history, k) ensures k in Usage.Keys(end.table) {
      var id :| id in end.history && AsksFor(d, end.history[id], k);
      AskedIsUsage(d, end.history[id], k);
      ArrivedHolds(d, end, end.history[id], k);
    }
    TableKeysStay(table, end.table);
  }

  lemma AskedIsUsage(d: Daemon, s: Sent, k: Usage.DedupKey)
    requires AsksFor(d, s, k)
    ensures s.kind == "usage" && d.events(s.payload).Some?
  {
  }

  lemma TableKeysStay(t: Usage.Table, u: Usage.Table)
    requires t <= u
    ensures Usage.Keys(t) <= Usage.Keys(u)
  {
    forall i | 0 <= i < |t| ensures t[i].key in Usage.Keys(u) { assert u[i] == t[i]; }
  }

  // ---------------------------------------------------------------- proposals are not deduplicated

  lemma OnlyItemIsListed(q: State, id: nat, now: int)
    requires q.rows.Keys == {id} && Due(q.rows[id], now)
    ensures NextEligible(q, now, 50) == [Listed(id, q.rows[id])]
  {
    hide NextEligible;
    NextEligibleMeans(q, now, 50);
    var page := NextEligible(q, now, 50);
    forall i | 0 <= i < |page| ensures page[i] == Listed(id, q.rows[id]) { assert page[i] in page; }
    assert page != [] ==> OnPage(page, page[0].id);
    assert |page| > 1 ==> Before(page[0].id, page[1].id);
  }

  /** The daemon commits, the response is lost, the drainer sends the payload again. */
  function LostResponse(kind: string, payload: string, at: nat -> int): seq<Event> {
    [Start(0, kind, payload, 0), Post(0, true, at, false, "timeout"), Settle(0, 0), Settle(0, 0),
     Fetch(1, 2 * SECOND), Post(1, true, at, true, ""), Settle(1, 2 * SECOND)]
  }

  lemma RunSnoc(d: Daemon, w: World, events: seq<Event>, e: Event)
    ensures RunTo(d, w, events + [e]) == Next(d, RunTo(d, w, events), e)
  {
    assert (events + [e])[..|events|] == events;
  }

  lemma ThreeSteps(d: Daemon, w: World, a: Event, b: Event, c: Event)
    ensures RunTo(d, w, [a, b, c]) == Next(d, Next(d, Next(d, w, a), b), c)
  {
    RunSnoc(d, w, [], a);
    RunSnoc(d, w, [a], b);
    RunSnoc(d, w, [a, b], c);
    assert [] + [a] == [a] && [a] + [b] == [a, b] && [a, b] + [c] == [a, b, c];
  }

  lemma FourSteps(d: Daemon, w: World, a: Event, b: Event, c: Event, e: Event)
    ensures RunTo(d, w, [a, b, c, e]) == Next(d, Next(d, Next(d, Next(d, w, a), b), c), e)
  {
    hide Next, RunTo;
    ThreeSteps(d, w, a, b, c);
    RunSnoc(d, w, [a, b, c], e);
    assert [a, b, c] + [e] == [a, b, c, e];
  }

  lemma {:induction false} RunConcat(d: Daemon, w: World, xs: seq<Event>, ys: seq<Event>)
    ensures RunTo(d, w, xs + ys) == RunTo(d, RunTo(d, w, xs), ys)
    decreases |ys|
  {
    if ys == [] {
      assert xs + ys == xs;
    } else {
      var n := |ys| - 1;
      RunConcat(d, w, xs, ys[..n]);
      assert xs + ys == (xs + ys[..n]) + [ys[n]];
      RunSnoc(d, w, xs + ys[..n], ys[n]);
    }
  }

  const MISSED := Item("", "", 1, 0, 2 * SECOND, "timeout", false)

  /** After the first half: the daemon has the proposal, the queue still has it too. */
  function Unaware(payload: string): World {
    World(State(map[1 := MISSED.(kind := "proposal", payload := payload)], 2), [], [payload], map[0 := IDLE],
          map[1 := Sent("proposal", payload)], {}, [])
  }

  lemma FirstHalf(d: Daemon, payload: string, at: nat -> int)
    requires d.admits(payload)
    ensures RunTo(d, Initial([], []), LostResponse("proposal", payload, at)[..4]) == Unaware(payload)
  {
    hide RunTo, NextEligible, Usage.Ingested, Purged, FromOther, Deleted;
    var s := LostResponse("proposal", payload, at);
    FourSteps(d, Initial([], []), s[0], s[1], s[2], s[3]);
    assert s[..4] == [s[0], s[1], s[2], s[3]];
    assert Pow2(1) == 2;
    assert RunTo(d, Initial([], []), s[..4]).q == Unaware(payload).q;
  }

  lemma SecondHalf(d: Daemon, payload: string, at: nat -> int)
    requires d.admits(payload)
    ensures var end := RunTo(d, Unaware(payload), LostResponse("proposal", payload, at)[4..]);
            end.proposals == [payload, payload] && end.q.rows == map[] && end.purged == {}
  {
    hide RunTo, NextEligible;
    var s := LostResponse("proposal", payload, at);
    OnlyItemIsListed(Unaware(payload).q, 1, 2 * SECOND);
    ThreeSteps(d, Unaware(payload), s[4], s[5], s[6]);
    assert s[4..] == [s[4], s[5], s[6]];
  }

  /** So a proposal whose response got lost is stored twice, by a run that ends with an empty queue. */
  lemma ProposalsMayRepeat(d: Daemon, payload: string, at: nat -> int)
    requires d.admits(payload)
    ensures var end := RunTo(d, Initial([], []), LostResponse("proposal", payload, at));
            end.proposals == [payload, payload] && end.q.rows == map[] && end.purged == {}
  {
    hide RunTo, LostResponse;
    var s := LostResponse("proposal", payload, at);
    FirstHalf(d, payload, at);
    SecondHalf(d, payload, at);
    assert |s| == 7 by { LostResponseLength("proposal", payload, at); }
    assert s == s[..4] + s[4..];
    RunConcat(d, Initial([], []), s[..4], s[4..]);
  }

  lemma LostResponseLength(kind: string, payload: string, at: nat -> int)
    ensures |LostResponse(kind, payload, at)| == 7
  {
  }

  /** The daemon commits this proposal in this step, for this agent or another. */
  predicate Commits(d: Daemon, w: World, e: Event, payload: string) {
    || (e.Filed? && e.payload == payload && d.admits(payload))
    || Delivers(d, w, e, payload)
  }

  predicate Delivers(d: Daemon, w: World, e: Event, payload: string) {
    && e.Post? && e.reaches && d.admits(payload)
    && WorkerAt(w, e.worker).todo != [] && WorkerAt(w, e.worker).phase == Ready
    && WorkerAt(w, e.worker).todo[0].item.kind == "proposal" && WorkerAt(w, e.worker).todo[0].item.payload == payload
  }

  function TotalCommits(d: Daemon, w: World, events: seq<Event>, payload: string): nat {
    if events == [] then 0
    else
      var front := events[..|events| - 1];
      TotalCommits(d, w, front, payload) + if Commits(d, RunTo(d, w, front), events[|events| - 1], payload) then 1 else 0
  }

  function Copies(ps: seq<string>, payload: string): nat { multiset(ps)[payload] }

  lemma StepStoresCommits(d: Daemon, w: World, e: Event, payload: string)
    ensures Copies(Next(d, w, e).proposals, payload) == Copies(w.proposals, payload) + if Commits(d, w, e, payload) then 1 else 0
  {
    hide NextEligible, Purged, Enqueued, Written, Deleted, Usage.Ingested;
  }

  /** A proposal is stored once for each request that is committed, heard of or not: exactly once
      exactly when a single request for it gets through. */
  lemma {:induction false} CopiesAreCommits(d: Daemon, w: World, events: seq<Event>, payload: string)
    ensures Copies(RunTo(d, w, events).proposals, payload) == Copies(w.proposals, payload) + TotalCommits(d, w, events, payload)
  {
    hide Next, Commits, Copies;
    if events != [] {
      var front := events[..|events| - 1];
      CopiesAreCommits(d, w, front, payload);
      StepStoresCommits(d, RunTo(d, w, front), events[|events| - 1], payload);
    }
  }

  // ---------------------------------------------------------------- a race outruns the backoff

  /** The drainer picks a write up while its own in-line attempt is under way, and both fail at once. */
  function BothFail(payload: string, at: nat -> int): seq<Event> {
    [Start(0, "usage", payload, 0), Fetch(1, 0), Post(0, false, at, false, "refused"), Post(1, false, at, false, "refused")]
  }

  function BothRefused(payload: string): World {
    var item := Fresh("usage", payload, 0);
    var worker := Worker([Listed(1, item)], Refused("refused"));
    World(State(map[1 := item], 2), [], [], map[0 := worker, 1 := worker], map[1 := Sent("usage", payload)], {}, [])
  }

  lemma BothFailTogether(d: Daemon, payload: string, at: nat -> int)
    ensures RunTo(d, Initial([], []), BothFail(payload, at)) == BothRefused(payload)
  {
    hide RunTo, NextEligible;
    var s := BothFail(payload, at);
    var item := Fresh("usage", payload, 0);
    FourSteps(d, Initial([], []), s[0], s[1], s[2], s[3]);
    OnlyItemIsListed(State(map[1 := item], 2), 1, 0);
    var end := RunTo(d, Initial([], []), [s[0], s[1], s[2], s[3]]);
    assert end.workers == BothRefused(payload).workers;
    assert end.q == BothRefused(payload).q;
  }

  lemma RaceSettles(d: Daemon, payload: string, at: nat -> int, a: Event, b: Event, c: Event, e: Event)
    ensures RunTo(d, Initial([], []), BothFail(payload, at) + [a, b, c, e]) ==
            Next(d, Next(d, Next(d, Next(d, BothRefused(payload), a), b), c), e)
  {
    hide RunTo, Next, BothFail, BothRefused;
    BothFailTogether(d, payload, at);
    RunConcat(d, Initial([], []), BothFail(payload, at), [a, b, c, e]);
    FourSteps(d, BothRefused(payload), a, b, c, e);
  }

  /** Both failures are counted in the same instant: the second attempt is not made on schedule, so the
      waiting time before dead-lettering holds for attempts on schedule only. */
  lemma RaceOutrunsBackoff(d: Daemon, payload: string, at: nat -> int)
    ensures var end := RunTo(d, Initial([], []), BothFail(payload, at) + [Settle(0, 0), Settle(0, 0), Settle(1, 0), Settle(1, 0)]);
            && end.q.rows == map[1 := Item("usage", payload, 2, 0, 4 * SECOND, "refused", false)]
            && !OnSchedule(Fresh("usage", payload, 0), [Failure(0, "refused"), Failure(0, "refused")])
  {
    hide RunTo, OnSchedule, BothFail;
    RaceSettles(d, payload, at, Settle(0, 0), Settle(0, 0), Settle(1, 0), Settle(1, 0));
    assert Pow2(1) == 2 && Pow2(2) == 4;
    NotOnSchedule(Fresh("usage", payload, 0));
  }

  /** Or one of the two is not counted at all: both read the row before either writes it back. */
  lemma RaceUndercounts(d: Daemon, payload: string, at: nat -> int)
    ensures var end := RunTo(d, Initial([], []), BothFail(payload, at) + [Settle(0, 0), Settle(1, 0), Settle(0, 0), Settle(1, 0)]);
            end.q.rows == map[1 := Item("usage", payload, 1, 0, 2 * SECOND, "refused", false)]
  {
    hide RunTo, BothFail;
    RaceSettles(d, payload, at, Settle(0, 0), Settle(1, 0), Settle(0, 0), Settle(1, 0));
    assert Pow2(1) == 2;
  }

  lemma NotOnSchedule(item: Item)
    requires item.attempts == 0
    ensures !OnSchedule(item, [Failure(0, "refused"), Failure(0, "refused")])
  {
    var fs := [Failure(0, "refused"), Failure(0, "refused")];
    assert fs[..1] == [fs[0]];
    assert Pow2(1) == 2;
    assert Battered(item, fs[..1]).nextAt == 2 * SECOND;
    assert !Due(Battered(item, fs[..1]), fs[1].at);
  }

  // ---------------------------------------------------------------- the actors' code makes such steps

  /** What happens to one request on its way. */
  datatype Wire = Wire(reaches: bool, at: nat -> int, heard: bool, message: string)

  function Sending(n: nat, wire: Wire): Event { Post(n, wire.reaches, wire.at, wire.heard, wire.message) }

  /** What the sender of this item learns. */
  function Learned(d: Daemon, w: World, item: Item, wire: Wire): Option<string> {
    if wire.reaches && wire.heard && Served(d, w, item.kind, item.payload, wire.at).Some? then None else Some(wire.message)
  }

  function Rounds(n: nat, wires: nat -> Wire, at: nat -> int, k: nat): seq<Event> {
    if k == 0 then [] else Rounds(n, wires, at, k - 1) + [Sending(n, wires(k - 1)), Settle(n, at(k - 1)), Settle(n, at(k - 1))]
  }

  /** The world when the drainer is about to send its k-th item. */
  function AtItem(d: Daemon, w: World, n: nat, drain: Drainer.Drain, wires: nat -> Wire, k: nat): World {
    RunTo(d, Next(d, w, Fetch(n, drain.start)), Rounds(n, wires, drain.at, k))
  }

  /** The answers DrainOnce gets are those its requests lead to. */
  ghost predicate Explains(d: Daemon, w: World, n: nat, drain: Drainer.Drain, wires: nat -> Wire) {
    forall k: nat | k < drain.Replayed(w.q) ::
      drain.answers(k) == Learned(d, AtItem(d, w, n, drain, wires, k), drain.Items(w.q)[k].item, wires(k))
  }

  lemma OneRound(d: Daemon, w: World, n: nat, wire: Wire, now: int)
    requires WorkerAt(w, n).todo != [] && WorkerAt(w, n).phase == Ready
    ensures var head := WorkerAt(w, n).todo[0];
            var end := Next(d, Next(d, Next(d, w, Sending(n, wire)), Settle(n, now)), Settle(n, now));
            match Learned(d, w, head.item, wire)
            case None => end.q == Deleted(w.q, head.id) && WorkerAt(end, n) == Worker(WorkerAt(w, n).todo[1..], Ready)
            case Some(message) => end.q == Marked(w.q, head.id, now, message) && WorkerAt(end, n) == IDLE
  {
    hide Usage.Ingested, Written, Deleted;
  }

  lemma RunThree(d: Daemon, w: World, events: seq<Event>, a: Event, b: Event, c: Event)
    ensures RunTo(d, w, events + [a, b, c]) == Next(d, Next(d, Next(d, RunTo(d, w, events), a), b), c)
  {
    RunConcat(d, w, events, [a, b, c]);
    ThreeSteps(d, RunTo(d, w, events), a, b, c);
  }

  lemma {:induction false} DeliveriesAreRounds(d: Daemon, w: World, n: nat, drain: Drainer.Drain, wires: nat -> Wire, k: nat)
    requires BooksOk(w.q) && WorkerAt(w, n).todo == [] && Explains(d, w, n, drain, wires)
    requires k <= drain.Delivered(w.q)
    ensures var v := AtItem(d, w, n, drain, wires, k);
            && v.q == Drainer.WithoutFirst(w.q, drain.Items(w.q), k)
            && WorkerAt(v, n) == Worker(drain.Items(w.q)[k..], Ready)
  {
    hide RunTo, Learned, Drainer.WithoutFirst, NextEligible, Drainer.Lead, BooksOk;
    var items := drain.Items(w.q);
    if k == 0 {
      RunNothing(d, Next(d, w, Fetch(n, drain.start)));
      Drainer.WithoutNone(w.q, items);
    } else {
      DeliveriesAreRounds(d, w, n, drain, wires, k - 1);
      var v := AtItem(d, w, n, drain, wires, k - 1);
      OneRound(d, v, n, wires(k - 1), drain.at(k - 1));
      RunThree(d, Next(d, w, Fetch(n, drain.start)), Rounds(n, wires, drain.at, k - 1), Sending(n, wires(k - 1)),
               Settle(n, drain.at(k - 1)), Settle(n, drain.at(k - 1)));
      KindIsValid(w.q, drain.start, k - 1);
      Drainer.WithoutNext(w.q, items, k - 1);
      assert items[k - 1..][1..] == items[k..];
    }
  }

  lemma RunNothing(d: Daemon, w: World)
    ensures RunTo(d, w, []) == w
  {
  }

  lemma KindIsValid(q: State, now: int, k: nat)
    requires BooksOk(q) && k < |NextEligible(q, now, 50)|
    ensures ValidKind(NextEligible(q, now, 50)[k].item.kind)
  {
    hide NextEligible;
    NextEligibleMeans(q, now, 50);
    assert NextEligible(q, now, 50)[k] in NextEligible(q, now, 50);
  }

  /** An undisturbed DrainOnce is a run of this protocol: fetch, then send and settle item by item. */
  lemma DrainOnceIsARun(d: Daemon, w: World, n: nat, drain: Drainer.Drain, wires: nat -> Wire)
    requires BooksOk(w.q) && WorkerAt(w, n).todo == [] && Explains(d, w, n, drain, wires)
    ensures var end := RunTo(d, w, [Fetch(n, drain.start)] + Rounds(n, wires, drain.at, drain.Replayed(w.q)));
            end.q == drain.After(w.q) && WorkerAt(end, n).todo == []
  {
    hide RunTo, Learned, Drainer.WithoutFirst, NextEligible, Drainer.Lead, BooksOk, Marked;
    var items, k := drain.Items(w.q), drain.Delivered(w.q);
    var rounds := Rounds(n, wires, drain.at, drain.Replayed(w.q));
    var fetched := Next(d, w, Fetch(n, drain.start));
    RunConcat(d, w, [Fetch(n, drain.start)], rounds);
    RunSnoc(d, w, [], Fetch(n, drain.start));
    RunNothing(d, w);
    assert [] + [Fetch(n, drain.start)] == [Fetch(n, drain.start)];
    DeliveriesAreRounds(d, w, n, drain, wires, k);
    if k < |items| {
      OneRound(d, AtItem(d, w, n, drain, wires, k), n, wires(k), drain.at(k));
      RunThree(d, fetched, Rounds(n, wires, drain.at, k), Sending(n, wires(k)), Settle(n, drain.at(k)), Settle(n, drain.at(k)));
      KindIsValid(w.q, drain.start, k);
    }
  }

  /** So is an undisturbed in-line attempt. */
  lemma AttemptIsARun(d: Daemon, w: World, n: nat, kind: string, payload: string, enqueuedAt: int, now: int, wire: Wire)
    requires WorkerAt(w, n).todo == [] && ValidKind(kind)
    ensures var begun := Next(d, w, Start(n, kind, payload, enqueuedAt));
            var outcome := Learned(d, begun, Fresh(kind, payload, enqueuedAt), wire);
            var end := RunTo(d, w, [Start(n, kind, payload, enqueuedAt), Sending(n, wire), Settle(n, now), Settle(n, now)]);
            end.q == Drainer.Attempted(w.q, kind, payload, enqueuedAt, now, outcome) && WorkerAt(end, n).todo == []
  {
    hide RunTo, Learned, Enqueued, Marked, Deleted;
    var begun := Next(d, w, Start(n, kind, payload, enqueuedAt));
    FourSteps(d, w, Start(n, kind, payload, enqueuedAt), Sending(n, wire), Settle(n, now), Settle(n, now));
    OneRound(d, begun, n, wire, now);
  }
}
