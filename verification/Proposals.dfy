/** The human gate (internal/pgstore/proposals.go, migrations 0004 and 0005): proposals are submitted,
    and each is decided at most once; approving one applies it to the registry in the same transaction. */
module Proposals {
  import opened Outcomes
  import opened SkillFile
  import opened Registry
  import Text

  datatype Verdict = Pending | Approved | Rejected

  /** A row of proposals; its id is its position in the append-only table, counted from one. */
  datatype Proposal = Proposal(profile: string, kind: string, skill: string, fm: Frontmatter, body: string,
                               createdBy: string, verdict: Verdict, decidedBy: string, reason: string, decidedAt: int)

  /** A row of promotion_state, by skill id. */
  datatype Promotion = Promotion(at: int, who: string)

  datatype Tables = Tables(db: Db, proposals: seq<Proposal>, promotions: map<nat, Promotion>)

  datatype ProposalInput = ProposalInput(profile: string, kind: string, skill: string, fm: Frontmatter,
                                         body: string, createdBy: string)

  /** What an approval reports: the version number of a create, and the status the skill is said to have now. */
  datatype Applied = Applied(kind: string, skill: string, number: Option<nat>, newStatus: Status)

  const VALID_KINDS := {"create", "prune", "promote"}

  function Submitted(t: Tables, input: ProposalInput): (Tables, Result<nat, Error>) {
    if input.kind !in VALID_KINDS then (t, Err(UnknownKind))
    else if input.skill == "" then (t, Err(NameRequired))
    else
      var p := Proposal(input.profile, input.kind, input.skill, input.fm, input.body, input.createdBy, Pending, "", "", 0);
      (t.(proposals := t.proposals + [p]), Ok(|t.proposals| + 1))
  }

  /** WHERE profile = $1 AND id = $2 AND status = 'pending' */
  predicate Awaits(t: Tables, profile: string, id: nat) {
    1 <= id <= |t.proposals| && t.proposals[id - 1].profile == profile && t.proposals[id - 1].verdict == Pending
  }

  function WithRow(t: Tables, id: nat, p: Proposal): Tables
    requires 1 <= id <= |t.proposals|
  {
    t.(proposals := t.proposals[id - 1 := p])
  }

  function Rejection(t: Tables, profile: string, id: nat, who: string, reason: string, now: int): (Tables, Result<(), Error>) {
    if !Awaits(t, profile, id) then (t, Err(NotFound))
    else (WithRow(t, id, t.proposals[id - 1].(verdict := Rejected, decidedBy := who, reason := reason, decidedAt := now)), Ok(()))
  }

  function InputOf(p: Proposal, id: nat): RegisterInput {
    RegisterInput(p.profile, p.skill, p.fm, p.body, p.createdBy, "proposal:" + Text.FormatInt(id), "proposed", "local", [])
  }

  /** What a proposal asks the registry to do. */
  function OpOf(p: Proposal, id: nat, hash: Hash, ulid: string, now: int): Op {
    if p.kind == "create" then Register(hash, InputOf(p, id), ulid, now)
    else SetStatus(Key(p.profile, p.skill), if p.kind == "promote" then Promoted else Retired, now)
  }

  function WithVerdict(t: Tables, id: nat, who: string, now: int): Tables
    requires 1 <= id <= |t.proposals|
  {
    WithRow(t, id, t.proposals[id - 1].(verdict := Approved, decidedBy := who, decidedAt := now))
  }

  /** INSERT ... SELECT id FROM skills ... ON CONFLICT (skill_id) DO UPDATE */
  function PromotionNoted(t: Tables, key: Key, who: string, now: int): Tables {
    if key in t.db.skills then t.(promotions := t.promotions[t.db.skills[key].id := Promotion(now, who)]) else t
  }

  /** An approval: the tables after the transaction, and its result. */
  function Approval(t: Tables, hash: Hash, profile: string, id: nat, who: string, ulid: string, now: int)
    : (Tables, Result<Applied, Error>)
  {
    if !Awaits(t, profile, id) then (t, Err(NotFound))
    else
      var p := t.proposals[id - 1];
      var key := Key(profile, p.skill);
      if p.kind == "create" then
        var (db, r) := Registered(t.db, hash, InputOf(p, id), ulid, now);
        match r
        case Err(e) => (t, Err(e))
        case Ok(receipt) => (WithVerdict(t.(db := db), id, who, now), Ok(Applied(p.kind, p.skill, Some(receipt.number), Local)))
      else if p.kind in VALID_KINDS then
        var status := if p.kind == "promote" then Promoted else Retired;
        var (db, r) := StatusSet(t.db, key, status, now);
        match r
        case Err(e) => (t, Err(e))
        case Ok(_) =>
          var u := t.(db := db);
          var v := if p.kind == "promote" then PromotionNoted(u, key, who, now) else u;
          (WithVerdict(v, id, who, now), Ok(Applied(p.kind, p.skill, None, status)))
      else (t, Err(UnknownKind))
  }

  method SetStatusTx(tx: Db, key: Key, status: Status, now: int) returns (tx': Db, r: Result<(), Error>)
    ensures (tx', r) == StatusSet(tx, key, status, now)
  {
    tx' := tx;
    if key !in tx.skills { return tx', Err(NotFound); }
    tx' := WithSkill(tx, key, tx.skills[key].(status := status, updatedAt := now));
    r := Ok(());
  }

  class Gate {
    var db: Db
    var proposals: seq<Proposal>
    var promotions: map<nat, Promotion>

    constructor (db: Db)
      ensures Value() == Tables(db, [], map[])
    {
      this.db, proposals, promotions := db, [], map[];
    }

    function Value(): Tables
      reads this
    {
      Tables(db, proposals, promotions)
    }

    method CreateProposal(input: ProposalInput) returns (r: Result<nat, Error>)
      modifies this
      ensures (Value(), r) == Submitted(old(Value()), input)
      ensures db == old(db) && promotions == old(promotions)
      ensures r.Ok? <==> input.kind in VALID_KINDS && input.skill != ""
      ensures r.Err? ==> proposals == old(proposals)
      ensures r.Ok? ==> old(proposals) < proposals && |proposals| == |old(proposals)| + 1 && r.value == |proposals|
      ensures r.Ok? ==> Request(proposals[r.value - 1]) == input && proposals[r.value - 1].verdict == Pending
      ensures r.Ok? ==> proposals[r.value - 1].decidedBy == "" && proposals[r.value - 1].reason == ""
      ensures r.Err? ==> r.error == if input.kind in {"create", "prune", "promote"} then NameRequired else UnknownKind
    {
      if input.kind !in VALID_KINDS { return Err(UnknownKind); }
      if input.skill == "" { return Err(NameRequired); }
      proposals := proposals + [Proposal(input.profile, input.kind, input.skill, input.fm, input.body, input.createdBy,
                                         Pending, "", "", 0)];
      r := Ok(|proposals|);
    }

    method RejectProposal(profile: string, id: nat, who: string, reason: string, now: int) returns (r: Result<(), Error>)
      modifies this
      ensures (Value(), r) == Rejection(old(Value()), profile, id, who, reason, now)
      ensures db == old(db) && promotions == old(promotions) && |proposals| == |old(proposals)|
      ensures r.Ok? <==> Awaits(old(Value()), profile, id)
      ensures r.Err? ==> r.error == NotFound && proposals == old(proposals)
      ensures forall i | 0 <= i < |proposals| && i != id - 1 :: proposals[i] == old(proposals)[i]
      ensures r.Ok? ==> var p := proposals[id - 1];
                        Request(p) == Request(old(proposals)[id - 1]) && p.verdict == Rejected
                        && p.decidedBy == who && p.reason == reason && p.decidedAt == now
    {
      if !Awaits(Value(), profile, id) { return Err(NotFound); }
      var row := proposals[id - 1];
      proposals := proposals[id - 1 := row.(verdict := Rejected, decidedBy := who, reason := reason, decidedAt := now)];
      r := Ok(());
    }

    /** Works on the transaction's copies; only the commit at the end writes the tables. */
    method ApproveProposal(hash: Hash, profile: string, id: nat, who: string, ulid: string, now: int)
      returns (r: Result<Applied, Error>)
      modifies this
      ensures (Value(), r) == Approval(old(Value()), hash, profile, id, who, ulid, now)
    {
      hide Registered, StatusSet;
      if !Awaits(Value(), profile, id) { return Err(NotFound); }
      var p := proposals[id - 1];
      var key := Key(profile, p.skill);
      var tx, marks := db, promotions;
      var res := Applied(p.kind, p.skill, None, Local);
      if p.kind == "create" {
        var registered;
        tx, registered := RegisterVersionTx(tx, hash, InputOf(p, id), ulid, now);
        if registered.Err? { return Err(registered.error); }
        res := res.(number := Some(registered.value.number));
      } else if p.kind == "promote" {
        var set';
        tx, set' := SetStatusTx(tx, key, Promoted, now);
        if set'.Err? { return Err(set'.error); }
        if key in tx.skills { marks := marks[tx.skills[key].id := Promotion(now, who)]; }
        res := res.(newStatus := Promoted);
      } else if p.kind == "prune" {
        var set';
        tx, set' := SetStatusTx(tx, key, Retired, now);
        if set'.Err? { return Err(set'.error); }
        res := res.(newStatus := Retired);
      } else {
        return Err(UnknownKind);
      }
      db, promotions := tx, marks;
      proposals := proposals[id - 1 := p.(verdict := Approved, decidedBy := who, decidedAt := now)];
      r := Ok(res);
    }
  }

  // ---------------------------------------------------------------- what an approval does

  /** The row of the decided proposal says who and when, and no other row changes. */
  predicate Signed(t: Tables, u: Tables, id: nat, who: string, now: int) {
    && 1 <= id <= |t.proposals| && |u.proposals| == |t.proposals|
    && (forall i | 0 <= i < |t.proposals| && i != id - 1 :: u.proposals[i] == t.proposals[i])
    && Request(u.proposals[id - 1]) == Request(t.proposals[id - 1])
    && u.proposals[id - 1].verdict == Approved
    && u.proposals[id - 1].decidedBy == who && u.proposals[id - 1].decidedAt == now
    && u.proposals[id - 1].reason == t.proposals[id - 1].reason
  }

  /** An approved create: the skill has the proposed content, under the number reported. If it was not
      there it is one more version with what the proposal holds, its author and its id, and the head. A
      skill it creates is local and proposed; one that exists keeps its status. */
  lemma ApprovedCreateMeans(t: Tables, hash: Hash, profile: string, id: nat, who: string, ulid: string, now: int)
    requires WellFormed(t.db) && 1 <= id <= |t.proposals| && t.proposals[id - 1].kind == "create"
    requires Approval(t, hash, profile, id, who, ulid, now).1.Ok?
    ensures var (u, r) := Approval(t, hash, profile, id, who, ulid, now);
            var p := t.proposals[id - 1];
            var key := Key(profile, p.skill);
            var sha := ShaOf(hash, p.fm, p.body);
            var added := !HasContent(t.db, key, sha);
            && p.profile == profile && Signed(t, u, id, who, now) && u.promotions == t.promotions
            && r.value.kind == "create" && r.value.skill == p.skill && r.value.newStatus == Local
            && r.value.number.Some? && HasVersion(u.db, key, sha, r.value.number.value)
            && u.db.versions == t.db.versions + (if added then
                 [Version(u.db.skills[key].id, r.value.number.value, sha, p.fm, p.body, p.createdBy,
                          "proposal:" + Text.FormatInt(id), ulid)] else [])
            && u.db.skills.Keys == t.db.skills.Keys + {key}
            && (forall k | k in t.db.skills && k != key :: u.db.skills[k] == t.db.skills[k])
  {
    hide Registered, WellFormed, HasContent, HasVersion, ShaOf, Text.FormatInt;
    RegistrationRecords(t.db, hash, InputOf(t.proposals[id - 1], id), ulid, now);
  }

  lemma ApprovedCreateLeavesRow(t: Tables, hash: Hash, profile: string, id: nat, who: string, ulid: string, now: int)
    requires WellFormed(t.db) && 1 <= id <= |t.proposals| && t.proposals[id - 1].kind == "create"
    requires Approval(t, hash, profile, id, who, ulid, now).1.Ok?
    ensures var u := Approval(t, hash, profile, id, who, ulid, now).0;
            var key := Key(profile, t.proposals[id - 1].skill);
            && key in u.db.skills
            && (var row := u.db.skills[key];
                && row.updatedAt == now
                && (|u.db.versions| > |t.db.versions| ==> row.head == Some(|t.db.versions|))
                && (key in t.db.skills ==>
                      row == t.db.skills[key].(updatedAt := row.updatedAt, head := row.head))
                && (key !in t.db.skills ==>
                      row.status == Local && row.origin == Proposed && row.tags == [] && row.slug == Slug(key.name)))
  {
    hide Registered, WellFormed, HasContent, HasVersion, ShaOf, Slug;
    RegistrationRecords(t.db, hash, InputOf(t.proposals[id - 1], id), ulid, now);
    RegistrationLeavesRow(t.db, hash, InputOf(t.proposals[id - 1], id), ulid, now);
  }

  /** An approved promotion or removal changes the status and timestamp of the skill and nothing else in
      the registry; a promotion is recorded with who and when. */
  lemma ApprovedStatusMeans(t: Tables, hash: Hash, profile: string, id: nat, who: string, ulid: string, now: int)
    requires 1 <= id <= |t.proposals| && t.proposals[id - 1].kind != "create"
    requires Approval(t, hash, profile, id, who, ulid, now).1.Ok?
    ensures var (u, r) := Approval(t, hash, profile, id, who, ulid, now);
            var p := t.proposals[id - 1];
            var key := Key(profile, p.skill);
            var status := if p.kind == "promote" then Promoted else Retired;
            && p.profile == profile && Signed(t, u, id, who, now)
            && (p.kind == "promote" || p.kind == "prune") && r.value == Applied(p.kind, p.skill, None, status)
            && key in t.db.skills && u.db.versions == t.db.versions && u.db.nextId == t.db.nextId
            && u.db.skills == t.db.skills[key := t.db.skills[key].(status := status, updatedAt := now)]
            && u.promotions == if p.kind == "promote" then t.promotions[t.db.skills[key].id := Promotion(now, who)] else t.promotions
  {
  }

  // ---------------------------------------------------------------- runs

  /** Everything that can happen to the tables: the gate's operations, and writes that bypass it. */
  datatype Step =
    | Submit(input: ProposalInput)
    | Approve(hash: Hash, profile: string, id: nat, who: string, ulid: string, now: int)
    | Reject(profile: string, id: nat, who: string, reason: string, now: int)
    | Direct(op: Op)

  function After(t: Tables, s: Step): Tables {
    match s
    case Submit(input) => Submitted(t, input).0
    case Approve(hash, profile, id, who, ulid, now) => Approval(t, hash, profile, id, who, ulid, now).0
    case Reject(profile, id, who, reason, now) => Rejection(t, profile, id, who, reason, now).0
    case Direct(op) => t.(db := Apply(t.db, op))
  }

  function RunTo(t: Tables, steps: seq<Step>): Tables {
    if steps == [] then t else After(RunTo(t, steps[..|steps| - 1]), steps[|steps| - 1])
  }

  /** The proposal a step decides, if it succeeds. */
  function DecidedBy(t: Tables, s: Step): Option<nat> {
    match s
    case Approve(hash, profile, id, who, ulid, now) =>
      if Approval(t, hash, profile, id, who, ulid, now).1.Ok? then Some(id) else None
    case Reject(profile, id, who, reason, now) =>
      if Rejection(t, profile, id, who, reason, now).1.Ok? then Some(id) else None
    case _ => None
  }

  function Decisions(t: Tables, steps: seq<Step>, id: nat): nat {
    if steps == [] then 0
    else
      var front := steps[..|steps| - 1];
      Decisions(t, front, id) + if DecidedBy(RunTo(t, front), steps[|steps| - 1]) == Some(id) then 1 else 0
  }

  predicate Decided(t: Tables, id: nat) { 1 <= id <= |t.proposals| && t.proposals[id - 1].verdict != Pending }

  /** What was asked for, apart from the verdict. */
  function Request(p: Proposal): ProposalInput { ProposalInput(p.profile, p.kind, p.skill, p.fm, p.body, p.createdBy) }

  /** Rows are never dropped, a request never changes, and a decided row never changes at all. */
  ghost predicate Extends(t: Tables, u: Tables) {
    && |t.proposals| <= |u.proposals|
    && forall i | 0 <= i < |t.proposals| ::
         && Request(u.proposals[i]) == Request(t.proposals[i])
         && (t.proposals[i].verdict != Pending ==> u.proposals[i] == t.proposals[i])
  }

  /** The row a decision leaves in the place of a pending one. */
  predicate DecidedRow(p: Proposal, q: Proposal, approved: bool) {
    p.verdict == Pending && Request(q) == Request(p) && q.verdict == if approved then Approved else Rejected
  }

  lemma DecisionShape(t: Tables, s: Step)
    requires s.Approve? || s.Reject?
    ensures match DecidedBy(t, s)
            case None => After(t, s) == t
            case Some(id) =>
              && id == s.id && 1 <= id <= |t.proposals| && |After(t, s).proposals| == |t.proposals|
              && DecidedRow(t.proposals[id - 1], After(t, s).proposals[id - 1], s.Approve?)
              && After(t, s).proposals == t.proposals[id - 1 := After(t, s).proposals[id - 1]]
  {
    hide Registered, StatusSet;
  }

  lemma StepExtends(t: Tables, s: Step)
    ensures Extends(t, After(t, s))
    ensures forall id: nat :: Decided(After(t, s), id) <==> Decided(t, id) || DecidedBy(t, s) == Some(id)
    ensures DecidedBy(t, s).Some? ==> !Decided(t, DecidedBy(t, s).value)
  {
    hide Approval, Rejection, Apply, Request;
    if s.Approve? || s.Reject? {
      hide After, DecidedBy;
      DecisionShape(t, s);
    }
  }

  /** Each proposal is decided at most once, whatever the order of submissions, approvals, rejections and
      other writes: it counts one successful decision exactly when it was pending (or not there yet) and
      is not any more, and its row is final from then on. */
  lemma {:induction false} DecidedAtMostOnce(t: Tables, steps: seq<Step>, id: nat)
    ensures Extends(t, RunTo(t, steps))
    ensures Decisions(t, steps, id) + (if Decided(t, id) then 1 else 0) == if Decided(RunTo(t, steps), id) then 1 else 0
  {
    hide After, DecidedBy;
    if steps != [] {
      var front := steps[..|steps| - 1];
      DecidedAtMostOnce(t, front, id);
      StepExtends(RunTo(t, front), steps[|steps| - 1]);
    }
  }

  /** A decision that fails changes nothing: no version, no status, no promotion, no verdict. */
  lemma FailureChangesNothing(t: Tables, s: Step)
    requires (s.Approve? || s.Reject?) && DecidedBy(t, s) == None
    ensures After(t, s) == t
  {
    hide After, DecidedBy;
    DecisionShape(t, s);
  }

  // ---------------------------------------------------------------- the registry is what was approved

  /** An approval as it took effect. */
  datatype Decree = Decree(id: nat, op: Op)

  function DecreeOf(t: Tables, s: Step): seq<Decree> {
    if s.Approve? && DecidedBy(t, s).Some? then [Decree(s.id, OpOf(t.proposals[s.id - 1], s.id, s.hash, s.ulid, s.now))] else []
  }

  /** The approvals of a run, in decision order. */
  function Decrees(t: Tables, steps: seq<Step>): seq<Decree> {
    if steps == [] then []
    else Decrees(t, steps[..|steps| - 1]) + DecreeOf(RunTo(t, steps[..|steps| - 1]), steps[|steps| - 1])
  }

  function Ops(ds: seq<Decree>): seq<Op> { seq(|ds|, i requires 0 <= i < |ds| => ds[i].op) }

  /** All writes of a run to the registry, through the gate or not. */
  function Writes(t: Tables, steps: seq<Step>): seq<Op> {
    if steps == [] then []
    else Writes(t, steps[..|steps| - 1]) + WritesOf(RunTo(t, steps[..|steps| - 1]), steps[|steps| - 1])
  }

  function WritesOf(t: Tables, s: Step): seq<Op> {
    if s.Direct? then [s.op] else Ops(DecreeOf(t, s))
  }

  predicate GateOnly(steps: seq<Step>) { forall i | 0 <= i < |steps| :: !steps[i].Direct? }

  lemma GateStep(t: Tables, s: Step)
    requires !s.Direct?
    ensures After(t, s).db == Registry.Run(t.db, Ops(DecreeOf(t, s)))
  {
    hide Registered, StatusSet;
    var ds := DecreeOf(t, s);
    if ds != [] {
      var p := t.proposals[s.id - 1];
      assert p.profile == s.profile;
      RunOne(t.db, ds[0].op);
      assert Ops(ds) == [ds[0].op];
    }
  }

  lemma RunOne(db: Db, op: Op)
    ensures Registry.Run(db, [op]) == Apply(db, op)
  {
    assert [op][..0] == [];
  }

  lemma {:induction false} RunJoins(db: Db, a: seq<Op>, b: seq<Op>)
    ensures Registry.Run(db, a + b) == Registry.Run(Registry.Run(db, a), b)
    decreases |b|
  {
    hide Apply;
    if b == [] {
      assert a + b == a;
    } else {
      RunJoins(db, a, b[..|b| - 1]);
      assert (a + b)[..|a + b| - 1] == a + b[..|b| - 1];
    }
  }

  lemma StepIsRegistryRun(t: Tables, s: Step)
    ensures After(t, s).db == Registry.Run(t.db, WritesOf(t, s))
  {
    hide Registered, StatusSet, Apply, DecreeOf;
    if s.Direct? { RunOne(t.db, s.op); } else { GateStep(t, s); }
  }

  /** The registry is its writes applied in order: an approval counts as one registry operation at the
      moment it was decided, and nothing else the gate does touches the registry. */
  lemma {:induction false} RunIsRegistryRun(t: Tables, steps: seq<Step>)
    ensures RunTo(t, steps).db == Registry.Run(t.db, Writes(t, steps))
  {
    hide After, WritesOf, Registry.Run;
    if steps == [] {
      NothingRun(t.db);
    } else {
      var front, last := steps[..|steps| - 1], steps[|steps| - 1];
      RunIsRegistryRun(t, front);
      StepIsRegistryRun(RunTo(t, front), last);
      RunJoins(t.db, Writes(t, front), WritesOf(RunTo(t, front), last));
    }
  }

  lemma {:induction false} GateWritesAreDecrees(t: Tables, steps: seq<Step>)
    requires GateOnly(steps)
    ensures Writes(t, steps) == Ops(Decrees(t, steps))
  {
    hide DecreeOf;
    if steps == [] {
      assert Ops([]) == [];
    } else {
      var front, last := steps[..|steps| - 1], steps[|steps| - 1];
      assert forall i | 0 <= i < |front| :: front[i] == steps[i];
      GateWritesAreDecrees(t, front);
      var a, b := Decrees(t, front), DecreeOf(RunTo(t, front), last);
      assert Ops(a + b) == Ops(a) + Ops(b);
    }
  }

  /** When every write goes through the gate, the registry is the approved proposals applied in the
      order in which they were decided, each exactly once, and nothing else. */
  lemma RegistryIsFoldOfApprovals(t: Tables, steps: seq<Step>)
    requires GateOnly(steps)
    requires forall i | 0 <= i < |t.proposals| :: t.proposals[i].verdict != Approved
    ensures var ds := Decrees(t, steps);
            RunTo(t, steps).db == Registry.Run(t.db, Ops(ds)) && AreTheApproved(ds, RunTo(t, steps))
  {
    hide RunTo, Decrees, AreTheApproved;
    RunIsRegistryRun(t, steps);
    GateWritesAreDecrees(t, steps);
    DecreesAreTheApproved(t, steps);
  }

  /** Over every mix of submissions, approvals, rejections, registrations, imports and retirements the
      version numbers of each skill are exactly 1..n, versions are never changed or dropped, and without
      imports every head stays the newest version. */
  lemma MixedRunsKeepVersions(t: Tables, steps: seq<Step>)
    requires WellFormed(t.db)
    ensures var end := RunTo(t, steps).db;
            && WellFormed(end) && t.db.versions <= end.versions
            && (forall sid :: NumbersAreUpTo(end.versions, sid))
            && (HeadsAreNewest(t.db) && (forall i | 0 <= i < |steps| :: steps[i].Direct? ==> !steps[i].op.Import?) ==> HeadsAreNewest(end))
  {
    hide RunTo, Writes, WellFormed, HeadsAreNewest, NumbersAreUpTo, Registry.Run;
    RunIsRegistryRun(t, steps);
    RunKeepsWellFormed(t.db, Writes(t, steps));
    if HeadsAreNewest(t.db) && forall i | 0 <= i < |steps| :: steps[i].Direct? ==> !steps[i].op.Import? {
      NoImportWrites(t, steps);
      HeadIsNewestWithoutImports(t.db, Writes(t, steps));
    }
  }

  lemma {:induction false} NoImportWrites(t: Tables, steps: seq<Step>)
    requires forall i | 0 <= i < |steps| :: steps[i].Direct? ==> !steps[i].op.Import?
    ensures forall i | 0 <= i < |Writes(t, steps)| :: !Writes(t, steps)[i].Import?
  {
    hide DecidedBy;
    if steps != [] {
      var front := steps[..|steps| - 1];
      assert forall i | 0 <= i < |front| :: front[i] == steps[i];
      NoImportWrites(t, front);
    }
  }

  lemma NothingRun(db: Db)
    ensures Registry.Run(db, []) == db
  {
  }

  /** The write does what the row asks for. */
  predicate Enacts(op: Op, p: Proposal, id: nat) {
    match op
    case Register(_, input, _, _) =>
      && p.kind == "create" && input.profile == p.profile && input.name == p.skill
      && input.fm == p.fm && input.body == p.body && input.author == p.createdBy
      && input.source == "proposal:" + Text.FormatInt(id)
      && input.status == "local" && input.origin == "proposed" && input.tags == []
    case SetStatus(key, status, _) =>
      && key.profile == p.profile && key.name == p.skill
      && ((p.kind == "promote" && status == Promoted) || (p.kind == "prune" && status == Retired))
    case Import(_, _) => false
  }

  predicate IsApproved(t: Tables, id: nat) { 1 <= id <= |t.proposals| && t.proposals[id - 1].verdict == Approved }

  /** The decrees are exactly the approved proposals, each once and each doing what its row asks for. */
  ghost predicate AreTheApproved(ds: seq<Decree>, u: Tables) {
    && (forall i, j | 0 <= i < j < |ds| :: ds[i].id != ds[j].id)
    && (forall i | 0 <= i < |ds| :: IsApproved(u, ds[i].id) && Enacts(ds[i].op, u.proposals[ds[i].id - 1], ds[i].id))
    && (forall id: nat | IsApproved(u, id) :: HasId(ds, id))
  }

  ghost predicate HasId(ds: seq<Decree>, id: nat) { exists i | 0 <= i < |ds| :: ds[i].id == id }

  lemma SameRequestSameOp(op: Op, p: Proposal, q: Proposal, id: nat)
    requires Enacts(op, p, id) && Request(p) == Request(q)
    ensures Enacts(op, q, id)
  {
  }

  lemma StepVerdicts(t: Tables, s: Step)
    ensures forall id: nat :: IsApproved(After(t, s), id) <==> IsApproved(t, id) || (s.Approve? && DecidedBy(t, s) == Some(id))
  {
    hide Approval, Rejection, Apply, Request;
    if s.Approve? || s.Reject? {
      hide After, DecidedBy;
      DecisionShape(t, s);
    }
  }

  lemma RowsStayEnacted(ds: seq<Decree>, t: Tables, u: Tables, i: nat)
    requires AreTheApproved(ds, t) && Extends(t, u) && i < |ds|
    ensures 1 <= ds[i].id <= |t.proposals| && IsApproved(u, ds[i].id)
    ensures Enacts(ds[i].op, u.proposals[ds[i].id - 1], ds[i].id)
  {
    hide Enacts, Request, HasId;
    assert IsApproved(t, ds[i].id);
    SameRequestSameOp(ds[i].op, t.proposals[ds[i].id - 1], u.proposals[ds[i].id - 1], ds[i].id);
  }

  lemma NothingApproved(ds: seq<Decree>, t: Tables, u: Tables)
    requires AreTheApproved(ds, t) && Extends(t, u)
    requires forall id: nat | IsApproved(u, id) :: IsApproved(t, id)
    ensures AreTheApproved(ds, u)
  {
    hide Enacts;
    forall i | 0 <= i < |ds|
      ensures 1 <= ds[i].id <= |u.proposals| && IsApproved(u, ds[i].id) && Enacts(ds[i].op, u.proposals[ds[i].id - 1], ds[i].id)
    {
      RowsStayEnacted(ds, t, u, i);
    }
  }

  lemma OneApproved(ds: seq<Decree>, t: Tables, u: Tables, d: Decree)
    requires AreTheApproved(ds, t) && Extends(t, u)
    requires forall id: nat | IsApproved(u, id) :: IsApproved(t, id) || id == d.id
    requires !IsApproved(t, d.id) && IsApproved(u, d.id) && Enacts(d.op, u.proposals[d.id - 1], d.id)
    ensures AreTheApproved(ds + [d], u)
  {
    hide Enacts, Extends;
    var all := ds + [d];
    forall i | 0 <= i < |all| ensures IsApproved(u, all[i].id) && Enacts(all[i].op, u.proposals[all[i].id - 1], all[i].id) {
      if i < |ds| { RowsStayEnacted(ds, t, u, i); }
    }
    forall id: nat | IsApproved(u, id) ensures HasId(all, id) {
      if IsApproved(t, id) {
        assert HasId(ds, id);
        var i :| 0 <= i < |ds| && ds[i].id == id;
        assert all[i].id == id;
      } else {
        assert all[|ds|].id == id;
      }
    }
  }

  lemma StepApproved(t: Tables, s: Step, ds: seq<Decree>)
    requires AreTheApproved(ds, t)
    ensures AreTheApproved(ds + DecreeOf(t, s), After(t, s))
  {
    hide After, DecidedBy, OpOf, Enacts, Request, AreTheApproved, IsApproved, Extends;
    StepExtends(t, s);
    StepVerdicts(t, s);
    if s.Approve? && DecidedBy(t, s).Some? {
      NewDecree(t, s);
      var d := DecreeOf(t, s)[0];
      KeptRequest(t, After(t, s), s.id);
      SameRequestSameOp(d.op, t.proposals[s.id - 1], After(t, s).proposals[s.id - 1], s.id);
      PendingIsNotApproved(t, s.id);
      OneApproved(ds, t, After(t, s), d);
    } else {
      NothingApproved(ds, t, After(t, s));
      assert ds + DecreeOf(t, s) == ds;
    }
  }

  lemma KeptRequest(t: Tables, u: Tables, id: nat)
    requires Extends(t, u) && 1 <= id <= |t.proposals|
    ensures id <= |u.proposals| && Request(t.proposals[id - 1]) == Request(u.proposals[id - 1])
  {
  }

  lemma PendingIsNotApproved(t: Tables, id: nat)
    requires 1 <= id <= |t.proposals| && t.proposals[id - 1].verdict == Pending
    ensures !IsApproved(t, id)
  {
  }

  lemma NewDecree(t: Tables, s: Step)
    requires s.Approve? && DecidedBy(t, s).Some?
    ensures 1 <= s.id <= |t.proposals| && DecidedBy(t, s) == Some(s.id) && t.proposals[s.id - 1].verdict == Pending
    ensures |DecreeOf(t, s)| == 1 && DecreeOf(t, s)[0].id == s.id && Enacts(DecreeOf(t, s)[0].op, t.proposals[s.id - 1], s.id)
  {
  }

  lemma {:induction false} DecreesAreTheApproved(t: Tables, steps: seq<Step>)
    requires forall i | 0 <= i < |t.proposals| :: t.proposals[i].verdict != Approved
    ensures AreTheApproved(Decrees(t, steps), RunTo(t, steps))
  {
    hide After, DecreeOf;
    if steps != [] {
      var front, last := steps[..|steps| - 1], steps[|steps| - 1];
      DecreesAreTheApproved(t, front);
      StepApproved(RunTo(t, front), last, Decrees(t, front));
    }
  }

  // ---------------------------------------------------------------- what an approval can do

  /** The guard of an approval, for a version ULID that is not in use. */
  predicate Applicable(t: Tables, p: Proposal) {
    if p.kind == "create" then !Blank(p.skill) && !Blank(p.profile)
    else p.kind in VALID_KINDS && Key(p.profile, p.skill) in t.db.skills
  }

  lemma RegistersUnlessBlank(db: Db, hash: Hash, input: RegisterInput, ulid: string, now: int)
    requires !UlidTaken(db.versions, ulid) && input.status == "local" && input.origin == "proposed"
    ensures Registered(db, hash, input, ulid, now).1.Ok? <==> !Blank(input.name) && !Blank(input.profile)
  {
    hide CanonicalSHA, MaxNumber, Find, Blank, Slug;
  }

  /** An approval succeeds exactly when the proposal is pending and its target allows it. */
  lemma ApprovalSucceedsIff(t: Tables, hash: Hash, profile: string, id: nat, who: string, ulid: string, now: int)
    requires !UlidTaken(t.db.versions, ulid)
    ensures Approval(t, hash, profile, id, who, ulid, now).1.Ok? <==>
            Awaits(t, profile, id) && Applicable(t, t.proposals[id - 1])
  {
    hide Registered, Blank;
    if Awaits(t, profile, id) && t.proposals[id - 1].kind == "create" {
      RegistersUnlessBlank(t.db, hash, InputOf(t.proposals[id - 1], id), ulid, now);
    }
  }

  /** Why an approval fails. */
  lemma ApprovalFailsIff(t: Tables, hash: Hash, profile: string, id: nat, who: string, ulid: string, now: int)
    requires WellFormed(t.db)
    ensures var r := Approval(t, hash, profile, id, who, ulid, now).1;
            var pending := 1 <= id <= |t.proposals| && t.proposals[id - 1].profile == profile && t.proposals[id - 1].verdict == Pending;
            && (!pending ==> r == Err(NotFound))
            && (pending ==>
                  var p := t.proposals[id - 1];
                  var key := Key(profile, p.skill);
                  var blank := Text.AllSpace(p.skill) || Text.AllSpace(profile);
                  && (r == Err(NotFound) <==> (p.kind == "promote" || p.kind == "prune") && key !in t.db.skills)
                  && (r == Err(UnknownKind) <==> p.kind != "create" && p.kind != "promote" && p.kind != "prune")
                  && (r == Err(NameRequired) <==> p.kind == "create" && blank)
                  && (r == Err(ConstraintViolation) <==>
                        && p.kind == "create" && !blank && !HasContent(t.db, key, ShaOf(hash, p.fm, p.body))
                        && ulid != "" && exists i | 0 <= i < |t.db.versions| :: t.db.versions[i].ulid == ulid))
  {
    hide Registered, WellFormed, HasContent, ShaOf, Text.AllSpace, Text.FormatInt;
    if 1 <= id <= |t.proposals| {
      RegisterFailsIff(t.db, hash, InputOf(t.proposals[id - 1], id), ulid, now);
      assert AsksStatus("local", Local) && AsksOrigin("proposed", Proposed);
    }
  }

  /** A name of white space only is taken by CreateProposal but can never be approved. */
  lemma BlankNameIsStuck(t: Tables, input: ProposalInput, hash: Hash, who: string, ulid: string, now: int)
    requires input.kind == "create" && input.skill != "" && Blank(input.skill)
    ensures var (u, r) := Submitted(t, input);
            r.Ok? && Approval(u, hash, input.profile, r.value, who, ulid, now) == (u, Err(NameRequired))
  {
    hide Blank;
  }

  /** The status that an approval reports is the stored one, except when a create meets a skill that
      exists with another status: that status stays, whatever the report says. */
  lemma ReportedStatusIsStoredIff(t: Tables, hash: Hash, profile: string, id: nat, who: string, ulid: string, now: int)
    requires Approval(t, hash, profile, id, who, ulid, now).1.Ok?
    ensures var (u, r) := Approval(t, hash, profile, id, who, ulid, now);
            var p := t.proposals[id - 1];
            var key := Key(profile, p.skill);
            && key in u.db.skills
            && (u.db.skills[key].status == r.value.newStatus <==>
                p.kind != "create" || key !in t.db.skills || t.db.skills[key].status == Local)
  {
    hide CanonicalSHA, MaxNumber, Find, Blank, Slug;
    var p := t.proposals[id - 1];
    if p.kind == "create" {
      var up, status, origin := RegisteredShape(t.db, hash, InputOf(p, id), ulid, now);
    }
  }

  const LINT := Key("personal", "lint")

  /** A promoted skill, and a pending proposal that creates it once more. */
  const LINT_AGAIN := Tables(Db(map[LINT := Skill(1, "lint", Promoted, Authored, [], None, 1)], [], 2, 1),
                             [Proposal("personal", "create", "lint", map[], "", "agent", Pending, "", "", 0)], map[])

  /** An input where the reported status is not the stored one. */
  lemma StatusMayBeMisreported(hash: Hash)
    ensures var (u, r) := Approval(LINT_AGAIN, hash, "personal", 1, "op", "01A", 5);
            r.Ok? && r.value.newStatus == Local && LINT in u.db.skills && u.db.skills[LINT].status == Promoted
  {
    hide CanonicalSHA, MaxNumber, Slug, Blank;
    NotBlankNames();
    var (u, r) := Approval(LINT_AGAIN, hash, "personal", 1, "op", "01A", 5);
    ApprovalSucceedsIff(LINT_AGAIN, hash, "personal", 1, "op", "01A", 5);
    ReportedStatusIsStoredIff(LINT_AGAIN, hash, "personal", 1, "op", "01A", 5);
    KeptStatus(hash);
  }

  lemma NotBlankNames()
    ensures !Blank("lint") && !Blank("personal")
  {
  }

  lemma KeptStatus(hash: Hash)
    requires Approval(LINT_AGAIN, hash, "personal", 1, "op", "01A", 5).1.Ok?
    ensures var (u, r) := Approval(LINT_AGAIN, hash, "personal", 1, "op", "01A", 5);
            r.value.newStatus == Local && LINT in u.db.skills && u.db.skills[LINT].status == Promoted
  {
    hide CanonicalSHA, MaxNumber, Slug, Blank, Find, UlidTaken;
    var up, status, origin := RegisteredShape(LINT_AGAIN.db, hash, InputOf(LINT_AGAIN.proposals[0], 1), "01A", 5);
  }

  /** An input where a skill comes into being without a proposal. */
  lemma SkillsNeedNoProposal(hash: Hash)
    ensures var input := RegisterInput("personal", "lint", map[], "", "", "", "", "", []);
            var end := RunTo(Tables(EMPTY, [], map[]), [Direct(Register(hash, input, "01A", 1))]);
            end.proposals == [] && LINT in end.db.skills
  {
    hide CanonicalSHA, MaxNumber, Slug, Blank, Find, UlidTaken;
    var input := RegisterInput("personal", "lint", map[], "", "", "", "", "", []);
    var steps := [Direct(Register(hash, input, "01A", 1))];
    NotBlankNames();
    assert steps[..0] == [];
    assert RunTo(Tables(EMPTY, [], map[]), steps) == After(Tables(EMPTY, [], map[]), steps[0]);
    FirstRegistration(hash, input);
  }

  lemma FirstRegistration(hash: Hash, input: RegisterInput)
    requires !Blank(input.name) && !Blank(input.profile) && input.status == "" && input.origin == ""
    ensures Key(input.profile, input.name) in Registered(EMPTY, hash, input, "01A", 1).0.skills
  {
    hide CanonicalSHA, MaxNumber, Slug, Blank, Find;
  }

  // ---------------------------------------------------------------- promoted and retired are for good

  predicate OnlyPublishes(s: Step) { s.Direct? && s.op.SetStatus? ==> Published(s.op.status) }

  ghost predicate IsPublished(db: Db, key: Key) { key in db.skills && Published(db.skills[key].status) }

  lemma WritePublishes(db: Db, op: Op, key: Key)
    requires IsPublished(db, key) && (op.SetStatus? ==> Published(op.status))
    ensures IsPublished(Apply(db, op), key)
    ensures op.SetStatus? && op.key == key ==> Apply(db, op).skills[key].status == op.status
  {
    hide CanonicalSHA, MaxNumber, Find, Blank, Slug;
    if op.Register? {
      var up, status, origin := RegisteredShape(db, op.hash, op.input, op.ulid, op.now);
    }
  }

  lemma StepWrites(t: Tables, s: Step) returns (ops: seq<Op>)
    requires OnlyPublishes(s)
    ensures After(t, s).db == Registry.Run(t.db, ops) && |ops| <= 1
    ensures forall i | 0 <= i < |ops| :: ops[i].SetStatus? ==> Published(ops[i].status)
  {
    hide Registered, StatusSet, Apply;
    ops := WritesOf(t, s);
    StepIsRegistryRun(t, s);
  }

  /** A skill once promoted or retired stays within these two, over every mix of approvals, rejections,
      registrations, imports and retirements. */
  lemma {:induction false} PublishedStays(t: Tables, steps: seq<Step>, key: Key)
    requires IsPublished(t.db, key)
    requires forall i | 0 <= i < |steps| :: OnlyPublishes(steps[i])
    ensures IsPublished(RunTo(t, steps).db, key)
  {
    hide After, IsPublished, OnlyPublishes, Apply;
    if steps != [] {
      var front, last := steps[..|steps| - 1], steps[|steps| - 1];
      assert forall i | 0 <= i < |front| :: front[i] == steps[i];
      PublishedStays(t, front, key);
      var ops := StepWrites(RunTo(t, front), last);
      if ops == [] {
        NothingRun(RunTo(t, front).db);
      } else {
        assert ops == [ops[0]];
        RunOne(RunTo(t, front).db, ops[0]);
        WritePublishes(RunTo(t, front).db, ops[0], key);
      }
    }
  }

  // ---------------------------------------------------------------- promotion_state

  ghost predicate HasRecord(t: Tables, key: Key) { key in t.db.skills && t.db.skills[key].id in t.promotions }

  /** Every promoted skill has a promotion record, and every record belongs to a skill that was promoted. */
  ghost predicate PromotionsOk(t: Tables) {
    && (forall key | key in t.db.skills && t.db.skills[key].status == Promoted :: HasRecord(t, key))
    && (forall key | HasRecord(t, key) :: Published(t.db.skills[key].status))
    && (forall sid | sid in t.promotions :: IsSkillId(t.db, sid))
  }

  ghost predicate IsSkillId(db: Db, sid: nat) { exists key :: key in db.skills && db.skills[key].id == sid }

  lemma GateKeepsPromotions(t: Tables, s: Step)
    requires WellFormed(t.db) && PromotionsOk(t) && !s.Direct?
    ensures WellFormed(After(t, s).db) && PromotionsOk(After(t, s))
  {
    hide WellFormed, Registered, StatusSet;
    if s.Approve? && DecidedBy(t, s).Some? {
      var p := t.proposals[s.id - 1];
      var key := Key(s.profile, p.skill);
      ApplyKeepsWellFormed(t.db, OpOf(p, s.id, s.hash, s.ulid, s.now));
      if p.kind == "create" {
        CreateKeepsPromotions(t, s.hash, InputOf(p, s.id), s.ulid, s.now);
        VerdictKeepsPromotions(t.(db := After(t, s).db), After(t, s).proposals);
      } else {
        StatusTargetExists(t, s);
        StatusKeepsPromotions(t, key, p.kind == "promote", s.who, s.now);
      }
    }
  }

  lemma StatusTargetExists(t: Tables, s: Step)
    requires s.Approve? && DecidedBy(t, s).Some? && 1 <= s.id <= |t.proposals| && t.proposals[s.id - 1].kind != "create"
    ensures Key(s.profile, t.proposals[s.id - 1].skill) in t.db.skills
  {
    hide Registered;
  }

  lemma VerdictKeepsPromotions(t: Tables, ps: seq<Proposal>)
    requires PromotionsOk(t)
    ensures PromotionsOk(t.(proposals := ps))
  {
    var u := t.(proposals := ps);
    forall key ensures HasRecord(u, key) <==> HasRecord(t, key) {}
  }

  /** What a create leaves of the skills: the old ones with their ids and statuses, and perhaps a new local one. */
  predicate Kept(db: Db, d: Db, key: Key)
    requires key in d.skills
  {
    if key in db.skills then d.skills[key].id == db.skills[key].id && d.skills[key].status == db.skills[key].status
    else d.skills[key].id == db.nextId && d.skills[key].status == Local
  }

  lemma SkillsAfterCreate(db: Db, hash: Hash, input: RegisterInput, ulid: string, now: int)
    requires input.status == "local"
    ensures var d := Registered(db, hash, input, ulid, now).0;
            db.skills.Keys <= d.skills.Keys && forall key | key in d.skills :: Kept(db, d, key)
  {
    hide CanonicalSHA, MaxNumber, Find, Blank, Slug, UlidTaken;
  }

  lemma CreateKeepsPromotions(t: Tables, hash: Hash, input: RegisterInput, ulid: string, now: int)
    requires WellFormed(t.db) && PromotionsOk(t) && input.status == "local"
    ensures PromotionsOk(t.(db := Registered(t.db, hash, input, ulid, now).0))
  {
    hide Registered, TableOk;
    var d := Registered(t.db, hash, input, ulid, now).0;
    var u := t.(db := d);
    SkillsAfterCreate(t.db, hash, input, ulid, now);
    forall sid | sid in u.promotions ensures IsSkillId(d, sid) && sid < t.db.nextId {
      assert IsSkillId(t.db, sid);
      var key :| key in t.db.skills && t.db.skills[key].id == sid;
      assert Kept(t.db, d, key);
    }
    forall key | key in d.skills && d.skills[key].status == Promoted ensures HasRecord(u, key) {
      assert Kept(t.db, d, key) && HasRecord(t, key);
    }
    forall key | HasRecord(u, key) ensures Published(d.skills[key].status) {
      assert Kept(t.db, d, key) && HasRecord(t, key);
    }
  }

  lemma DistinctIds(db: Db)
    requires WellFormed(db)
    ensures forall k, l | k in db.skills && l in db.skills && db.skills[k].id == db.skills[l].id :: k == l
  {
    hide TableOk;
  }

  /** Publishing a skill, with a record when it is promoted. */
  lemma PublishKeepsPromotions(t: Tables, key: Key, s: Skill, promotions: map<nat, Promotion>)
    requires PromotionsOk(t) && key in t.db.skills && s.id == t.db.skills[key].id && Published(s.status)
    requires forall k, l | k in t.db.skills && l in t.db.skills && t.db.skills[k].id == t.db.skills[l].id :: k == l
    requires t.promotions.Keys <= promotions.Keys <= t.promotions.Keys + {s.id}
    requires s.status == Promoted ==> s.id in promotions
    ensures PromotionsOk(t.(db := WithSkill(t.db, key, s), promotions := promotions))
  {
    hide Published, Later, IsSkillId, HasRecord;
    var u := t.(db := WithSkill(t.db, key, s), promotions := promotions);
    forall sid | sid in promotions ensures IsSkillId(u.db, sid) { RecordStays(t, key, s, sid); }
    forall k | k in u.db.skills
      ensures u.db.skills[k].status == Promoted ==> HasRecord(u, k)
      ensures HasRecord(u, k) ==> Published(u.db.skills[k].status)
    {
      PublishedRow(t, key, s, promotions, k);
    }
    forall k | HasRecord(u, k) ensures k in u.db.skills { RecordHasSkill(u, k); }
  }

  lemma RecordHasSkill(t: Tables, k: Key)
    requires HasRecord(t, k)
    ensures k in t.db.skills
  {
  }

  lemma RecordStays(t: Tables, key: Key, s: Skill, sid: nat)
    requires key in t.db.skills && s.id == t.db.skills[key].id && (sid == s.id || IsSkillId(t.db, sid))
    ensures IsSkillId(WithSkill(t.db, key, s), sid)
  {
    hide Later;
    var d := WithSkill(t.db, key, s);
    if sid == s.id {
      assert d.skills[key].id == sid;
    } else {
      var k :| k in t.db.skills && t.db.skills[k].id == sid;
      assert d.skills[k].id == sid;
    }
  }

  lemma PublishedRow(t: Tables, key: Key, s: Skill, promotions: map<nat, Promotion>, k: Key)
    requires PromotionsOk(t) && key in t.db.skills && k in t.db.skills && s.id == t.db.skills[key].id && Published(s.status)
    requires t.db.skills[k].id == s.id ==> k == key
    requires t.promotions.Keys <= promotions.Keys <= t.promotions.Keys + {s.id}
    requires s.status == Promoted ==> s.id in promotions
    ensures var u := t.(db := WithSkill(t.db, key, s), promotions := promotions);
            && (u.db.skills[k].status == Promoted ==> HasRecord(u, k))
            && (HasRecord(u, k) ==> Published(u.db.skills[k].status))
  {
    hide Published, Later, IsSkillId;
    if k != key { assert t.db.skills[k].status == Promoted ==> HasRecord(t, k); }
  }

  lemma StatusKeepsPromotions(t: Tables, key: Key, promote: bool, who: string, now: int)
    requires WellFormed(t.db) && PromotionsOk(t) && key in t.db.skills
    ensures var u := t.(db := StatusSet(t.db, key, if promote then Promoted else Retired, now).0);
            var v := if promote then PromotionNoted(u, key, who, now) else u;
            forall ps :: PromotionsOk(v.(proposals := ps))
  {
    hide WellFormed, PromotionsOk, Later;
    var status := if promote then Promoted else Retired;
    var u := t.(db := StatusSet(t.db, key, status, now).0);
    var v := if promote then PromotionNoted(u, key, who, now) else u;
    DistinctIds(t.db);
    PublishKeepsPromotions(t, key, t.db.skills[key].(status := status, updatedAt := now), v.promotions);
    forall ps ensures PromotionsOk(v.(proposals := ps)) {
      VerdictKeepsPromotions(v, ps);
    }
  }

  /** From an empty registry, with the gate as its only writer: a skill that is promoted has a record of
      it, and a skill with a record is promoted or was retired since. */
  lemma {:induction false} PromotionsAreRecorded(steps: seq<Step>)
    requires GateOnly(steps)
    ensures var end := RunTo(Tables(EMPTY, [], map[]), steps);
            WellFormed(end.db) && PromotionsOk(end)
  {
    hide After;
    if steps != [] {
      hide WellFormed, PromotionsOk;
      var front, last := steps[..|steps| - 1], steps[|steps| - 1];
      assert forall i | 0 <= i < |front| :: front[i] == steps[i];
      PromotionsAreRecorded(front);
      GateKeepsPromotions(RunTo(Tables(EMPTY, [], map[]), front), last);
    }
  }
}
