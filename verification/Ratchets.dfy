/** Auto-fire (internal/server/improver.go) and its ledger (internal/pgstore/ratchets.go,
    migrations/0006_ratchet_runs.up.sql).  Times are in nanoseconds, on one clock. */
module Ratchets {
  import opened Outcomes
  import Text
  import SkillFile

  /** A row of ratchet_runs; its id is its position in the append-only table, counted from one. */
  datatype Run = Run(profile: string, skill: string, kind: string, taskId: string, jobId: string, branch: string,
                     status: string, prUrl: string, rationale: string, createdAt: int)

  type Ledger = seq<Run>

  datatype Error = ConstraintViolation | CallFailed

  const KINDS := {"create", "edit", "prune", "merge"}
  const STATUSES := {"fired", "pr_open", "merged", "closed", "failed"}

  predicate InFlight(status: string) { status == "fired" || status == "pr_open" }

  predicate OfSkill(r: Run, profile: string, skill: string) { r.profile == profile && r.skill == skill }

  /** COUNT(*) of a skill's runs that are in flight. */
  function SkillLoad(l: Ledger, profile: string, skill: string): nat {
    if l == [] then 0
    else
      var last := l[|l| - 1];
      SkillLoad(l[..|l| - 1], profile, skill) + if OfSkill(last, profile, skill) && InFlight(last.status) then 1 else 0
  }

  /** COUNT(*) of a profile's runs that are in flight. */
  function ProfileLoad(l: Ledger, profile: string): nat {
    if l == [] then 0
    else
      var last := l[|l| - 1];
      ProfileLoad(l[..|l| - 1], profile) + if last.profile == profile && InFlight(last.status) then 1 else 0
  }

  /** Whether a skill has a run created later than `since`. */
  predicate Recent(l: Ledger, profile: string, skill: string, since: int) {
    exists i | 0 <= i < |l| :: OfSkill(l[i], profile, skill) && l[i].createdAt > since
  }

  function Recorded(l: Ledger, r: Run): Option<Ledger> {
    var row := r.(status := if r.status == "" then "fired" else r.status);
    if row.kind in KINDS && row.status in STATUSES then Some(l + [row]) else None
  }

  /** UPDATE ... WHERE id = $1: an unknown id changes nothing, an unknown status is an error. */
  function Updated(l: Ledger, id: nat, status: string, prUrl: string): Option<Ledger> {
    if !(1 <= id <= |l|) then Some(l)
    else if status !in STATUSES then None
    else Some(l[id - 1 := l[id - 1].(status := status, prUrl := if prUrl == "" then l[id - 1].prUrl else prUrl)])
  }

  datatype Config = Config(brainbox: bool, store: bool, repoUrl: string, cooldown: int, max: int)

  datatype Candidate = Candidate(skill: string, kind: string, rationale: string)

  /** What the remote call returns, and the clock when its row is inserted afterwards. */
  datatype Call = Call(taskId: string, jobId: string, doneAt: int)

  datatype Verdict = Fire | Skip(reason: string)

  /** The guards, in order. */
  function Judged(c: Config, l: Ledger, profile: string, skill: string, now: int): Verdict {
    if !c.brainbox || Text.TrimSpace(c.repoUrl) == "" then Skip("auto-fire not configured")
    else if !c.store then Skip("no store")
    else if SkillLoad(l, profile, skill) > 0 then Skip("in-flight ratchet exists")
    else if c.cooldown > 0 && Recent(l, profile, skill, now - c.cooldown) then Skip("within cooldown")
    else if c.max > 0 && ProfileLoad(l, profile) >= c.max then Skip("rate-limited")
    else Fire
  }

  function RunOf(profile: string, cand: Candidate, call: Call): Run {
    Run(profile, cand.skill, cand.kind, call.taskId, call.jobId,
        "skill/" + cand.kind + "-" + SkillFile.Slug(cand.skill), "fired", "", cand.rationale, call.doneAt)
  }

  datatype FireResult = Fired(taskId: string) | Suppressed(reason: string)

  /** The ledger after one auto-fire, the ratchets launched by it, and its result. `call` is what the
      remote call would return, None for a failure. */
  function Attempt(c: Config, l: Ledger, profile: string, cand: Candidate, now: int, call: Option<Call>)
    : (Ledger, nat, Result<FireResult, Error>)
  {
    match Judged(c, l, profile, cand.skill, now)
    case Skip(reason) => (l, 0, Ok(Suppressed(reason)))
    case Fire =>
      if call == None then (l, 0, Err(CallFailed))
      else match Recorded(l, RunOf(profile, cand, call.value))
        case None => (l, 1, Err(ConstraintViolation))
        case Some(m) => (m, 1, Ok(Fired(call.value.taskId)))
  }

  /** The daemon's worker: its configuration, the ledger, and how many ratchets it has launched. */
  class Daemon {
    const config: Config
    var ledger: Ledger
    var launched: nat

    constructor (config: Config)
      ensures this.config == config && ledger == [] && launched == 0
    {
      this.config, ledger, launched := config, [], 0;
    }

    method RecordRatchet(r: Run) returns (id: Result<nat, Error>)
      modifies `ledger
      ensures match Recorded(old(ledger), r)
              case None => id == Err(ConstraintViolation) && ledger == old(ledger)
              case Some(m) => id == Ok(|m|) && ledger == m
      ensures id.Ok? <==> r.kind in KINDS && (r.status == "" || r.status in STATUSES)
      ensures id.Ok? ==> old(ledger) < ledger && |ledger| == |old(ledger)| + 1 && id.value == |ledger|
      ensures id.Ok? ==> ledger[id.value - 1] == r.(status := if r.status == "" then "fired" else r.status)
      ensures id.Err? ==> ledger == old(ledger)
    {
      var status := r.status;
      if status == "" { status := "fired"; }
      if r.kind !in KINDS || status !in STATUSES { return Err(ConstraintViolation); }
      ledger := ledger + [r.(status := status)];
      id := Ok(|ledger|);
    }

    method UpdateRatchetStatus(id: nat, status: string, prUrl: string) returns (r: Result<(), Error>)
      modifies `ledger
      ensures match Updated(old(ledger), id, status, prUrl)
              case None => r == Err(ConstraintViolation) && ledger == old(ledger)
              case Some(m) => r == Ok(()) && ledger == m
      ensures r.Err? <==> 1 <= id <= |old(ledger)| && status !in STATUSES
      ensures |ledger| == |old(ledger)| && forall i | 0 <= i < |ledger| && i != id - 1 :: ledger[i] == old(ledger)[i]
      ensures r.Ok? && 1 <= id <= |ledger| ==>
        var row, was := ledger[id - 1], old(ledger)[id - 1];
        row.status == status && (prUrl != "" ==> row.prUrl == prUrl) && (prUrl == "" ==> row.prUrl == was.prUrl)
        && row == was.(status := row.status, prUrl := row.prUrl)
    {
      if id < 1 || |ledger| < id { return Ok(()); }
      if status !in STATUSES { return Err(ConstraintViolation); }
      var row := ledger[id - 1];
      if prUrl != "" { row := row.(prUrl := prUrl); }
      ledger := ledger[id - 1 := row.(status := status)];
      r := Ok(());
    }

    method AutoFireRatchet(profile: string, cand: Candidate, now: int, call: Option<Call>) returns (r: Result<FireResult, Error>)
      modifies this
      ensures (ledger, launched - old(launched), r) == Attempt(config, old(ledger), profile, cand, now, call)
      ensures r.Ok? && r.value.Fired? ==>
        && launched == old(launched) + 1 && old(ledger) < ledger && |ledger| == |old(ledger)| + 1
        && (var row := ledger[|ledger| - 1];
            OfSkill(row, profile, cand.skill) && row.kind == cand.kind && row.status == "fired" && call.Some? && row.createdAt == call.value.doneAt
            && row.taskId == r.value.taskId)
        && SkillLoad(old(ledger), profile, cand.skill) == 0
        && (config.cooldown > 0 ==> !Recent(old(ledger), profile, cand.skill, now - config.cooldown))
        && (config.max > 0 ==> ProfileLoad(old(ledger), profile) < config.max)
      ensures r.Ok? && r.value.Suppressed? ==> ledger == old(ledger) && launched == old(launched)
      ensures r.Err? ==> ledger == old(ledger) && (launched == old(launched) <==> call == None)
    {
      if !config.brainbox || Text.TrimSpace(config.repoUrl) == "" { return Ok(Suppressed("auto-fire not configured")); }
      if !config.store { return Ok(Suppressed("no store")); }
      if SkillLoad(ledger, profile, cand.skill) > 0 { return Ok(Suppressed("in-flight ratchet exists")); }
      if config.cooldown > 0 {
        if Recent(ledger, profile, cand.skill, now - config.cooldown) { return Ok(Suppressed("within cooldown")); }
      }
      if config.max > 0 {
        var n := ProfileLoad(ledger, profile);
        if n >= config.max { return Ok(Suppressed("rate-limited")); }
      }
      var branch := "skill/" + cand.kind + "-" + SkillFile.Slug(cand.skill);
      if call == None { return Err(CallFailed); }
      launched := launched + 1;
      var id := RecordRatchet(Run(profile, cand.skill, cand.kind, call.value.taskId, call.value.jobId, branch, "fired", "",
                                  cand.rationale, call.value.doneAt));
      if id.Err? { return Err(id.error); }
      r := Ok(Fired(call.value.taskId));
    }
  }

  // ---------------------------------------------------------------- when a ratchet is fired

  /** The run has not been merged, closed or failed. */
  predicate Unfinished(r: Run) { r.status == "fired" || r.status == "pr_open" }

  ghost predicate Busy(l: Ledger, profile: string, skill: string) {
    exists i | 0 <= i < |l| :: l[i].profile == profile && l[i].skill == skill && Unfinished(l[i])
  }

  ghost predicate Nagged(l: Ledger, profile: string, skill: string, since: int) {
    exists i | 0 <= i < |l| :: l[i].profile == profile && l[i].skill == skill && l[i].createdAt > since
  }

  /** The ids of the profile's unfinished runs. */
  function Open(l: Ledger, profile: string): set<nat> {
    set i: nat | i < |l| && l[i].profile == profile && Unfinished(l[i]) :: i + 1
  }

  lemma {:induction false} SkillLoadIff(l: Ledger, profile: string, skill: string)
    ensures SkillLoad(l, profile, skill) > 0 <==> Busy(l, profile, skill)
  {
    if l != [] {
      var n := |l| - 1;
      SkillLoadIff(l[..n], profile, skill);
      if Busy(l[..n], profile, skill) {
        var i :| 0 <= i < n && l[..n][i].profile == profile && l[..n][i].skill == skill && Unfinished(l[..n][i]);
        assert l[i] == l[..n][i];
      }
      if i :| 0 <= i < |l| && l[i].profile == profile && l[i].skill == skill && Unfinished(l[i]) {
        if i < n { assert l[..n][i] == l[i]; }
      }
    }
  }

  lemma {:induction false} ProfileLoadIs(l: Ledger, profile: string)
    ensures ProfileLoad(l, profile) == |Open(l, profile)|
  {
    hide Open;
    if l == [] {
      assert Open(l, profile) == {} by { NothingOpen(profile); }
    } else {
      var n := |l| - 1;
      ProfileLoadIs(l[..n], profile);
      OpenSnoc(l, profile);
      OpenBelow(l[..n], profile);
    }
  }

  lemma NothingOpen(profile: string)
    ensures Open([], profile) == {}
  {
  }

  lemma OpenBelow(l: Ledger, profile: string)
    ensures |l| + 1 !in Open(l, profile)
  {
  }

  lemma OpenSnoc(l: Ledger, profile: string)
    requires l != []
    ensures var n := |l| - 1;
            Open(l, profile) == Open(l[..n], profile) + if l[n].profile == profile && Unfinished(l[n]) then {|l|} else {}
  {
    var n := |l| - 1;
    forall id | id in Open(l, profile) ensures id == |l| || id in Open(l[..n], profile) {
      if id != |l| { assert l[..n][id - 1] == l[id - 1]; }
    }
    forall id | id in Open(l[..n], profile) ensures id in Open(l, profile) { assert l[id - 1] == l[..n][id - 1]; }
  }

  /** A candidate is held back exactly when auto-fire or the store is not configured, or the skill has an
      unfinished run, or it had one within the cooldown, or the profile has `max` unfinished ones; the
      first of these is the reason given. Then nothing happens. */
  lemma SuppressedIff(c: Config, l: Ledger, profile: string, cand: Candidate, now: int, call: Option<Call>)
    ensures var (m, launched, r) := Attempt(c, l, profile, cand, now, call);
            var off := !c.brainbox || Text.AllSpace(c.repoUrl);
            var busy := Busy(l, profile, cand.skill);
            var soon := c.cooldown > 0 && Nagged(l, profile, cand.skill, now - c.cooldown);
            var full := c.max > 0 && |Open(l, profile)| >= c.max;
            && (r.Ok? && r.value.Suppressed? <==> off || !c.store || busy || soon || full)
            && (r == Ok(Suppressed("auto-fire not configured")) <==> off)
            && (r == Ok(Suppressed("no store")) <==> !off && !c.store)
            && (r == Ok(Suppressed("in-flight ratchet exists")) <==> !off && c.store && busy)
            && (r == Ok(Suppressed("within cooldown")) <==> !off && c.store && !busy && soon)
            && (r == Ok(Suppressed("rate-limited")) <==> !off && c.store && !busy && !soon && full)
            && (r.Ok? && r.value.Suppressed? ==> m == l && launched == 0)
  {
    hide Text.AllSpace, SkillLoad, ProfileLoad, Text.TrimSpace, SkillFile.Slug, Open, Recorded, RunOf;
    Text.TrimEmptyIff(c.repoUrl);
    SkillLoadIff(l, profile, cand.skill);
    ProfileLoadIs(l, profile);
    ReasonsDiffer();
  }

  lemma ReasonsDiffer()
    ensures |"auto-fire not configured"| == 24 && |"no store"| == 8 && |"in-flight ratchet exists"| == 24
    ensures "auto-fire not configured"[0] == 'a' && "in-flight ratchet exists"[0] == 'i'
    ensures |"within cooldown"| == 15 && |"rate-limited"| == 12
  {
  }

  /** Otherwise the call is made. When it gets through, the run is recorded as the candidate and the call
      have it, if its kind is one the ledger accepts. */
  lemma UnsuppressedMeans(c: Config, l: Ledger, profile: string, cand: Candidate, now: int, call: Option<Call>)
    requires var r := Attempt(c, l, profile, cand, now, call).2; r.Err? || r.value.Fired?
    ensures var (m, launched, r) := Attempt(c, l, profile, cand, now, call);
            && (call == None ==> r == Err(CallFailed) && m == l && launched == 0)
            && (call.Some? ==>
                  && launched == 1
                  && (r.Ok? <==> cand.kind in {"create", "edit", "prune", "merge"})
                  && (r.Err? ==> m == l && r.error == ConstraintViolation)
                  && (r.Ok? ==>
                        && r.value.taskId == call.value.taskId && |m| == |l| + 1 && l <= m
                        && m[|l|] == Run(profile, cand.skill, cand.kind, call.value.taskId, call.value.jobId,
                                         "skill/" + cand.kind + "-" + SkillFile.Slug(cand.skill), "fired", "",
                                         cand.rationale, call.value.doneAt)))
  {
    hide Judged, SkillFile.Slug;
  }

  // ---------------------------------------------------------------- the contract of the ledger

  /** At most one run in flight per skill. */
  ghost predicate OnePerSkill(l: Ledger) {
    forall profile, skill :: SkillLoad(l, profile, skill) <= 1
  }

  ghost predicate Capped(l: Ledger, max: int) {
    forall profile :: ProfileLoad(l, profile) <= max
  }

  /** Two runs of a skill are at least a cooldown apart. */
  ghost predicate Spaced(l: Ledger, cooldown: int) {
    forall i, j | 0 <= i < j < |l| && OfSkill(l[j], l[i].profile, l[i].skill) :: l[j].createdAt - l[i].createdAt >= cooldown
  }

  ghost predicate LedgerOk(c: Config, l: Ledger) {
    OnePerSkill(l) && Capped(l, c.max) && Spaced(l, c.cooldown)
  }

  lemma LoadSnoc(l: Ledger, r: Run, profile: string, skill: string)
    ensures SkillLoad(l + [r], profile, skill) ==
            SkillLoad(l, profile, skill) + if OfSkill(r, profile, skill) && InFlight(r.status) then 1 else 0
    ensures ProfileLoad(l + [r], profile) == ProfileLoad(l, profile) + if r.profile == profile && InFlight(r.status) then 1 else 0
  {
    assert (l + [r])[..|l|] == l;
  }

  function Bit(b: bool): int { if b then 1 else 0 }

  /** What changing one row does to the counts. */
  lemma {:induction false} LoadShift(l: Ledger, k: nat, r: Run, profile: string, skill: string)
    requires k < |l| && r.profile == l[k].profile && r.skill == l[k].skill
    ensures SkillLoad(l[k := r], profile, skill) - SkillLoad(l, profile, skill) ==
            if OfSkill(r, profile, skill) then Bit(InFlight(r.status)) - Bit(InFlight(l[k].status)) else 0
    ensures ProfileLoad(l[k := r], profile) - ProfileLoad(l, profile) ==
            if r.profile == profile then Bit(InFlight(r.status)) - Bit(InFlight(l[k].status)) else 0
  {
    var n := |l| - 1;
    if k == n {
      assert l[k := r] == l[..n] + [r] && l == l[..n] + [l[n]];
      LoadSnoc(l[..n], r, profile, skill);
      LoadSnoc(l[..n], l[n], profile, skill);
    } else {
      assert l[k := r][..n] == l[..n][k := r];
      LoadShift(l[..n], k, r, profile, skill);
    }
  }

  lemma {:induction false} LoadOfOne(l: Ledger, k: nat)
    requires k < |l| && InFlight(l[k].status)
    ensures SkillLoad(l, l[k].profile, l[k].skill) >= 1 && ProfileLoad(l, l[k].profile) >= 1
  {
    if k < |l| - 1 { LoadOfOne(l[..|l| - 1], k); }
  }

  lemma AppendKeepsLedger(c: Config, l: Ledger, r: Run)
    requires LedgerOk(c, l) && c.max > 0 && c.cooldown > 0
    requires SkillLoad(l, r.profile, r.skill) == 0 && ProfileLoad(l, r.profile) < c.max
    requires !Recent(l, r.profile, r.skill, r.createdAt - c.cooldown)
    ensures LedgerOk(c, l + [r])
  {
    hide SkillLoad, ProfileLoad;
    forall profile, skill ensures SkillLoad(l + [r], profile, skill) <= 1 { LoadSnoc(l, r, profile, skill); }
    forall profile ensures ProfileLoad(l + [r], profile) <= c.max { LoadSnoc(l, r, profile, ""); }
    var m := l + [r];
    forall i, j | 0 <= i < j < |m| && OfSkill(m[j], m[i].profile, m[i].skill)
      ensures m[j].createdAt - m[i].createdAt >= c.cooldown
    {
      if j == |l| { assert OfSkill(l[i], r.profile, r.skill); }
    }
  }

  /** Whether an update brings a finished run back. */
  predicate Reopens(l: Ledger, id: nat, status: string) {
    1 <= id <= |l| && !InFlight(l[id - 1].status) && InFlight(status)
  }

  /** UpdateRatchetStatus has no guard of its own: it keeps the contract unless it reopens a run of a
      skill that has another one in flight, or of a profile that is at its cap. */
  lemma UpdateKeepsLedgerIff(c: Config, l: Ledger, id: nat, status: string, prUrl: string)
    requires LedgerOk(c, l) && Updated(l, id, status, prUrl).Some?
    ensures LedgerOk(c, Updated(l, id, status, prUrl).value) <==>
            !(Reopens(l, id, status) && (SkillLoad(l, l[id - 1].profile, l[id - 1].skill) > 0
                                         || ProfileLoad(l, l[id - 1].profile) >= c.max))
  {
    hide SkillLoad, ProfileLoad, InFlight;
    var m := Updated(l, id, status, prUrl).value;
    if 1 <= id <= |l| {
      var k, r := id - 1, m[id - 1];
      LoadShift(l, k, r, r.profile, r.skill);
      forall profile, skill ensures OfSkill(r, profile, skill) || SkillLoad(m, profile, skill) == SkillLoad(l, profile, skill) {
        LoadShift(l, k, r, profile, skill);
      }
      forall profile ensures r.profile == profile || ProfileLoad(m, profile) == ProfileLoad(l, profile) {
        LoadShift(l, k, r, profile, "");
      }
      assert Spaced(m, c.cooldown);
      if InFlight(l[k].status) { LoadOfOne(l, k); }
    }
  }

  // ---------------------------------------------------------------- whole runs

  datatype Step =
    | AutoFire(profile: string, cand: Candidate, now: int, call: Option<Call>)
    | Update(id: nat, status: string, prUrl: string)

  function Next(c: Config, l: Ledger, s: Step): Ledger {
    match s
    case AutoFire(profile, cand, now, call) => Attempt(c, l, profile, cand, now, call).0
    case Update(id, status, prUrl) =>
      (match Updated(l, id, status, prUrl)
       case None => l
       case Some(m) => m)
  }

  function Launches(c: Config, l: Ledger, s: Step): nat {
    if s.AutoFire? then Attempt(c, l, s.profile, s.cand, s.now, s.call).1 else 0
  }

  function RunTo(c: Config, l: Ledger, steps: seq<Step>): Ledger {
    if steps == [] then l else Next(c, RunTo(c, l, steps[..|steps| - 1]), steps[|steps| - 1])
  }

  function TotalLaunches(c: Config, l: Ledger, steps: seq<Step>): nat {
    if steps == [] then 0
    else TotalLaunches(c, l, steps[..|steps| - 1]) + Launches(c, RunTo(c, l, steps[..|steps| - 1]), steps[|steps| - 1])
  }

  /** No step of the run reopens a finished ratchet. */
  ghost predicate NeverReopens(c: Config, l: Ledger, steps: seq<Step>) {
    forall n | 0 <= n < |steps| && steps[n].Update? ::
      !Reopens(RunTo(c, l, steps[..n]), steps[n].id, steps[n].status)
  }

  /** A row is inserted no earlier than its guards were checked. */
  predicate ClockMoves(s: Step) { s.AutoFire? && s.call.Some? ==> s.now <= s.call.value.doneAt }

  lemma LaterIsNotRecent(l: Ledger, profile: string, skill: string, since: int, later: int)
    requires since <= later && !Recent(l, profile, skill, since)
    ensures !Recent(l, profile, skill, later)
  {
  }

  lemma StepKeepsLedger(c: Config, l: Ledger, s: Step)
    requires LedgerOk(c, l) && c.max > 0 && c.cooldown > 0 && ClockMoves(s)
    requires s.Update? ==> !Reopens(l, s.id, s.status)
    ensures LedgerOk(c, Next(c, l, s))
  {
    hide LedgerOk, SkillLoad, ProfileLoad, Recent, Reopens;
    match s
    case AutoFire(profile, cand, now, call) =>
      if Judged(c, l, profile, cand.skill, now) == Fire && call.Some? {
        LaterIsNotRecent(l, profile, cand.skill, now - c.cooldown, call.value.doneAt - c.cooldown);
        AppendKeepsLedger(c, l, RunOf(profile, cand, call.value));
      }
    case Update(id, status, prUrl) =>
      if Updated(l, id, status, prUrl).Some? { UpdateKeepsLedgerIff(c, l, id, status, prUrl); }
  }

  lemma NeverReopensPrefix(c: Config, l: Ledger, steps: seq<Step>)
    requires NeverReopens(c, l, steps) && steps != []
    ensures NeverReopens(c, l, steps[..|steps| - 1])
  {
    var front := steps[..|steps| - 1];
    forall n | 0 <= n < |front| && front[n].Update? ensures !Reopens(RunTo(c, l, front[..n]), front[n].id, front[n].status) {
      assert front[..n] == steps[..n] && front[n] == steps[n];
    }
  }

  /** Over every serial run that reopens nothing: at most one run in flight per skill, at most `max` per
      profile, and the runs of a skill at least a cooldown apart. */
  lemma {:induction false} RunsKeepLedger(c: Config, l: Ledger, steps: seq<Step>)
    requires LedgerOk(c, l) && c.max > 0 && c.cooldown > 0 && NeverReopens(c, l, steps)
    requires forall i | 0 <= i < |steps| :: ClockMoves(steps[i])
    ensures LedgerOk(c, RunTo(c, l, steps))
  {
    hide LedgerOk, Next, Reopens;
    if steps != [] {
      var n := |steps| - 1;
      NeverReopensPrefix(c, l, steps);
      assert forall i | 0 <= i < n :: steps[..n][i] == steps[i];
      RunsKeepLedger(c, l, steps[..n]);
      StepKeepsLedger(c, RunTo(c, l, steps[..n]), steps[n]);
    }
  }

  // ---------------------------------------------------------------- how many fires fit into a window

  /** The runs of a skill created within a closed window. */
  function Fires(l: Ledger, profile: string, skill: string, from: int, to: int): seq<Run> {
    if l == [] then []
    else
      var last := l[|l| - 1];
      Fires(l[..|l| - 1], profile, skill, from, to)
      + if OfSkill(last, profile, skill) && from <= last.createdAt <= to then [last] else []
  }

  lemma SpacedPrefix(l: Ledger, cooldown: int)
    requires Spaced(l, cooldown) && l != []
    ensures Spaced(l[..|l| - 1], cooldown)
  {
  }

  lemma {:induction false} FireIsInLedger(l: Ledger, profile: string, skill: string, from: int, to: int)
    ensures forall r | r in Fires(l, profile, skill, from, to) :: r in l && OfSkill(r, profile, skill) && from <= r.createdAt <= to
  {
    if l != [] {
      FireIsInLedger(l[..|l| - 1], profile, skill, from, to);
    }
  }

  function Times(n: nat, cooldown: int): int { if n == 0 then 0 else Times(n - 1, cooldown) + cooldown }

  lemma NextFire(gs: seq<Run>, last: Run, cooldown: int, from: int)
    requires gs != [] ==> gs[|gs| - 1].createdAt - from >= Times(|gs| - 1, cooldown)
    requires gs != [] ==> last.createdAt - gs[|gs| - 1].createdAt >= cooldown
    requires from <= last.createdAt
    ensures last.createdAt - from >= Times(|gs|, cooldown)
  {
  }

  /** The last fire of a window so far, and one more of the same skill, are a cooldown apart. */
  lemma NextIsSpaced(l: Ledger, cooldown: int, r: Run)
    requires l != [] && Spaced(l, cooldown) && r in l[..|l| - 1] && OfSkill(l[|l| - 1], r.profile, r.skill)
    ensures l[|l| - 1].createdAt - r.createdAt >= cooldown
  {
    var i :| 0 <= i < |l| - 1 && l[..|l| - 1][i] == r;
    assert l[i] == r;
  }

  /** The fires in a window spread over at least a cooldown each. */
  lemma {:induction false} FiresSpread(l: Ledger, cooldown: int, profile: string, skill: string, from: int, to: int)
    requires Spaced(l, cooldown) && cooldown > 0
    ensures var fs := Fires(l, profile, skill, from, to);
            fs != [] ==> fs[|fs| - 1].createdAt - from >= Times(|fs| - 1, cooldown)
  {
    hide Times, Spaced;
    if l != [] {
      var front, last := l[..|l| - 1], l[|l| - 1];
      SpacedPrefix(l, cooldown);
      FiresSpread(front, cooldown, profile, skill, from, to);
      var gs := Fires(front, profile, skill, from, to);
      FireIsInLedger(front, profile, skill, from, to);
      if OfSkill(last, profile, skill) && from <= last.createdAt <= to {
        if gs != [] {
          assert gs[|gs| - 1] in gs;
          NextIsSpaced(l, cooldown, gs[|gs| - 1]);
        }
        NextFire(gs, last, cooldown, from);
        assert Fires(l, profile, skill, from, to) == gs + [last];
      } else {
        assert Fires(l, profile, skill, from, to) == gs;
      }
    }
  }

  lemma {:induction false} TimesIsProduct(n: nat, cooldown: int)
    ensures Times(n, cooldown) == n * cooldown
  {
    if n > 0 { TimesIsProduct(n - 1, cooldown); }
  }

  lemma ProductsAscend(a: int, b: int, c: int)
    requires a <= b && c >= 0
    ensures a * c <= b * c
  {
  }

  lemma QuotientBound(n: nat, width: int, cooldown: int)
    requires cooldown > 0 && Times(n, cooldown) <= width
    ensures n <= width / cooldown
  {
    hide Times;
    TimesIsProduct(n, cooldown);
    var q, r := width / cooldown, width % cooldown;
    assert width == q * cooldown + r;
    assert (q + 1) * cooldown == q * cooldown + cooldown;
    if n > q { ProductsAscend(q + 1, n, cooldown); }
  }

  /** In any closed window of a given width a skill has at most width/cooldown + 1 recorded fires. */
  lemma WindowBound(c: Config, l: Ledger, profile: string, skill: string, from: int, width: nat)
    requires LedgerOk(c, l) && c.cooldown > 0
    ensures |Fires(l, profile, skill, from, from + width)| <= width / c.cooldown + 1
  {
    hide OnePerSkill, Capped, Spaced, Fires, Times, OfSkill;
    var fs := Fires(l, profile, skill, from, from + width);
    if fs != [] {
      FiresSpread(l, c.cooldown, profile, skill, from, from + width);
      FireIsInLedger(l, profile, skill, from, from + width);
      assert fs[|fs| - 1] in fs;
      QuotientBound(|fs| - 1, width, c.cooldown);
    }
  }

  // ---------------------------------------------------------------- what the ledger does not see

  /** A ratchet that was launched is recorded exactly when the ledger accepts its kind. */
  lemma LaunchIsRecordedIff(c: Config, l: Ledger, profile: string, cand: Candidate, now: int, call: Option<Call>)
    requires Attempt(c, l, profile, cand, now, call).1 == 1
    ensures Attempt(c, l, profile, cand, now, call).0 != l <==> cand.kind in KINDS
    ensures Attempt(c, l, profile, cand, now, call).2.Ok? <==> cand.kind in KINDS
  {
    hide SkillFile.Slug, Judged;
    var r := if call.Some? then RunOf(profile, cand, call.value) else RunOf(profile, cand, Call("", "", 0));
    assert |l + [r]| == |l| + 1;
  }

  /** With kinds the ledger accepts, every launch of a run has its own row. */
  lemma {:induction false} EveryLaunchIsRecorded(c: Config, l: Ledger, steps: seq<Step>)
    requires forall i | 0 <= i < |steps| && steps[i].AutoFire? :: steps[i].cand.kind in KINDS
    ensures |RunTo(c, l, steps)| == |l| + TotalLaunches(c, l, steps)
  {
    hide Judged;
    if steps != [] {
      var front := steps[..|steps| - 1];
      assert forall i | 0 <= i < |front| :: front[i] == steps[i];
      EveryLaunchIsRecorded(c, l, front);
    }
  }

  /** The same candidate n times over. */
  function Nagging(profile: string, cand: Candidate, call: Call, now: int, n: nat): seq<Step> {
    if n == 0 then [] else Nagging(profile, cand, call, now, n - 1) + [AutoFire(profile, cand, now, Some(call))]
  }

  /** A candidate of another kind, such as "promote", is launched every time it is seen: no row is
      written, so no guard ever holds it back. */
  lemma {:induction false} UnrecordedKindsAreUnbounded(c: Config, l: Ledger, profile: string, cand: Candidate, call: Call,
                                                       now: int, n: nat)
    requires cand.kind !in KINDS && Judged(c, l, profile, cand.skill, now) == Fire
    ensures RunTo(c, l, Nagging(profile, cand, call, now, n)) == l
    ensures TotalLaunches(c, l, Nagging(profile, cand, call, now, n)) == n
  {
    hide Judged;
    if n > 0 {
      UnrecordedKindsAreUnbounded(c, l, profile, cand, call, now, n - 1);
      var steps := Nagging(profile, cand, call, now, n);
      assert steps[..|steps| - 1] == Nagging(profile, cand, call, now, n - 1);
    }
  }
}
