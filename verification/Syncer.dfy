/** The local mirror of the registry (internal/syncer/syncer.go): drain the change feed into the
    skills directory.  The directory is a map from slug to the text of its SKILL.md. */
module Syncer {
  import opened Outcomes
  import opened SkillFile
  import opened Registry
  import opened Cursor
  import opened Feed
  import Keyset

  type Files = map<string, string>

  /** What is found at a slug. Only a `Managed` slot may be overwritten or removed; a file whose YAML
      does not parse is overwritten, but never removed. */
  datatype Slot = Missing | Garbled | HandAuthored | Managed(marker: Marker)

  function SlotAt(y: Yaml, files: Files, slug: string): Slot {
    if slug !in files then Missing
    else match Parse(y, files[slug])
      case None => Garbled
      case Some(p) => match MarkerOf(p.fm)
        case None => HandAuthored
        case Some(m) => Managed(m)
  }

  /** One entry of a page: a skill to materialize, or the name of one to remove. */
  datatype Entry = Put(skill: SyncSkill) | Drop(name: string)

  datatype Effect = Wrote(slug: string) | Current | Skipped | Deleted(slug: string) | Nothing

  datatype Step = Step(files: Files, effect: Effect)

  function SlugOf(sk: SyncSkill): string { if sk.slug == "" then Slug(sk.name) else sk.slug }

  function Target(e: Entry): string {
    match e case Put(sk) => SlugOf(sk) case Drop(name) => Slug(name)
  }

  function MarkerFor(sk: SyncSkill): Marker { Marker(sk.origin, sk.status, sk.sha) }

  /** os.RemoveAll(filepath.Join(skillsDir, slug)): with an empty slug the joined path is skillsDir. */
  function RemovedAll(files: Files, slug: string): Files {
    if slug == "" then map[] else files - {slug}
  }

  /** What one entry does to the directory; None is a rendering error. */
  function Reconciled(y: Yaml, files: Files, e: Entry): Option<Step> {
    var slot := SlotAt(y, files, Target(e));
    match e
    case Put(sk) =>
      if slot.HandAuthored? then Some(Step(files, Skipped))
      else if slot.Managed? && slot.marker.sha == sk.sha then Some(Step(files, Current))
      else (match Rendered(y, sk.fm, sk.body, MarkerFor(sk))
            case None => None
            case Some(text) => Some(Step(files[SlugOf(sk) := text], Wrote(SlugOf(sk)))))
    case Drop(name) =>
      match slot
      case HandAuthored => Some(Step(files, Skipped))
      case Managed(_) => Some(Step(RemovedAll(files, Slug(name)), Deleted(Slug(name))))
      case _ => Some(Step(files, Nothing))
  }

  datatype Outcome = Outcome(files: Files, effects: seq<Effect>, ok: bool)

  /** A run over entries, stopping at the first error; a dry run reports the effects only. */
  function Execute(y: Yaml, dry: bool, files: Files, es: seq<Entry>): Outcome {
    if es == [] then Outcome(files, [], true)
    else
      var o := Execute(y, dry, files, es[..|es| - 1]);
      if !o.ok then o
      else match Reconciled(y, o.files, es[|es| - 1])
        case None => o.(ok := false)
        case Some(st) => Outcome(if dry then o.files else st.files, o.effects + [st.effect], true)
  }

  function Puts(skills: seq<SyncSkill>): seq<Entry> {
    seq(|skills|, i requires 0 <= i < |skills| => Put(skills[i]))
  }

  function Drops(names: seq<string>): seq<Entry> {
    seq(|names|, i requires 0 <= i < |names| => Drop(names[i]))
  }

  /** The entries of one page, in the order Sync goes through them. */
  function Entries(rows: seq<FeedRow>): seq<Entry> { Puts(Promotions(rows)) + Drops(Deletions(rows)) }

  /** The entries of all pages of a frozen feed. */
  function AllEntries(index: RowIndex, from: Keyset.Key, n: nat): seq<Entry>
    decreases |Keyset.After(index.Keys, from)|
  {
    var ks := Keyset.Scan(index.Keys, from, n);
    if ks == [] then []
    else
      Keyset.ScanResumes(index.Keys, from, n);
      Keyset.AfterShrinks(index.Keys, from, ks[|ks| - 1]);
      Entries(Rows(index, ks)) + AllEntries(index, ks[|ks| - 1], n)
  }

  // ---------------------------------------------------------------- the loop

  datatype Report = Report(written: nat, upToDate: nat, deleted: nat, skippedUnmanaged: nat, changes: seq<string>)

  const NOTHING_YET := Report(0, 0, 0, 0, [])

  function WithLine(changes: seq<string>, e: Effect): seq<string> {
    match e
    case Wrote(slug) => changes + ["write " + slug]
    case Deleted(slug) => changes + ["delete " + slug]
    case _ => changes
  }

  /** How one effect shows in the result; change lines are for dry runs. */
  function Noted(r: Report, e: Effect, dry: bool): Report {
    var changes := if dry then WithLine(r.changes, e) else r.changes;
    match e
    case Wrote(_) => r.(written := r.written + 1, changes := changes)
    case Current => r.(upToDate := r.upToDate + 1)
    case Skipped => r.(skippedUnmanaged := r.skippedUnmanaged + 1)
    case Deleted(_) => r.(deleted := r.deleted + 1, changes := changes)
    case Nothing => r
  }

  function ReportOf(es: seq<Effect>, dry: bool): Report {
    if es == [] then NOTHING_YET else Noted(ReportOf(es[..|es| - 1], dry), es[|es| - 1], dry)
  }

  class RunResult {
    var written: nat
    var upToDate: nat
    var deleted: nat
    var skippedUnmanaged: nat
    var changes: seq<string>
    var cursor: string

    constructor ()
      ensures Value() == NOTHING_YET && cursor == ""
    {
      written, upToDate, deleted, skippedUnmanaged, cursor, changes := 0, 0, 0, 0, "", [];
    }

    function Value(): Report
      reads `written, `upToDate, `deleted, `skippedUnmanaged, `changes
    {
      Report(written, upToDate, deleted, skippedUnmanaged, changes)
    }
  }

  /** Where a run over a frozen feed ends: the last row there is, or the start re-rendered. */
  function EndCursor(index: RowIndex, start: string): string {
    var ks := Keyset.ScanAll(index.Keys, KeyOf(Decode(start)));
    if ks == [] then Canonical(start) else Encode(PositionOf(index[ks[|ks| - 1]]))
  }

  /** Rows sit at their sort key, and their timestamps fit the cursor's 64-bit nanoseconds. */
  ghost predicate Servable(index: RowIndex) {
    forall k | k in index :: k == [index[k].updatedAt, index[k].id] && Valid(PositionOf(index[k]))
  }

  lemma CursorReachesRow(index: RowIndex, k: Keyset.Key)
    requires Servable(index) && k in index
    ensures Decode(Encode(PositionOf(index[k]))) == PositionOf(index[k])
    ensures KeyOf(PositionOf(index[k])) == k
  {
    DecodeOfEncode(PositionOf(index[k]));
  }

  class Syncer {
    const y: Yaml
    var files: Files
    var cursorFile: Option<string>

    constructor (y: Yaml, files: Files, cursorFile: Option<string>)
      ensures this.y == y && this.files == files && this.cursorFile == cursorFile
    {
      this.y, this.files, this.cursorFile := y, files, cursorFile;
    }

    /** The read-parse-marker prologue that materialize and remove share. */
    method Inspect(slug: string) returns (slot: Slot)
      ensures slot == SlotAt(y, files, slug)
    {
      if slug !in files { return Missing; }
      var parsed := Parse(y, files[slug]);
      if parsed.None? { return Garbled; }
      var marker := MarkerOf(parsed.value.fm);
      slot := if marker.None? then HandAuthored else Managed(marker.value);
    }

    method Materialize(sk: SyncSkill, dryRun: bool, res: RunResult) returns (ok: bool, ghost effect: Effect)
      modifies this`files, res
      ensures ok == Reconciled(y, old(files), Put(sk)).Some?
      ensures !ok ==> files == old(files) && res.Value() == old(res.Value())
      ensures ok ==> var st := Reconciled(y, old(files), Put(sk)).value;
                     && effect == st.effect
                     && files == (if dryRun then old(files) else st.files)
                     && res.Value() == Noted(old(res.Value()), st.effect, dryRun)
    {
      effect := Nothing;
      hide SlotAt, Rendered, Slug;
      var slug := sk.slug;
      if slug == "" { slug := Slugify(sk.name); }
      var slot := Inspect(slug);
      if slot.HandAuthored? {
        res.skippedUnmanaged := res.skippedUnmanaged + 1;
        return true, Skipped;
      }
      if slot.Managed? && slot.marker.sha == sk.sha {
        res.upToDate := res.upToDate + 1;
        return true, Current;
      }
      var content := Render(y, sk.fm, sk.body, Marker(sk.origin, sk.status, sk.sha));
      if content.None? { return false, effect; }
      if dryRun {
        res.changes := res.changes + ["write " + slug];
      } else {
        files := files[slug := content.value];
      }
      res.written := res.written + 1;
      return true, Wrote(slug);
    }

    method Remove(name: string, dryRun: bool, res: RunResult) returns (ghost effect: Effect)
      modifies this`files, res
      ensures var st := Reconciled(y, old(files), Drop(name)).value;
              && effect == st.effect
              && files == (if dryRun then old(files) else st.files)
              && res.Value() == Noted(old(res.Value()), st.effect, dryRun)
    {
      hide SlotAt, Rendered, Slug;
      var slug := Slugify(name);
      var slot := Inspect(slug);
      if slot.Missing? || slot.Garbled? { return Nothing; }
      if slot.HandAuthored? {
        res.skippedUnmanaged := res.skippedUnmanaged + 1;
        return Skipped;
      }
      if dryRun {
        res.changes := res.changes + ["delete " + slug];
      } else {
        files := RemovedAll(files, slug);
      }
      res.deleted := res.deleted + 1;
      return Deleted(slug);
    }

    /** `for _, sk := range resp.Skills`, stopping at the first error. */
    method MaterializeAll(skills: seq<SyncSkill>, dryRun: bool, res: RunResult, ghost done: seq<Effect>)
      returns (ok: bool, ghost effects: seq<Effect>)
      requires res.Value() == ReportOf(done, dryRun)
      modifies this`files, res
      ensures Execute(y, dryRun, old(files), Puts(skills)) == Outcome(files, effects, ok)
      ensures res.Value() == ReportOf(done + effects, dryRun)
    {
      hide Reconciled, Noted, ReportOf;
      var n := 0;
      ok, effects := true, [];
      ghost var es := Puts(skills);
      assert done + effects == done;
      while n < |skills|
        invariant 0 <= n <= |skills| && ok
        invariant Execute(y, dryRun, old(files), es[..n]) == Outcome(files, effects, ok)
        invariant res.Value() == ReportOf(done + effects, dryRun)
      {
        ghost var e;
        ok, e := Materialize(skills[n], dryRun, res);
        ExecuteSnoc(y, dryRun, old(files), es, n);
        if !ok {
          ExecuteStops(y, dryRun, old(files), es, n + 1);
          return;
        }
        ReportSnoc(done, effects, e, dryRun);
        effects := effects + [e];
        n := n + 1;
      }
      assert es[..n] == es;
    }

    /** `for _, name := range resp.Deletes` */
    method RemoveAll(names: seq<string>, dryRun: bool, res: RunResult, ghost done: seq<Effect>)
      returns (ghost effects: seq<Effect>)
      requires res.Value() == ReportOf(done, dryRun)
      modifies this`files, res
      ensures Execute(y, dryRun, old(files), Drops(names)) == Outcome(files, effects, true)
      ensures res.Value() == ReportOf(done + effects, dryRun)
    {
      hide SlotAt, Slug, Noted, ReportOf;
      var n := 0;
      effects := [];
      ghost var es := Drops(names);
      assert done + effects == done;
      while n < |names|
        invariant 0 <= n <= |names|
        invariant Execute(y, dryRun, old(files), es[..n]) == Outcome(files, effects, true)
        invariant res.Value() == ReportOf(done + effects, dryRun)
      {
        ghost var e := Remove(names[n], dryRun, res);
        ExecuteSnoc(y, dryRun, old(files), es, n);
        ReportSnoc(done, effects, e, dryRun);
        effects := effects + [e];
        n := n + 1;
      }
      assert es[..n] == es;
    }

    /** One response: every skill, then every delete. */
    method ReconcilePage(resp: Response, dryRun: bool, res: RunResult, ghost done: seq<Effect>)
      returns (ok: bool, ghost effects: seq<Effect>)
      requires res.Value() == ReportOf(done, dryRun)
      modifies this`files, res
      ensures Execute(y, dryRun, old(files), Puts(resp.skills) + Drops(resp.deletes)) == Outcome(files, effects, ok)
      ensures res.Value() == ReportOf(done + effects, dryRun)
    {
      hide *;
      ghost var more;
      ok, effects := MaterializeAll(resp.skills, dryRun, res, done);
      ExecuteConcat(y, dryRun, old(files), Puts(resp.skills), Drops(resp.deletes));
      if !ok { return; }
      more := RemoveAll(resp.deletes, dryRun, res, done + effects);
      assert done + effects + more == done + (effects + more);
      effects := effects + more;
    }

    /** Sync against a feed nobody writes to.  It terminates from every cursor text; it goes through
        exactly the entries after that cursor; only a complete real run moves the saved cursor. */
    method Sync(server: Server, dryRun: bool, reset: bool, res: RunResult) returns (ok: bool)
      requires UniqueIds(server.db) && Servable(Index(server.db, server.profile))
      requires res.Value() == NOTHING_YET
      modifies this, res
      ensures var start := if reset then "" else Loaded(old(cursorFile));
              var plan := Plan(y, dryRun, old(files), Index(server.db, server.profile), server.page, start);
              && Outcome(files, plan.Goal().effects, ok) == plan.Goal()
              && res.Value() == ReportOf(plan.Goal().effects, dryRun)
              && (ok ==> res.cursor == plan.End())
              && cursorFile == if ok && !dryRun then Some(Saved(plan.End())) else old(cursorFile)
    {
      hide *;
      var cursor := "";
      if !reset { cursor := Loaded(cursorFile); }
      ghost var plan := Plan(y, dryRun, files, Index(server.db, server.profile), server.page, cursor);
      ghost var effects: seq<Effect> := [];
      plan.Begin();
      NothingReported(dryRun);
      while true
        invariant cursorFile == old(cursorFile)
        invariant plan.At(cursor, files, effects) && res.Value() == ReportOf(effects, dryRun)
        decreases plan.Remaining(cursor), if Canonical(cursor) == cursor then 0 else 1
      {
        var resp := HandleSync(server, cursor);
        ghost var more, before := [], files;
        AnswerIsPage(server, cursor);
        ok, more := ReconcilePage(resp, dryRun, res, effects);
        plan.Round(cursor, before, effects, Outcome(files, more, ok));
        effects := effects + more;
        if !ok { return; }
        if resp.cursor == "" || resp.cursor == cursor { break; }
        cursor := resp.cursor;
      }
      res.cursor := cursor;
      if !dryRun { cursorFile := Some(Saved(cursor)); }
    }
  }

  lemma ReportSnoc(done: seq<Effect>, effects: seq<Effect>, e: Effect, dry: bool)
    ensures ReportOf(done + (effects + [e]), dry) == Noted(ReportOf(done + effects, dry), e, dry)
  {
    assert (done + (effects + [e]))[..|done + effects|] == done + effects;
  }

  lemma ExecuteSnoc(y: Yaml, dry: bool, files: Files, es: seq<Entry>, n: nat)
    requires n < |es| && Execute(y, dry, files, es[..n]).ok
    ensures var o := Execute(y, dry, files, es[..n]);
            Execute(y, dry, files, es[..n + 1]) ==
            match Reconciled(y, o.files, es[n])
            case None => o.(ok := false)
            case Some(st) => Outcome(if dry then o.files else st.files, o.effects + [st.effect], true)
  {
    assert es[..n + 1][..n] == es[..n];
  }

  /** What one Sync call is out to do, fixed when it starts. */
  datatype Plan = Plan(y: Yaml, dry: bool, files: Files, index: RowIndex, page: int, start: string) {

    ghost function Rest(cursor: string): seq<Entry> { AllEntries(index, KeyOf(Decode(cursor)), Limit(page)) }

    ghost function Goal(): Outcome { Execute(y, dry, files, Rest(start)) }

    ghost function End(): string { EndCursor(index, start) }

    ghost function Remaining(cursor: string): nat { |Keyset.After(index.Keys, KeyOf(Decode(cursor)))| }

    /** The loop stands at `cursor`, having done the rest of the plan up to there. */
    ghost predicate At(cursor: string, now: Files, effects: seq<Effect>) {
      && Servable(index)
      && EndCursor(index, cursor) == End()
      && Goal() == Then(now, effects, Rest(cursor))
    }

    /** Going on from a directory with effects already made. */
    ghost function Then(now: Files, effects: seq<Effect>, es: seq<Entry>): Outcome {
      var o := Execute(y, dry, now, es);
      Outcome(o.files, effects + o.effects, o.ok)
    }

    lemma Begin()
      requires Servable(index)
      ensures At(start, files, [])
    {
      assert forall o: Outcome :: [] + o.effects == o.effects;
    }

    lemma ThenConcat(now: Files, effects: seq<Effect>, a: seq<Entry>, b: seq<Entry>)
      ensures var o := Execute(y, dry, now, a);
              Then(now, effects, a + b) ==
              if o.ok then Then(o.files, effects + o.effects, b) else Outcome(o.files, effects + o.effects, false)
    {
      ExecuteConcat(y, dry, now, a, b);
      var o := Execute(y, dry, now, a);
      assert effects + (o.effects + Execute(y, dry, o.files, b).effects) == effects + o.effects + Execute(y, dry, o.files, b).effects;
    }

    /** One round: the goal is reached, or the loop stands at a later cursor with the goal unchanged. */
    lemma Round(cursor: string, now: Files, effects: seq<Effect>, got: Outcome)
      requires At(cursor, now, effects)
      requires got == Execute(y, dry, now, Entries(PageAt(index, cursor, page)))
      ensures var next := CursorAfter(PageAt(index, cursor, page), Decode(cursor));
              && next != ""
              && (!got.ok ==> Goal() == Outcome(got.files, effects + got.effects, false))
              && (got.ok && next == cursor ==>
                    Goal() == Outcome(got.files, effects + got.effects, true) && End() == cursor)
              && (got.ok && next != cursor ==>
                    && At(next, got.files, effects + got.effects)
                    && (Remaining(next) < Remaining(cursor)
                        || (Remaining(next) == Remaining(cursor) && Canonical(next) == next && Canonical(cursor) != cursor)))
    {
      var rows := PageAt(index, cursor, page);
      var next := CursorAfter(rows, Decode(cursor));
      PageStep(index, cursor, page);
      ThenConcat(now, effects, Entries(rows), Rest(next));
      if next == cursor { assert Rest(cursor) == []; }
    }
  }

  lemma {:induction false} ExecuteConcat(y: Yaml, dry: bool, files: Files, a: seq<Entry>, b: seq<Entry>)
    ensures var oa := Execute(y, dry, files, a);
            Execute(y, dry, files, a + b) ==
            if !oa.ok then oa
            else var ob := Execute(y, dry, oa.files, b); Outcome(ob.files, oa.effects + ob.effects, ob.ok)
  {
    hide Reconciled;
    if b == [] {
      assert a + b == a;
    } else {
      var front := b[..|b| - 1];
      ExecuteConcat(y, dry, files, a, front);
      assert (a + b)[..|a + b| - 1] == a + front;
      var oa := Execute(y, dry, files, a);
      var ob := Execute(y, dry, oa.files, front);
      if oa.ok && ob.ok {
        match Reconciled(y, ob.files, b[|b| - 1])
        case None =>
        case Some(st) => assert oa.effects + (ob.effects + [st.effect]) == oa.effects + ob.effects + [st.effect];
      }
    }
  }

  /** A failed run stays failed, whatever was still to come. */
  lemma ExecuteAbsorbs(y: Yaml, dry: bool, files: Files, a: seq<Entry>, b: seq<Entry>)
    requires !Execute(y, dry, files, a).ok
    ensures Execute(y, dry, files, a + b) == Execute(y, dry, files, a)
  {
    ExecuteConcat(y, dry, files, a, b);
  }

  lemma ExecuteStops(y: Yaml, dry: bool, files: Files, es: seq<Entry>, n: nat)
    requires n <= |es| && !Execute(y, dry, files, es[..n]).ok
    ensures Execute(y, dry, files, es) == Execute(y, dry, files, es[..n])
  {
    ExecuteAbsorbs(y, dry, files, es[..n], es[n..]);
    assert es == es[..n] + es[n..];
  }

  function PageAt(index: RowIndex, cursor: string, page: int): seq<FeedRow> {
    Rows(index, Keyset.Scan(index.Keys, KeyOf(Decode(cursor)), Limit(page)))
  }

  lemma AnswerIsPage(server: Server, cursor: string)
    requires UniqueIds(server.db)
    ensures var resp := Answer(server, cursor);
            var rows := PageAt(Index(server.db, server.profile), cursor, server.page);
            && Puts(resp.skills) + Drops(resp.deletes) == Entries(rows)
            && resp.cursor == CursorAfter(rows, Decode(cursor))
  {
    hide Decode, Encode, Index, Keyset.Scan;
  }

  lemma NothingReported(dry: bool)
    ensures ReportOf([], dry) == NOTHING_YET
  {
  }

  lemma EndCursorMoves(index: RowIndex, from: Keyset.Key, n: nat)
    requires Keyset.Scan(index.Keys, from, n) != []
    ensures var ks := Keyset.Scan(index.Keys, from, n);
            var all, rest := Keyset.ScanAll(index.Keys, from), Keyset.ScanAll(index.Keys, ks[|ks| - 1]);
            all != [] && all[|all| - 1] == if rest == [] then ks[|ks| - 1] else rest[|rest| - 1]
  {
    Keyset.ScanResumes(index.Keys, from, n);
  }

  /** An empty page re-renders the cursor and moves it nowhere. */
  lemma EmptyPageStep(index: RowIndex, cursor: string, page: int)
    requires Keyset.Scan(index.Keys, KeyOf(Decode(cursor)), Limit(page)) == []
    ensures var next := CursorAfter(PageAt(index, cursor, page), Decode(cursor));
            && next == Canonical(cursor) && next != "" && Canonical(next) == next && Decode(next) == Decode(cursor)
            && Entries(PageAt(index, cursor, page)) == []
            && AllEntries(index, KeyOf(Decode(cursor)), Limit(page)) == []
            && EndCursor(index, cursor) == next && EndCursor(index, next) == next
  {
    hide Decode, Encode, Keyset.Less;
    CanonicalSettles(cursor);
    Keyset.ScanIsPrefix(index.Keys, KeyOf(Decode(cursor)), Limit(page));
  }

  /** A page with rows moves the cursor to its last row. */
  lemma FullPageStep(index: RowIndex, cursor: string, page: int)
    requires Servable(index)
    requires Keyset.Scan(index.Keys, KeyOf(Decode(cursor)), Limit(page)) != []
    ensures var from := KeyOf(Decode(cursor));
            var rows := PageAt(index, cursor, page);
            var next := CursorAfter(rows, Decode(cursor));
            && next != cursor && next != "" && Canonical(next) == next
            && AllEntries(index, from, Limit(page)) == Entries(rows) + AllEntries(index, KeyOf(Decode(next)), Limit(page))
            && |Keyset.After(index.Keys, KeyOf(Decode(next)))| < |Keyset.After(index.Keys, from)|
            && EndCursor(index, next) == EndCursor(index, cursor)
  {
    hide Decode, Encode, Keyset.Less, Keyset.ScanAll, Keyset.Scan, Entries, KeyOf;
    var from := KeyOf(Decode(cursor));
    var ks := Keyset.Scan(index.Keys, from, Limit(page));
    var last := ks[|ks| - 1];
    Keyset.ScanResumes(index.Keys, from, Limit(page));
    Keyset.AfterShrinks(index.Keys, from, last);
    CursorReachesRow(index, last);
    CanonicalSettles(Encode(PositionOf(index[last])));
    EndCursorMoves(index, from, Limit(page));
  }

  /** One round of the loop: the page consumed, the cursor it moves to, and the measure. */
  lemma PageStep(index: RowIndex, cursor: string, page: int)
    requires Servable(index)
    ensures var from := KeyOf(Decode(cursor));
            var rows := PageAt(index, cursor, page);
            var next := CursorAfter(rows, Decode(cursor));
            && next != ""
            && AllEntries(index, from, Limit(page)) == Entries(rows) + AllEntries(index, KeyOf(Decode(next)), Limit(page))
            && EndCursor(index, next) == EndCursor(index, cursor)
            && (next == cursor ==> AllEntries(index, from, Limit(page)) == [] && EndCursor(index, cursor) == cursor)
            && (next != cursor ==>
                  || |Keyset.After(index.Keys, KeyOf(Decode(next)))| < |Keyset.After(index.Keys, from)|
                  || (KeyOf(Decode(next)) == from && Canonical(next) == next && Canonical(cursor) != cursor))
  {
    hide *;
    if Keyset.Scan(index.Keys, KeyOf(Decode(cursor)), Limit(page)) == [] {
      EmptyPageStep(index, cursor, page);
    } else {
      FullPageStep(index, cursor, page);
    }
  }
}
