/** What a Sync run promises: hand-authored files are safe, a dry run predicts the real one, and a
    finished mirror is left alone by the next full pull. */
module SyncLaws {
  import opened Outcomes
  import opened SkillFile
  import opened Registry
  import opened Cursor
  import opened Feed
  import opened Syncer
  import Keyset
  import Text

  // ---------------------------------------------------------------- one entry

  predicate SameAt(f: Files, g: Files, slug: string) {
    (slug in f <==> slug in g) && (slug in f ==> f[slug] == g[slug])
  }

  /** An entry reads and writes only its own slot, unless it wipes the whole directory. */
  lemma EntryIsLocal(y: Yaml, f: Files, g: Files, e: Entry)
    requires SameAt(f, g, Target(e))
    ensures Reconciled(y, f, e).Some? <==> Reconciled(y, g, e).Some?
    ensures Reconciled(y, f, e).Some? ==> Reconciled(y, f, e).value.effect == Reconciled(y, g, e).value.effect
  {
    hide Parse, Rendered, MarkerOf, Slug;
  }

  lemma OtherSlotsKept(y: Yaml, f: Files, e: Entry, slug: string)
    requires Reconciled(y, f, e).Some? && slug != Target(e) && Target(e) != ""
    ensures SameAt(f, Reconciled(y, f, e).value.files, slug)
  {
    hide SlotAt, Rendered, Slug;
  }

  lemma SlotDependsOnFile(y: Yaml, f: Files, g: Files, slug: string)
    requires SameAt(f, g, slug)
    ensures SlotAt(y, f, slug) == SlotAt(y, g, slug)
  {
    hide Parse, MarkerOf;
  }

  predicate Quiet(e: Effect) { e.Current? || e.Skipped? || e.Nothing? }

  ghost predicate Settled(y: Yaml, files: Files, e: Entry) {
    Reconciled(y, files, e).Some? && Quiet(Reconciled(y, files, e).value.effect)
  }

  lemma SettledLeavesFiles(y: Yaml, files: Files, e: Entry)
    requires Settled(y, files, e)
    ensures Reconciled(y, files, e).value.files == files
  {
    hide SlotAt, Rendered, Slug;
  }

  /** The file written for the entry can be rendered and says which content it holds. */
  predicate Readable(y: Yaml, e: Entry) {
    e.Put? ==> MarksBack(y, e.skill.fm, e.skill.body, MarkerFor(e.skill))
  }

  lemma WrittenSlot(y: Yaml, files: Files, sk: SyncSkill)
    requires Readable(y, Put(sk))
    ensures var text := Rendered(y, sk.fm, sk.body, MarkerFor(sk));
            text.Some? && SlotAt(y, files[SlugOf(sk) := text.value], SlugOf(sk)) == Managed(MarkerFor(sk))
  {
    hide Parse, MarkerOf, Rendered, Slug;
  }

  /** Reconciling an entry settles it: the marker read back carries the sha just written. */
  lemma ReconcilingSettles(y: Yaml, files: Files, e: Entry)
    requires Readable(y, e) && Reconciled(y, files, e).Some?
    ensures Settled(y, Reconciled(y, files, e).value.files, e)
  {
    hide SlotAt, Rendered, Slug, MarksBack;
    if e.Put? { WrittenSlot(y, files, e.skill); }
    else { MissingSlot(y, RemovedAll(files, Slug(e.name)), Slug(e.name)); }
  }

  lemma MissingSlot(y: Yaml, files: Files, slug: string)
    ensures SlotAt(y, files, slug).Missing? <==> slug !in files
  {
    hide Parse, MarkerOf;
  }

  // ---------------------------------------------------------------- hand-authored files

  predicate CarriesMarker(fm: Frontmatter) { "x-phantom-skills" in fm && fm["x-phantom-skills"].Dict? }

  /** The marker names this content; a field that is not a text reads as empty. */
  predicate NamesSha(fm: Frontmatter, sha: string) {
    CarriesMarker(fm)
    && var m := fm["x-phantom-skills"].entries; if "sha" in m && m["sha"].Str? then m["sha"].text == sha else sha == ""
  }

  /** The text has a marker: a dictionary under the marker's key in its frontmatter. */
  ghost predicate Marked(y: Yaml, s: string) { exists fm: Frontmatter :: Fronted(y, s, fm) && CarriesMarker(fm) }

  ghost predicate SaysSha(y: Yaml, s: string, sha: string) { exists fm: Frontmatter :: Fronted(y, s, fm) && NamesSha(fm, sha) }

  /** The file says of itself that Sync wrote it. */
  ghost predicate Ours(y: Yaml, files: Files, slug: string) { slug in files && Marked(y, files[slug]) }

  /** The user's own file: its frontmatter decodes, if it has one, and carries no marker. */
  ghost predicate Theirs(y: Yaml, files: Files, slug: string) {
    slug in files && !Undecodable(y, files[slug]) && !Marked(y, files[slug])
  }

  lemma OneFront(y: Yaml, s: string, a: Frontmatter, b: Frontmatter)
    requires Fronted(y, s, a) && Fronted(y, s, b)
    ensures a == b
  {
    hide Block, Text.AllSpace, Between;
    if HasBlock(s) {
      forall d: nat, e: nat | Block(s, d) && Block(s, e) ensures d == e { OneBlock(s, d, e); }
    }
  }

  lemma UndecodableHasNoFront(y: Yaml, s: string, fm: Frontmatter)
    requires Undecodable(y, s)
    ensures !Fronted(y, s, fm)
  {
    hide Block, Text.AllSpace, Between;
    forall d: nat, e: nat | Block(s, d) && Block(s, e) ensures d == e { OneBlock(s, d, e); }
  }

  /** What a slot is, told from the text of its file alone. */
  lemma SlotMeans(y: Yaml, files: Files, slug: string)
    ensures SlotAt(y, files, slug).Missing? <==> slug !in files
    ensures SlotAt(y, files, slug).Garbled? <==> slug in files && Undecodable(y, files[slug])
    ensures SlotAt(y, files, slug).HandAuthored? <==> Theirs(y, files, slug)
    ensures SlotAt(y, files, slug).Managed? <==> Ours(y, files, slug)
    ensures SlotAt(y, files, slug).Managed? ==> forall sha :: SaysSha(y, files[slug], sha) <==> SlotAt(y, files, slug).marker.sha == sha
  {
    hide Parse, Undecodable, Fronted;
    if slug in files {
      var s := files[slug];
      ParseMeans(y, s);
      if Parse(y, s) == None {
        forall fm ensures !Fronted(y, s, fm) { UndecodableHasNoFront(y, s, fm); }
      } else {
        var p := Parse(y, s).value;
        forall fm | Fronted(y, s, fm) ensures fm == p.fm { OneFront(y, s, fm, p.fm); }
      }
    }
  }

  lemma SlotsMean(y: Yaml, files: Files)
    ensures forall slug :: SlotAt(y, files, slug).HandAuthored? <==> Theirs(y, files, slug)
    ensures forall slug :: SlotAt(y, files, slug).Managed? <==> Ours(y, files, slug)
  {
    hide SlotAt, Theirs, Ours;
    forall slug
      ensures SlotAt(y, files, slug).HandAuthored? <==> Theirs(y, files, slug)
      ensures SlotAt(y, files, slug).Managed? <==> Ours(y, files, slug)
    {
      SlotMeans(y, files, slug);
    }
  }

  ghost predicate HandAuthoredKept(y: Yaml, f: Files, g: Files) {
    forall slug | Theirs(y, f, slug) :: SameAt(f, g, slug)
  }

  /** A removal spares every hand-authored file, with one exception: a name without a single letter
      or digit has an empty slug, and removing that wipes the whole skills directory. */
  lemma RemoveSparesHandAuthoredIff(y: Yaml, files: Files, name: string)
    ensures HandAuthoredKept(y, files, Reconciled(y, files, Drop(name)).value.files) <==>
            !(Slug(name) == "" && Ours(y, files, "") && exists slug :: Theirs(y, files, slug))
  {
    hide Parse, MarkerOf, Slug, Undecodable, Marked;
    SlotsMean(y, files);
    var after := Reconciled(y, files, Drop(name)).value.files;
    if Slug(name) == "" && Ours(y, files, "") {
      assert after == map[];
      if slug :| Theirs(y, files, slug) { assert !SameAt(files, after, slug); }
    } else {
      forall slug | Theirs(y, files, slug) ensures SameAt(files, after, slug) {
        if slug != Slug(name) && Slug(name) != "" { OtherSlotsKept(y, files, Drop(name), slug); }
      }
    }
  }

  lemma EntrySparesHandAuthored(y: Yaml, files: Files, e: Entry)
    requires Target(e) != "" && Reconciled(y, files, e).Some?
    ensures HandAuthoredKept(y, files, Reconciled(y, files, e).value.files)
  {
    hide Parse, MarkerOf, Slug, Rendered, Theirs, Ours;
    SlotsMean(y, files);
    forall slug | Theirs(y, files, slug)
      ensures SameAt(files, Reconciled(y, files, e).value.files, slug)
    {
      if slug != Target(e) { OtherSlotsKept(y, files, e, slug); }
    }
  }

  /** No run, finished or failed, touches a hand-authored file, as long as every entry has a slug. */
  lemma {:induction false} RunSparesHandAuthored(y: Yaml, dry: bool, files: Files, es: seq<Entry>)
    requires forall i | 0 <= i < |es| :: Target(es[i]) != ""
    ensures HandAuthoredKept(y, files, Execute(y, dry, files, es).files)
  {
    hide Reconciled, SlotAt, Target, Undecodable, Marked;
    if es != [] {
      var front, e := es[..|es| - 1], es[|es| - 1];
      assert forall i | 0 <= i < |front| :: front[i] == es[i];
      RunSparesHandAuthored(y, dry, files, front);
      var o := Execute(y, dry, files, front);
      if o.ok && Reconciled(y, o.files, e).Some? {
        EntrySparesHandAuthored(y, o.files, e);
        forall slug | Theirs(y, files, slug)
          ensures SameAt(files, Execute(y, dry, files, es).files, slug)
        {
          assert Theirs(y, o.files, slug);
        }
      }
    }
  }

  /** An unmarked file that is in the way of a promoted skill is overwritten exactly when it has a
      frontmatter block that is not blank and does not decode. */
  lemma UnmarkedIsOverwrittenIff(y: Yaml, files: Files, sk: SyncSkill)
    requires Readable(y, Put(sk)) && SlugOf(sk) in files && !Marked(y, files[SlugOf(sk)])
    ensures Reconciled(y, files, Put(sk)).Some?
    ensures Reconciled(y, files, Put(sk)).value.files[SlugOf(sk)] != files[SlugOf(sk)] <==> Undecodable(y, files[SlugOf(sk)])
  {
    hide SlotAt, Rendered, Slug, MarksBack, Marked, Undecodable;
    WrittenSlot(y, files, sk);
    var after := Reconciled(y, files, Put(sk)).value.files;
    SlotMeans(y, files, SlugOf(sk));
    if after[SlugOf(sk)] == files[SlugOf(sk)] { SlotDependsOnFile(y, files, after, SlugOf(sk)); }
  }

  /** A file without a frontmatter block is never lost, whatever it looks like otherwise and whether the
      run finishes or fails, as long as every entry has a slug. */
  lemma PlainFilesSurvive(y: Yaml, dry: bool, files: Files, es: seq<Entry>, slug: string)
    requires forall i | 0 <= i < |es| :: Target(es[i]) != ""
    requires slug in files && !HasBlock(files[slug])
    ensures SameAt(files, Execute(y, dry, files, es).files, slug)
  {
    hide Execute, Target, Block, SameAt;
    RunSparesHandAuthored(y, dry, files, es);
    PlainIsTheirs(y, files, slug);
  }

  lemma PlainIsTheirs(y: Yaml, files: Files, slug: string)
    requires slug in files && !HasBlock(files[slug])
    ensures Theirs(y, files, slug)
  {
    hide Block;
  }

  /** An input that shows the last case: the opening `---` alone makes no block. */
  lemma UnclosedIsKept(y: Yaml, sk: SyncSkill)
    requires SlugOf(sk) == "mine"
    ensures var files := map["mine" := "---\nnotes"];
            Reconciled(y, files, Put(sk)) == Some(Step(files, Skipped))
  {
    hide SlotAt, Rendered, Slug;
    var files: Files := map["mine" := "---\nnotes"];
    NeverCloses();
    PlainIsTheirs(y, files, "mine");
    SlotMeans(y, files, "mine");
  }

  lemma NeverCloses()
    ensures !HasBlock("---\nnotes")
  {
    var s := "---\nnotes";
    assert "---\n" <= s;
    forall i | 4 <= i && i + 4 <= |s| ensures !Text.OccursAt(s, "\n---", i) {
      assert s[i..i + 4][0] == s[i];
    }
  }

  /** A library that knows one kind of frontmatter, a marker for content without a version, and rejects
      the text ":". */
  function ToyYaml(): Yaml {
    Yaml(fm => match MarkerOf(fm) case None => None case Some(m) => Some(m.origin + "\n"),
         t => if t == ":" then None else Some(WithMarker(map[], Marker(t, "promoted", ""))))
  }

  lemma ToyMarksBack(origin: string)
    requires origin in {"authored", "proposed", "imported"}
    ensures MarksBack(ToyYaml(), map[], "", Marker(origin, "promoted", ""))
  {
    hide MarkerOf, WithMarker, Parse, Text.TrimSpace;
    var y, m := ToyYaml(), Marker(origin, "promoted", "");
    var yml := origin + "\n";
    MarkerOfInjected(map[], m);
    assert forall i | 0 <= i < |yml| :: yml[i] != '-';
    NoDashNoRule(yml);
    assert yml[..|yml| - 1] == origin;
    SolidText(origin);
    ParseOfLayout(y, yml, "");
  }

  lemma NoDashNoRule(text: string)
    requires forall i | 0 <= i < |text| :: text[i] != '-'
    ensures forall i :: !RuleLineAt(text, i)
  {
    forall i ensures !RuleLineAt(text, i) {
      if 0 <= i && i + 3 <= |text| { assert text[i..i + 3][0] == text[i]; }
    }
  }

  lemma SolidText(s: string)
    requires s != "" && !Text.IsSpace(s[0]) && !Text.IsSpace(s[|s| - 1])
    ensures Text.TrimSpace(s) != ""
  {
  }

  /** A file that does not decode, and is lost: the slot of a promoted skill whose marker was mangled. */
  lemma GarbledIsOverwritten()
    ensures var files := map["lint" := "---\n:\n---\n"];
            var sk := SyncSkill("lint", "lint", "promoted", "authored", "", map[], "");
            && Undecodable(ToyYaml(), files["lint"])
            && Reconciled(ToyYaml(), files, Put(sk)).Some?
            && !SameAt(files, Reconciled(ToyYaml(), files, Put(sk)).value.files, "lint")
  {
    hide Rendered, MarksBack, Slug, SlotAt, Marked, Undecodable;
    var files: Files := map["lint" := "---\n:\n---\n"];
    var sk := SyncSkill("lint", "lint", "promoted", "authored", "", map[], "");
    ToyMarksBack("authored");
    ColonIsGarbled(files);
    SlotMeans(ToyYaml(), files, "lint");
    UnmarkedIsOverwrittenIff(ToyYaml(), files, sk);
  }

  lemma ColonIsGarbled(files: Files)
    requires "lint" in files && files["lint"] == "---\n:\n---\n"
    ensures SlotAt(ToyYaml(), files, "lint") == Garbled
  {
    hide Text.TrimSpace;
    var rest := ":\n---\n";
    assert "---\n:\n---\n" == "---" + ("\n" + rest);
    PrefixOff("---", "\n" + rest);
    PrefixOff("\n", rest);
    assert rest == ":\n" + "---" + "\n";
    ClosingIsFound(":\n", "\n");
    assert rest[..1] == ":";
    SolidText(":");
  }

  // ---------------------------------------------------------------- what one entry and one report mean

  /** What Sync does with a promoted skill, told from the text of the file in its slot: the user's own
      file is left alone, one that names the skill's sha is current, and anything else is replaced by the
      rendered skill, or the run stops if it cannot be rendered. */
  lemma PutMeans(y: Yaml, files: Files, sk: SyncSkill)
    ensures var slug := if sk.slug == "" then Slug(sk.name) else sk.slug;
            var text := Rendered(y, sk.fm, sk.body, Marker(sk.origin, sk.status, sk.sha));
            var current := Ours(y, files, slug) && SaysSha(y, files[slug], sk.sha);
            && (Theirs(y, files, slug) ==> Reconciled(y, files, Put(sk)) == Some(Step(files, Skipped)))
            && (current ==> Reconciled(y, files, Put(sk)) == Some(Step(files, Current)))
            && (!Theirs(y, files, slug) && !current ==>
                  Reconciled(y, files, Put(sk)) ==
                  if text.Some? then Some(Step(files[slug := text.value], Wrote(slug))) else None)
  {
    hide SlotAt, Rendered, Slug, Theirs, SaysSha, Marked;
    SlotMeans(y, files, SlugOf(sk));
  }

  /** And with a retired one: only a file with a marker is removed, and an empty slug means them all. */
  lemma DropMeans(y: Yaml, files: Files, name: string)
    ensures var slug := Slug(name);
            && (Theirs(y, files, slug) ==> Reconciled(y, files, Drop(name)) == Some(Step(files, Skipped)))
            && (Ours(y, files, slug) ==>
                  Reconciled(y, files, Drop(name)) ==
                  Some(Step(if slug == "" then map[] else map s | s in files && s != slug :: files[s], Deleted(slug))))
            && (!Theirs(y, files, slug) && !Ours(y, files, slug) ==>
                  Reconciled(y, files, Drop(name)) == Some(Step(files, Nothing)))
  {
    hide SlotAt, Slug, Theirs, Marked;
    SlotMeans(y, files, Slug(name));
    assert files - {Slug(name)} == map s | s in files && s != Slug(name) :: files[s];
  }

  function CountOf(es: seq<Effect>, p: Effect -> bool): nat {
    if es == [] then 0 else CountOf(es[..|es| - 1], p) + if p(es[|es| - 1]) then 1 else 0
  }

  /** The line of a change is the line of one effect, in the order of the effects. */
  ghost predicate Lists(es: seq<Effect>, lines: seq<string>) {
    if es == [] then lines == []
    else
      var front, e := es[..|es| - 1], es[|es| - 1];
      match e
      case Wrote(slug) => |lines| > 0 && lines[|lines| - 1] == "write " + slug && Lists(front, lines[..|lines| - 1])
      case Deleted(slug) => |lines| > 0 && lines[|lines| - 1] == "delete " + slug && Lists(front, lines[..|lines| - 1])
      case _ => Lists(front, lines)
  }

  /** Each effect is counted once, under its own heading; a dry run lists the changes, a real one nothing. */
  lemma {:induction false} ReportMeans(es: seq<Effect>, dry: bool)
    ensures var r := ReportOf(es, dry);
            && r.written == CountOf(es, (e: Effect) => e.Wrote?)
            && r.upToDate == CountOf(es, (e: Effect) => e.Current?)
            && r.deleted == CountOf(es, (e: Effect) => e.Deleted?)
            && r.skippedUnmanaged == CountOf(es, (e: Effect) => e.Skipped?)
            && (if dry then Lists(es, r.changes) else r.changes == [])
  {
    if es != [] {
      ReportMeans(es[..|es| - 1], dry);
      var before := ReportOf(es[..|es| - 1], dry).changes;
      assert forall line: string :: (before + [line])[..|before|] == before;
    }
  }

  // ---------------------------------------------------------------- slots over a run

  predicate HoldsSha(slot: Slot, sha: string) { slot.Managed? && slot.marker.sha == sha }

  /** What a readable entry does to a slot. */
  function Outlook(slot: Slot, e: Entry): Effect {
    match e
    case Put(sk) => if slot.HandAuthored? then Skipped else if HoldsSha(slot, sk.sha) then Current else Wrote(SlugOf(sk))
    case Drop(name) => match slot case HandAuthored => Skipped case Managed(_) => Deleted(Slug(name)) case _ => Nothing
  }

  /** The slots an entry changes if it changes anything: its own, or all of them. */
  predicate Touches(e: Entry, slug: string) { Target(e) == slug || (e.Drop? && Target(e) == "") }

  /** What a slot holds once an entry has changed it. */
  function Leaves(e: Entry): Slot { match e case Put(sk) => Managed(MarkerFor(sk)) case Drop(_) => Missing }

  /** An entry in terms of slots. */
  lemma EntryOnSlots(y: Yaml, files: Files, e: Entry)
    requires Readable(y, e)
    ensures Reconciled(y, files, e).Some?
    ensures var st := Reconciled(y, files, e).value;
            && st.effect == Outlook(SlotAt(y, files, Target(e)), e)
            && forall slug :: SlotAt(y, st.files, slug) ==
                 if Touches(e, slug) && !Quiet(st.effect) then Leaves(e) else SlotAt(y, files, slug)
  {
    hide SlotAt, Rendered, Slug, MarksBack;
    if e.Put? { WrittenSlot(y, files, e.skill); }
    var st := Reconciled(y, files, e).value;
    forall slug ensures SlotAt(y, st.files, slug) == if Touches(e, slug) && !Quiet(st.effect) then Leaves(e) else SlotAt(y, files, slug) {
      if Quiet(st.effect) {
        assert st.files == files;
      } else if Touches(e, slug) {
        if e.Drop? { MissingSlot(y, st.files, slug); }
      } else {
        UntouchedKept(y, files, e, slug);
        SlotDependsOnFile(y, files, st.files, slug);
      }
    }
  }

  lemma UntouchedKept(y: Yaml, files: Files, e: Entry, slug: string)
    requires Reconciled(y, files, e).Some? && !Touches(e, slug)
    ensures SameAt(files, Reconciled(y, files, e).value.files, slug)
  {
    hide SlotAt, Rendered, Slug;
  }

  predicate AllReadable(y: Yaml, es: seq<Entry>) { forall i | 0 <= i < |es| :: Readable(y, es[i]) }

  // ---------------------------------------------------------------- losing the whole directory

  /** A file at the top of the skills directory comes to be a managed one. */
  ghost predicate TopManaged(y: Yaml, files: Files, es: seq<Entry>) {
    Ours(y, files, "") || (!Theirs(y, files, "") && exists i | 0 <= i < |es| :: es[i].Put? && Target(es[i]) == "")
  }

  /** Some entry removes the empty slug when the top of the directory is managed. */
  ghost predicate Wipes(y: Yaml, files: Files, es: seq<Entry>) {
    exists j | 0 <= j < |es| :: es[j].Drop? && Target(es[j]) == "" && TopManaged(y, files, es[..j])
  }

  lemma TopSnoc(y: Yaml, files: Files, front: seq<Entry>, e: Entry)
    ensures TopManaged(y, files, front + [e]) <==>
            TopManaged(y, files, front) || (!Theirs(y, files, "") && e.Put? && Target(e) == "")
  {
    hide SlotAt, Target;
    var es := front + [e];
    if i :| 0 <= i < |front| && front[i].Put? && Target(front[i]) == "" { assert es[i] == front[i]; }
    assert es[|front|] == e;
  }

  lemma WipesSnoc(y: Yaml, files: Files, front: seq<Entry>, e: Entry)
    ensures Wipes(y, files, front + [e]) <==>
            Wipes(y, files, front) || (e.Drop? && Target(e) == "" && TopManaged(y, files, front))
  {
    hide TopManaged, Target;
    var es := front + [e];
    assert es[..|front|] == front && es[|front|] == e;
    if j :| 0 <= j < |front| && front[j].Drop? && Target(front[j]) == "" && TopManaged(y, files, front[..j]) {
      assert es[j] == front[j] && es[..j] == front[..j];
    }
    if j :| 0 <= j < |es| && es[j].Drop? && Target(es[j]) == "" && TopManaged(y, files, es[..j]) {
      if j < |front| { assert es[j] == front[j] && es[..j] == front[..j]; }
    }
  }

  ghost predicate NoneHandAuthored(y: Yaml, files: Files) { forall slug :: !Theirs(y, files, slug) }

  /** Before the wipe the hand-authored files and the top slot are as expected, afterwards none is left. */
  ghost predicate WipeState(y: Yaml, files: Files, es: seq<Entry>, now: Files) {
    if Wipes(y, files, es) then NoneHandAuthored(y, now)
    else
      && HandAuthoredKept(y, files, now)
      && (Ours(y, now, "") <==> TopManaged(y, files, es))
      && (Theirs(y, now, "") <==> Theirs(y, files, ""))
  }

  lemma EntryKeepsHands(y: Yaml, files: Files, now: Files, e: Entry)
    requires HandAuthoredKept(y, files, now) && Reconciled(y, now, e).Some?
    requires !(e.Drop? && Target(e) == "" && Ours(y, now, ""))
    ensures HandAuthoredKept(y, files, Reconciled(y, now, e).value.files)
  {
    hide SlotAt, Rendered, Slug, Undecodable, Marked;
    var next := Reconciled(y, now, e).value.files;
    SlotsMean(y, now);
    forall slug | Theirs(y, files, slug) ensures SameAt(files, next, slug) {
      assert Theirs(y, now, slug);
      if slug != Target(e) && Target(e) != "" { OtherSlotsKept(y, now, e, slug); }
    }
  }

  lemma WipeStep(y: Yaml, files: Files, front: seq<Entry>, now: Files, e: Entry)
    requires WipeState(y, files, front, now) && Readable(y, e) && Reconciled(y, now, e).Some?
    ensures WipeState(y, files, front + [e], Reconciled(y, now, e).value.files)
  {
    hide SlotAt, Reconciled, Slug, MarksBack, Wipes, TopManaged, HandAuthoredKept, SlugOf, Theirs, Ours;
    EntryOnSlots(y, now, e);
    SlotsMean(y, now);
    SlotsMean(y, Reconciled(y, now, e).value.files);
    TopSnoc(y, files, front, e);
    WipesSnoc(y, files, front, e);
    if !Wipes(y, files, front + [e]) { EntryKeepsHands(y, files, now, e); }
  }

  lemma NothingWiped(y: Yaml, files: Files)
    ensures WipeState(y, files, [], files)
  {
    hide SlotAt;
  }

  lemma {:induction false} RunWipeState(y: Yaml, files: Files, es: seq<Entry>)
    requires AllReadable(y, es)
    ensures Execute(y, false, files, es).ok && WipeState(y, files, es, Execute(y, false, files, es).files)
  {
    hide SlotAt, Reconciled, Target, Readable, WipeState;
    if es == [] {
      NothingWiped(y, files);
    } else {
      var front, e := es[..|es| - 1], es[|es| - 1];
      assert es == front + [e] && AllReadable(y, front);
      RunWipeState(y, files, front);
      var now := Execute(y, false, files, front).files;
      EntryOnSlots(y, now, e);
      WipeStep(y, files, front, now, e);
    }
  }

  /** A run loses hand-authored files exactly when there are any and one of its removals has an empty
      slug at a moment when the top of the skills directory holds a managed file. */
  lemma RunSparesHandAuthoredIff(y: Yaml, files: Files, es: seq<Entry>)
    requires AllReadable(y, es)
    ensures HandAuthoredKept(y, files, Execute(y, false, files, es).files) <==>
            !(Wipes(y, files, es) && exists slug :: Theirs(y, files, slug))
  {
    hide SlotAt, Execute, Wipes, TopManaged, AllReadable, Undecodable, Marked;
    RunWipeState(y, files, es);
    var after := Execute(y, false, files, es).files;
    if slug :| Theirs(y, files, slug) {
      if SameAt(files, after, slug) { assert Theirs(y, after, slug); }
    }
  }

  lemma ExecutePair(y: Yaml, dry: bool, files: Files, d: Entry, e: Entry)
    requires Reconciled(y, files, d).Some?
    ensures var st := Reconciled(y, files, d).value;
            var now := if dry then files else st.files;
            Reconciled(y, now, e).Some? ==>
              Execute(y, dry, files, [d, e]) ==
              Outcome(if dry then files else Reconciled(y, now, e).value.files,
                      [st.effect, Reconciled(y, now, e).value.effect], true)
  {
    hide Reconciled;
    var es := [d, e];
    assert es[..0] == [] && es[..1] == [d] && es[..2] == es;
    ExecuteSnoc(y, dry, files, es, 0);
    if Reconciled(y, if dry then files else Reconciled(y, files, d).value.files, e).Some? { ExecuteSnoc(y, dry, files, es, 1); }
  }

  lemma NoSlugForBang()
    ensures Slug("!") == ""
  {
    SlugEmptyIff("!");
    assert forall c | c in Text.TrimSpace("!") :: c == '!';
  }

  lemma NotesAreHandAuthored(y: Yaml, files: Files, slug: string)
    requires slug in files && files[slug] == "notes"
    ensures Theirs(y, files, slug)
  {
    assert !("---" <= "notes") by { assert "notes"[0] != '-'; }
  }

  /** Such a run: a skill named "!" is promoted, then retired, and a hand-authored file is gone. */
  lemma WipeIsReachable(y: Yaml, sk: SyncSkill)
    requires sk.name == "!" && sk.slug == "" && Readable(y, Put(sk))
    ensures var files := map["mine" := "notes"];
            && Theirs(y, files, "mine")
            && Execute(y, false, files, [Put(sk), Drop("!")]).files == map[]
  {
    hide SlotAt, Slug, Rendered, MarksBack, Execute;
    var files: Files := map["mine" := "notes"];
    NoSlugForBang();
    NotesAreHandAuthored(y, files, "mine");
    MissingSlot(y, files, "");
    EntryOnSlots(y, files, Put(sk));
    ExecutePair(y, false, files, Put(sk), Drop("!"));
  }

  // ---------------------------------------------------------------- entries of a frozen feed

  function EntryOf(r: FeedRow): Option<Entry> {
    match r.status
    case Promoted => Some(Put(Shipped(r)))
    case Retired => Some(Drop(r.name))
    case _ => None
  }

  /** Assumed of the registry: slugs are computed from names, are not empty, and tell rows apart. */
  ghost predicate GoodSlug(r: FeedRow) { r.slug == Slug(r.name) && r.slug != "" }

  ghost predicate GoodSlugs(index: RowIndex) {
    && (forall k | k in index :: GoodSlug(index[k]))
    && (forall k, l | k in index && l in index && index[k].slug == index[l].slug :: k == l)
  }

  ghost predicate DistinctTargets(es: seq<Entry>) {
    && (forall i | 0 <= i < |es| :: Target(es[i]) != "")
    && (forall i, j | 0 <= i < j < |es| :: Target(es[i]) != Target(es[j]))
  }

  ghost predicate DistinctRows(rows: seq<FeedRow>) {
    && (forall i | 0 <= i < |rows| :: GoodSlug(rows[i]))
    && (forall i, j | 0 <= i < j < |rows| :: rows[i].slug != rows[j].slug)
  }

  ghost predicate FromRow(rows: seq<FeedRow>, e: Entry) {
    exists i | 0 <= i < |rows| :: EntryOf(rows[i]) == Some(e)
  }

  lemma EntryTarget(r: FeedRow)
    requires GoodSlug(r) && EntryOf(r).Some?
    ensures Target(EntryOf(r).value) == r.slug
  {
    hide Slug;
  }

  lemma FromRowGrows(rows: seq<FeedRow>, r: FeedRow, e: Entry)
    ensures FromRow(rows + [r], e) <==> FromRow(rows, e) || EntryOf(r) == Some(e)
  {
    if FromRow(rows, e) {
      var i :| 0 <= i < |rows| && EntryOf(rows[i]) == Some(e);
      assert (rows + [r])[i] == rows[i];
    }
    assert (rows + [r])[|rows|] == r;
  }

  lemma PutsSnoc(front: seq<FeedRow>, r: FeedRow)
    ensures Puts(Promotions(front + [r])) == Puts(Promotions(front)) + if r.status == Promoted then [Put(Shipped(r))] else []
  {
    hide Shipped;
    assert (front + [r])[..|front|] == front;
  }

  lemma DropsSnoc(front: seq<FeedRow>, r: FeedRow)
    ensures Drops(Deletions(front + [r])) == Drops(Deletions(front)) + if r.status == Retired then [Drop(r.name)] else []
  {
    assert (front + [r])[..|front|] == front;
  }

  /** The promotions of a page are its promoted rows, the deletions its retired ones. */
  lemma {:induction false} PartitionIsExact(rows: seq<FeedRow>)
    ensures forall e :: e in Puts(Promotions(rows)) <==> e.Put? && FromRow(rows, e)
    ensures forall e :: e in Drops(Deletions(rows)) <==> e.Drop? && FromRow(rows, e)
  {
    hide FromRow, Puts, Drops, Shipped;
    if rows == [] {
      NoEntries();
    } else {
      var front, r := rows[..|rows| - 1], rows[|rows| - 1];
      assert rows == front + [r];
      PartitionIsExact(front);
      PutsSnoc(front, r);
      DropsSnoc(front, r);
      forall e ensures FromRow(rows, e) <==> FromRow(front, e) || EntryOf(r) == Some(e) { FromRowGrows(front, r, e); }
    }
  }

  lemma NoEntries()
    ensures Puts(Promotions([])) == [] && Drops(Deletions([])) == [] && forall e :: !FromRow([], e)
  {
  }

  lemma RowOf(rows: seq<FeedRow>, e: Entry, slug: string)
    requires DistinctRows(rows) && FromRow(rows, e)
    requires forall i | 0 <= i < |rows| :: rows[i].slug != slug
    ensures Target(e) != slug && Target(e) != ""
  {
    var i :| 0 <= i < |rows| && EntryOf(rows[i]) == Some(e);
    EntryTarget(rows[i]);
  }

  lemma DistinctSnoc(es: seq<Entry>, e: Entry)
    requires DistinctTargets(es) && Target(e) != "" && forall d | d in es :: Target(d) != Target(e)
    ensures DistinctTargets(es + [e])
  {
    hide Target;
  }

  lemma {:induction false} PutsAreDistinct(rows: seq<FeedRow>)
    requires DistinctRows(rows)
    ensures DistinctTargets(Puts(Promotions(rows)))
  {
    hide Target, FromRow, Shipped, Slug;
    if rows != [] {
      var front, r := rows[..|rows| - 1], rows[|rows| - 1];
      assert rows == front + [r];
      PutsAreDistinct(front);
      PutsSnoc(front, r);
      if r.status == Promoted {
        PartitionIsExact(front);
        EntryTarget(r);
        forall d | d in Puts(Promotions(front)) ensures Target(d) != r.slug { RowOf(front, d, r.slug); }
        DistinctSnoc(Puts(Promotions(front)), Put(Shipped(r)));
      }
    }
  }

  lemma {:induction false} DropsAreDistinct(rows: seq<FeedRow>)
    requires DistinctRows(rows)
    ensures DistinctTargets(Drops(Deletions(rows)))
  {
    hide Target, FromRow, Slug;
    if rows != [] {
      var front, r := rows[..|rows| - 1], rows[|rows| - 1];
      assert rows == front + [r];
      DropsAreDistinct(front);
      DropsSnoc(front, r);
      if r.status == Retired {
        PartitionIsExact(front);
        EntryTarget(r);
        forall d | d in Drops(Deletions(front)) ensures Target(d) != r.slug { RowOf(front, d, r.slug); }
        DistinctSnoc(Drops(Deletions(front)), Drop(r.name));
      }
    }
  }

  lemma NothingIsDistinct()
    ensures DistinctTargets([])
  {
  }

  lemma DistinctConcat(a: seq<Entry>, b: seq<Entry>)
    requires DistinctTargets(a) && DistinctTargets(b)
    requires forall d, e | d in a && e in b :: Target(d) != Target(e)
    ensures DistinctTargets(a + b)
  {
    hide Target;
    var c := a + b;
    forall i, j | 0 <= i < j < |c| ensures Target(c[i]) != Target(c[j]) {
      if i < |a| && |a| <= j {
        assert c[i] in a && c[j] in b;
      }
    }
  }

  /** The entries of a page come from its rows, and touch different slots. */
  lemma PageEntries(rows: seq<FeedRow>)
    ensures forall e :: e in Entries(rows) <==> FromRow(rows, e)
    ensures DistinctRows(rows) ==> DistinctTargets(Entries(rows))
  {
    hide Target, DistinctTargets, Puts, Drops, FromRow;
    PartitionIsExact(rows);
    if DistinctRows(rows) {
      PutsAreDistinct(rows);
      DropsAreDistinct(rows);
      forall d, e | d in Puts(Promotions(rows)) && e in Drops(Deletions(rows)) ensures Target(d) != Target(e) {
        CrossTargets(rows, d, e);
      }
      DistinctConcat(Puts(Promotions(rows)), Drops(Deletions(rows)));
    }
  }

  lemma CrossTargets(rows: seq<FeedRow>, d: Entry, e: Entry)
    requires DistinctRows(rows) && FromRow(rows, d) && FromRow(rows, e) && d.Put? && e.Drop?
    ensures Target(d) != Target(e)
  {
    hide Target, Slug;
    var i :| 0 <= i < |rows| && EntryOf(rows[i]) == Some(d);
    var j :| 0 <= j < |rows| && EntryOf(rows[j]) == Some(e);
    EntryTarget(rows[i]);
    EntryTarget(rows[j]);
  }

  /** The index rows a cursor has not passed are what a Sync from there goes through. */
  ghost predicate FromIndex(index: RowIndex, from: Keyset.Key, e: Entry) {
    exists k :: k in index && Keyset.Less(from, k) && EntryOf(index[k]) == Some(e)
  }

  lemma PageFromIndex(index: RowIndex, ks: seq<Keyset.Key>, e: Entry)
    requires forall i | 0 <= i < |ks| :: ks[i] in index
    ensures FromRow(Rows(index, ks), e) <==> exists k :: k in ks && EntryOf(index[k]) == Some(e)
  {
    var rows := Rows(index, ks);
    if k :| k in ks && EntryOf(index[k]) == Some(e) {
      var i :| 0 <= i < |ks| && ks[i] == k;
      assert rows[i] == index[k];
    }
    if FromRow(rows, e) {
      var i :| 0 <= i < |rows| && EntryOf(rows[i]) == Some(e);
      assert ks[i] in ks;
    }
  }

  /** How one page splits what is after the cursor. */
  lemma PageSplits(index: RowIndex, from: Keyset.Key, n: nat)
    requires Keyset.Scan(index.Keys, from, n) != []
    ensures var ks := Keyset.Scan(index.Keys, from, n); var last := ks[|ks| - 1];
            && (forall k :: k in index && Keyset.Less(from, k) <==> k in ks || (k in index && Keyset.Less(last, k)))
            && (forall k | k in ks :: !Keyset.Less(last, k))
            && Keyset.Ascending(ks)
            && |Keyset.After(index.Keys, last)| < |Keyset.After(index.Keys, from)|
  {
    hide Keyset.Less, Keyset.Scan, Keyset.ScanAll;
    var ks := Keyset.Scan(index.Keys, from, n);
    var last := ks[|ks| - 1];
    Keyset.ScanResumes(index.Keys, from, n);
    Keyset.AfterShrinks(index.Keys, from, last);
    Keyset.ScanAllIsSortedRest(index.Keys, from);
    Keyset.ScanAllIsSortedRest(index.Keys, last);
    var all := Keyset.ScanAll(index.Keys, from);
    assert forall i | 0 <= i < |ks| :: ks[i] == all[i];
    NothingAfterLast(ks);
  }

  lemma NothingAfterLast(ks: seq<Keyset.Key>)
    requires ks != [] && Keyset.Ascending(ks)
    ensures forall k | k in ks :: !Keyset.Less(ks[|ks| - 1], k)
  {
    hide Keyset.Less;
    var last := ks[|ks| - 1];
    Keyset.LessIrreflexive(last);
    forall k | k in ks ensures !Keyset.Less(last, k) {
      var i :| 0 <= i < |ks| && ks[i] == k;
      Keyset.NeverBothLess(k, last);
    }
  }

  /** A Sync from a cursor goes through every published row after it, and through nothing else. */
  lemma {:induction false} AllEntriesExact(index: RowIndex, from: Keyset.Key, n: nat, e: Entry)
    requires n > 0
    ensures e in AllEntries(index, from, n) <==> FromIndex(index, from, e)
    decreases |Keyset.After(index.Keys, from)|
  {
    hide Keyset.Less, Entries, EntryOf;
    var ks := Keyset.Scan(index.Keys, from, n);
    if ks == [] {
      Keyset.ScanIsPrefix(index.Keys, from, n);
      Keyset.ScanAllIsSortedRest(index.Keys, from);
    } else {
      PageSplits(index, from, n);
      PageEntries(Rows(index, ks));
      PageFromIndex(index, ks, e);
      AllEntriesExact(index, ks[|ks| - 1], n, e);
    }
  }

  lemma PageRowsDistinct(index: RowIndex, ks: seq<Keyset.Key>)
    requires GoodSlugs(index) && Keyset.Ascending(ks)
    requires forall i | 0 <= i < |ks| :: ks[i] in index
    ensures DistinctRows(Rows(index, ks))
  {
    hide Keyset.Less, GoodSlug;
    forall i, j | 0 <= i < j < |ks| ensures ks[i] != ks[j] { Keyset.LessIrreflexive(ks[i]); }
  }

  lemma IndexTargets(index: RowIndex, k: Keyset.Key, d: Entry, l: Keyset.Key, e: Entry)
    requires GoodSlugs(index) && k in index && l in index && k != l
    requires EntryOf(index[k]) == Some(d) && EntryOf(index[l]) == Some(e)
    ensures Target(d) != Target(e)
  {
    hide Target;
    EntryTarget(index[k]);
    EntryTarget(index[l]);
  }

  /** With good slugs no two entries of a whole Sync touch the same slot. */
  lemma {:induction false} AllEntriesDistinct(index: RowIndex, from: Keyset.Key, n: nat)
    requires n > 0 && GoodSlugs(index)
    ensures DistinctTargets(AllEntries(index, from, n))
    decreases |Keyset.After(index.Keys, from)|
  {
    hide Keyset.Less, Target, DistinctTargets, Entries, EntryOf, GoodSlugs, FromRow, DistinctRows;
    var ks := Keyset.Scan(index.Keys, from, n);
    if ks == [] {
      NothingIsDistinct();
    } else {
      var last := ks[|ks| - 1];
      PageSplits(index, from, n);
      PageEntries(Rows(index, ks));
      PageRowsDistinct(index, ks);
      AllEntriesDistinct(index, last, n);
      forall d, e | d in Entries(Rows(index, ks)) && e in AllEntries(index, last, n) ensures Target(d) != Target(e) {
        PageFromIndex(index, ks, d);
        AllEntriesExact(index, last, n, e);
        var k :| k in ks && EntryOf(index[k]) == Some(d);
        var l :| l in index && Keyset.Less(last, l) && EntryOf(index[l]) == Some(e);
        IndexTargets(index, k, d, l, e);
      }
      DistinctConcat(Entries(Rows(index, ks)), AllEntries(index, last, n));
    }
  }

  // ---------------------------------------------------------------- dry run and real run

  /** The first n entries have touched only their own slots. */
  ghost predicate OnlyTouched(f: Files, g: Files, es: seq<Entry>) {
    forall slug | (forall e | e in es :: Target(e) != slug) :: SameAt(f, g, slug)
  }

  lemma {:induction false} RunIsLocal(y: Yaml, dry: bool, files: Files, es: seq<Entry>)
    requires DistinctTargets(es)
    ensures OnlyTouched(files, Execute(y, dry, files, es).files, es)
  {
    hide Reconciled, Target;
    if es != [] {
      var front, e := es[..|es| - 1], es[|es| - 1];
      assert DistinctTargets(front);
      RunIsLocal(y, dry, files, front);
      var o := Execute(y, dry, files, front);
      var after := Execute(y, dry, files, es);
      assert e in es && Target(es[|es| - 1]) != "" && forall d | d in front :: d in es;
      forall slug | (forall d | d in es :: Target(d) != slug) ensures SameAt(files, after.files, slug) {
        assert SameAt(files, o.files, slug);
        if o.ok && Reconciled(y, o.files, e).Some? { OtherSlotsKept(y, o.files, e, slug); }
      }
    }
  }

  /** Over entries that touch different slots, pretending and doing have the same effects and fail alike. */
  lemma {:induction false} DryRunPredicts(y: Yaml, files: Files, es: seq<Entry>)
    requires DistinctTargets(es)
    ensures var dry, actual := Execute(y, true, files, es), Execute(y, false, files, es);
            dry.effects == actual.effects && dry.ok == actual.ok && dry.files == files
  {
    hide Reconciled, Target, SameAt;
    if es != [] {
      var front, e := es[..|es| - 1], es[|es| - 1];
      assert DistinctTargets(front);
      DryRunPredicts(y, files, front);
      RunIsLocal(y, false, files, front);
      var actual := Execute(y, false, files, front);
      assert forall d | d in front :: Target(d) != Target(e) by {
        forall d | d in front ensures Target(d) != Target(e) {
          var i :| 0 <= i < |front| && front[i] == d;
          assert es[i] == d;
        }
      }
      assert SameAt(files, actual.files, Target(e));
      EntryIsLocal(y, files, actual.files, e);
    }
  }

  lemma {:induction false} ReportsAgree(es: seq<Effect>)
    ensures var dry, actual := ReportOf(es, true), ReportOf(es, false);
            && dry.written == actual.written && dry.upToDate == actual.upToDate
            && dry.deleted == actual.deleted && dry.skippedUnmanaged == actual.skippedUnmanaged
            && actual.changes == []
  {
    if es != [] { ReportsAgree(es[..|es| - 1]); }
  }

  /** On a frozen feed a dry run reports the counts and the cursor of the real run from the same
      directory, and leaves the directory as it is. */
  lemma DryRunAgrees(plan: Plan)
    requires GoodSlugs(plan.index)
    ensures var dry, actual := plan.(dry := true), plan.(dry := false);
            && dry.Goal().ok == actual.Goal().ok && dry.End() == actual.End() && dry.Goal().files == plan.files
            && (var a, b := ReportOf(dry.Goal().effects, true), ReportOf(actual.Goal().effects, false);
                a.written == b.written && a.upToDate == b.upToDate && a.deleted == b.deleted
                && a.skippedUnmanaged == b.skippedUnmanaged)
  {
    hide Execute, DistinctTargets, ReportOf, AllEntries, EndCursor;
    var from := KeyOf(Decode(plan.start));
    AllEntriesDistinct(plan.index, from, Limit(plan.page));
    DryRunPredicts(plan.y, plan.files, AllEntries(plan.index, from, Limit(plan.page)));
    ReportsAgree(plan.(dry := true).Goal().effects);
  }

  // where slots are shared

  /** The last of the entries that changes a slot, judged by the directory as it is before the run:
      the last one that a dry run lists for it. */
  function LastChange(y: Yaml, files: Files, es: seq<Entry>, slug: string): Option<Entry> {
    if es == [] then None
    else
      var e := es[|es| - 1];
      if Touches(e, slug) && !Quiet(Outlook(SlotAt(y, files, Target(e)), e)) then Some(e)
      else LastChange(y, files, es[..|es| - 1], slug)
  }

  /** The slot as that entry leaves it. */
  function Expected(y: Yaml, files: Files, es: seq<Entry>, slug: string): Slot {
    match LastChange(y, files, es, slug)
    case None => SlotAt(y, files, slug)
    case Some(d) => Leaves(d)
  }

  /** No entry sees a slot that an earlier one has changed and acts differently on it for that. */
  predicate Predictable(y: Yaml, files: Files, es: seq<Entry>) {
    es == []
    || (var front, e := es[..|es| - 1], es[|es| - 1];
        && Predictable(y, files, front)
        && Outlook(Expected(y, files, front, Target(e)), e) == Outlook(SlotAt(y, files, Target(e)), e))
  }

  lemma {:induction false} DryOutlook(y: Yaml, files: Files, es: seq<Entry>)
    requires AllReadable(y, es)
    ensures var o := Execute(y, true, files, es);
            && o.ok && o.files == files && |o.effects| == |es|
            && forall i | 0 <= i < |es| :: o.effects[i] == Outlook(SlotAt(y, files, Target(es[i])), es[i])
  {
    hide SlotAt, Reconciled, Target, Readable, Outlook;
    if es != [] {
      var front := es[..|es| - 1];
      assert AllReadable(y, front);
      DryOutlook(y, files, front);
      EntryOnSlots(y, files, es[|es| - 1]);
    }
  }

  ghost predicate AsExpected(y: Yaml, files: Files, es: seq<Entry>, now: Files) {
    forall slug :: SlotAt(y, now, slug) == Expected(y, files, es, slug)
  }

  lemma ExpectedSnoc(y: Yaml, files: Files, front: seq<Entry>, e: Entry, now: Files)
    requires AsExpected(y, files, front, now) && Readable(y, e)
    requires Outlook(Expected(y, files, front, Target(e)), e) == Outlook(SlotAt(y, files, Target(e)), e)
    ensures Reconciled(y, now, e).Some? && AsExpected(y, files, front + [e], Reconciled(y, now, e).value.files)
  {
    hide SlotAt, Reconciled, Target, Readable, Outlook, Leaves;
    EntryOnSlots(y, now, e);
    var es, next := front + [e], Reconciled(y, now, e).value.files;
    assert es[..|es| - 1] == front && es[|es| - 1] == e;
    forall slug ensures SlotAt(y, next, slug) == Expected(y, files, es, slug) {
      assert SlotAt(y, now, slug) == Expected(y, files, front, slug);
    }
  }

  lemma NothingExpected(y: Yaml, files: Files)
    ensures AsExpected(y, files, [], files)
  {
    hide SlotAt;
  }

  lemma SnocEffects(a: seq<Effect>, b: seq<Effect>, x: Effect, z: Effect)
    ensures a + [x] == b + [z] <==> a == b && x == z
  {
    if a + [x] == b + [z] {
      assert |a| == |b| && (a + [x])[|a|] == x && (b + [z])[|a|] == z;
      assert (a + [x])[..|a|] == a && (b + [z])[..|a|] == b;
    }
  }

  /** Over any entries, however their slots collide, a dry run reports the real run's effects exactly
      when no entry would notice an earlier change. */
  lemma {:induction false} DryRunPredictsIff(y: Yaml, files: Files, es: seq<Entry>)
    requires AllReadable(y, es)
    ensures var dry, actual := Execute(y, true, files, es), Execute(y, false, files, es);
            && dry.ok && actual.ok && |actual.effects| == |es|
            && (dry.effects == actual.effects <==> Predictable(y, files, es))
            && (Predictable(y, files, es) ==> AsExpected(y, files, es, actual.files))
  {
    hide SlotAt, Reconciled, Target, Readable, Outlook, Expected, AsExpected;
    if es == [] {
      NothingExpected(y, files);
    } else {
      var front, e := es[..|es| - 1], es[|es| - 1];
      assert AllReadable(y, front) && es == front + [e];
      DryRunPredictsIff(y, files, front);
      var dry, actual := Execute(y, true, files, front), Execute(y, false, files, front);
      DryOutlook(y, files, front);
      EntryOnSlots(y, files, e);
      EntryOnSlots(y, actual.files, e);
      SnocEffects(dry.effects, actual.effects, Reconciled(y, files, e).value.effect, Reconciled(y, actual.files, e).value.effect);
      if Predictable(y, files, front) {
        ExpectedAt(y, files, front, actual.files, Target(e));
        if Predictable(y, files, es) { ExpectedSnoc(y, files, front, e, actual.files); }
      }
    }
  }

  lemma ExpectedAt(y: Yaml, files: Files, es: seq<Entry>, now: Files, slug: string)
    requires AsExpected(y, files, es, now)
    ensures SlotAt(y, now, slug) == Expected(y, files, es, slug)
  {
  }

  /** When an earlier entry on the same slot makes a later one act differently. */
  predicate Disturbs(slot: Slot, d: Entry, e: Entry) {
    match (d, e)
    case (Put(a), Put(b)) => !slot.HandAuthored? && !HoldsSha(slot, a.sha) && (b.sha == a.sha || HoldsSha(slot, b.sha))
    case (Put(a), Drop(_)) => slot.Missing? || slot.Garbled?
    case (Drop(_), Put(b)) => HoldsSha(slot, b.sha)
    case (Drop(_), Drop(_)) => slot.Managed?
  }

  lemma OutlookShift(slot: Slot, d: Entry, e: Entry)
    ensures var then' := if Quiet(Outlook(slot, d)) then slot else Leaves(d);
            Outlook(then', e) == Outlook(slot, e) <==> !Disturbs(slot, d, e)
  {
    hide Slug, SlugOf;
  }

  /** For any two entries with one slot a dry run is right exactly when the first does not disturb the
      second, which the slot and the two shas decide. */
  lemma DryRunPredictsPairIff(y: Yaml, files: Files, d: Entry, e: Entry)
    requires Target(d) == Target(e) && Readable(y, d) && Readable(y, e)
    ensures Execute(y, true, files, [d, e]).effects == Execute(y, false, files, [d, e]).effects <==>
            !Disturbs(SlotAt(y, files, Target(e)), d, e)
  {
    hide SlotAt, Target, Readable, Outlook, Execute, Disturbs, Leaves;
    DryRunPredictsIff(y, files, [d, e]);
    var slot := SlotAt(y, files, Target(e));
    OutlookShift(slot, d, e);
    assert [d, e][..1] == [d] && [d][..0] == [] && [d, e][1] == e;
    assert LastChange(y, files, [], Target(e)) == None;
    assert Expected(y, files, [], Target(d)) == slot;
    assert Predictable(y, files, []);
    assert Predictable(y, files, [d]);
    assert LastChange(y, files, [d], Target(e)) == if Quiet(Outlook(slot, d)) then None else Some(d);
    assert Expected(y, files, [d], Target(e)) == if Quiet(Outlook(slot, d)) then slot else Leaves(d);
  }

  /** A promoted and a retired skill whose names share a slug: the dry run promises to leave the slot of
      the retired one alone, the real run writes it and deletes it. */
  lemma DryRunMissesDeletion(y: Yaml, files: Files, sk: SyncSkill)
    requires sk.name == "foo" && sk.slug == "foo" && "foo" !in files && Readable(y, Put(sk))
    ensures Execute(y, true, files, [Put(sk), Drop("Foo")]).effects == [Wrote("foo"), Nothing]
    ensures Execute(y, false, files, [Put(sk), Drop("Foo")]).effects == [Wrote("foo"), Deleted("foo")]
  {
    hide SlotAt, Rendered, MarksBack, Execute, Slug;
    FooSlug();
    MissingSlot(y, files, "foo");
    EntryOnSlots(y, files, Put(sk));
    ExecutePair(y, true, files, Put(sk), Drop("Foo"));
    ExecutePair(y, false, files, Put(sk), Drop("Foo"));
  }

  lemma FooSlug()
    ensures Slug("Foo") == "foo"
  {
    assert Text.TrimSpace("Foo") == "Foo";
    assert Lower("Foo") == "foo";
    FirstWord("foo", "");
    assert "foo" + "" == "foo";
  }

  lemma LintSlug()
    ensures Slug("lint") == "lint"
  {
    assert Text.TrimSpace("lint") == "lint";
    assert Lower("lint") == "lint";
    FirstWord("lint", "");
    assert "lint" + "" == "lint";
  }

  /** With distinct slots there is nothing to notice. */
  lemma {:induction false} DistinctIsPredictable(y: Yaml, files: Files, es: seq<Entry>)
    requires DistinctTargets(es)
    ensures Predictable(y, files, es)
    ensures forall slug | (forall i | 0 <= i < |es| :: Target(es[i]) != slug) :: LastChange(y, files, es, slug) == None
  {
    hide SlotAt, Target, Outlook;
    if es != [] {
      var front, e := es[..|es| - 1], es[|es| - 1];
      assert DistinctTargets(front);
      assert forall i | 0 <= i < |front| :: front[i] == es[i];
      DistinctIsPredictable(y, files, front);
      assert Target(es[|es| - 1]) != "";
    }
  }

  /** The whole of one Sync: on a frozen feed, whatever slugs its rows have, a dry run reports the
      effects of the real run exactly when no entry would notice an earlier change, and then its counts
      too. Its cursor is always right, and it never changes a file. */
  lemma DryRunAgreesIff(plan: Plan)
    requires ReadableIndex(plan.y, plan.index)
    ensures var dry, actual := plan.(dry := true), plan.(dry := false);
            var es := AllEntries(plan.index, KeyOf(Decode(plan.start)), Limit(plan.page));
            && dry.Goal().ok && actual.Goal().ok && dry.End() == actual.End() && dry.Goal().files == plan.files
            && (dry.Goal().effects == actual.Goal().effects <==> Predictable(plan.y, plan.files, es))
            && (Predictable(plan.y, plan.files, es) ==>
                  var a, b := ReportOf(dry.Goal().effects, true), ReportOf(actual.Goal().effects, false);
                  a.written == b.written && a.upToDate == b.upToDate && a.deleted == b.deleted
                  && a.skippedUnmanaged == b.skippedUnmanaged)
  {
    hide Execute, ReportOf, AllEntries, EndCursor, Predictable, Readable, FromIndex, ReadableIndex, AsExpected;
    var from, n := KeyOf(Decode(plan.start)), Limit(plan.page);
    var es := AllEntries(plan.index, from, n);
    forall i | 0 <= i < |es| ensures Readable(plan.y, es[i]) {
      AllEntriesExact(plan.index, from, n, es[i]);
      ReadableFromIndex(plan.y, plan.index, from, es[i]);
    }
    DryRunPredictsIff(plan.y, plan.files, es);
    DryOutlook(plan.y, plan.files, es);
    ReportsAgree(plan.(dry := true).Goal().effects);
  }

  // ---------------------------------------------------------------- finished mirrors

  ghost predicate AllSettled(y: Yaml, files: Files, es: seq<Entry>) {
    forall e | e in es :: Settled(y, files, e)
  }

  lemma SettledDependsOnSlot(y: Yaml, f: Files, g: Files, e: Entry)
    requires Settled(y, f, e) && SameAt(f, g, Target(e))
    ensures Settled(y, g, e)
  {
    hide Reconciled, Target, SameAt;
    EntryIsLocal(y, f, g, e);
  }

  /** A finished run settles every entry it went through, and unsettles none it did not touch. */
  lemma {:induction false} RunSettles(y: Yaml, files: Files, es: seq<Entry>)
    requires DistinctTargets(es) && Execute(y, false, files, es).ok
    requires forall e | e in es :: Readable(y, e)
    ensures AllSettled(y, Execute(y, false, files, es).files, es)
  {
    hide Reconciled, Target, Settled, Readable, SameAt;
    if es != [] {
      var front, e := es[..|es| - 1], es[|es| - 1];
      assert DistinctTargets(front);
      assert forall d | d in front :: d in es;
      RunSettles(y, files, front);
      var o := Execute(y, false, files, front);
      ReconcilingSettles(y, o.files, e);
      var after := Execute(y, false, files, es).files;
      forall d | d in es ensures Settled(y, after, d) {
        if d in front {
          var i :| 0 <= i < |front| && front[i] == d;
          assert es[i] == d;
          OtherSlotsKept(y, o.files, e, Target(d));
          SettledDependsOnSlot(y, o.files, after, d);
        }
      }
    }
  }

  predicate AllQuiet(es: seq<Effect>) { forall i | 0 <= i < |es| :: Quiet(es[i]) }

  /** Settled entries change nothing. */
  lemma {:induction false} SettledRunIsQuiet(y: Yaml, dry: bool, files: Files, es: seq<Entry>)
    requires AllSettled(y, files, es)
    ensures var o := Execute(y, dry, files, es); o.ok && o.files == files && AllQuiet(o.effects)
  {
    hide Reconciled;
    if es != [] {
      var front, e := es[..|es| - 1], es[|es| - 1];
      assert forall d | d in front :: d in es;
      SettledRunIsQuiet(y, dry, files, front);
      assert e in es;
      SettledLeavesFiles(y, files, e);
    }
  }

  /** The marker of every row's file can be read back. */
  ghost predicate ReadableIndex(y: Yaml, index: RowIndex) {
    forall k | k in index && EntryOf(index[k]).Some? :: Readable(y, EntryOf(index[k]).value)
  }

  /** Everything the cursor has passed is already mirrored. */
  ghost predicate MirroredUpTo(y: Yaml, files: Files, index: RowIndex, from: Keyset.Key) {
    forall e | FromIndex(index, [], e) && !FromIndex(index, from, e) :: Settled(y, files, e)
  }

  lemma FromTheStart(index: RowIndex, from: Keyset.Key, e: Entry)
    requires FromIndex(index, from, e) && Servable(index)
    ensures FromIndex(index, [], e)
  {
    var k :| k in index && Keyset.Less(from, k) && EntryOf(index[k]) == Some(e);
    assert Keyset.Less([], k);
  }

  lemma EntriesOfDistinctRows(index: RowIndex, from: Keyset.Key, d: Entry, e: Entry)
    requires GoodSlugs(index) && Servable(index)
    requires FromIndex(index, [], d) && FromIndex(index, from, e) && !FromIndex(index, from, d)
    ensures Target(d) != Target(e)
  {
    hide Keyset.Less, Target, Servable, EntryOf, GoodSlugs;
    var k :| k in index && Keyset.Less([], k) && EntryOf(index[k]) == Some(d);
    var l :| l in index && Keyset.Less(from, l) && EntryOf(index[l]) == Some(e);
    IndexTargets(index, k, d, l, e);
  }

  /** After a complete real run on a frozen feed, pulling everything again, or from any cursor, writes
      nothing, deletes nothing and counts nothing as written or deleted. */
  lemma ResetIsQuiet(plan: Plan, again: Plan)
    requires !plan.dry && plan.Goal().ok
    requires Servable(plan.index) && GoodSlugs(plan.index) && ReadableIndex(plan.y, plan.index)
    requires MirroredUpTo(plan.y, plan.files, plan.index, KeyOf(Decode(plan.start)))
    requires again.y == plan.y && again.index == plan.index && again.files == plan.Goal().files
    ensures again.Goal().ok && again.Goal().files == again.files && AllQuiet(again.Goal().effects)
    ensures ReportOf(again.Goal().effects, again.dry).written == 0 && ReportOf(again.Goal().effects, again.dry).deleted == 0
  {
    var index := plan.index;
    var from, n := KeyOf(Decode(plan.start)), Limit(plan.page);
    var es := AllEntries(index, from, n);
    var later := AllEntries(index, KeyOf(Decode(again.start)), Limit(again.page));
    CompleteRunMirrors(plan.y, plan.files, index, from, n);
    forall e | e in later ensures Settled(plan.y, again.files, e) {
      AllEntriesExact(index, KeyOf(Decode(again.start)), Limit(again.page), e);
      FromTheStart(index, KeyOf(Decode(again.start)), e);
    }
    SettledRunIsQuiet(plan.y, again.dry, again.files, later);
    QuietReport(again.Goal().effects, again.dry);
  }

  lemma CompleteRunMirrors(y: Yaml, files: Files, index: RowIndex, from: Keyset.Key, n: nat)
    requires n > 0 && Servable(index) && GoodSlugs(index) && ReadableIndex(y, index)
    requires Execute(y, false, files, AllEntries(index, from, n)).ok
    requires MirroredUpTo(y, files, index, from)
    ensures forall e | FromIndex(index, [], e) :: Settled(y, Execute(y, false, files, AllEntries(index, from, n)).files, e)
  {
    hide Execute, Settled, Servable, GoodSlugs, DistinctTargets, Target, FromIndex, Readable, SameAt, AllEntries;
    var es := AllEntries(index, from, n);
    var after := Execute(y, false, files, es).files;
    AllEntriesDistinct(index, from, n);
    forall e | e in es ensures Readable(y, e) {
      AllEntriesExact(index, from, n, e);
      ReadableFromIndex(y, index, from, e);
    }
    RunSettles(y, files, es);
    RunIsLocal(y, false, files, es);
    forall e | FromIndex(index, [], e) ensures Settled(y, after, e) {
      AllEntriesExact(index, from, n, e);
      if e !in es {
        forall d | d in es ensures Target(d) != Target(e) {
          AllEntriesExact(index, from, n, d);
          EntriesOfDistinctRows(index, from, e, d);
        }
        SettledDependsOnSlot(y, files, after, e);
      }
    }
  }

  lemma ReadableFromIndex(y: Yaml, index: RowIndex, from: Keyset.Key, e: Entry)
    requires ReadableIndex(y, index) && FromIndex(index, from, e)
    ensures Readable(y, e)
  {
    hide Readable, EntryOf, Keyset.Less;
  }

  lemma {:induction false} QuietReport(es: seq<Effect>, dry: bool)
    requires AllQuiet(es)
    ensures ReportOf(es, dry).written == 0 && ReportOf(es, dry).deleted == 0 && ReportOf(es, dry).changes == []
  {
    if es != [] {
      var front := es[..|es| - 1];
      assert forall i | 0 <= i < |front| :: front[i] == es[i];
      assert Quiet(es[|es| - 1]);
      QuietReport(front, dry);
    }
  }
}
