/** The mirror under interleaving: registry transactions, page fetches, single-entry steps of a Sync,
    aborts and restarts, in any order.  A Sync keeps its cursor in memory until it has drained the
    feed, so an aborted one resumes from the saved cursor. */
module Mirror {
  import opened Outcomes
  import opened SkillFile
  import opened Registry
  import opened Cursor
  import opened Feed
  import opened Syncer
  import opened SyncLaws
  import Keyset
  import Text

  /** A response being worked through, and the cursor to take when it is done. */
  datatype Page = Page(pending: seq<Entry>, next: string)

  datatype Session = Idle | Running(cursor: string, page: Option<Page>)

  datatype World = World(y: Yaml, profile: string, db: Db, files: Files, saved: Option<string>, session: Session)

  datatype Event =
    | Write(op: Op)
    | Start(reset: bool)
    | Fetch(limit: int)
    | ApplyOne
    | Advance
    | Abort
    | Edit(slug: string, text: Option<string>)

  // ---------------------------------------------------------------- assumptions

  /** One piece of content can be rendered, and the marker read back from the file, for the markers that
      a Sync writes with it. */
  ghost predicate Legible(y: Yaml, c: Content) {
    forall o: Origin :: MarksBack(y, c.fm, c.body, Marker(OriginText(o), "promoted", c.sha))
  }

  /** So it is if the YAML library is faithful to its frontmatter with these markers. */
  lemma FaithfulIsLegible(y: Yaml, c: Content)
    requires forall o: Origin :: Faithful(y, WithMarker(c.fm, Marker(OriginText(o), "promoted", c.sha)))
    ensures Legible(y, c)
  {
    hide Faithful, MarksBack, WithMarker, OriginText;
    forall o: Origin ensures MarksBack(y, c.fm, c.body, Marker(OriginText(o), "promoted", c.sha)) {
      MarkerReadBack(y, c.fm, c.body, Marker(OriginText(o), "promoted", c.sha));
    }
  }

  datatype Content = Content(sha: string, fm: Frontmatter, body: string)

  function ContentOf(v: Version): Content { Content(v.sha, v.fm, v.body) }

  /** The content of a skill without a version. */
  const NO_CONTENT := Content("", map[], "")

  /** The content of the registry's versions, and the empty content, is legible. */
  ghost predicate Trusted(y: Yaml, db: Db) {
    Legible(y, NO_CONTENT) && forall i | 0 <= i < |db.versions| :: Legible(y, ContentOf(db.versions[i]))
  }

  /** Assumed of the registry: slugs are computed from names, not empty and distinct in the profile;
      clocks are past the epoch and fit the cursor; a version's sha is not empty. */
  ghost predicate Usable(db: Db, profile: string) {
    && WellFormed(db) && 0 <= db.clock
    && (forall k | k in db.skills && k.profile == profile :: GoodRow(k, db.skills[k]))
    && (forall k, l | k in db.skills && l in db.skills && k.profile == profile && l.profile == profile
                      && db.skills[k].slug == db.skills[l].slug :: k == l)
    && (forall i | 0 <= i < |db.versions| :: db.versions[i].sha != "")
  }

  ghost predicate GoodRow(k: Key, s: Skill) {
    && s.slug == Slug(k.name) && s.slug != ""
    && 0 < s.updatedAt && Text.IsInt64(s.updatedAt * 1000) && Text.IsInt64(s.id)
  }

  /** A transaction commits later than all before it, never un-publishes a skill, and leaves the
      registry usable and its content legible. The user leaves managed files alone and makes none. */
  ghost predicate Allowed(w: World, e: Event) {
    && (e.Write? ==>
          && w.db.clock < e.op.now && (e.op.SetStatus? ==> Published(e.op.status))
          && Usable(Apply(w.db, e.op), w.profile) && Trusted(w.y, Apply(w.db, e.op)))
    && (e.Edit? ==>
          !SlotAt(w.y, w.files, e.slug).Managed? && !SlotAt(w.y, Edited(w.files, e.slug, e.text), e.slug).Managed?)
  }

  /** The user writes a file, or removes it. */
  function Edited(files: Files, slug: string, text: Option<string>): Files {
    match text case None => files - {slug} case Some(t) => files[slug := t]
  }

  // ---------------------------------------------------------------- which writes are allowed

  function TargetOf(op: Op): Key {
    match op
    case Register(_, input, _, _) => Key(input.profile, input.name)
    case SetStatus(key, _, _) => key
    case Import(row, _) => Key(row.profile, row.name)
  }

  /** The slug a row gets when the operation has to create it. */
  function SlugFor(op: Op): string {
    if op.Import? then NonEmpty(op.row.slug, op.row.name) else Slug(TargetOf(op).name)
  }

  function ContentFor(op: Op): Content {
    match op
    case Register(hash, input, _, _) => Content(CanonicalSHA(hash, input.fm, input.body), input.fm, input.body)
    case SetStatus(_, _, _) => NO_CONTENT
    case Import(row, _) => Content(row.sha, row.fm, row.body)
  }

  /** What can be checked before a write: it comes later than all before it, publishes if it sets a
      status, brings only legible content with a sha, and its name has a slug of its own. */
  ghost predicate GoodWrite(y: Yaml, db: Db, profile: string, op: Op) {
    && db.clock < op.now && Text.IsInt64(op.now * 1000) && Text.IsInt64(db.nextId)
    && (if op.SetStatus? then Published(op.status)
        else ContentFor(op).sha != "" && Legible(y, ContentFor(op))
             && (TargetOf(op).profile == profile ==> OwnSlug(db, op)))
  }

  ghost predicate OwnSlug(db: Db, op: Op) {
    && SlugFor(op) == Slug(TargetOf(op).name) && SlugFor(op) != ""
    && forall k | k in db.skills && k.profile == TargetOf(op).profile && db.skills[k].slug == SlugFor(op) :: k == TargetOf(op)
  }

  /** A row after a write: as it was but for its timestamp and what a write may change, or new. */
  predicate RowAfter(db: Db, d: Db, op: Op, k: Key)
    requires k in d.skills
  {
    if k in db.skills then
      d.skills[k].id == db.skills[k].id && d.skills[k].slug == db.skills[k].slug
      && (d.skills[k].updatedAt == db.skills[k].updatedAt || d.skills[k].updatedAt == op.now)
    else
      k == TargetOf(op) && d.skills[k].id == db.nextId && d.skills[k].slug == SlugFor(op)
      && d.skills[k].updatedAt == op.now && !op.SetStatus?
  }

  predicate VersionsAfter(db: Db, d: Db, op: Op) {
    || d.versions == db.versions
    || (|d.versions| == |db.versions| + 1 && db.versions <= d.versions && !op.SetStatus?
        && ContentOf(d.versions[|db.versions|]) == ContentFor(op))
  }

  lemma RegisterAfter(db: Db, op: Op)
    requires op.Register?
    ensures var d := Apply(db, op); VersionsAfter(db, d, op) && forall k | k in d.skills :: RowAfter(db, d, op, k)
  {
    hide CanonicalSHA, MaxNumber, Find, Blank, Slug, UlidTaken, StatusOf, OriginOf, Later;
  }

  lemma ImportAfter(db: Db, op: Op)
    requires op.Import?
    ensures var d := Apply(db, op); VersionsAfter(db, d, op) && forall k | k in d.skills :: RowAfter(db, d, op, k)
  {
    hide MaxNumber, Find, Slug, UlidTaken, Later;
  }

  lemma StatusAfter(db: Db, op: Op)
    requires op.SetStatus?
    ensures var d := Apply(db, op); VersionsAfter(db, d, op) && forall k | k in d.skills :: RowAfter(db, d, op, k)
  {
    hide Slug, Later;
  }

  lemma WriteAfter(db: Db, op: Op)
    ensures var d := Apply(db, op); VersionsAfter(db, d, op) && forall k | k in d.skills :: RowAfter(db, d, op, k)
  {
    hide Apply, RowAfter, VersionsAfter;
    match op
    case Register(_, _, _, _) => RegisterAfter(db, op);
    case SetStatus(_, _, _) => StatusAfter(db, op);
    case Import(_, _) => ImportAfter(db, op);
  }

  lemma RowsStayGood(y: Yaml, db: Db, d: Db, profile: string, op: Op)
    requires Usable(db, profile) && GoodWrite(y, db, profile, op) && forall k | k in d.skills :: RowAfter(db, d, op, k)
    ensures forall k | k in d.skills && k.profile == profile :: GoodRow(k, d.skills[k])
    ensures forall k, l | k in d.skills && l in d.skills && k.profile == profile && l.profile == profile
                          && d.skills[k].slug == d.skills[l].slug :: k == l
  {
    hide WellFormed, SlugFor, Slug, ContentFor, Legible;
    forall k | k in d.skills && k.profile == profile ensures GoodRow(k, d.skills[k]) {
      assert RowAfter(db, d, op, k);
      assert k in db.skills ==> GoodRow(k, db.skills[k]);
    }
    forall k, l | k in d.skills && l in d.skills && k.profile == profile && l.profile == profile
                  && d.skills[k].slug == d.skills[l].slug
      ensures k == l
    {
      assert RowAfter(db, d, op, k) && RowAfter(db, d, op, l);
    }
  }

  /** A write that passes these checks is allowed: the registry stays usable. */
  lemma GoodWriteIsAllowed(w: World, op: Op)
    requires Usable(w.db, w.profile) && Trusted(w.y, w.db) && GoodWrite(w.y, w.db, w.profile, op)
    ensures Allowed(w, Write(op))
  {
    hide Apply, RowAfter, WellFormed, OwnSlug, GoodRow, ContentFor, TargetOf, Legible;
    var d := Apply(w.db, op);
    ApplyKeepsWellFormed(w.db, op);
    ApplyEvolves(w.db, op);
    assert w.db.clock <= d.clock;
    WriteAfter(w.db, op);
    RowsStayGood(w.y, w.db, d, w.profile, op);
    forall i | 0 <= i < |d.versions| ensures d.versions[i].sha != "" && Legible(w.y, ContentOf(d.versions[i])) {
      if i < |w.db.versions| { assert d.versions[i] == w.db.versions[i]; }
    }
  }

  // ---------------------------------------------------------------- steps

  function ServerAt(w: World, limit: int): Server { Server(w.db, w.profile, limit) }

  /** One step; a step that is not enabled changes nothing. A rendering error aborts the Sync. */
  ghost function Next(w: World, e: Event): World
    requires UniqueIds(w.db)
  {
    match e
    case Write(op) => w.(db := Apply(w.db, op))
    case Start(reset) =>
      if w.session.Idle? then w.(session := Running(if reset then "" else Loaded(w.saved), None)) else w
    case Fetch(limit) =>
      if w.session.Running? && w.session.page == None then
        var resp := Answer(ServerAt(w, limit), w.session.cursor);
        w.(session := Running(w.session.cursor, Some(Page(Puts(resp.skills) + Drops(resp.deletes), resp.cursor))))
      else w
    case ApplyOne =>
      if w.session.Running? && w.session.page.Some? && w.session.page.value.pending != [] then
        var p := w.session.page.value;
        match Reconciled(w.y, w.files, p.pending[0])
        case None => w.(session := Idle)
        case Some(st) => w.(files := st.files, session := Running(w.session.cursor, Some(p.(pending := p.pending[1..]))))
      else w
    case Advance =>
      if w.session.Running? && w.session.page.Some? && w.session.page.value.pending == [] then
        var p := w.session.page.value;
        if p.next == "" || p.next == w.session.cursor then
          w.(saved := Some(Saved(w.session.cursor)), session := Idle)
        else w.(session := Running(p.next, None))
      else w
    case Abort => w.(session := Idle)
    case Edit(slug, text) => w.(files := Edited(w.files, slug, text))
  }

  // ---------------------------------------------------------------- invariant

  ghost predicate InProfile(w: World, k: Key) { k in w.db.skills && k.profile == w.profile }

  /** The row sorts after the cursor. */
  ghost predicate Ahead(w: World, cursor: string, k: Key)
    requires k in w.db.skills
  {
    Keyset.Less(KeyOf(Decode(cursor)), SortKey(w.db.skills[k]))
  }

  function FileFor(y: Yaml, sk: SyncSkill): Option<string> { Rendered(y, sk.fm, sk.body, MarkerFor(sk)) }

  /** The directory shows the row as it is now. */
  ghost predicate Reflected(w: World, k: Key)
    requires k in w.db.skills
  {
    var slug := w.db.skills[k].slug;
    if w.db.skills[k].status == Promoted then
      || SlotAt(w.y, w.files, slug).HandAuthored?
      || (slug in w.files && Some(w.files[slug]) == FileFor(w.y, Shipped(Joined(w.db, k))))
    else !SlotAt(w.y, w.files, slug).Managed?
  }

  /** Content the registry has, or had, for a skill: identity as in the row, body as in some version. */
  ghost predicate Genuine(db: Db, k: Key, sk: SyncSkill)
    requires k in db.skills
  {
    && sk.name == k.name && sk.slug == db.skills[k].slug
    && sk.status == "promoted" && sk.origin == OriginText(db.skills[k].origin)
    && ((sk.sha == "" && sk.fm == map[] && sk.body == "")
        || (exists i | 0 <= i < |db.versions| :: IsVersion(db.versions[i], db.skills[k].id, sk)))
  }

  ghost predicate IsVersion(v: Version, sid: nat, sk: SyncSkill) {
    v.skillId == sid && v.sha == sk.sha && v.fm == sk.fm && v.body == sk.body
  }

  /** A managed file was rendered from a skill that has been published. */
  ghost predicate SlotOk(w: World, slug: string) {
    SlotAt(w.y, w.files, slug).Managed? ==>
      exists k, sk :: RenderedFrom(w, slug, k, sk)
  }

  ghost predicate RenderedFrom(w: World, slug: string, k: Key, sk: SyncSkill) {
    && InProfile(w, k) && w.db.skills[k].slug == slug && Published(w.db.skills[k].status)
    && Genuine(w.db, k, sk) && slug in w.files && Some(w.files[slug]) == FileFor(w.y, sk)
  }

  /** Every row of the profile is ahead of the cursor or reflected. */
  ghost predicate Covered(w: World, cursor: string) {
    forall k | InProfile(w, k) :: Ahead(w, cursor, k) || Reflected(w, k)
  }

  function NameOf(e: Entry): string { match e case Put(sk) => sk.name case Drop(name) => name }

  ghost predicate AheadOfAll(w: World, k: Key)
    requires k in w.db.skills
  {
    && Ahead(w, Loaded(w.saved), k)
    && (w.session.Running? ==> Ahead(w, w.session.cursor, k))
    && (w.session.Running? && w.session.page.Some? ==> Ahead(w, w.session.page.value.next, k))
  }

  /** A fetched entry is about a published skill, with content it has or had. */
  ghost predicate EntrySound(w: World, e: Entry) {
    var k := Key(w.profile, NameOf(e));
    && k in w.db.skills && Published(w.db.skills[k].status)
    && (e.Put? ==> Genuine(w.db, k, e.skill))
  }

  /** It still says what the row says, or the row has moved ahead of every cursor. */
  ghost predicate PendingOk(w: World, e: Entry) {
    var k := Key(w.profile, NameOf(e));
    EntrySound(w, e) && (EntryOf(Joined(w.db, k)) == Some(e) || AheadOfAll(w, k))
  }

  /** A row is ahead of the page, reflected, or still to be worked through. */
  ghost predicate PageOk(w: World, p: Page) {
    && Canonical(p.next) == p.next
    && (forall e | e in p.pending :: PendingOk(w, e))
    && (forall k | InProfile(w, k) :: Ahead(w, p.next, k) || Reflected(w, k)
                                      || exists e :: e in p.pending && EntryOf(Joined(w.db, k)) == Some(e))
  }

  /** No cursor is ahead of the registry's clock. */
  ghost predicate Behind(db: Db, cursor: string) { Decode(cursor).nanos / 1000 <= db.clock }

  ghost predicate Inv(w: World) {
    && Trusted(w.y, w.db) && Usable(w.db, w.profile)
    && (forall slug :: SlotOk(w, slug))
    && Behind(w.db, Loaded(w.saved)) && Covered(w, Loaded(w.saved))
    && (w.session.Running? ==> Behind(w.db, w.session.cursor) && Covered(w, w.session.cursor))
    && (w.session.Running? && w.session.page.Some? ==>
          Behind(w.db, w.session.page.value.next) && PageOk(w, w.session.page.value))
  }

  /** A fresh machine: no cursor file, and no managed file. */
  ghost predicate Fresh(w: World) {
    && Trusted(w.y, w.db) && Usable(w.db, w.profile)
    && w.saved == None && w.session == Idle && forall slug :: !SlotAt(w.y, w.files, slug).Managed?
  }

  lemma BootstrapIsBehind(db: Db)
    requires 0 <= db.clock
    ensures Behind(db, "") && KeyOf(Decode("")) == [0, 0]
  {
  }

  lemma FreshCovers(w: World)
    requires Usable(w.db, w.profile)
    ensures Covered(w, "")
  {
    hide Slug, Reflected, WellFormed;
    forall k | InProfile(w, k) ensures Ahead(w, "", k) {
      assert GoodRow(k, w.db.skills[k]);
    }
  }

  lemma FreshInv(w: World)
    requires Fresh(w)
    ensures Inv(w)
  {
    hide Covered, Trusted, SlotAt, Decode, WellFormed;
    assert Loaded(w.saved) == "";
    BootstrapIsBehind(w.db);
    FreshCovers(w);
  }

  // ---------------------------------------------------------------- facts about genuine content

  lemma ShippedIsGenuine(db: Db, k: Key)
    requires WellFormed(db) && k in db.skills && db.skills[k].status == Promoted
    ensures Genuine(db, k, Shipped(Joined(db, k)))
  {
    hide TableOk, OriginText;
    var s := db.skills[k];
    assert OwnHead(db, k);
    if s.head.Some? {
      assert IsVersion(db.versions[s.head.value], s.id, Shipped(Joined(db, k)));
    }
  }

  lemma GenuineIsUnique(db: Db, k: Key, a: SyncSkill, b: SyncSkill)
    requires k in db.skills && UniqueShas(db.versions) && Genuine(db, k, a) && Genuine(db, k, b) && a.sha == b.sha
    requires forall i | 0 <= i < |db.versions| :: db.versions[i].sha != ""
    ensures a == b
  {
    hide OriginText;
    if a.sha != "" {
      var i :| 0 <= i < |db.versions| && IsVersion(db.versions[i], db.skills[k].id, a);
      var j :| 0 <= j < |db.versions| && IsVersion(db.versions[j], db.skills[k].id, b);
      assert i == j;
    }
  }

  lemma GenuineSurvives(db: Db, next: Db, k: Key, sk: SyncSkill)
    requires Evolves(db, next) && k in db.skills && Genuine(db, k, sk)
    ensures k in next.skills && Genuine(next, k, sk)
  {
    hide OriginText;
    assert Follows(db.skills[k], next.skills[k]);
    if i :| 0 <= i < |db.versions| && IsVersion(db.versions[i], db.skills[k].id, sk) {
      assert next.versions[i] == db.versions[i];
      assert IsVersion(next.versions[i], next.skills[k].id, sk);
    }
  }

  /** A row that did not change shows the same content. */
  lemma JoinedSurvives(db: Db, next: Db, k: Key)
    requires WellFormed(db) && Evolves(db, next) && k in db.skills && k in next.skills && next.skills[k] == db.skills[k]
    ensures Joined(next, k) == Joined(db, k)
  {
    hide TableOk;
    assert OwnHead(db, k);
  }

  lemma GenuineIsReadable(y: Yaml, db: Db, k: Key, sk: SyncSkill)
    requires Trusted(y, db) && k in db.skills && Genuine(db, k, sk)
    ensures Readable(y, Put(sk))
  {
    hide MarksBack, OriginText;
    if i :| 0 <= i < |db.versions| && IsVersion(db.versions[i], db.skills[k].id, sk) {
      assert Legible(y, ContentOf(db.versions[i]));
    }
  }

  /** What a managed slot holds: the marker says which content. */
  lemma ManagedContent(w: World, slug: string, k: Key, sk: SyncSkill)
    requires Trusted(w.y, w.db) && SlotAt(w.y, w.files, slug).Managed? && RenderedFrom(w, slug, k, sk)
    ensures SlotAt(w.y, w.files, slug) == Managed(MarkerFor(sk))
  {
    hide Parse, MarkerOf, Rendered, Genuine, Trusted;
    GenuineIsReadable(w.y, w.db, k, sk);
  }

  // ---------------------------------------------------------------- registry steps

  lemma LaterIsAhead(w: World, cursor: string, k: Key)
    requires k in w.db.skills && Decode(cursor).nanos / 1000 < w.db.skills[k].updatedAt
    ensures Ahead(w, cursor, k)
  {
    hide Decode;
  }

  /** After a transaction a row is as it was, or ahead of every cursor there is. */
  lemma WrittenRow(w: World, v: World, k: Key)
    requires v == w.(db := v.db) && Evolves(w.db, v.db) && InProfile(v, k)
    requires Behind(w.db, Loaded(w.saved))
    requires w.session.Running? ==> Behind(w.db, w.session.cursor)
    requires w.session.Running? && w.session.page.Some? ==> Behind(w.db, w.session.page.value.next)
    ensures (InProfile(w, k) && v.db.skills[k] == w.db.skills[k]) || AheadOfAll(v, k)
  {
    hide Decode, Loaded, Ahead;
    if !(k in w.db.skills && v.db.skills[k] == w.db.skills[k]) {
      LaterIsAhead(v, Loaded(v.saved), k);
      if v.session.Running? { LaterIsAhead(v, v.session.cursor, k); }
      if v.session.Running? && v.session.page.Some? { LaterIsAhead(v, v.session.page.value.next, k); }
    }
  }

  lemma UnchangedRow(w: World, v: World, k: Key)
    requires v == w.(db := v.db) && WellFormed(w.db) && Evolves(w.db, v.db) && InProfile(w, k) && InProfile(v, k)
    requires v.db.skills[k] == w.db.skills[k]
    ensures Reflected(v, k) == Reflected(w, k) && Joined(v.db, k) == Joined(w.db, k)
    ensures forall c :: Ahead(v, c, k) == Ahead(w, c, k)
    ensures AheadOfAll(v, k) == AheadOfAll(w, k)
  {
    hide SlotAt, FileFor, Decode, Loaded;
    JoinedSurvives(w.db, v.db, k);
  }

  lemma WriteKeepsSlot(w: World, v: World, slug: string)
    requires v == w.(db := v.db) && Evolves(w.db, v.db) && SlotOk(w, slug)
    ensures SlotOk(v, slug)
  {
    hide SlotAt, FileFor, Genuine;
    if SlotAt(w.y, w.files, slug).Managed? {
      var k, sk :| RenderedFrom(w, slug, k, sk);
      GenuineSurvives(w.db, v.db, k, sk);
      assert Follows(w.db.skills[k], v.db.skills[k]);
      assert RenderedFrom(v, slug, k, sk);
    }
  }

  lemma WriteKeepsCovered(w: World, v: World, cursor: string)
    requires v == w.(db := v.db) && WellFormed(w.db) && Evolves(w.db, v.db)
    requires Covered(w, cursor) && Behind(w.db, cursor)
    ensures Covered(v, cursor) && Behind(v.db, cursor)
  {
    hide Decode, Reflected, Ahead, WellFormed;
    forall k | InProfile(v, k) ensures Ahead(v, cursor, k) || Reflected(v, k) {
      if k in w.db.skills && v.db.skills[k] == w.db.skills[k] { UnchangedRow(w, v, k); }
      else { LaterIsAhead(v, cursor, k); }
    }
  }

  lemma WriteKeepsPending(w: World, v: World, e: Entry)
    requires v == w.(db := v.db) && WellFormed(w.db) && Evolves(w.db, v.db)
    requires Behind(w.db, Loaded(w.saved))
    requires w.session.Running? ==> Behind(w.db, w.session.cursor)
    requires w.session.Running? && w.session.page.Some? ==> Behind(w.db, w.session.page.value.next)
    requires PendingOk(w, e)
    ensures PendingOk(v, e)
  {
    hide Decode, Loaded, Ahead, WellFormed, Genuine, EntryOf, Joined, AheadOfAll;
    var k := Key(w.profile, NameOf(e));
    assert Follows(w.db.skills[k], v.db.skills[k]);
    if e.Put? { GenuineSurvives(w.db, v.db, k, e.skill); }
    WrittenRow(w, v, k);
    if v.db.skills[k] == w.db.skills[k] { UnchangedRow(w, v, k); }
  }

  lemma WriteKeepsPage(w: World, v: World, p: Page)
    requires v == w.(db := v.db) && WellFormed(w.db) && Evolves(w.db, v.db)
    requires Behind(w.db, Loaded(w.saved))
    requires w.session.Running? && w.session.page == Some(p) && Behind(w.db, w.session.cursor) && Behind(w.db, p.next)
    requires PageOk(w, p)
    ensures PageOk(v, p)
  {
    hide Decode, Encode, Loaded, Ahead, WellFormed, PendingOk, Reflected, EntryOf, Joined, Behind;
    forall e | e in p.pending ensures PendingOk(v, e) { WriteKeepsPending(w, v, e); }
    forall k | InProfile(v, k)
      ensures Ahead(v, p.next, k) || Reflected(v, k) || exists e :: e in p.pending && EntryOf(Joined(v.db, k)) == Some(e)
    {
      WrittenRow(w, v, k);
      if InProfile(w, k) && v.db.skills[k] == w.db.skills[k] { UnchangedRow(w, v, k); }
    }
  }

  lemma WriteKeepsInv(w: World, op: Op)
    requires Inv(w) && Allowed(w, Write(op))
    ensures Inv(Next(w, Write(op)))
  {
    hide SlotOk, Covered, Behind, PageOk, Loaded, Trusted, Evolves;
    var v := Next(w, Write(op));
    ApplyEvolves(w.db, op);
    ApplyKeepsWellFormed(w.db, op);
    forall slug ensures SlotOk(v, slug) { WriteKeepsSlot(w, v, slug); }
    WriteKeepsCovered(w, v, Loaded(w.saved));
    if w.session.Running? {
      WriteKeepsCovered(w, v, w.session.cursor);
      if w.session.page.Some? {
        WriteKeepsPage(w, v, w.session.page.value);
        BehindSurvives(w.db, v.db, w.session.page.value.next);
      }
    }
  }

  lemma BehindSurvives(db: Db, next: Db, cursor: string)
    requires Evolves(db, next) && Behind(db, cursor)
    ensures Behind(next, cursor)
  {
    hide Decode;
  }

  // ---------------------------------------------------------------- page fetches

  lemma ProfileIndex(w: World, k: Key)
    requires Usable(w.db, w.profile) && InProfile(w, k)
    ensures var key := SortKey(w.db.skills[k]);
            key in Index(w.db, w.profile) && Index(w.db, w.profile)[key] == Joined(w.db, k)
  {
    hide Joined, TableOk, GoodRow;
  }

  lemma IndexRow(w: World, key: Keyset.Key) returns (k: Key)
    requires Usable(w.db, w.profile) && key in Index(w.db, w.profile)
    ensures InProfile(w, k) && key == SortKey(w.db.skills[k]) && Index(w.db, w.profile)[key] == Joined(w.db, k)
  {
    hide Joined, TableOk, GoodRow;
    k :| k in w.db.skills && k.profile == w.profile && SortKey(w.db.skills[k]) == key;
  }

  lemma UsableIsServable(w: World)
    requires Usable(w.db, w.profile)
    ensures Servable(Index(w.db, w.profile))
  {
    hide TableOk, Slug, Index;
    var index := Index(w.db, w.profile);
    forall key | key in index ensures key == [index[key].updatedAt, index[key].id] && Valid(PositionOf(index[key])) {
      var k := IndexRow(w, key);
      assert GoodRow(k, w.db.skills[k]);
    }
  }

  lemma UsableSlugs(w: World)
    requires Usable(w.db, w.profile)
    ensures GoodSlugs(Index(w.db, w.profile))
  {
    hide TableOk, Slug, Index;
    var index := Index(w.db, w.profile);
    forall key | key in index ensures GoodSlug(index[key]) {
      var k := IndexRow(w, key);
      assert GoodRow(k, w.db.skills[k]);
    }
    forall a, b | a in index && b in index && index[a].slug == index[b].slug ensures a == b {
      var k := IndexRow(w, a);
      var l := IndexRow(w, b);
    }
  }

  /** Only the tables, the directory and the profile decide what is reflected. */
  lemma SameView(w: World, v: World)
    requires v == w.(session := v.session, saved := v.saved)
    ensures forall slug :: SlotOk(v, slug) == SlotOk(w, slug)
    ensures forall k :: InProfile(v, k) == InProfile(w, k)
    ensures forall k | k in w.db.skills :: Reflected(v, k) == Reflected(w, k)
    ensures forall k, c | k in w.db.skills :: Ahead(v, c, k) == Ahead(w, c, k)
    ensures forall c :: Covered(v, c) == Covered(w, c)
  {
    hide SlotAt, FileFor, Genuine, Decode, Joined;
    forall slug ensures SlotOk(v, slug) == SlotOk(w, slug) {
      forall k, sk ensures RenderedFrom(v, slug, k, sk) == RenderedFrom(w, slug, k, sk) {}
    }
  }

  /** A skill that was never published has no managed file. */
  lemma UnpublishedIsReflected(w: World, k: Key)
    requires Usable(w.db, w.profile) && InProfile(w, k) && SlotOk(w, w.db.skills[k].slug)
    requires !Published(w.db.skills[k].status)
    ensures Reflected(w, k)
  {
    hide SlotAt, FileFor, Usable, Joined, SlotOk;
    if SlotAt(w.y, w.files, w.db.skills[k].slug).Managed? { ManagedIsPublished(w, k); }
  }

  lemma ManagedIsPublished(w: World, k: Key)
    requires Usable(w.db, w.profile) && InProfile(w, k) && SlotOk(w, w.db.skills[k].slug)
    requires SlotAt(w.y, w.files, w.db.skills[k].slug).Managed?
    ensures Published(w.db.skills[k].status)
  {
    hide SlotAt, FileFor, Genuine, WellFormed, GoodRow;
    var l, sk :| RenderedFrom(w, w.db.skills[k].slug, l, sk);
    assert l == k;
  }

  lemma FetchedEntry(w: World, k: Key, e: Entry)
    requires Usable(w.db, w.profile) && InProfile(w, k) && EntryOf(Joined(w.db, k)) == Some(e)
    ensures PendingOk(w, e)
  {
    hide TableOk, GoodRow, AheadOfAll, Slug, Genuine;
    assert NameOf(e) == k.name;
    if e.Put? { ShippedIsGenuine(w.db, k); }
  }

  lemma FetchedPage(w: World, from: Keyset.Key, n: nat, e: Entry)
    requires Usable(w.db, w.profile)
    requires e in Entries(Rows(Index(w.db, w.profile), Keyset.Scan(Index(w.db, w.profile).Keys, from, n)))
    ensures PendingOk(w, e)
  {
    hide Usable, Index, Keyset.Scan, PendingOk, EntryOf, Joined, FromRow, Rows, Entries, UniqueIds;
    assert UniqueIds(w.db) by { UsableIds(w); }
    var index := Index(w.db, w.profile);
    var ks := Keyset.Scan(index.Keys, from, n);
    PageEntries(Rows(index, ks));
    PageFromIndex(index, ks, e);
    var key :| key in ks && EntryOf(index[key]) == Some(e);
    var k := IndexRow(w, key);
    FetchedEntry(w, k, e);
  }

  lemma UsableIds(w: World)
    requires Usable(w.db, w.profile)
    ensures UniqueIds(w.db)
  {
  }

  /** After a fetch each row is past the page, reflected, or among the page's entries. */
  lemma FetchedRow(w: World, cursor: string, limit: int, k: Key)
    requires Usable(w.db, w.profile) && InProfile(w, k) && SlotOk(w, w.db.skills[k].slug) && Covered(w, cursor)
    ensures UniqueIds(w.db)
    ensures var rows := PageAt(Index(w.db, w.profile), cursor, limit);
            || Ahead(w, CursorAfter(rows, Decode(cursor)), k)
            || Reflected(w, k)
            || exists e :: e in Entries(rows) && EntryOf(Joined(w.db, k)) == Some(e)
  {
    hide Usable, Index, Keyset.Scan, Keyset.Less, Decode, Encode, Joined, FromRow, Rows, Entries, SlotOk, Reflected, UniqueIds;
    UsableIds(w);
    var index := Index(w.db, w.profile);
    var key := SortKey(w.db.skills[k]);
    ProfileIndex(w, k);
    if !Published(w.db.skills[k].status) {
      UnpublishedIsReflected(w, k);
    } else if !Reflected(w, k) {
      assert Ahead(w, cursor, k);
      UsableIsServable(w);
      PageCursor(index, cursor, limit, key);
      var ks := Keyset.Scan(index.Keys, KeyOf(Decode(cursor)), Limit(limit));
      if key in ks {
        var e := EntryOf(Joined(w.db, k)).value by { PublishedEntry(w, k); }
        PageEntries(Rows(index, ks));
        PageFromIndex(index, ks, e);
      }
    }
  }

  lemma PublishedEntry(w: World, k: Key)
    requires k in w.db.skills && Published(w.db.skills[k].status)
    ensures EntryOf(Joined(w.db, k)).Some?
  {
  }

  /** A key after the cursor is on the page, or after the cursor the page hands back. */
  lemma PageCursor(index: RowIndex, cursor: string, limit: int, key: Keyset.Key)
    requires Servable(index) && key in index && Keyset.Less(KeyOf(Decode(cursor)), key)
    ensures var ks := Keyset.Scan(index.Keys, KeyOf(Decode(cursor)), Limit(limit));
            key in ks || Keyset.Less(KeyOf(Decode(CursorAfter(PageAt(index, cursor, limit), Decode(cursor)))), key)
  {
    hide Keyset.Less, Keyset.Scan, Decode, Encode;
    var from := KeyOf(Decode(cursor));
    var ks := Keyset.Scan(index.Keys, from, Limit(limit));
    if ks == [] {
      EmptyPageStep(index, cursor, limit);
    } else {
      PageSplits(index, from, Limit(limit));
      CursorReachesRow(index, ks[|ks| - 1]);
    }
  }

  lemma FetchedCursor(w: World, cursor: string, limit: int)
    requires Usable(w.db, w.profile) && Behind(w.db, cursor)
    ensures UniqueIds(w.db)
    ensures var next := CursorAfter(PageAt(Index(w.db, w.profile), cursor, limit), Decode(cursor));
            Canonical(next) == next && Behind(w.db, next)
  {
    hide Keyset.Less, Keyset.Scan, Decode, Encode, Index, Joined, TableOk, GoodRow;
    var index := Index(w.db, w.profile);
    UsableIsServable(w);
    var ks := Keyset.Scan(index.Keys, KeyOf(Decode(cursor)), Limit(limit));
    if ks == [] {
      EmptyPageStep(index, cursor, limit);
    } else {
      var last := ks[|ks| - 1];
      FullPageStep(index, cursor, limit);
      CursorReachesRow(index, last);
      var k := IndexRow(w, last);
      assert PositionOf(index[last]).nanos / 1000 == w.db.skills[k].updatedAt;
    }
  }

  lemma FetchKeepsInv(w: World, limit: int)
    requires Inv(w) && w.session.Running? && w.session.page == None
    ensures Inv(Next(w, Fetch(limit)))
  {
    hide SlotOk, Covered, Behind, Loaded, Trusted, Usable, PendingOk, Reflected, Ahead, Index, EntryOf, Joined, PageAt,
         Puts, Drops, Entries, Answer, CursorAfter, Canonical, UniqueIds;
    UsableIds(w);
    var v := Next(w, Fetch(limit));
    var cursor, p := w.session.cursor, v.session.page.value;
    var rows := PageAt(Index(w.db, w.profile), cursor, limit);
    AnswerIsPage(ServerAt(w, limit), cursor);
    SameView(w, v);
    FetchedCursor(w, cursor, limit);
    forall e | e in p.pending ensures PendingOk(v, e) {
      FetchedPageEntry(v, cursor, limit, e);
    }
    forall k | InProfile(v, k)
      ensures Ahead(v, p.next, k) || Reflected(v, k) || exists e :: e in p.pending && EntryOf(Joined(v.db, k)) == Some(e)
    {
      FetchedRow(w, cursor, limit, k);
    }
  }

  lemma FetchedPageEntry(w: World, cursor: string, limit: int, e: Entry)
    requires Usable(w.db, w.profile) && UniqueIds(w.db)
    requires e in Entries(PageAt(Index(w.db, w.profile), cursor, limit))
    ensures PendingOk(w, e)
  {
    hide Usable, Index, Keyset.Scan, PendingOk, Rows, Entries, UniqueIds;
    FetchedPage(w, KeyOf(Decode(cursor)), Limit(limit), e);
  }

  // ---------------------------------------------------------------- single entries

  lemma PendingTarget(w: World, e: Entry)
    requires Usable(w.db, w.profile) && EntrySound(w, e)
    ensures var k := Key(w.profile, NameOf(e)); InProfile(w, k) && Target(e) == w.db.skills[k].slug && Target(e) != ""
  {
    hide WellFormed, Slug, EntryOf, Joined, AheadOfAll;
    assert GoodRow(Key(w.profile, NameOf(e)), w.db.skills[Key(w.profile, NameOf(e))]);
  }

  /** The slot of the entry after it was reconciled. */
  lemma TouchedSlot(w: World, v: World, e: Entry)
    requires Trusted(w.y, w.db) && Usable(w.db, w.profile) && EntrySound(w, e) && SlotOk(w, Target(e))
    requires Reconciled(w.y, w.files, e).Some? && v == w.(files := Reconciled(w.y, w.files, e).value.files, session := v.session)
    ensures SlotOk(v, Target(e))
  {
    hide SlotAt, FileFor, Genuine, Usable, Trusted, Slug, Rendered;
    PendingTarget(w, e);
    var k, slug := Key(w.profile, NameOf(e)), Target(e);
    match Reconciled(w.y, w.files, e).value.effect
    case Wrote(_) =>
      assert Some(v.files[slug]) == FileFor(w.y, e.skill) by { WroteFile(w.y, w.files, e); }
      assert RenderedFrom(v, slug, k, e.skill);
    case Deleted(_) =>
      MissingSlot(w.y, v.files, slug);
    case _ =>
      QuietFiles(w.y, w.files, e);
      assert v.files == w.files;
      if SlotAt(w.y, w.files, slug).Managed? {
        var l, sk :| RenderedFrom(w, slug, l, sk);
        assert RenderedFrom(v, slug, l, sk);
      }
  }

  lemma WroteFile(y: Yaml, files: Files, e: Entry)
    requires Reconciled(y, files, e).Some? && Reconciled(y, files, e).value.effect.Wrote?
    ensures e.Put? && Target(e) in Reconciled(y, files, e).value.files
    ensures Some(Reconciled(y, files, e).value.files[Target(e)]) == FileFor(y, e.skill)
  {
    hide SlotAt, Slug, Rendered;
  }

  lemma QuietFiles(y: Yaml, files: Files, e: Entry)
    requires Reconciled(y, files, e).Some? && Quiet(Reconciled(y, files, e).value.effect)
    ensures Reconciled(y, files, e).value.files == files
  {
    hide SlotAt, Slug, Rendered;
  }

  /** An entry that still says what the row says makes the row reflected. */
  lemma CurrentEntryReflects(w: World, v: World, k: Key, e: Entry)
    requires Trusted(w.y, w.db) && Usable(w.db, w.profile) && PendingOk(w, e) && SlotOk(w, Target(e))
    requires k == Key(w.profile, NameOf(e)) && k in w.db.skills && EntryOf(Joined(w.db, k)) == Some(e)
    requires Reconciled(w.y, w.files, e).Some? && v == w.(files := Reconciled(w.y, w.files, e).value.files, session := v.session)
    ensures Reflected(v, k)
  {
    PendingTarget(w, e);
    if e.Put? {
      CurrentPutReflects(w, v, k, e);
    } else {
      CurrentDropReflects(w, v, k, e);
    }
  }

  lemma CurrentDropReflects(w: World, v: World, k: Key, e: Entry)
    requires e.Drop? && k in w.db.skills && EntryOf(Joined(w.db, k)) == Some(e) && Target(e) == w.db.skills[k].slug
    requires Reconciled(w.y, w.files, e).Some? && v == w.(files := Reconciled(w.y, w.files, e).value.files, session := v.session)
    ensures Reflected(v, k)
  {
    hide SlotAt, Slug;
    MissingSlot(v.y, v.files, Target(e));
  }

  lemma CurrentPutReflects(w: World, v: World, k: Key, e: Entry)
    requires Trusted(w.y, w.db) && Usable(w.db, w.profile) && SlotOk(w, Target(e))
    requires e.Put? && InProfile(w, k) && EntryOf(Joined(w.db, k)) == Some(e) && Target(e) == w.db.skills[k].slug
    requires Reconciled(w.y, w.files, e).Some? && v == w.(files := Reconciled(w.y, w.files, e).value.files, session := v.session)
    ensures Reflected(v, k)
  {
    hide SlotAt, Slug, Rendered, FileFor, Genuine, Trusted, GoodRow, TableOk;
    var slug := Target(e);
    var effect := Reconciled(w.y, w.files, e).value.effect;
    if effect.Wrote? {
      WroteFile(w.y, w.files, e);
    } else {
      QuietFiles(w.y, w.files, e);
      if SlotAt(w.y, w.files, slug).Managed? {
        var l, sk :| RenderedFrom(w, slug, l, sk);
        assert l == k;
        ManagedContent(w, slug, k, sk);
        assert UniqueShas(w.db.versions) by { UsableShas(w); }
        ShippedIsGenuine(w.db, k);
        GenuineIsUnique(w.db, k, sk, e.skill);
      }
    }
  }

  lemma UsableShas(w: World)
    requires Usable(w.db, w.profile)
    ensures UniqueShas(w.db.versions)
  {
  }

  /** Slots an entry does not touch look the same afterwards. */
  lemma OtherRow(w: World, v: World, e: Entry, k: Key)
    requires Reconciled(w.y, w.files, e).Some? && v == w.(files := Reconciled(w.y, w.files, e).value.files, session := v.session)
    requires Target(e) != "" && InProfile(w, k) && w.db.skills[k].slug != Target(e)
    ensures Reflected(v, k) == Reflected(w, k)
  {
    hide SlotAt, FileFor, Joined, Reconciled, Target;
    OtherSlotsKept(w.y, w.files, e, w.db.skills[k].slug);
    SlotDependsOnFile(w.y, w.files, v.files, w.db.skills[k].slug);
  }

  lemma OtherSlot(w: World, v: World, e: Entry, slug: string)
    requires Reconciled(w.y, w.files, e).Some? && v == w.(files := Reconciled(w.y, w.files, e).value.files, session := v.session)
    requires Target(e) != "" && slug != Target(e) && SlotOk(w, slug)
    ensures SlotOk(v, slug)
  {
    hide SlotAt, FileFor, Genuine, Reconciled, Target;
    OtherSlotsKept(w.y, w.files, e, slug);
    SlotDependsOnFile(w.y, w.files, v.files, slug);
    if SlotAt(v.y, v.files, slug).Managed? {
      var k, sk :| RenderedFrom(w, slug, k, sk);
      assert RenderedFrom(v, slug, k, sk);
    }
  }

  /** A row after an entry was reconciled: it is reflected, or as reflected as it was, or ahead of every cursor. */
  lemma RowAfterEntry(w: World, v: World, e: Entry, k: Key)
    requires Trusted(w.y, w.db) && Usable(w.db, w.profile) && PendingOk(w, e) && SlotOk(w, Target(e)) && InProfile(w, k)
    requires Reconciled(w.y, w.files, e).Some? && v == w.(files := Reconciled(w.y, w.files, e).value.files, session := v.session)
    ensures Reflected(v, k) || AheadOfAll(w, k) || (k.name != NameOf(e) && Reflected(v, k) == Reflected(w, k))
  {
    hide SlotOk, Reconciled, Target, Usable, Trusted, Reflected, EntryOf, Joined, Ahead;
    PendingTarget(w, e);
    if k.name == NameOf(e) {
      if EntryOf(Joined(w.db, k)) == Some(e) { CurrentEntryReflects(w, v, k, e); }
    } else {
      DistinctSlugs(w, k, Key(w.profile, NameOf(e)));
      OtherRow(w, v, e, k);
    }
  }

  lemma DistinctSlugs(w: World, k: Key, l: Key)
    requires Usable(w.db, w.profile) && InProfile(w, k) && InProfile(w, l) && k != l
    ensures w.db.skills[k].slug != w.db.skills[l].slug
  {
  }

  lemma AheadDependsOnRow(w: World, v: World, cursor: string, k: Key)
    requires v.db == w.db && k in w.db.skills
    ensures Ahead(v, cursor, k) == Ahead(w, cursor, k)
  {
  }

  lemma EntryKeepsCovered(w: World, v: World, e: Entry, cursor: string)
    requires Trusted(w.y, w.db) && Usable(w.db, w.profile) && PendingOk(w, e) && SlotOk(w, Target(e)) && Covered(w, cursor)
    requires Reconciled(w.y, w.files, e).Some? && v == w.(files := Reconciled(w.y, w.files, e).value.files, session := v.session)
    requires cursor == Loaded(w.saved) || (w.session.Running? && cursor == w.session.cursor)
    ensures Covered(v, cursor)
  {
    hide SlotOk, Reconciled, Target, Usable, Trusted, Reflected, EntryOf, Joined, Ahead, PendingOk, Loaded;
    forall k | InProfile(v, k) ensures Ahead(v, cursor, k) || Reflected(v, k) {
      RowAfterEntry(w, v, e, k);
      AheadDependsOnRow(w, v, cursor, k);
    }
  }

  lemma PendingAfterEntry(w: World, v: World, d: Entry)
    requires PendingOk(w, d) && v == w.(files := v.files, session := v.session)
    requires w.session.Running? && w.session.page.Some? && v.session.Running? && v.session.page.Some?
    requires v.session.cursor == w.session.cursor && v.session.page.value.next == w.session.page.value.next
    ensures PendingOk(v, d)
  {
    hide Ahead, Genuine, Loaded, EntryOf, Joined;
    AheadDependsOnRow(w, v, Loaded(w.saved), Key(w.profile, NameOf(d)));
    AheadDependsOnRow(w, v, w.session.cursor, Key(w.profile, NameOf(d)));
    AheadDependsOnRow(w, v, w.session.page.value.next, Key(w.profile, NameOf(d)));
  }

  lemma EntryNames(db: Db, k: Key, e: Entry)
    requires k in db.skills && EntryOf(Joined(db, k)) == Some(e)
    ensures NameOf(e) == k.name
  {
  }

  lemma EntryKeepsPage(w: World, v: World, p: Page)
    requires Trusted(w.y, w.db) && Usable(w.db, w.profile) && w.session.Running? && w.session.page == Some(p) && p.pending != []
    requires PageOk(w, p) && SlotOk(w, Target(p.pending[0])) && Reconciled(w.y, w.files, p.pending[0]).Some?
    requires v == w.(files := Reconciled(w.y, w.files, p.pending[0]).value.files,
                     session := Running(w.session.cursor, Some(p.(pending := p.pending[1..]))))
    ensures PageOk(v, v.session.page.value)
  {
    hide SlotOk, Reconciled, Target, Usable, Trusted, Reflected, EntryOf, Joined, Ahead, PendingOk, Canonical, Loaded;
    var e, q := p.pending[0], v.session.page.value;
    forall d | d in q.pending ensures PendingOk(v, d) {
      assert d in p.pending;
      PendingAfterEntry(w, v, d);
    }
    forall k | InProfile(v, k)
      ensures Ahead(v, q.next, k) || Reflected(v, k) || exists d :: d in q.pending && EntryOf(Joined(v.db, k)) == Some(d)
    {
      assert e in p.pending;
      RowAfterEntry(w, v, e, k);
      AheadDependsOnRow(w, v, q.next, k);
      if d :| d in p.pending && EntryOf(Joined(w.db, k)) == Some(d) {
        EntryNames(w.db, k, d);
        assert d == e || d in q.pending;
      }
    }
  }

  lemma FirstPending(w: World, p: Page)
    requires PageOk(w, p) && p.pending != []
    ensures PendingOk(w, p.pending[0])
  {
    hide PendingOk, Reflected, Ahead, Canonical, EntryOf, Joined;
    assert p.pending[0] in p.pending;
  }

  lemma PendingIsSound(w: World, e: Entry)
    requires PendingOk(w, e)
    ensures EntrySound(w, e)
  {
  }

  lemma ApplyKeepsInv(w: World)
    requires Inv(w) && w.session.Running? && w.session.page.Some? && w.session.page.value.pending != []
    ensures Inv(Next(w, ApplyOne))
  {
    hide SlotOk, Covered, Behind, Loaded, Trusted, Usable, PendingOk, EntrySound, PageOk, Reconciled, Target, UniqueIds;
    UsableIds(w);
    var v, p := Next(w, ApplyOne), w.session.page.value;
    var e := p.pending[0];
    FirstPending(w, p);
    if Reconciled(w.y, w.files, e) == None {
      SameView(w, v);
    } else {
      PendingIsSound(w, e);
      PendingTarget(w, e);
      TouchedSlot(w, v, e);
      forall slug ensures SlotOk(v, slug) {
        if slug != Target(e) { OtherSlot(w, v, e, slug); }
      }
      EntryKeepsCovered(w, v, e, Loaded(w.saved));
      EntryKeepsCovered(w, v, e, w.session.cursor);
      EntryKeepsPage(w, v, p);
    }
  }

  // ---------------------------------------------------------------- all steps

  lemma SavedIsLoaded(cursor: string)
    requires Canonical(cursor) == cursor
    ensures Loaded(Some(Saved(cursor))) == cursor && cursor != ""
  {
    hide Decode, Encode;
    CanonicalSettles(cursor);
    LoadOfSave(Decode(cursor));
  }

  lemma AdvanceKeepsInv(w: World)
    requires Inv(w) && w.session.Running? && w.session.page.Some? && w.session.page.value.pending == []
    ensures Inv(Next(w, Advance))
  {
    hide SlotOk, Covered, Behind, Loaded, Trusted, Usable, PendingOk, Reflected, Ahead, EntryOf, Joined, Canonical, Saved, UniqueIds;
    UsableIds(w);
    var v, p := Next(w, Advance), w.session.page.value;
    SavedIsLoaded(p.next);
    SameView(w, v);
    assert Covered(w, p.next) by { DrainedPageCovers(w, p); }
  }

  lemma DrainedPageCovers(w: World, p: Page)
    requires PageOk(w, p) && p.pending == []
    ensures Covered(w, p.next)
  {
    hide Ahead, Reflected, EntryOf, Joined, Canonical;
  }

  lemma StartKeepsInv(w: World, reset: bool)
    requires Inv(w) && w.session.Idle?
    ensures Inv(Next(w, Start(reset)))
  {
    hide SlotOk, Covered, Loaded, Trusted, PendingOk, WellFormed, GoodRow, Decode;
    UsableIds(w);
    SameView(w, Next(w, Start(reset)));
    FreshCovers(w);
    BootstrapIsBehind(w.db);
  }

  // what the user may do

  /** An edit takes a hand-authored file out of its slot. */
  ghost predicate Vacates(w: World, slug: string, text: Option<string>) {
    SlotAt(w.y, w.files, slug).HandAuthored? && !SlotAt(w.y, Edited(w.files, slug, text), slug).HandAuthored?
  }

  /** The promoted skill with this slug, if there is one, is yet to come: ahead of every cursor, or among
      the entries of the page being worked through. */
  ghost predicate ComesAgain(w: World, slug: string) {
    forall k | PromotedAt(w, slug, k) ::
      && Ahead(w, Loaded(w.saved), k)
      && (w.session.Running? ==> Ahead(w, w.session.cursor, k))
      && (w.session.Running? && w.session.page.Some? ==>
            Ahead(w, w.session.page.value.next, k) || OnPage(w, w.session.page.value, k))
  }

  /** A step that gives up no hand-authored slot for good. */
  ghost predicate Gentle(w: World, e: Event) {
    e.Edit? && Vacates(w, e.slug, e.text) ==> ComesAgain(w, e.slug)
  }

  lemma EditedElsewhere(w: World, slug: string, text: Option<string>, other: string)
    requires other != slug
    ensures SameAt(w.files, Edited(w.files, slug, text), other)
    ensures SlotAt(w.y, Edited(w.files, slug, text), other) == SlotAt(w.y, w.files, other)
  {
    hide SlotAt;
    SlotDependsOnFile(w.y, w.files, Edited(w.files, slug, text), other);
  }

  lemma EditKeepsSlots(w: World, slug: string, text: Option<string>, any: string)
    requires Allowed(w, Edit(slug, text)) && SlotOk(w, any)
    ensures SlotOk(w.(files := Edited(w.files, slug, text)), any)
  {
    hide SlotAt, FileFor, Genuine, Edited;
    var v := w.(files := Edited(w.files, slug, text));
    if any != slug {
      EditedElsewhere(w, slug, text, any);
      if SlotAt(v.y, v.files, any).Managed? {
        var k, sk :| RenderedFrom(w, any, k, sk);
        assert RenderedFrom(v, any, k, sk);
      }
    }
  }

  /** A slot that is not managed shows a promoted skill exactly when it is hand-authored. */
  lemma UnmanagedReflects(w: World, k: Key)
    requires Trusted(w.y, w.db) && Usable(w.db, w.profile) && InProfile(w, k)
    requires !SlotAt(w.y, w.files, w.db.skills[k].slug).Managed?
    ensures Reflected(w, k) <==> w.db.skills[k].status != Promoted || SlotAt(w.y, w.files, w.db.skills[k].slug).HandAuthored?
  {
    hide SlotAt, Joined, FileFor, Trusted, Genuine, WellFormed, GoodRow, MarksBack, Slug;
    var slug := w.db.skills[k].slug;
    if w.db.skills[k].status == Promoted {
      var sk := Shipped(Joined(w.db, k));
      ShippedIsGenuine(w.db, k);
      GenuineIsReadable(w.y, w.db, k, sk);
      if slug in w.files && Some(w.files[slug]) == FileFor(w.y, sk) { RenderedIsManaged(w.y, w.files, slug, sk); }
    }
  }

  /** What an edit does to a row. */
  lemma EditedRow(w: World, slug: string, text: Option<string>, k: Key)
    requires Trusted(w.y, w.db) && Usable(w.db, w.profile) && InProfile(w, k) && Allowed(w, Edit(slug, text))
    ensures var v := w.(files := Edited(w.files, slug, text));
            Reflected(v, k) <==>
            if PromotedAt(w, slug, k) then SlotAt(v.y, v.files, slug).HandAuthored? else Reflected(w, k)
    ensures PromotedAt(w, slug, k) ==> (Reflected(w, k) <==> SlotAt(w.y, w.files, slug).HandAuthored?)
  {
    hide SlotAt, Joined, FileFor, Trusted, Usable, Edited;
    var v := w.(files := Edited(w.files, slug, text));
    if w.db.skills[k].slug == slug {
      UnmanagedReflects(w, k);
      UnmanagedReflects(v, k);
    } else {
      EditedElsewhere(w, slug, text, w.db.skills[k].slug);
    }
  }

  lemma EditKeepsCoverage(w: World, slug: string, text: Option<string>, cursor: string)
    requires Trusted(w.y, w.db) && Usable(w.db, w.profile) && Allowed(w, Edit(slug, text)) && Covered(w, cursor)
    ensures Covered(w.(files := Edited(w.files, slug, text)), cursor) <==>
            (Vacates(w, slug, text) ==> forall k | PromotedAt(w, slug, k) :: Ahead(w, cursor, k))
  {
    hide SlotAt, Joined, Trusted, Usable, Edited, Ahead, Reflected, Allowed;
    var v := w.(files := Edited(w.files, slug, text));
    forall k | InProfile(w, k)
      ensures Reflected(v, k) <==> if PromotedAt(w, slug, k) then SlotAt(v.y, v.files, slug).HandAuthored? else Reflected(w, k)
      ensures PromotedAt(w, slug, k) ==> (Reflected(w, k) <==> SlotAt(w.y, w.files, slug).HandAuthored?)
      ensures Ahead(v, cursor, k) == Ahead(w, cursor, k)
    {
      EditedRow(w, slug, text, k);
      AheadDependsOnRow(w, v, cursor, k);
    }
  }

  ghost predicate OnPage(w: World, p: Page, k: Key)
    requires k in w.db.skills
  {
    exists e :: e in p.pending && EntryOf(Joined(w.db, k)) == Some(e)
  }

  lemma EditKeepsPage(w: World, slug: string, text: Option<string>, p: Page)
    requires Trusted(w.y, w.db) && Usable(w.db, w.profile) && Allowed(w, Edit(slug, text)) && PageOk(w, p)
    ensures PageOk(w.(files := Edited(w.files, slug, text)), p) <==>
            (Vacates(w, slug, text) ==> forall k | PromotedAt(w, slug, k) :: Ahead(w, p.next, k) || OnPage(w, p, k))
  {
    hide SlotAt, Joined, Trusted, Usable, Edited, Ahead, Reflected, Allowed, PendingOk, EntryOf, Canonical;
    var v := w.(files := Edited(w.files, slug, text));
    forall e | e in p.pending ensures PendingOk(v, e) { EditKeepsPending(w, v, e); }
    forall k | InProfile(w, k)
      ensures Reflected(v, k) <==> if PromotedAt(w, slug, k) then SlotAt(v.y, v.files, slug).HandAuthored? else Reflected(w, k)
      ensures PromotedAt(w, slug, k) ==> (Reflected(w, k) <==> SlotAt(w.y, w.files, slug).HandAuthored?)
      ensures Ahead(v, p.next, k) == Ahead(w, p.next, k) && OnPage(v, p, k) == OnPage(w, p, k)
    {
      EditedRow(w, slug, text, k);
      AheadDependsOnRow(w, v, p.next, k);
    }
    assert forall k :: InProfile(v, k) <==> InProfile(w, k);
  }

  lemma EditKeepsPending(w: World, v: World, e: Entry)
    requires v == w.(files := v.files) && PendingOk(w, e)
    ensures PendingOk(v, e)
  {
    hide Genuine, Decode, Loaded;
  }

  /** The user may edit whatever is not managed. It keeps the invariant, and so all that follows from it,
      exactly when no hand-authored file is taken out of a slot whose promoted skill has gone by. */
  lemma EditKeepsInvIff(w: World, slug: string, text: Option<string>)
    requires Inv(w) && Allowed(w, Edit(slug, text))
    ensures UniqueIds(w.db)
    ensures Inv(Next(w, Edit(slug, text))) <==> Gentle(w, Edit(slug, text))
  {
    hide SlotOk, Covered, Behind, Loaded, Trusted, Usable, PageOk, Allowed, UniqueIds, Vacates, Ahead, EntryOf, Joined, Edited;
    UsableIds(w);
    var v := Next(w, Edit(slug, text));
    forall any ensures SlotOk(v, any) { EditKeepsSlots(w, slug, text, any); }
    EditKeepsCoverage(w, slug, text, Loaded(w.saved));
    if w.session.Running? {
      EditKeepsCoverage(w, slug, text, w.session.cursor);
      if w.session.page.Some? { EditKeepsPage(w, slug, text, w.session.page.value); }
    }
  }

  lemma NextKeepsInv(w: World, e: Event)
    requires Inv(w) && Allowed(w, e) && Gentle(w, e)
    ensures UniqueIds(w.db) && Inv(Next(w, e))
  {
    hide SlotOk, Covered, Behind, Loaded, Trusted, Usable, PageOk, Allowed, UniqueIds, Answer, Reconciled, Gentle;
    UsableIds(w);
    SameView(w, w.(session := Idle));
    match e
    case Write(op) => WriteKeepsInv(w, op);
    case Start(reset) => if w.session.Idle? { StartKeepsInv(w, reset); }
    case Fetch(limit) => if w.session.Running? && w.session.page == None { FetchKeepsInv(w, limit); }
    case ApplyOne =>
      if w.session.Running? && w.session.page.Some? && w.session.page.value.pending != [] { ApplyKeepsInv(w); }
    case Advance =>
      if w.session.Running? && w.session.page.Some? && w.session.page.value.pending == [] { AdvanceKeepsInv(w); }
    case Abort =>
    case Edit(slug, text) => EditKeepsInvIff(w, slug, text);
  }

  /** A run: transactions, fetches, entry steps, aborts and restarts in any order. */
  ghost predicate Legal(w: World, es: seq<Event>)
    decreases |es|
  {
    es == [] || (UniqueIds(w.db) && Allowed(w, es[0]) && Legal(Next(w, es[0]), es[1..]))
  }

  ghost function RunTo(w: World, es: seq<Event>): World
    requires Legal(w, es)
    decreases |es|
  {
    if es == [] then w else RunTo(Next(w, es[0]), es[1..])
  }

  /** A run in which every edit is a gentle one. */
  ghost predicate GentleRun(w: World, es: seq<Event>)
    requires Legal(w, es)
    decreases |es|
  {
    es == [] || (Gentle(w, es[0]) && GentleRun(Next(w, es[0]), es[1..]))
  }

  /** In every state of every run each row of the profile is ahead of the cursor, saved or in memory,
      or reflected; and every managed file shows content the registry published. */
  lemma {:induction false} EveryRunKeepsInv(w: World, es: seq<Event>)
    requires Inv(w) && Legal(w, es) && GentleRun(w, es)
    ensures Inv(RunTo(w, es))
    decreases |es|
  {
    hide Inv, Allowed, Next, Gentle;
    if es != [] {
      NextKeepsInv(w, es[0]);
      EveryRunKeepsInv(Next(w, es[0]), es[1..]);
    }
  }

  // ---------------------------------------------------------------- caught up

  /** No row of the profile is left after the saved cursor. */
  ghost predicate CaughtUp(w: World) {
    forall k | InProfile(w, k) :: !Ahead(w, Loaded(w.saved), k)
  }

  ghost predicate PromotedAt(w: World, slug: string, k: Key) {
    InProfile(w, k) && w.db.skills[k].status == Promoted && w.db.skills[k].slug == slug
  }

  /** The managed files are those of the promoted skills, less the slots a hand-authored file holds,
      and each shows its skill's current version. */
  ghost predicate MirrorIsExact(w: World) {
    && (forall slug :: SlotAt(w.y, w.files, slug).Managed? <==>
          (exists k :: PromotedAt(w, slug, k)) && !SlotAt(w.y, w.files, slug).HandAuthored?)
    && (forall slug, k | PromotedAt(w, slug, k) && !SlotAt(w.y, w.files, slug).HandAuthored? ::
          slug in w.files && Some(w.files[slug]) == FileFor(w.y, Shipped(Joined(w.db, k))))
  }

  lemma ManagedIsPromoted(w: World, slug: string)
    requires SlotOk(w, slug) && Covered(w, Loaded(w.saved)) && CaughtUp(w)
    requires SlotAt(w.y, w.files, slug).Managed?
    ensures exists k :: PromotedAt(w, slug, k)
  {
    hide SlotAt, FileFor, Genuine, Ahead, Joined, Loaded;
    var k, sk :| RenderedFrom(w, slug, k, sk);
    assert Reflected(w, k);
    assert PromotedAt(w, slug, k);
  }

  lemma PromotedIsMirrored(w: World, slug: string, k: Key)
    requires Trusted(w.y, w.db) && Usable(w.db, w.profile) && Covered(w, Loaded(w.saved)) && CaughtUp(w)
    requires PromotedAt(w, slug, k) && !SlotAt(w.y, w.files, slug).HandAuthored?
    ensures slug in w.files && Some(w.files[slug]) == FileFor(w.y, Shipped(Joined(w.db, k)))
    ensures SlotAt(w.y, w.files, slug).Managed?
  {
    hide SlotAt, Ahead, Joined, Loaded, Rendered, MarksBack, Slug, Trusted, Genuine, WellFormed, GoodRow;
    assert Reflected(w, k);
    var sk := Shipped(Joined(w.db, k));
    ShippedIsGenuine(w.db, k);
    GenuineIsReadable(w.y, w.db, k, sk);
    RenderedIsManaged(w.y, w.files, slug, sk);
  }

  lemma RenderedIsManaged(y: Yaml, files: Files, slug: string, sk: SyncSkill)
    requires Readable(y, Put(sk)) && slug in files && Some(files[slug]) == FileFor(y, sk)
    ensures SlotAt(y, files, slug) == Managed(MarkerFor(sk))
  {
    hide Parse, MarkerOf, Rendered;
  }

  /** Whenever a run has caught up with the registry, the directory is exactly the mirror of it. */
  lemma CaughtUpIsExact(w: World)
    requires Inv(w) && CaughtUp(w)
    ensures MirrorIsExact(w)
  {
    hide SlotAt, SlotOk, Covered, CaughtUp, Trusted, Usable, Loaded, Behind, Joined, FileFor;
    forall slug | SlotAt(w.y, w.files, slug).Managed? ensures exists k :: PromotedAt(w, slug, k) { ManagedIsPromoted(w, slug); }
    forall slug, k | PromotedAt(w, slug, k) && !SlotAt(w.y, w.files, slug).HandAuthored?
      ensures slug in w.files && Some(w.files[slug]) == FileFor(w.y, Shipped(Joined(w.db, k)))
      ensures SlotAt(w.y, w.files, slug).Managed?
    {
      PromotedIsMirrored(w, slug, k);
    }
  }

  // ---------------------------------------------------------------- a Sync nobody interrupts

  lemma {:induction false} RunConcat(w: World, a: seq<Event>, b: seq<Event>)
    requires Legal(w, a) && Legal(RunTo(w, a), b)
    ensures Legal(w, a + b) && RunTo(w, a + b) == RunTo(RunTo(w, a), b)
    decreases |a|
  {
    hide Allowed, Next, UniqueIds;
    if a == [] {
      assert a + b == b;
    } else {
      assert (a + b)[1..] == a[1..] + b;
      RunConcat(Next(w, a[0]), a[1..], b);
    }
  }

  lemma OneStep(w: World, e: Event)
    requires UniqueIds(w.db) && !e.Write? && !e.Edit?
    ensures Legal(w, [e]) && RunTo(w, [e]) == Next(w, e)
  {
    hide Next, UniqueIds;
    assert [e][1..] == [];
    assert Legal(Next(w, e), []);
  }

  lemma PendingNeverFails(w: World, e: Entry)
    requires Trusted(w.y, w.db) && PendingOk(w, e)
    ensures Reconciled(w.y, w.files, e).Some?
  {
    hide SlotAt, Slug, Trusted, Genuine, Reconciled, AheadOfAll, MarksBack, EntryOf, Joined;
    if e.Put? { GenuineIsReadable(w.y, w.db, Key(w.profile, NameOf(e)), e.skill); }
    EntryOnSlots(w.y, w.files, e);
  }

  lemma PendingHeadNeverFails(w: World)
    requires Inv(w) && w.session.Running? && w.session.page.Some? && w.session.page.value.pending != []
    ensures Reconciled(w.y, w.files, w.session.page.value.pending[0]).Some?
  {
    hide SlotOk, Covered, Behind, Loaded, Trusted, Usable, PendingOk, PageOk, Reconciled;
    FirstPending(w, w.session.page.value);
    PendingNeverFails(w, w.session.page.value.pending[0]);
  }

  /** What a Sync does once it has started. */
  predicate SyncSteps(es: seq<Event>) {
    forall i | 0 <= i < |es| :: es[i].Fetch? || es[i].ApplyOne? || es[i].Advance?
  }

  /** One Sync, with nobody else's steps between its own. */
  predicate IsSync(es: seq<Event>, reset: bool) { es != [] && es[0] == Start(reset) && SyncSteps(es[1..]) }

  function Drained(w: World, files: Files): World
    requires w.session.Running? && w.session.page.Some?
  {
    w.(files := files, session := Running(w.session.cursor, Some(Page([], w.session.page.value.next))))
  }

  lemma ExecuteOne(y: Yaml, files: Files, e: Entry, rest: seq<Entry>)
    requires Reconciled(y, files, e).Some?
    ensures var st := Reconciled(y, files, e).value;
            var o, p := Execute(y, false, files, [e] + rest), Execute(y, false, st.files, rest);
            o.files == p.files && o.ok == p.ok
  {
    hide Reconciled;
    ExecuteConcat(y, false, files, [e], rest);
    assert [e][..0] == [];
  }

  /** Working through a page entry by entry is the loop over the page. */
  lemma {:induction false} PageRun(w: World) returns (es: seq<Event>)
    requires Inv(w) && w.session.Running? && w.session.page.Some?
    ensures var o := Execute(w.y, false, w.files, w.session.page.value.pending);
            o.ok && Legal(w, es) && RunTo(w, es) == Drained(w, o.files) && Inv(Drained(w, o.files)) && SyncSteps(es)
    decreases |w.session.page.value.pending|
  {
    hide Inv, Reconciled, Execute, Allowed, UniqueIds, Legal, RunTo;
    var pending := w.session.page.value.pending;
    assert UniqueIds(w.db) && Trusted(w.y, w.db) by { InvBasics(w); }
    if pending == [] {
      es := [];
      NoEntriesRun(w);
      assert Drained(w, w.files) == w;
    } else {
      var e := pending[0];
      PendingHeadNeverFails(w);
      ApplyKeepsInv(w);
      var v := Next(w, ApplyOne);
      OneStep(w, ApplyOne);
      var rest := PageRun(v);
      RunConcat(w, [ApplyOne], rest);
      assert pending == [e] + pending[1..];
      ExecuteOne(w.y, w.files, e, pending[1..]);
      es := [ApplyOne] + rest;
    }
  }

  lemma InvBasics(w: World)
    requires Inv(w)
    ensures UniqueIds(w.db) && Trusted(w.y, w.db) && Servable(Index(w.db, w.profile))
  {
    hide SlotOk, Covered, Loaded, Trusted, Usable, PageOk, Behind, UniqueIds, Servable;
    UsableIds(w);
    UsableIsServable(w);
  }

  lemma NoEntriesRun(w: World)
    ensures Legal(w, []) && RunTo(w, []) == w && Execute(w.y, false, w.files, []) == Outcome(w.files, [], true)
  {
  }

  /** One round of the loop, as steps: fetch, work through the page, take its cursor. */
  lemma RoundRun(w: World, limit: int) returns (es: seq<Event>)
    requires Inv(w) && w.session.Running? && w.session.page == None
    ensures UniqueIds(w.db)
    ensures var rows := PageAt(Index(w.db, w.profile), w.session.cursor, limit);
            var next := CursorAfter(rows, Decode(w.session.cursor));
            var o := Execute(w.y, false, w.files, Entries(rows));
            var v := if next == "" || next == w.session.cursor
                     then w.(files := o.files, saved := Some(Saved(w.session.cursor)), session := Idle)
                     else w.(files := o.files, session := Running(next, None));
            o.ok && Legal(w, es) && RunTo(w, es) == v && Inv(v) && SyncSteps(es)
  {
    hide Inv, Execute, Allowed, UniqueIds, Legal, RunTo, Answer, PageAt, CursorAfter, Index, Puts, Drops, Entries, Decode, Saved;
    InvBasics(w);
    AnswerIsPage(ServerAt(w, limit), w.session.cursor);
    FetchKeepsInv(w, limit);
    OneStep(w, Fetch(limit));
    var a := Next(w, Fetch(limit));
    var page := PageRun(a);
    RunConcat(w, [Fetch(limit)], page);
    var b := RunTo(w, [Fetch(limit)] + page);
    AdvanceKeepsInv(b);
    OneStep(b, Advance);
    es := [Fetch(limit)] + page;
    RunConcat(w, es, [Advance]);
    es := es + [Advance];
  }

  lemma NothingAhead(w: World, cursor: string, limit: int)
    requires Usable(w.db, w.profile) && UniqueIds(w.db)
    requires CursorAfter(PageAt(Index(w.db, w.profile), cursor, limit), Decode(cursor)) == cursor
    requires w.saved == Some(Saved(cursor)) && Canonical(cursor) == cursor
    ensures CaughtUp(w)
  {
    hide Keyset.Less, Keyset.Scan, Decode, Encode, Index, Usable, Joined, UniqueIds, Loaded, Saved;
    var index := Index(w.db, w.profile);
    UsableIsServable(w);
    if Keyset.Scan(index.Keys, KeyOf(Decode(cursor)), Limit(limit)) != [] { FullPageStep(index, cursor, limit); }
    assert Keyset.Scan(index.Keys, KeyOf(Decode(cursor)), Limit(limit)) == [];
    EmptyScan(index.Keys, KeyOf(Decode(cursor)), Limit(limit));
    SavedIsLoaded(cursor);
    forall k | InProfile(w, k) ensures !Ahead(w, Loaded(w.saved), k) {
      ProfileIndex(w, k);
    }
  }

  lemma EmptyScan(keys: set<Keyset.Key>, from: Keyset.Key, n: nat)
    requires n > 0 && Keyset.Scan(keys, from, n) == []
    ensures forall k | k in keys :: !Keyset.Less(from, k)
  {
    hide Keyset.Less;
    Keyset.ScanIsPrefix(keys, from, n);
    Keyset.ScanAllIsSortedRest(keys, from);
  }

  /** The rounds of an uninterrupted Sync end caught up, with the files and the cursor its plan says. */
  lemma {:induction false} QuietRounds(w: World, limit: int, plan: Plan, effects: seq<Effect>) returns (es: seq<Event>)
    requires Inv(w) && w.session.Running? && w.session.page == None && UniqueIds(w.db)
    requires plan.y == w.y && !plan.dry && plan.index == Index(w.db, w.profile) && plan.page == limit
    requires plan.At(w.session.cursor, w.files, effects)
    ensures var done := w.(files := plan.Goal().files, saved := Some(Saved(plan.End())), session := Idle);
            plan.Goal().ok && Legal(w, es) && RunTo(w, es) == done && Inv(done) && CaughtUp(done) && SyncSteps(es)
    decreases plan.Remaining(w.session.cursor), if Canonical(w.session.cursor) == w.session.cursor then 0 else 1
  {
    hide Inv, Execute, Allowed, UniqueIds, Legal, RunTo, PageAt, CursorAfter, Index, Entries, Decode, Saved, Canonical,
         CaughtUp, Plan.At, Plan.Goal, Plan.End, Plan.Remaining;
    var cursor := w.session.cursor;
    var rows := PageAt(plan.index, cursor, limit);
    var next := CursorAfter(rows, Decode(cursor));
    var o := Execute(w.y, false, w.files, Entries(rows));
    var round := RoundRun(w, limit);
    plan.Round(cursor, w.files, effects, o);
    var v := RunTo(w, round);
    if next == cursor {
      es := round;
      CaughtUpAtEnd(v, cursor, limit);
    } else {
      var rest := QuietRounds(v, limit, plan, effects + o.effects);
      RunConcat(w, round, rest);
      es := round + rest;
    }
  }

  lemma CaughtUpAtEnd(w: World, cursor: string, limit: int)
    requires Inv(w) && UniqueIds(w.db) && w.saved == Some(Saved(cursor))
    requires CursorAfter(PageAt(Index(w.db, w.profile), cursor, limit), Decode(cursor)) == cursor
    ensures CaughtUp(w)
  {
    hide SlotOk, Covered, Behind, Loaded, Trusted, PageOk, Usable, CaughtUp, Index, UniqueIds, Keyset.Scan, Decode, Encode, Saved;
    var index := Index(w.db, w.profile);
    UsableIsServable(w);
    assert Canonical(cursor) == cursor by {
      if Keyset.Scan(index.Keys, KeyOf(Decode(cursor)), Limit(limit)) == [] { EmptyPageStep(index, cursor, limit); }
      else { FullPageStep(index, cursor, limit); }
    }
    NothingAhead(w, cursor, limit);
  }

  /** A Sync that runs while nobody writes (its contract is Syncer.Sync's) is a run of this machine,
      succeeds, and leaves the managed files equal to the promoted skills, less the slots that a
      hand-authored file holds. It may follow any history of writes, aborted and finished Syncs. */
  lemma QuietSyncMirrors(w: World, reset: bool, limit: int) returns (es: seq<Event>)
    requires Inv(w) && w.session.Idle?
    ensures UniqueIds(w.db)
    ensures var start := if reset then "" else Loaded(w.saved);
            var plan := Plan(w.y, false, w.files, Index(w.db, w.profile), limit, start);
            var done := w.(files := plan.Goal().files, saved := Some(Saved(plan.End())));
            && plan.Goal().ok && Legal(w, es) && RunTo(w, es) == done
            && Inv(done) && CaughtUp(done) && MirrorIsExact(done)
            && IsSync(es, reset)
  {
    hide Inv, Execute, Allowed, UniqueIds, Legal, RunTo, Index, Decode, Saved, Canonical, CaughtUp, MirrorIsExact, Loaded,
         Plan.At, Plan.Goal, Plan.End, Plan.Remaining, Servable;
    InvBasics(w);
    StartKeepsInv(w, reset);
    OneStep(w, Start(reset));
    var start := if reset then "" else Loaded(w.saved);
    var plan := Plan(w.y, false, w.files, Index(w.db, w.profile), limit, start);
    plan.Begin();
    var v := Next(w, Start(reset));
    var rest := QuietRounds(v, limit, plan, []);
    RunConcat(w, [Start(reset)], rest);
    es := [Start(reset)] + rest;
    assert es[1..] == rest;
    CaughtUpIsExact(RunTo(w, es));
  }

  /** The whole story of a machine: it starts without managed files, lives through any run of writes,
      fetches, single entries, aborts and restarts, and then one Sync goes through undisturbed. */
  lemma AnyHistoryThenQuietSync(w: World, history: seq<Event>, reset: bool, limit: int) returns (es: seq<Event>)
    requires Fresh(w) && Legal(w, history) && GentleRun(w, history) && RunTo(w, history).session.Idle?
    ensures Legal(w, history + es)
    ensures var before, end := RunTo(w, history), RunTo(w, history + es);
            && end.db == before.db && end.session.Idle? && Inv(end) && CaughtUp(end) && MirrorIsExact(end)
    ensures IsSync(es, reset)
  {
    hide Fresh, Inv, Execute, Legal, RunTo, Index, Decode, Saved, CaughtUp, MirrorIsExact, Loaded, Plan.Goal, Plan.End;
    FreshInv(w);
    EveryRunKeepsInv(w, history);
    es := QuietSyncMirrors(RunTo(w, history), reset, limit);
    RunConcat(w, history, es);
  }

  // ---------------------------------------------------------------- whatever the user does

  /** What no edit of an unmanaged file can break: managed files, and the entries on their way, show
      content of published skills. */
  ghost predicate Sound(w: World) {
    && Trusted(w.y, w.db) && Usable(w.db, w.profile)
    && (forall slug :: SlotOk(w, slug))
    && (w.session.Running? && w.session.page.Some? ==> forall e | e in w.session.page.value.pending :: EntrySound(w, e))
  }

  lemma FreshSound(w: World)
    requires Fresh(w)
    ensures Sound(w)
  {
    hide Trusted, Usable, SlotAt;
  }

  lemma WriteKeepsEntry(w: World, v: World, e: Entry)
    requires v == w.(db := v.db) && Evolves(w.db, v.db) && EntrySound(w, e)
    ensures EntrySound(v, e)
  {
    hide Genuine;
    var k := Key(w.profile, NameOf(e));
    assert Follows(w.db.skills[k], v.db.skills[k]);
    if e.Put? { GenuineSurvives(w.db, v.db, k, e.skill); }
  }

  lemma WriteKeepsSound(w: World, op: Op)
    requires Sound(w) && Allowed(w, Write(op))
    ensures Sound(w.(db := Apply(w.db, op)))
  {
    hide SlotOk, Trusted, Evolves, EntrySound, WellFormed, GoodRow, Apply;
    var v := w.(db := Apply(w.db, op));
    ApplyEvolves(w.db, op);
    forall slug ensures SlotOk(v, slug) { WriteKeepsSlot(w, v, slug); }
    if w.session.Running? && w.session.page.Some? {
      forall e | e in w.session.page.value.pending ensures EntrySound(v, e) { WriteKeepsEntry(w, v, e); }
    }
  }

  lemma FetchKeepsSound(w: World, limit: int)
    requires Sound(w) && UniqueIds(w.db) && w.session.Running? && w.session.page == None
    ensures Sound(Next(w, Fetch(limit)))
  {
    hide SlotOk, Trusted, Usable, EntrySound, PendingOk, Index, PageAt, Puts, Drops, Entries, Answer, CursorAfter, UniqueIds;
    var v := Next(w, Fetch(limit));
    AnswerIsPage(ServerAt(w, limit), w.session.cursor);
    SameView(w, v);
    forall e | e in v.session.page.value.pending ensures EntrySound(v, e) {
      FetchedPageEntry(v, w.session.cursor, limit, e);
      PendingIsSound(v, e);
    }
  }

  lemma ApplyKeepsSound(w: World)
    requires Sound(w) && UniqueIds(w.db)
    requires w.session.Running? && w.session.page.Some? && w.session.page.value.pending != []
    ensures Sound(Next(w, ApplyOne))
  {
    hide SlotOk, Trusted, Usable, EntrySound, Reconciled, Target, UniqueIds;
    var v, p := Next(w, ApplyOne), w.session.page.value;
    var e := p.pending[0];
    assert e in p.pending;
    if Reconciled(w.y, w.files, e) == None {
      SameView(w, v);
    } else {
      PendingTarget(w, e);
      TouchedSlot(w, v, e);
      forall slug ensures SlotOk(v, slug) {
        if slug != Target(e) { OtherSlot(w, v, e, slug); }
      }
      forall d | d in p.pending[1..] ensures EntrySound(v, d) {
        assert d in p.pending;
        SameEntry(w, v, d);
      }
    }
  }

  lemma SameEntry(w: World, v: World, e: Entry)
    requires v.db == w.db && v.profile == w.profile && EntrySound(w, e)
    ensures EntrySound(v, e)
  {
    hide Genuine;
  }

  lemma EditKeepsSound(w: World, slug: string, text: Option<string>)
    requires Sound(w) && Allowed(w, Edit(slug, text))
    ensures Sound(w.(files := Edited(w.files, slug, text)))
  {
    hide SlotOk, Trusted, Usable, EntrySound, Allowed, Edited;
    var v := w.(files := Edited(w.files, slug, text));
    forall any ensures SlotOk(v, any) { EditKeepsSlots(w, slug, text, any); }
    if w.session.Running? && w.session.page.Some? {
      forall e | e in w.session.page.value.pending ensures EntrySound(v, e) { SameEntry(w, v, e); }
    }
  }

  lemma NextKeepsSound(w: World, e: Event)
    requires Sound(w) && Allowed(w, e)
    ensures UniqueIds(w.db) && Sound(Next(w, e))
  {
    hide SlotOk, Trusted, Usable, EntrySound, Allowed, UniqueIds, Answer, Reconciled, Apply, Edited;
    UsableIds(w);
    SameView(w, w.(session := Next(w, e).session, saved := Next(w, e).saved));
    match e
    case Write(op) => WriteKeepsSound(w, op);
    case Start(_) =>
    case Fetch(limit) => if w.session.Running? && w.session.page == None { FetchKeepsSound(w, limit); }
    case ApplyOne =>
      if w.session.Running? && w.session.page.Some? && w.session.page.value.pending != [] { ApplyKeepsSound(w); }
    case Advance =>
    case Abort =>
    case Edit(slug, text) => EditKeepsSound(w, slug, text);
  }

  lemma {:induction false} EveryRunKeepsSound(w: World, es: seq<Event>)
    requires Sound(w) && Legal(w, es)
    ensures Sound(RunTo(w, es))
    decreases |es|
  {
    hide Sound, Allowed, Next;
    if es != [] {
      NextKeepsSound(w, es[0]);
      EveryRunKeepsSound(Next(w, es[0]), es[1..]);
    }
  }

  /** A Sync in progress does not read the cursor file: it overwrites it, or leaves it. */
  lemma StepForgets(w: World, v: World, e: Event)
    requires v == w.(saved := v.saved) && UniqueIds(w.db) && SyncSteps([e])
    ensures var x, z := Next(w, e), Next(v, e);
            x == z || (z == x.(saved := v.saved) && x.saved == w.saved)
  {
    hide UniqueIds, Answer, Reconciled, Saved;
    assert [e][0] == e;
  }

  lemma {:induction false} RunForgets(w: World, v: World, es: seq<Event>)
    requires v == w.(saved := v.saved) && SyncSteps(es) && Legal(v, es)
    ensures Legal(w, es)
    ensures RunTo(w, es) == RunTo(v, es) || (RunTo(v, es) == RunTo(w, es).(saved := v.saved) && RunTo(w, es).saved == w.saved)
    decreases |es|
  {
    hide Next, UniqueIds;
    if es != [] {
      var x, z := Next(w, es[0]), Next(v, es[0]);
      assert SyncSteps([es[0]]) && SyncSteps(es[1..]);
      StepForgets(w, v, es[0]);
      if x == z {
        assert Allowed(w, es[0]);
      } else {
        RunForgets(x, z, es[1..]);
      }
    }
  }

  /** Without a cursor file a sound idle machine has the whole invariant: everything is ahead. */
  lemma ForgottenIsCovered(w: World)
    requires Sound(w) && w.session.Idle?
    ensures Inv(w.(saved := None))
  {
    hide SlotOk, Trusted, Usable, Covered, Decode;
    var v := w.(saved := None);
    assert Loaded(v.saved) == "";
    SameView(w, v);
    UsableClock(v);
    BootstrapIsBehind(v.db);
    FreshCovers(v);
  }

  lemma UsableClock(w: World)
    requires Usable(w.db, w.profile)
    ensures 0 <= w.db.clock
  {
    hide WellFormed, GoodRow;
  }

  /** One undisturbed Reset Sync repairs the mirror, whatever was done to unmanaged files before. */
  lemma ResetRepairs(w: World, limit: int) returns (es: seq<Event>)
    requires Sound(w) && w.session.Idle?
    ensures Legal(w, es)
    ensures var end := RunTo(w, es);
            end.db == w.db && end.session.Idle? && Inv(end) && CaughtUp(end) && MirrorIsExact(end)
    ensures IsSync(es, true)
  {
    hide Inv, Sound, Execute, Allowed, UniqueIds, Index, Decode, Saved, CaughtUp, MirrorIsExact, Loaded, Plan.Goal, Plan.End, Next;
    var v := w.(saved := None);
    ForgottenIsCovered(w);
    es := QuietSyncMirrors(v, true, limit);
    ResetStart(w, v);
    RunForgets(Next(w, Start(true)), Next(v, Start(true)), es[1..]);
    assert Allowed(w, Start(true)) by { StartIsAllowed(w, true); }
    assert RunTo(v, es) == RunTo(Next(v, es[0]), es[1..]);
    assert RunTo(w, es) == RunTo(Next(w, es[0]), es[1..]);
  }

  lemma StartIsAllowed(w: World, reset: bool)
    ensures Allowed(w, Start(reset))
  {
  }

  lemma ResetStart(w: World, v: World)
    requires v == w.(saved := None) && w.session.Idle? && UniqueIds(w.db)
    ensures Next(v, Start(true)) == Next(w, Start(true)).(saved := None)
  {
    hide UniqueIds;
  }

  /** The whole story with an untidy user: after any run whatever, with any edits of unmanaged files, one
      undisturbed Reset Sync ends with the exact mirror. */
  lemma AnyHistoryThenResetSync(w: World, history: seq<Event>, limit: int) returns (es: seq<Event>)
    requires Fresh(w) && Legal(w, history) && RunTo(w, history).session.Idle?
    ensures Legal(w, history + es)
    ensures var before, end := RunTo(w, history), RunTo(w, history + es);
            && end.db == before.db && end.session.Idle? && Inv(end) && CaughtUp(end) && MirrorIsExact(end)
    ensures IsSync(es, true)
  {
    hide Fresh, Sound, Inv, Legal, RunTo, CaughtUp, MirrorIsExact;
    FreshSound(w);
    EveryRunKeepsSound(w, history);
    es := ResetRepairs(RunTo(w, history), limit);
    RunConcat(w, history, es);
  }

  // ---------------------------------------------------------------- pulling everything again

  /** A reflected row leaves its entry nothing to do. */
  lemma ReflectedIsSettled(w: World, k: Key, e: Entry)
    requires Trusted(w.y, w.db) && Usable(w.db, w.profile) && InProfile(w, k) && Reflected(w, k)
    requires EntryOf(Joined(w.db, k)) == Some(e)
    ensures Settled(w.y, w.files, e)
  {
    hide SlotAt, Slug, Reconciled, Trusted, Genuine, MarksBack, Rendered, TableOk;
    assert GoodRow(k, w.db.skills[k]);
    assert Target(e) == w.db.skills[k].slug;
    if e.Put? {
      ShippedIsGenuine(w.db, k);
      GenuineIsReadable(w.y, w.db, k, e.skill);
      if !SlotAt(w.y, w.files, Target(e)).HandAuthored? { RenderedIsManaged(w.y, w.files, Target(e), e.skill); }
    }
    EntryOnSlots(w.y, w.files, e);
  }

  /** What the saved cursor has passed is mirrored, in every state of every run. */
  lemma InvIsMirrored(w: World)
    requires Inv(w)
    ensures UniqueIds(w.db)
    ensures MirroredUpTo(w.y, w.files, Index(w.db, w.profile), KeyOf(Decode(Loaded(w.saved))))
  {
    hide SlotOk, Behind, PageOk, Loaded, Trusted, Usable, Index, Decode, Keyset.Less, Settled, EntryOf, Joined, Reflected, UniqueIds;
    UsableIds(w);
    var index, from := Index(w.db, w.profile), KeyOf(Decode(Loaded(w.saved)));
    forall e | FromIndex(index, [], e) && !FromIndex(index, from, e) ensures Settled(w.y, w.files, e) {
      var key :| key in index && Keyset.Less([], key) && EntryOf(index[key]) == Some(e);
      var k := IndexRow(w, key);
      assert Ahead(w, Loaded(w.saved), k) <==> Keyset.Less(from, key);
      ReflectedIsSettled(w, k, e);
    }
  }

  lemma NothingLeftAfter(w: World, e: Entry)
    requires Usable(w.db, w.profile) && CaughtUp(w) && UniqueIds(w.db)
    ensures !FromIndex(Index(w.db, w.profile), KeyOf(Decode(Loaded(w.saved))), e)
  {
    hide Usable, Index, Decode, Keyset.Less, EntryOf, Joined, Loaded, UniqueIds;
    var index, from := Index(w.db, w.profile), KeyOf(Decode(Loaded(w.saved)));
    forall key | key in index ensures !Keyset.Less(from, key) {
      var k := IndexRow(w, key);
      assert !Ahead(w, Loaded(w.saved), k);
    }
  }

  /** Once caught up, a Sync from any cursor, with Reset or without, writes and deletes nothing: its
      whole run is quiet. */
  lemma CaughtUpIsQuiet(w: World, dry: bool, limit: int, start: string)
    requires Inv(w) && CaughtUp(w)
    ensures UniqueIds(w.db)
    ensures var again := Plan(w.y, dry, w.files, Index(w.db, w.profile), limit, start);
            && again.Goal().ok && again.Goal().files == w.files && AllQuiet(again.Goal().effects)
            && (var r := ReportOf(again.Goal().effects, dry); r.written == 0 && r.deleted == 0 && r.changes == [])
  {
    hide SlotOk, Covered, Behind, PageOk, Loaded, Trusted, Usable, Index, CaughtUp, Settled, FromIndex, UniqueIds, Decode,
         Keyset.Less, ReportOf, AllEntries, Execute, Servable;
    InvIsMirrored(w);
    UsableIsServable(w);
    var index := Index(w.db, w.profile);
    var from := KeyOf(Decode(start));
    var es := AllEntries(index, from, Limit(limit));
    forall e | e in es ensures Settled(w.y, w.files, e) {
      AllEntriesExact(index, from, Limit(limit), e);
      FromTheStart(index, from, e);
      NothingLeftAfter(w, e);
    }
    SettledRunIsQuiet(w.y, dry, w.files, es);
    QuietReport(Execute(w.y, dry, w.files, es).effects, dry);
  }

  /** After any history and one undisturbed Sync, a following Reset Sync writes nothing and deletes nothing. */
  lemma ResetAfterSyncIsQuiet(w: World, history: seq<Event>, reset: bool, limit: int, dry: bool, page: int) returns (es: seq<Event>)
    requires Fresh(w) && Legal(w, history) && (GentleRun(w, history) || reset) && RunTo(w, history).session.Idle?
    ensures Legal(w, history + es) && IsSync(es, reset)
    ensures var end := RunTo(w, history + es);
            && end.db == RunTo(w, history).db && end.session.Idle? && MirrorIsExact(end) && UniqueIds(end.db)
            && var again := Plan(end.y, dry, end.files, Index(end.db, end.profile), page, "");
               && again.Goal().ok && again.Goal().files == end.files
               && (var r := ReportOf(again.Goal().effects, dry); r.written == 0 && r.deleted == 0 && r.changes == [])
  {
    hide Fresh, Inv, Legal, RunTo, Index, CaughtUp, MirrorIsExact, ReportOf, UniqueIds, Plan.Goal;
    if reset { es := AnyHistoryThenResetSync(w, history, limit); }
    else { es := AnyHistoryThenQuietSync(w, history, reset, limit); }
    CaughtUpIsQuiet(RunTo(w, history + es), dry, page, "");
  }

  /** A real Sync from the saved cursor finds what ResetIsQuiet asks for, wherever the run stands. */
  lemma SavedCursorMeetsReset(w: World, limit: int)
    requires Inv(w)
    ensures UniqueIds(w.db)
    ensures var plan := Plan(w.y, false, w.files, Index(w.db, w.profile), limit, Loaded(w.saved));
            && Servable(plan.index) && GoodSlugs(plan.index) && ReadableIndex(plan.y, plan.index)
            && MirroredUpTo(plan.y, plan.files, plan.index, KeyOf(Decode(plan.start)))
  {
    hide SlotOk, Covered, Behind, PageOk, Loaded, Trusted, Usable, Index, UniqueIds, Decode, Servable, GoodSlugs, EntryOf, Joined,
         Readable, MirroredUpTo;
    InvIsMirrored(w);
    UsableIsServable(w);
    UsableSlugs(w);
    var index := Index(w.db, w.profile);
    forall key | key in index && EntryOf(index[key]).Some? ensures Readable(w.y, EntryOf(index[key]).value) {
      var k := IndexRow(w, key);
      RowIsReadable(w, k, EntryOf(index[key]).value);
    }
  }

  lemma RowIsReadable(w: World, k: Key, e: Entry)
    requires Trusted(w.y, w.db) && Usable(w.db, w.profile) && InProfile(w, k) && EntryOf(Joined(w.db, k)) == Some(e)
    ensures Readable(w.y, e)
  {
    hide Trusted, Genuine, MarksBack, WellFormed, GoodRow;
    if e.Put? {
      ShippedIsGenuine(w.db, k);
      GenuineIsReadable(w.y, w.db, k, e.skill);
    }
  }

  // ---------------------------------------------------------------- a removal that is not noticed

  /** The user removes a hand-authored file from the slot of a promoted skill that the cursor has passed:
      the invariant is gone, and a Sync without Reset does nothing about it. */
  lemma RemovalIsNotNoticed(w: World, slug: string, k: Key, limit: int)
    requires Inv(w) && CaughtUp(w) && w.session.Idle? && PromotedAt(w, slug, k) && SlotAt(w.y, w.files, slug).HandAuthored?
    ensures var v := w.(files := w.files - {slug});
            && Allowed(w, Edit(slug, None)) && UniqueIds(w.db) && Next(w, Edit(slug, None)) == v
            && !Inv(v) && !MirrorIsExact(v)
            && Plan(v.y, false, v.files, Index(v.db, v.profile), limit, Loaded(v.saved)).Goal() == Outcome(v.files, [], true)
  {
    hide SlotAt, SlotOk, Covered, Behind, PageOk, Loaded, Trusted, Usable, Index, UniqueIds, Ahead, Decode, AllEntries, Joined, FileFor,
         Reflected, CaughtUp;
    UsableIds(w);
    var v := w.(files := w.files - {slug});
    MissingSlot(v.y, v.files, slug);
    EditKeepsInvIff(w, slug, None);
    NotAhead(w, k);
    NothingLeft(w, limit);
    assert PromotedAt(v, slug, k);
  }

  lemma NotAhead(w: World, k: Key)
    requires CaughtUp(w) && InProfile(w, k)
    ensures !Ahead(w, Loaded(w.saved), k)
  {
    hide Ahead, Loaded;
  }

  lemma NothingLeft(w: World, limit: int)
    requires Usable(w.db, w.profile) && CaughtUp(w) && UniqueIds(w.db)
    ensures AllEntries(Index(w.db, w.profile), KeyOf(Decode(Loaded(w.saved))), Limit(limit)) == []
  {
    hide Usable, CaughtUp, UniqueIds, Index, Decode, Loaded, FromIndex, AllEntries;
    var index, from := Index(w.db, w.profile), KeyOf(Decode(Loaded(w.saved)));
    var es := AllEntries(index, from, Limit(limit));
    if es != [] {
      var e := es[0];
      AllEntriesExact(index, from, Limit(limit), e);
      NothingLeftAfter(w, e);
    }
  }

  const LINT := Key("personal", "lint")

  const LINT_DB := Db(map[LINT := Skill(1, "lint", Promoted, Authored, [], None, 1)], [], 2, 1)

  /** A machine that is up to date, with a hand-authored file where the one promoted skill would go. */
  function LintWorld(): World {
    World(ToyYaml(), "personal", LINT_DB, map["lint" := "notes"], Some(Saved(Encode(Position(1000, 1)))), Idle)
  }

  lemma LintIsUsable()
    ensures Usable(LINT_DB, "personal")
  {
    hide Slug;
    LintSlug();
  }

  lemma LintIsSettled()
    ensures Decode(Loaded(LintWorld().saved)) == Position(1000, 1)
  {
    hide Decode, Encode;
    DecodeOfEncode(Position(1000, 1));
    LoadOfSave(Position(1000, 1));
  }

  lemma LintSlots()
    ensures var w := LintWorld();
            SlotAt(w.y, w.files, "lint") == HandAuthored && forall slug :: !SlotAt(w.y, w.files, slug).Managed?
  {
    hide SlotAt;
    var w := LintWorld();
    NotesAreHandAuthored(w.y, w.files, "lint");
    SlotMeans(w.y, w.files, "lint");
    forall slug ensures !SlotAt(w.y, w.files, slug).Managed? { MissingSlot(w.y, w.files, slug); }
  }

  /** Such a machine exists, so the removal is an input the whole protocol admits. */
  lemma LintIsCaughtUp()
    ensures var w := LintWorld();
            Inv(w) && CaughtUp(w) && PromotedAt(w, "lint", LINT) && SlotAt(w.y, w.files, "lint").HandAuthored?
  {
    hide Slug, SlotAt, Decode, Encode, Loaded, Saved, Usable, ToyYaml, FileFor, Legible;
    var w := LintWorld();
    LintIsUsable();
    LintIsSettled();
    LintSlots();
    ToyIsLegible();
  }

  lemma ToyIsLegible()
    ensures Legible(ToyYaml(), NO_CONTENT)
  {
    hide MarksBack, ToyYaml;
    forall o: Origin ensures MarksBack(ToyYaml(), map[], "", Marker(OriginText(o), "promoted", "")) {
      ToyMarksBack(OriginText(o));
    }
  }
}
