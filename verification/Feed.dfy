/** The change feed: SyncFeed (internal/pgstore/pgstore.go) paged by handleSync
    (internal/server/handlers_sync.go), and the keyset listing ListSkills. */
module Feed {
  import opened Outcomes
  import opened SkillFile
  import opened Registry
  import opened Cursor
  import Keyset
  import Text

  datatype FeedRow = FeedRow(id: nat, name: string, slug: string, status: Status, origin: Origin,
                             sha: string, fm: Frontmatter, body: string, updatedAt: int)

  datatype SyncSkill = SyncSkill(name: string, slug: string, status: string, origin: string,
                                 sha: string, fm: Frontmatter, body: string)

  datatype Response = Response(skills: seq<SyncSkill>, deletes: seq<string>, cursor: string)

  /** A daemon as one authenticated client sees it: its tables, the profile of the binding, the page size. */
  datatype Server = Server(db: Db, profile: string, page: int)

  ghost predicate UniqueIds(db: Db) {
    forall k, l | k in db.skills && l in db.skills && db.skills[k].id == db.skills[l].id :: k == l
  }

  /** LEFT JOIN skill_versions ON v.id = s.current_version_id, with the COALESCEs of the query. */
  function Joined(db: Db, k: Key): FeedRow
    requires k in db.skills
  {
    var s := db.skills[k];
    if s.head.Some? && s.head.value < |db.versions| then
      var v := db.versions[s.head.value];
      FeedRow(s.id, k.name, s.slug, s.status, s.origin, v.sha, v.fm, v.body, s.updatedAt)
    else
      FeedRow(s.id, k.name, s.slug, s.status, s.origin, "", map[], "", s.updatedAt)
  }

  function SortKey(s: Skill): Keyset.Key { [s.updatedAt, s.id] }

  /** The profile's rows by (updated_at, id). */
  function Index(db: Db, profile: string): (index: RowIndex)
    requires UniqueIds(db)
  {
    map k | k in db.skills && k.profile == profile :: SortKey(db.skills[k]) := Joined(db, k)
  }

  function Limit(limit: int): (n: nat)
    ensures 1 <= n <= 500
  {
    if limit <= 0 || limit > 500 then 100 else limit
  }

  type RowIndex = Keyset.Table<FeedRow>

  function Rows(index: RowIndex, ks: seq<Keyset.Key>): seq<FeedRow>
    requires forall i | 0 <= i < |ks| :: ks[i] in index
  {
    Keyset.Rows(index, ks)
  }

  function SyncFeed(db: Db, profile: string, since: Position, limit: int): seq<FeedRow>
    requires UniqueIds(db)
  {
    var index := Index(db, profile);
    Rows(index, Keyset.Scan(index.Keys, KeyOf(since), Limit(limit)))
  }

  function PositionOf(r: FeedRow): Position { Position(r.updatedAt * 1000, r.id) }

  function StatusText(s: Status): string {
    match s case Draft => "draft" case Local => "local" case Promoted => "promoted" case Retired => "retired"
  }

  function Shipped(r: FeedRow): SyncSkill {
    SyncSkill(r.name, r.slug, StatusText(r.status), OriginText(r.origin), r.sha, r.fm, r.body)
  }

  function Promotions(rows: seq<FeedRow>): seq<SyncSkill> {
    if rows == [] then []
    else Promotions(rows[..|rows| - 1]) + if rows[|rows| - 1].status == Promoted then [Shipped(rows[|rows| - 1])] else []
  }

  function Deletions(rows: seq<FeedRow>): seq<string> {
    if rows == [] then []
    else Deletions(rows[..|rows| - 1]) + if rows[|rows| - 1].status == Retired then [rows[|rows| - 1].name] else []
  }

  function CursorAfter(rows: seq<FeedRow>, since: Position): string {
    Encode(if rows == [] then since else PositionOf(rows[|rows| - 1]))
  }

  function Respond(rows: seq<FeedRow>, since: Position): Response {
    Response(Promotions(rows), Deletions(rows), CursorAfter(rows, since))
  }

  function Answer(server: Server, since: string): Response
    requires UniqueIds(server.db)
  {
    Respond(SyncFeed(server.db, server.profile, Decode(since), server.page), Decode(since))
  }

  /** handleSync: partition one page by status and report how far it got. */
  method HandleSync(server: Server, since: string) returns (resp: Response)
    requires UniqueIds(server.db)
    ensures resp == Answer(server, since)
  {
    var position := Decode(since);
    var rows := SyncFeed(server.db, server.profile, position, server.page);
    var skills: seq<SyncSkill> := [];
    var deletes: seq<string> := [];
    var cursor := Encode(position);
    for n := 0 to |rows|
      invariant skills == Promotions(rows[..n])
      invariant deletes == Deletions(rows[..n])
      invariant cursor == CursorAfter(rows[..n], position)
    {
      var row := rows[n];
      assert rows[..n + 1][..n] == rows[..n];
      match row.status {
        case Promoted => skills := skills + [Shipped(row)];
        case Retired => deletes := deletes + [row.name];
        case _ =>
      }
      cursor := Encode(PositionOf(row));
    }
    assert rows[..|rows|] == rows;
    resp := Response(skills, deletes, cursor);
  }

  // ---------------------------------------------------------------- what a page means

  /** The row sorts after the position, whose nanoseconds the query rounds down to microseconds. */
  predicate Past(s: Skill, at: Position) {
    s.updatedAt > at.nanos / 1000 || (s.updatedAt == at.nanos / 1000 && s.id > at.id)
  }

  /** One row sorts before another: by timestamp, then by id. */
  predicate Precedes(at: int, id: int, bt: int, jd: int) { at < bt || (at == bt && id < jd) }

  /** The row says what the tables say of the skill, with the content of its head, or none. */
  predicate Tells(db: Db, k: Key, r: FeedRow)
    requires k in db.skills
  {
    var s := db.skills[k];
    && r.id == s.id && r.name == k.name && r.slug == s.slug && r.status == s.status && r.origin == s.origin
    && r.updatedAt == s.updatedAt
    && (s.head.Some? && s.head.value < |db.versions| ==>
          var v := db.versions[s.head.value]; r.sha == v.sha && r.fm == v.fm && r.body == v.body)
    && (s.head.None? ==> r.sha == "" && r.fm == map[] && r.body == "")
  }

  lemma PairLess(a: int, b: int, c: int, d: int)
    ensures Keyset.Less([a, b], [c, d]) <==> Precedes(a, b, c, d)
  {
    assert [a, b][1..] == [b] && [c, d][1..] == [d] && [b][1..] == [];
    assert Keyset.Less([b], [d]) <==> b < d;
  }

  lemma IndexRow(db: Db, profile: string, key: Keyset.Key) returns (k: Key)
    requires UniqueIds(db) && key in Index(db, profile)
    ensures k in db.skills && k.profile == profile && SortKey(db.skills[k]) == key
    ensures Tells(db, k, Index(db, profile)[key])
  {
    k :| k in db.skills && k.profile == profile && SortKey(db.skills[k]) == key && Joined(db, k) == Index(db, profile)[key];
  }

  ghost predicate Reads(db: Db, profile: string, since: Position, r: FeedRow) {
    exists k :: k in db.skills && k.profile == profile && Past(db.skills[k], since) && Tells(db, k, r)
  }

  /** The skill is on the page, or the page is full of rows that come before it. */
  ghost predicate OnPageOrLater(db: Db, k: Key, page: seq<FeedRow>, max: nat)
    requires k in db.skills
  {
    || (exists r :: r in page && Tells(db, k, r))
    || (|page| == max && forall r | r in page :: Precedes(r.updatedAt, r.id, db.skills[k].updatedAt, db.skills[k].id))
  }

  lemma PageKey(db: Db, profile: string, since: Position, limit: int, i: nat)
    requires UniqueIds(db) && i < |SyncFeed(db, profile, since, limit)|
    ensures var page := SyncFeed(db, profile, since, limit);
            && Keyset.Scan(Index(db, profile).Keys, KeyOf(since), Limit(limit))[i] == [page[i].updatedAt, page[i].id]
            && Reads(db, profile, since, page[i])
  {
    hide Index, Keyset.Less, Keyset.Scan, Tells;
    var index, from := Index(db, profile), KeyOf(since);
    var ks := Keyset.Scan(index.Keys, from, Limit(limit));
    var row := SyncFeed(db, profile, since, limit)[i];
    Keyset.PageMeans(index.Keys, from, Limit(limit));
    assert ks[i] in ks;
    var k := IndexRow(db, profile, ks[i]);
    TellsKey(db, k, row);
    PairLess(since.nanos / 1000, since.id, row.updatedAt, row.id);
    assert Past(db.skills[k], since);
  }

  lemma PageLeaves(db: Db, profile: string, since: Position, limit: int, k: Key)
    requires UniqueIds(db) && k in db.skills && k.profile == profile && Past(db.skills[k], since)
    ensures OnPageOrLater(db, k, SyncFeed(db, profile, since, limit), Limit(limit))
  {
    hide Index, Keyset.Less, Keyset.Scan, Tells;
    var index, from := Index(db, profile), KeyOf(since);
    var ks := Keyset.Scan(index.Keys, from, Limit(limit));
    var page := SyncFeed(db, profile, since, limit);
    Keyset.PageMeans(index.Keys, from, Limit(limit));
    var s := db.skills[k];
    var key := [s.updatedAt, s.id];
    IndexHas(db, profile, k);
    PairLess(since.nanos / 1000, since.id, s.updatedAt, s.id);
    if key in ks {
      var i :| 0 <= i < |ks| && ks[i] == key;
      assert page[i] in page;
    } else {
      forall r | r in page ensures Precedes(r.updatedAt, r.id, s.updatedAt, s.id) {
        var i :| 0 <= i < |page| && page[i] == r;
        PageKey(db, profile, since, limit, i);
        assert ks[i] in ks;
        PairLess(r.updatedAt, r.id, s.updatedAt, s.id);
      }
    }
  }

  /** What the query behind the feed returns, however it finds it: rows of the profile after the position,
      in order of timestamp and id, as many as asked for between 1 and 500 and else 100; a row is only left
      out behind a full page of earlier ones. */
  lemma FeedMeans(db: Db, profile: string, since: Position, limit: int)
    requires UniqueIds(db)
    ensures var page := SyncFeed(db, profile, since, limit);
            var max := if 1 <= limit <= 500 then limit else 100;
            && |page| <= max
            && (forall i, j | 0 <= i < j < |page| :: Precedes(page[i].updatedAt, page[i].id, page[j].updatedAt, page[j].id))
            && (forall r | r in page :: Reads(db, profile, since, r))
            && (forall k | k in db.skills && k.profile == profile && Past(db.skills[k], since) :: OnPageOrLater(db, k, page, max))
  {
    hide Index, Keyset.Less, Keyset.Scan, Tells, Reads, OnPageOrLater, Past, Precedes;
    var index, from := Index(db, profile), KeyOf(since);
    var page := SyncFeed(db, profile, since, limit);
    Keyset.PageMeans(index.Keys, from, Limit(limit));
    forall i, j | 0 <= i < j < |page| ensures Precedes(page[i].updatedAt, page[i].id, page[j].updatedAt, page[j].id) {
      PageKey(db, profile, since, limit, i);
      PageKey(db, profile, since, limit, j);
      PairLess(page[i].updatedAt, page[i].id, page[j].updatedAt, page[j].id);
    }
    forall r | r in page ensures Reads(db, profile, since, r) {
      var i :| 0 <= i < |page| && page[i] == r;
      PageKey(db, profile, since, limit, i);
    }
    forall k | k in db.skills && k.profile == profile && Past(db.skills[k], since)
      ensures OnPageOrLater(db, k, page, Limit(limit))
    {
      PageLeaves(db, profile, since, limit, k);
    }
  }

  lemma TellsKey(db: Db, k: Key, r: FeedRow)
    requires k in db.skills && Tells(db, k, r)
    ensures SortKey(db.skills[k]) == [r.updatedAt, r.id]
  {
  }

  lemma IndexHas(db: Db, profile: string, k: Key)
    requires UniqueIds(db) && k in db.skills && k.profile == profile
    ensures var key := [db.skills[k].updatedAt, db.skills[k].id];
            key in Index(db, profile) && Tells(db, k, Index(db, profile)[key])
  {
    assert SortKey(db.skills[k]) in Index(db, profile);
  }

  /** What goes over the wire for a promoted row. */
  predicate Ships(r: FeedRow, sk: SyncSkill) {
    && sk.name == r.name && sk.slug == r.slug && sk.status == "promoted" && sk.sha == r.sha && sk.fm == r.fm && sk.body == r.body
    && sk.origin == match r.origin case Authored => "authored" case Proposed => "proposed" case Imported => "imported"
  }

  /** The promoted rows in order, one for one. */
  ghost predicate ShipsAll(rows: seq<FeedRow>, skills: seq<SyncSkill>) {
    if rows == [] then skills == []
    else
      var front, last := rows[..|rows| - 1], rows[|rows| - 1];
      if last.status == Promoted then skills != [] && Ships(last, skills[|skills| - 1]) && ShipsAll(front, skills[..|skills| - 1])
      else ShipsAll(front, skills)
  }

  /** The names of the retired rows in order, one for one. */
  ghost predicate NamesAll(rows: seq<FeedRow>, names: seq<string>) {
    if rows == [] then names == []
    else
      var front, last := rows[..|rows| - 1], rows[|rows| - 1];
      if last.status == Retired then names != [] && names[|names| - 1] == last.name && NamesAll(front, names[..|names| - 1])
      else NamesAll(front, names)
  }

  lemma {:induction false} PartitionMeans(rows: seq<FeedRow>)
    ensures ShipsAll(rows, Promotions(rows)) && NamesAll(rows, Deletions(rows))
  {
    if rows != [] {
      var front, last := rows[..|rows| - 1], rows[|rows| - 1];
      PartitionMeans(front);
      assert Promotions(front) + [] == Promotions(front) && Deletions(front) + [] == Deletions(front);
      assert (Promotions(front) + [Shipped(last)])[..|Promotions(front)|] == Promotions(front);
      assert (Deletions(front) + [last.name])[..|Deletions(front)|] == Deletions(front);
    }
  }

  /** What the handler answers: the promoted rows of its page with their content, the names of the retired
      ones, and the position of its last row, or the request's own, as a cursor. */
  lemma AnswerMeans(server: Server, since: string)
    requires UniqueIds(server.db)
    ensures var resp := Answer(server, since);
            var page := SyncFeed(server.db, server.profile, Decode(since), server.page);
            && ShipsAll(page, resp.skills) && NamesAll(page, resp.deletes)
            && (page == [] ==> Decode(resp.cursor) == Decode(since))
            && (page != [] ==>
                  var last := page[|page| - 1];
                  resp.cursor == Text.FormatInt(last.updatedAt * 1000) + "." + Text.FormatInt(last.id))
  {
    hide Decode, SyncFeed, Promotions, Deletions, ShipsAll, NamesAll, Text.FormatInt;
    PartitionMeans(SyncFeed(server.db, server.profile, Decode(since), server.page));
    DecodeOfEncode(Decode(since));
  }

  // ---------------------------------------------------------------- what imports mean for the feed

  /** An import leaves the feed row of every skill there is as it was: it moves no head. */
  lemma ImportLeavesFeedRows(db: Db, row: WireVersion, now: int, k: Key)
    requires WellFormed(db) && k in db.skills
    ensures k in ImportedOne(db, row, now).skills && Joined(ImportedOne(db, row, now), k) == Joined(db, k)
  {
    hide TableOk, MaxNumber, Find, UlidTaken;
    assert OwnHead(db, k);
    ImportKeeps(db, row, now);
  }

  /** A registration that makes a new version of the skill; one that finds its content there does not. */
  predicate MakesVersion(db: Db, op: Op, k: Key) {
    op.Register? && Key(op.input.profile, op.input.name) == k
    && (var r := Registered(db, op.hash, op.input, op.ulid, op.now).1; r.Ok? && r.value.created)
  }

  predicate HasHead(db: Db, k: Key) { k in db.skills && db.skills[k].head.Some? }

  lemma StepMakesHead(db: Db, op: Op, k: Key)
    ensures HasHead(Apply(db, op), k) <==> HasHead(db, k) || MakesVersion(db, op, k)
  {
    hide CanonicalSHA, MaxNumber, Find, Blank, Slug, UlidTaken, StatusOf, OriginOf, Later;
  }

  /** Some registration of a run makes a version of the skill. */
  ghost predicate EverVersioned(db: Db, ops: seq<Op>, k: Key) {
    exists i | 0 <= i < |ops| :: MakesVersion(Run(db, ops[..i]), ops[i], k)
  }

  lemma VersionedSnoc(db: Db, ops: seq<Op>, k: Key)
    requires ops != []
    ensures var n := |ops| - 1;
            EverVersioned(db, ops, k) <==> EverVersioned(db, ops[..n], k) || MakesVersion(Run(db, ops[..n]), ops[n], k)
  {
    hide MakesVersion, Run;
    var n := |ops| - 1;
    var front := ops[..n];
    if i :| 0 <= i < n && MakesVersion(Run(db, front[..i]), front[i], k) {
      assert ops[..i] == front[..i] && ops[i] == front[i];
    }
    if i :| 0 <= i < |ops| && MakesVersion(Run(db, ops[..i]), ops[i], k) {
      if i < n { assert ops[..i] == front[..i] && ops[i] == front[i]; }
    }
  }

  lemma {:induction false} HeadIffVersioned(db: Db, ops: seq<Op>, k: Key)
    ensures HasHead(Run(db, ops), k) <==> HasHead(db, k) || EverVersioned(db, ops, k)
  {
    hide MakesVersion, HasHead, Apply;
    if ops != [] {
      var n := |ops| - 1;
      VersionedSnoc(db, ops, k);
      HeadIffVersioned(db, ops[..n], k);
      StepMakesHead(Run(db, ops[..n]), ops[n], k);
    }
  }

  /** After any run of writes a promoted skill is shipped without content exactly when it has never had a
      head and no registration of the run made a version of it: what it has came by imports alone. */
  lemma ShipsEmptyIff(db: Db, ops: seq<Op>, k: Key)
    requires WellFormed(db) && k in Run(db, ops).skills && Run(db, ops).skills[k].status == Promoted
    requires forall i | 0 <= i < |Run(db, ops).versions| :: Run(db, ops).versions[i].sha != ""
    ensures var sk := Shipped(Joined(Run(db, ops), k));
            && (sk.sha == "" <==> !HasHead(db, k) && !EverVersioned(db, ops, k))
            && (sk.sha == "" ==> sk.fm == map[] && sk.body == "")
  {
    hide Run, EverVersioned, TableOk, NumbersAreUpTo;
    RunKeepsWellFormed(db, ops);
    HeadIffVersioned(db, ops, k);
    assert OwnHead(Run(db, ops), k);
  }

  /** An input where it happens: a skill imported from a peer, then promoted. */
  lemma ImportedSkillShipsEmpty()
    ensures var row := WireVersion("personal", "lint", "lint", "s", map[], "body", "", "", "01A");
            var k := Key("personal", "lint");
            var end := Run(EMPTY, [Import(row, 1), SetStatus(k, Promoted, 2)]);
            && |end.versions| == 1 && end.versions[0].body == "body"
            && k in end.skills && end.skills[k].status == Promoted
            && Shipped(Joined(end, k)) == SyncSkill("lint", "lint", "promoted", "authored", "", map[], "")
  {
    var row := WireVersion("personal", "lint", "lint", "s", map[], "body", "", "", "01A");
    var k := Key("personal", "lint");
    var ops := [Import(row, 1), SetStatus(k, Promoted, 2)];
    assert ops[..1] == [ops[0]] && ops[..1][..0] == [];
    assert Run(EMPTY, ops[..1]) == ImportedOne(EMPTY, row, 1);
  }

  // ---------------------------------------------------------------- listing

  datatype Filter = Filter(status: Option<Status>, tag: string)

  predicate Matches(s: Skill, f: Filter) {
    (f.status == None || s.status == f.status.value) && (f.tag == "" || f.tag in s.tags)
  }

  function Listing(db: Db, profile: string, f: Filter): RowIndex
    requires UniqueIds(db)
  {
    map k | k in db.skills && k.profile == profile && Matches(db.skills[k], f) :: [db.skills[k].id as int] := Joined(db, k)
  }

  function ListSkills(db: Db, profile: string, f: Filter, afterId: int, limit: int): seq<FeedRow>
    requires UniqueIds(db)
  {
    var index := Listing(db, profile, f);
    Rows(index, Keyset.Scan(index.Keys, [afterId], Limit(limit)))
  }

  /** The filters of the query: an empty one lets everything through. */
  ghost predicate Wanted(db: Db, profile: string, f: Filter, afterId: int, k: Key) {
    && k in db.skills && k.profile == profile && db.skills[k].id > afterId
    && (f.status.Some? ==> db.skills[k].status == f.status.value)
    && (f.tag != "" ==> f.tag in db.skills[k].tags)
  }

  ghost predicate ReadsListed(db: Db, profile: string, f: Filter, afterId: int, r: FeedRow) {
    exists k :: Wanted(db, profile, f, afterId, k) && Tells(db, k, r)
  }

  lemma ListedRow(db: Db, profile: string, f: Filter, key: Keyset.Key) returns (k: Key)
    requires UniqueIds(db) && key in Listing(db, profile, f)
    ensures k in db.skills && k.profile == profile && Matches(db.skills[k], f) && [db.skills[k].id as int] == key
    ensures Tells(db, k, Listing(db, profile, f)[key]) && Listing(db, profile, f)[key].id == db.skills[k].id
  {
    k :| k in db.skills && k.profile == profile && Matches(db.skills[k], f) && [db.skills[k].id as int] == key
         && Joined(db, k) == Listing(db, profile, f)[key];
  }

  lemma OneLess(a: int, b: int)
    ensures Keyset.Less([a], [b]) <==> a < b
  {
  }

  lemma ListKey(db: Db, profile: string, f: Filter, afterId: int, limit: int, i: nat)
    requires UniqueIds(db) && i < |ListSkills(db, profile, f, afterId, limit)|
    ensures var page := ListSkills(db, profile, f, afterId, limit);
            && Keyset.Scan(Listing(db, profile, f).Keys, [afterId], Limit(limit))[i] == [page[i].id as int]
            && ReadsListed(db, profile, f, afterId, page[i])
  {
    hide Listing, Keyset.Less, Keyset.Scan, Tells;
    var index := Listing(db, profile, f);
    var ks := Keyset.Scan(index.Keys, [afterId], Limit(limit));
    Keyset.PageMeans(index.Keys, [afterId], Limit(limit));
    assert ks[i] in ks;
    var k := ListedRow(db, profile, f, ks[i]);
    OneLess(afterId, db.skills[k].id);
    assert Wanted(db, profile, f, afterId, k);
  }

  /** The skill is on the page, or the page is full of smaller ids. */
  ghost predicate ListedOrLater(db: Db, k: Key, page: seq<FeedRow>, max: nat)
    requires k in db.skills
  {
    (exists r :: r in page && Tells(db, k, r)) || (|page| == max && forall r | r in page :: r.id < db.skills[k].id)
  }

  lemma ListLeaves(db: Db, profile: string, f: Filter, afterId: int, limit: int, k: Key)
    requires UniqueIds(db) && Wanted(db, profile, f, afterId, k)
    ensures ListedOrLater(db, k, ListSkills(db, profile, f, afterId, limit), Limit(limit))
  {
    hide Keyset.Less, Keyset.Scan, Tells, ReadsListed;
    var index := Listing(db, profile, f);
    var ks := Keyset.Scan(index.Keys, [afterId], Limit(limit));
    var page := ListSkills(db, profile, f, afterId, limit);
    var key := [db.skills[k].id as int];
    Keyset.PageMeans(index.Keys, [afterId], Limit(limit));
    assert key in index;
    OneLess(afterId, db.skills[k].id);
    if key in ks {
      var i :| 0 <= i < |ks| && ks[i] == key;
      var l := ListedRow(db, profile, f, key);
      assert page[i] in page && l == k;
    } else {
      forall r | r in page ensures r.id < db.skills[k].id {
        var i :| 0 <= i < |page| && page[i] == r;
        ListKey(db, profile, f, afterId, limit, i);
        assert ks[i] in ks;
        OneLess(r.id, db.skills[k].id);
      }
    }
  }

  /** What one page of a listing is, however it is found: skills of the profile that pass the filters and
      have a later id, by id, as many as asked for between 1 and 500 and else 100; one is only left out
      behind a full page of smaller ids. */
  lemma ListPageMeans(db: Db, profile: string, f: Filter, afterId: int, limit: int)
    requires UniqueIds(db)
    ensures var page := ListSkills(db, profile, f, afterId, limit);
            var max := if 1 <= limit <= 500 then limit else 100;
            && |page| <= max
            && (forall i, j | 0 <= i < j < |page| :: page[i].id < page[j].id)
            && (forall r | r in page :: ReadsListed(db, profile, f, afterId, r))
            && (forall k | Wanted(db, profile, f, afterId, k) :: k in db.skills && ListedOrLater(db, k, page, max))
  {
    hide Keyset.Less, Keyset.Scan, Tells, ReadsListed, Listing, ListedOrLater;
    var index := Listing(db, profile, f);
    var page := ListSkills(db, profile, f, afterId, limit);
    Keyset.PageMeans(index.Keys, [afterId], Limit(limit));
    forall i, j | 0 <= i < j < |page| ensures page[i].id < page[j].id {
      ListKey(db, profile, f, afterId, limit, i);
      ListKey(db, profile, f, afterId, limit, j);
      OneLess(page[i].id, page[j].id);
    }
    forall r | r in page ensures ReadsListed(db, profile, f, afterId, r) {
      var i :| 0 <= i < |page| && page[i] == r;
      ListKey(db, profile, f, afterId, limit, i);
    }
    forall k | Wanted(db, profile, f, afterId, k) ensures k in db.skills && ListedOrLater(db, k, page, Limit(limit)) {
      ListLeaves(db, profile, f, afterId, limit, k);
    }
  }

  lemma ListingResumes(db: Db, profile: string, f: Filter, afterId: int, limit: int)
    requires UniqueIds(db)
    requires ListSkills(db, profile, f, afterId, limit) != []
    ensures var page := ListSkills(db, profile, f, afterId, limit);
            var keys := Listing(db, profile, f).Keys;
            var ks := Keyset.Scan(keys, [afterId], Limit(limit));
            && ks != [] && ks[|ks| - 1] == [page[|page| - 1].id as int]
            && |Keyset.After(keys, ks[|ks| - 1])| < |Keyset.After(keys, [afterId])|
  {
    var index := Listing(db, profile, f);
    var ks := Keyset.Scan(index.Keys, [afterId], Limit(limit));
    Keyset.ScanResumes(index.Keys, [afterId], Limit(limit));
    Keyset.AfterShrinks(index.Keys, [afterId], ks[|ks| - 1]);
    assert index[ks[|ks| - 1]].id as int == ks[|ks| - 1][0];
  }

  /** All pages of a listing, each asked for with the last id of the one before. */
  function ListPages(db: Db, profile: string, f: Filter, afterId: int, limit: int): seq<seq<FeedRow>>
    requires UniqueIds(db)
    decreases |Keyset.After(Listing(db, profile, f).Keys, [afterId])|
  {
    var page := ListSkills(db, profile, f, afterId, limit);
    if page == [] then []
    else
      ListingResumes(db, profile, f, afterId, limit);
      [page] + ListPages(db, profile, f, page[|page| - 1].id, limit)
  }

  lemma {:induction false} ListPagesFollowIndex(db: Db, profile: string, f: Filter, afterId: int, limit: int)
    requires UniqueIds(db)
    ensures ListPages(db, profile, f, afterId, limit) == Keyset.RowPages(Listing(db, profile, f), [afterId], Limit(limit))
    decreases |Keyset.After(Listing(db, profile, f).Keys, [afterId])|
  {
    var page := ListSkills(db, profile, f, afterId, limit);
    if page != [] {
      ListingResumes(db, profile, f, afterId, limit);
      ListPagesFollowIndex(db, profile, f, page[|page| - 1].id, limit);
    }
  }

  /** On a frozen table the pages of a listing are exactly the matching rows after the first id asked
      for, in id order, whatever the page size. */
  lemma ListingIsComplete(db: Db, profile: string, f: Filter, afterId: int, limit: int)
    requires UniqueIds(db)
    ensures var index := Listing(db, profile, f);
            && Keyset.Flatten(ListPages(db, profile, f, afterId, limit)) == Rows(index, Keyset.ScanAll(index.Keys, [afterId]))
            && Keyset.Ascending(Keyset.ScanAll(index.Keys, [afterId]))
            && (forall k :: k in Keyset.ScanAll(index.Keys, [afterId]) <==> k in index && Keyset.Less([afterId], k))
  {
    var index := Listing(db, profile, f);
    ListPagesFollowIndex(db, profile, f, afterId, limit);
    Keyset.RowPagesAreTheScan(index, [afterId], Limit(limit));
    Keyset.ScanAllIsSortedRest(index.Keys, [afterId]);
  }
}
