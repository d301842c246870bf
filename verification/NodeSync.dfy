/** Peer-to-peer merge of the version log (internal/nodesync/nodesync.go).  Rows are deduplicated by
    their global ULID and by content; what nodes agree on is the content (profile, name, sha). */
module NodeSync {
  import opened Outcomes
  import opened SkillFile
  import opened Registry
  import opened Ulid
  import Keyset

  datatype Item = Item(profile: string, name: string, sha: string)

  // ---------------------------------------------------------------- import

  function ImportedAll(db: Db, rows: seq<WireVersion>, at: nat -> int): Db {
    if rows == [] then db
    else ImportedOne(ImportedAll(db, rows[..|rows| - 1], at), rows[|rows| - 1], at(|rows| - 1))
  }

  /** ImportSkillVersions: every statement commits on its own, `at(n)` being the time of the n-th row. */
  method ImportSkillVersions(store: Store, vers: seq<WireVersion>, at: nat -> int) returns (inserted: nat)
    modifies store
    ensures store.db == ImportedAll(old(store.db), vers, at)
    ensures inserted == |store.db.versions| - |old(store.db).versions|
  {
    hide Find, MaxNumber, UlidTaken, Slug;
    inserted := 0;
    for n := 0 to |vers|
      invariant store.db == ImportedAll(old(store.db), vers[..n], at)
      invariant inserted == |store.db.versions| - |old(store.db).versions|
    {
      var v := vers[n];
      assert vers[..n + 1][..n] == vers[..n];
      if v.ulid == "" { continue; }
      var key := Key(v.profile, v.name);
      if key !in store.db.skills {
        var parent := NewSkill(store.db, NonEmpty(v.slug, v.name), Draft, Authored, [], at(n));
        store.db := WithNewSkill(store.db, key, parent);
      }
      var skillID := store.db.skills[key].id;
      var exists' := UlidTaken(store.db.versions, v.ulid) || Find(store.db.versions, skillID, v.sha).Some?;
      if exists' { continue; }
      var row := Version(skillID, MaxNumber(store.db.versions, skillID) + 1, v.sha, v.fm, v.body, v.author, v.source, v.ulid);
      store.db := store.db.(versions := store.db.versions + [row]);
      inserted := inserted + 1;
    }
    assert vers[..|vers|] == vers;
  }

  // ---------------------------------------------------------------- what a batch leaves behind

  function ParentOf(v: WireVersion): Key { Key(v.profile, v.name) }

  /** The first stamped row of a batch that names a skill. */
  ghost predicate Opens(rows: seq<WireVersion>, n: nat, k: Key) {
    && n < |rows| && rows[n].ulid != "" && ParentOf(rows[n]) == k
    && forall m | 0 <= m < n :: rows[m].ulid == "" || ParentOf(rows[m]) != k
  }

  ghost predicate Opened(rows: seq<WireVersion>, k: Key, s: Skill, at: nat -> int) {
    exists n: nat :: Opens(rows, n, k) && ByDefault(s, rows[n], at(n))
  }

  /** Some stamped row of the batch brought this version. */
  ghost predicate Brought(rows: seq<WireVersion>, d: Db, x: Version) {
    exists n | 0 <= n < |rows| ::
      rows[n].ulid != "" && StoredFrom(x, rows[n]) && ParentOf(rows[n]) in d.skills && x.skillId == d.skills[ParentOf(rows[n])].id
  }

  lemma OpenedSnoc(front: seq<WireVersion>, v: WireVersion, k: Key, s: Skill, at: nat -> int)
    ensures Opened(front, k, s, at) ==> Opened(front + [v], k, s, at)
    ensures v.ulid != "" && ParentOf(v) == k && ByDefault(s, v, at(|front|))
            && (forall m | 0 <= m < |front| :: front[m].ulid == "" || ParentOf(front[m]) != k)
            ==> Opened(front + [v], k, s, at)
  {
    hide ByDefault;
    var rows := front + [v];
    if n: nat :| Opens(front, n, k) && ByDefault(s, front[n], at(n)) {
      assert Opens(rows, n, k) && rows[n] == front[n];
    }
    if v.ulid != "" && ParentOf(v) == k && ByDefault(s, v, at(|front|))
       && (forall m | 0 <= m < |front| :: front[m].ulid == "" || ParentOf(front[m]) != k) {
      assert Opens(rows, |front|, k) && rows[|front|] == v;
    }
  }

  lemma BroughtSnoc(front: seq<WireVersion>, v: WireVersion, c: Db, d: Db, x: Version)
    requires forall k | k in c.skills :: k in d.skills && d.skills[k] == c.skills[k]
    ensures Brought(front, c, x) ==> Brought(front + [v], d, x)
    ensures v.ulid != "" && StoredFrom(x, v) && ParentOf(v) in d.skills && x.skillId == d.skills[ParentOf(v)].id ==> Brought(front + [v], d, x)
  {
    var rows := front + [v];
    assert rows[|front|] == v;
    if n :| 0 <= n < |front| && front[n].ulid != "" && StoredFrom(x, front[n]) && ParentOf(front[n]) in c.skills
            && x.skillId == c.skills[ParentOf(front[n])].id {
      assert rows[n] == front[n];
    }
  }

  /** What a batch leaves of the skills: all there were, as they were, and one for each new name on a
      stamped row, which is a draft with the column defaults. */
  lemma {:induction false} ImportCreatesDrafts(db: Db, rows: seq<WireVersion>, at: nat -> int)
    requires WellFormed(db)
    ensures var d := ImportedAll(db, rows, at);
            && WellFormed(d)
            && (forall k | k in db.skills :: k in d.skills && d.skills[k] == db.skills[k])
            && (forall n | 0 <= n < |rows| && rows[n].ulid != "" :: ParentOf(rows[n]) in d.skills)
            && (forall k | k in d.skills && k !in db.skills :: Opened(rows, k, d.skills[k], at))
  {
    hide WellFormed, ImportedOne, DropsRow, Opened, ByDefault;
    if rows != [] {
      var n := |rows| - 1;
      var front, v := rows[..n], rows[n];
      assert rows == front + [v];
      ImportCreatesDrafts(db, front, at);
      var c, d := ImportedAll(db, front, at), ImportedAll(db, rows, at);
      ImportRecords(c, v, at(n));
      ImportKeeps(c, v, at(n));
      forall m | 0 <= m < |rows| && rows[m].ulid != "" ensures ParentOf(rows[m]) in d.skills {
        if m < n { assert front[m] == rows[m]; }
      }
      forall k | k in d.skills && k !in db.skills ensures Opened(rows, k, d.skills[k], at) {
        OpenedSnoc(front, v, k, d.skills[k], at);
        if k !in c.skills {
          forall m | 0 <= m < n ensures front[m].ulid == "" || ParentOf(front[m]) != k {}
        }
      }
    }
  }

  /** And of the versions: all there were, and new ones that have the fields of a stamped row and belong
      to the skill it names. */
  lemma {:induction false} ImportStoresRows(db: Db, rows: seq<WireVersion>, at: nat -> int)
    requires WellFormed(db)
    ensures var d := ImportedAll(db, rows, at);
            && db.versions <= d.versions
            && (forall i | |db.versions| <= i < |d.versions| :: Brought(rows, d, d.versions[i]))
  {
    hide WellFormed, ImportedOne, DropsRow, Brought, StoredFrom, ByDefault;
    if rows != [] {
      var n := |rows| - 1;
      var front, v := rows[..n], rows[n];
      assert rows == front + [v];
      ImportStoresRows(db, front, at);
      ImportCreatesDrafts(db, front, at);
      var c, d := ImportedAll(db, front, at), ImportedAll(db, rows, at);
      ImportRecords(c, v, at(n));
      forall i | |db.versions| <= i < |d.versions| ensures Brought(rows, d, d.versions[i]) {
        BroughtSnoc(front, v, c, d, d.versions[i]);
        if i < |c.versions| { assert d.versions[i] == c.versions[i]; }
      }
    }
  }

  /** So an import publishes no skill. */
  lemma ImportPublishesNothing(db: Db, rows: seq<WireVersion>, at: nat -> int, k: Key)
    requires WellFormed(db)
    ensures InPublic(ImportedAll(db, rows, at), k) <==> InPublic(db, k)
  {
    hide WellFormed, ImportedAll;
    ImportCreatesDrafts(db, rows, at);
    var d := ImportedAll(db, rows, at);
    if k in d.skills && k !in db.skills {
      var n: nat :| Opens(rows, n, k) && ByDefault(d.skills[k], rows[n], at(n));
    }
  }

  // ---------------------------------------------------------------- content

  ghost predicate Carries(db: Db, i: nat, it: Item)
    requires i < |db.versions|
  {
    var k := Key(it.profile, it.name);
    k in db.skills && db.skills[k].id == db.versions[i].skillId && db.versions[i].sha == it.sha
  }

  ghost predicate Has(db: Db, it: Item) {
    exists i | 0 <= i < |db.versions| :: Carries(db, i, it)
  }

  /** Content under a ULID, which is what an export can carry. */
  ghost predicate HasStamped(db: Db, it: Item) {
    exists i | 0 <= i < |db.versions| :: Carries(db, i, it) && db.versions[i].ulid != ""
  }

  /** The content projection of a node. */
  ghost function Content(db: Db): iset<Item> { iset it | Has(db, it) }

  function ItemOf(v: WireVersion): Item { Item(v.profile, v.name, v.sha) }

  /** The payload a ULID stands for; the parent's slug is not part of it. */
  function Payload(v: WireVersion): WireVersion { v.(slug := "") }

  function Wire(k: Key, s: Skill, v: Version): WireVersion {
    WireVersion(k.profile, k.name, s.slug, v.sha, v.fm, v.body, v.author, v.source, v.ulid)
  }

  ghost predicate Names(pay: string -> WireVersion, db: Db, i: nat)
    requires i < |db.versions|
  {
    forall k | k in db.skills && db.skills[k].id == db.versions[i].skillId ::
      Payload(Wire(k, db.skills[k], db.versions[i])) == pay(db.versions[i].ulid)
  }

  /** One ULID names one payload, and every version has its parent, stamped or not. */
  ghost predicate Coherent(pay: string -> WireVersion, db: Db) {
    && WellFormed(db)
    && (forall i | 0 <= i < |db.versions| && db.versions[i].ulid != "" :: Names(pay, db, i))
    && (forall i | 0 <= i < |db.versions| :: exists k :: k in db.skills && db.skills[k].id == db.versions[i].skillId)
  }

  ghost predicate Agrees(pay: string -> WireVersion, v: WireVersion) { v.ulid != "" ==> Payload(v) == pay(v.ulid) }

  lemma ParentKeepsContent(db: Db, key: Key, slug: string, now: int, it: Item)
    requires WellFormed(db)
    ensures Has(Parented(db, key, slug, now), it) <==> Has(db, it)
  {
    hide TableOk;
    var p := Parented(db, key, slug, now);
    if i :| 0 <= i < |p.versions| && Carries(p, i, it) {
      assert Carries(db, i, it);
    }
    if i :| 0 <= i < |db.versions| && Carries(db, i, it) {
      assert Carries(p, i, it);
    }
  }

  lemma AppendedContent(p: Db, d: Db, key: Key, v: Version, it: Item)
    requires WellFormed(p) && key in p.skills && v.skillId == p.skills[key].id && d == p.(versions := p.versions + [v])
    ensures Has(d, it) <==> Has(p, it) || it == Item(key.profile, key.name, v.sha)
  {
    hide TableOk;
    if i :| 0 <= i < |d.versions| && Carries(d, i, it) {
      if i < |p.versions| {
        assert Carries(p, i, it);
      } else {
        assert p.skills[Key(it.profile, it.name)].id == p.skills[key].id;
      }
    }
    if i :| 0 <= i < |p.versions| && Carries(p, i, it) {
      assert Carries(d, i, it);
    }
    if it == Item(key.profile, key.name, v.sha) {
      assert Carries(d, |p.versions|, it);
    }
  }

  /** One imported row adds its item, unless it is dropped. */
  lemma ImportOneContent(db: Db, v: WireVersion, now: int, it: Item)
    requires WellFormed(db)
    ensures Has(ImportedOne(db, v, now), it) <==> Has(db, it) || (it == ItemOf(v) && !DropsRow(db, v))
  {
    hide TableOk, NewVersion, DropsRow, Has, WellFormed;
    var key := Key(v.profile, v.name);
    var p, d := Parented(db, key, v.slug, now), ImportedOne(db, v, now);
    ImportShape(db, v, now);
    ParentKeeps(db, key, v.slug, now);
    ParentKeepsContent(db, key, v.slug, now, it);
    if !DropsRow(db, v) {
      var row :| NewVersion(p.versions, row) && row.skillId == p.skills[key].id && row.sha == v.sha
                 && d == p.(versions := p.versions + [row]);
      AppendedContent(p, d, key, row, it);
    }
  }

  /** Without a shared meaning of ULIDs content is lost: a row arrives exactly when its content is
      there already or its ULID is not taken. */
  lemma ImportDeliversIff(db: Db, v: WireVersion, now: int)
    requires WellFormed(db) && v.ulid != ""
    ensures Has(ImportedOne(db, v, now), ItemOf(v)) <==> Has(db, ItemOf(v)) || !UlidTaken(db.versions, v.ulid)
  {
    hide TableOk, Has, WellFormed, UlidTaken;
    ImportOneContent(db, v, now, ItemOf(v));
    if DropsRow(db, v) && !UlidTaken(db.versions, v.ulid) { FoundIsHad(db, v); }
  }

  lemma FoundIsHad(db: Db, v: WireVersion)
    requires Key(v.profile, v.name) in db.skills
    requires Find(db.versions, db.skills[Key(v.profile, v.name)].id, v.sha).Some?
    ensures Has(db, ItemOf(v))
  {
    assert Carries(db, Find(db.versions, db.skills[Key(v.profile, v.name)].id, v.sha).value, ItemOf(v));
  }

  /** Under one meaning of ULIDs a dropped row is one whose content is already there. */
  lemma DroppedIsHad(pay: string -> WireVersion, db: Db, v: WireVersion)
    requires Coherent(pay, db) && Agrees(pay, v) && v.ulid != "" && DropsRow(db, v)
    ensures Has(db, ItemOf(v))
  {
    hide WellFormed;
    if UlidTaken(db.versions, v.ulid) {
      var i :| 0 <= i < |db.versions| && db.versions[i].ulid == v.ulid;
      var k :| k in db.skills && db.skills[k].id == db.versions[i].skillId;
      assert Names(pay, db, i);
      assert Payload(Wire(k, db.skills[k], db.versions[i])) == Payload(v);
      assert Carries(db, i, ItemOf(v));
    } else {
      FoundIsHad(db, v);
    }
  }

  // ---------------------------------------------------------------- one ULID, one payload

  lemma ParentKeepsCoherent(pay: string -> WireVersion, db: Db, key: Key, slug: string, now: int)
    requires Coherent(pay, db)
    ensures Coherent(pay, Parented(db, key, slug, now))
  {
    hide TableOk;
    var p := Parented(db, key, slug, now);
    ParentKeeps(db, key, slug, now);
    forall i | 0 <= i < |p.versions|
      ensures p.versions[i].ulid != "" ==> Names(pay, p, i)
      ensures exists k :: k in p.skills && p.skills[k].id == p.versions[i].skillId
    {
      assert p.versions[i].ulid != "" ==> Names(pay, db, i);
      var k :| k in db.skills && db.skills[k].id == db.versions[i].skillId;
      assert k in p.skills && p.skills[k] == db.skills[k];
    }
  }

  lemma AppendKeepsCoherent(pay: string -> WireVersion, p: Db, key: Key, v: Version)
    requires Coherent(pay, p) && key in p.skills && v.skillId == p.skills[key].id && NewVersion(p.versions, v) && v.ulid != ""
    requires Payload(Wire(key, p.skills[key], v)) == pay(v.ulid)
    ensures Coherent(pay, p.(versions := p.versions + [v]))
  {
    hide TableOk, NewVersion;
    var d := p.(versions := p.versions + [v]);
    VersionKeeps(p, key, v);
    forall i | 0 <= i < |d.versions|
      ensures d.versions[i].ulid != "" ==> Names(pay, d, i)
      ensures exists k :: k in d.skills && d.skills[k].id == d.versions[i].skillId
    {
      if i < |p.versions| {
        assert p.versions[i].ulid != "" ==> Names(pay, p, i);
      } else {
        assert key in d.skills && d.skills[key].id == d.versions[i].skillId;
      }
    }
  }

  /** Imports keep the meaning of ULIDs. */
  lemma ImportKeepsCoherent(pay: string -> WireVersion, db: Db, v: WireVersion, now: int)
    requires Coherent(pay, db) && Agrees(pay, v)
    ensures Coherent(pay, ImportedOne(db, v, now))
  {
    hide TableOk, NewVersion, WellFormed, Coherent;
    var key := Key(v.profile, v.name);
    var p := Parented(db, key, v.slug, now);
    assert WellFormed(db) by { CoherentIsWellFormed(pay, db); }
    ImportShape(db, v, now);
    ParentKeepsCoherent(pay, db, key, v.slug, now);
    if !DropsRow(db, v) {
      var row :| NewVersion(p.versions, row) && row.skillId == p.skills[key].id && row.sha == v.sha && row.ulid == v.ulid
                 && row.body == v.body && row.fm == v.fm && row.author == v.author && row.source == v.source
                 && ImportedOne(db, v, now) == p.(versions := p.versions + [row]);
      AppendKeepsCoherent(pay, p, key, row);
    }
  }

  lemma CoherentIsWellFormed(pay: string -> WireVersion, db: Db)
    requires Coherent(pay, db)
    ensures WellFormed(db)
  {
  }

  ghost predicate Offers(rows: seq<WireVersion>, it: Item) {
    exists i | 0 <= i < |rows| :: rows[i].ulid != "" && ItemOf(rows[i]) == it
  }

  /** Under one meaning of ULIDs a stamped row always arrives. */
  lemma ImportOneIsUnion(pay: string -> WireVersion, db: Db, v: WireVersion, now: int, it: Item)
    requires Coherent(pay, db) && Agrees(pay, v)
    ensures Has(ImportedOne(db, v, now), it) <==> Has(db, it) || (v.ulid != "" && ItemOf(v) == it)
  {
    hide Coherent, Has, DropsRow, Agrees, ImportedOne;
    CoherentIsWellFormed(pay, db);
    ImportOneContent(db, v, now, it);
    if v.ulid == "" { NothingDropped(db, v); }
    else if DropsRow(db, v) { DroppedIsHad(pay, db, v); }
  }

  /** Importing any sequence of rows is union on content, whatever order, repetition or grouping. */
  lemma {:induction false} ImportIsUnion(pay: string -> WireVersion, db: Db, rows: seq<WireVersion>, at: nat -> int)
    requires Coherent(pay, db) && forall i | 0 <= i < |rows| :: Agrees(pay, rows[i])
    ensures Coherent(pay, ImportedAll(db, rows, at))
    ensures Content(ImportedAll(db, rows, at)) == Content(db) + iset it | Offers(rows, it)
  {
    hide Coherent, Has, Offers, Agrees, ImportedOne;
    if rows == [] {
      NothingOffered();
    } else {
      var front, v := rows[..|rows| - 1], rows[|rows| - 1];
      assert rows == front + [v];
      assert forall i | 0 <= i < |front| :: front[i] == rows[i];
      ImportIsUnion(pay, db, front, at);
      var d, now := ImportedAll(db, front, at), at(|rows| - 1);
      ImportKeepsCoherent(pay, d, v, now);
      forall it ensures Has(ImportedAll(db, rows, at), it) <==> it in Content(db) + iset x | Offers(rows, x) {
        ImportOneIsUnion(pay, d, v, now, it);
        OffersSnoc(front, v, it);
        assert Has(d, it) <==> it in Content(d);
      }
    }
  }

  lemma NothingOffered()
    ensures forall it :: !Offers([], it)
  {
  }

  lemma NothingDropped(db: Db, v: WireVersion)
    requires v.ulid == ""
    ensures DropsRow(db, v)
  {
  }

  lemma OffersSnoc(front: seq<WireVersion>, v: WireVersion, it: Item)
    ensures Offers(front + [v], it) <==> Offers(front, it) || (v.ulid != "" && ItemOf(v) == it)
  {
    var rows := front + [v];
    if i :| 0 <= i < |front| && front[i].ulid != "" && ItemOf(front[i]) == it { assert rows[i] == front[i]; }
    assert rows[|front|] == v;
  }

  /** Two batches with the same items leave a node with the same content. */
  lemma ImportOrderIsIrrelevant(pay: string -> WireVersion, db: Db, a: seq<WireVersion>, b: seq<WireVersion>,
                                at: nat -> int, bt: nat -> int)
    requires Coherent(pay, db)
    requires forall i | 0 <= i < |a| :: Agrees(pay, a[i])
    requires forall i | 0 <= i < |b| :: Agrees(pay, b[i])
    requires forall it :: Offers(a, it) <==> Offers(b, it)
    ensures Content(ImportedAll(db, a, at)) == Content(ImportedAll(db, b, bt))
  {
    hide Coherent, Has, Offers, ImportedAll, Agrees;
    ImportIsUnion(pay, db, a, at);
    ImportIsUnion(pay, db, b, bt);
  }

  lemma ParentKeepsStamped(db: Db, key: Key, slug: string, now: int, it: Item)
    requires WellFormed(db)
    ensures HasStamped(Parented(db, key, slug, now), it) <==> HasStamped(db, it)
  {
    hide TableOk;
    var p := Parented(db, key, slug, now);
    if i :| 0 <= i < |p.versions| && Carries(p, i, it) && p.versions[i].ulid != "" {
      assert Carries(db, i, it);
    }
    if i :| 0 <= i < |db.versions| && Carries(db, i, it) && db.versions[i].ulid != "" {
      assert Carries(p, i, it);
    }
  }

  lemma AppendedStamped(p: Db, d: Db, key: Key, v: Version, it: Item)
    requires WellFormed(p) && key in p.skills && v.skillId == p.skills[key].id && v.ulid != ""
    requires d == p.(versions := p.versions + [v])
    ensures HasStamped(d, it) <==> HasStamped(p, it) || it == Item(key.profile, key.name, v.sha)
  {
    hide TableOk;
    if i :| 0 <= i < |d.versions| && Carries(d, i, it) && d.versions[i].ulid != "" {
      if i < |p.versions| {
        assert Carries(p, i, it);
      } else {
        assert p.skills[Key(it.profile, it.name)].id == p.skills[key].id;
      }
    }
    if i :| 0 <= i < |p.versions| && Carries(p, i, it) && p.versions[i].ulid != "" {
      assert Carries(d, i, it);
    }
    if it == Item(key.profile, key.name, v.sha) {
      assert Carries(d, |p.versions|, it);
    }
  }

  /** A row whose content is there is dropped. */
  lemma HadIsDropped(db: Db, v: WireVersion)
    requires Has(db, ItemOf(v))
    ensures DropsRow(db, v)
  {
    var i :| 0 <= i < |db.versions| && Carries(db, i, ItemOf(v));
  }

  /** Where content came first without a ULID it stays without one: the stamped row is dropped. */
  lemma ImportOneStamps(pay: string -> WireVersion, db: Db, v: WireVersion, now: int, it: Item)
    requires Coherent(pay, db) && Agrees(pay, v)
    ensures HasStamped(ImportedOne(db, v, now), it) <==>
            HasStamped(db, it) || (v.ulid != "" && ItemOf(v) == it && !Has(db, it))
  {
    hide TableOk, NewVersion, DropsRow, Has, HasStamped, WellFormed, Coherent, Agrees;
    var key := Key(v.profile, v.name);
    var p, d := Parented(db, key, v.slug, now), ImportedOne(db, v, now);
    CoherentIsWellFormed(pay, db);
    ImportShape(db, v, now);
    ParentKeeps(db, key, v.slug, now);
    ParentKeepsStamped(db, key, v.slug, now, it);
    if v.ulid == "" { NothingDropped(db, v); }
    else if DropsRow(db, v) { DroppedIsHad(pay, db, v); }
    else {
      if Has(db, ItemOf(v)) { HadIsDropped(db, v); }
      var row :| NewVersion(p.versions, row) && row.skillId == p.skills[key].id && row.sha == v.sha && row.ulid == v.ulid
                 && d == p.(versions := p.versions + [row]);
      AppendedStamped(p, d, key, row, it);
    }
  }

  /** Stamped content after an import: what was stamped, and what was offered and not there at all. */
  lemma {:induction false} ImportStamps(pay: string -> WireVersion, db: Db, rows: seq<WireVersion>, at: nat -> int, it: Item)
    requires Coherent(pay, db) && forall i | 0 <= i < |rows| :: Agrees(pay, rows[i])
    ensures HasStamped(ImportedAll(db, rows, at), it) <==> HasStamped(db, it) || (Offers(rows, it) && !Has(db, it))
  {
    hide Coherent, Has, HasStamped, Offers, Agrees, ImportedOne, Content;
    if rows == [] {
      NothingOffered();
    } else {
      var front, v := rows[..|rows| - 1], rows[|rows| - 1];
      assert rows == front + [v];
      assert forall i | 0 <= i < |front| :: front[i] == rows[i];
      ImportStamps(pay, db, front, at, it);
      ImportIsUnion(pay, db, front, at);
      var d := ImportedAll(db, front, at);
      ImportOneStamps(pay, d, v, at(|rows| - 1), it);
      OffersSnoc(front, v, it);
      ContentMember(db, d, front, it);
    }
  }

  lemma ContentMember(db: Db, d: Db, rows: seq<WireVersion>, it: Item)
    requires Content(d) == Content(db) + iset x | Offers(rows, x)
    ensures Has(d, it) <==> Has(db, it) || Offers(rows, it)
  {
    hide Has, Offers;
    assert Has(d, it) <==> it in Content(d);
  }

  // ---------------------------------------------------------------- what order does change

  /** The identities that survive. */
  function Ulids(db: Db): set<string> { set i | 0 <= i < |db.versions| :: db.versions[i].ulid }

  /** A node knows this content under this number. */
  ghost predicate NumberedAs(db: Db, it: Item, n: nat) {
    exists i | 0 <= i < |db.versions| :: Carries(db, i, it) && db.versions[i].number == n
  }

  function Size(db: Db, k: Key): nat { if k in db.skills then Count(db.versions, db.skills[k].id) else 0 }

  function KeyOf(it: Item): Key { Key(it.profile, it.name) }

  ghost predicate Stamped(pay: string -> WireVersion, v: WireVersion) { v.ulid != "" && Agrees(pay, v) }

  /** What a stamped row does: nothing to the versions if its content is there, else one more row. */
  lemma ImportAppends(pay: string -> WireVersion, db: Db, v: WireVersion, now: int) returns (row: Version)
    requires Coherent(pay, db) && Stamped(pay, v)
    ensures var key := Key(v.profile, v.name);
            var p, d := Parented(db, key, v.slug, now), ImportedOne(db, v, now);
            && WellFormed(p) && p.versions == db.versions
            && (Has(db, ItemOf(v)) ==> d == db || d == p)
            && (!Has(db, ItemOf(v)) ==>
                  && row.ulid == v.ulid && row.sha == v.sha && row.skillId == p.skills[key].id && NewVersion(p.versions, row)
                  && d == p.(versions := p.versions + [row]))
  {
    hide TableOk, NewVersion, DropsRow, Has, WellFormed, Coherent, Agrees, Parented, ImportedOne;
    var key := Key(v.profile, v.name);
    CoherentIsWellFormed(pay, db);
    ImportShape(db, v, now);
    ParentKeeps(db, key, v.slug, now);
    row := Version(0, 0, "", map[], "", "", "", "");
    if Has(db, ItemOf(v)) { HadIsDropped(db, v); }
    else {
      if DropsRow(db, v) { DroppedIsHad(pay, db, v); }
      var p := Parented(db, key, v.slug, now);
      row :| NewVersion(p.versions, row) && row.skillId == p.skills[key].id && row.sha == v.sha && row.ulid == v.ulid
             && ImportedOne(db, v, now) == p.(versions := p.versions + [row]);
    }
  }

  lemma UlidsSnoc(vs: seq<Version>, v: Version, db: Db, d: Db)
    requires db.versions == vs && d.versions == vs + [v]
    ensures Ulids(d) == Ulids(db) + {v.ulid}
  {
    forall u | u in Ulids(db) + {v.ulid} ensures u in Ulids(d) {
      if u == v.ulid { assert d.versions[|vs|].ulid == u; }
      else {
        var i :| 0 <= i < |vs| && vs[i].ulid == u;
        assert d.versions[i].ulid == u;
      }
    }
  }

  lemma ImportOneUlids(pay: string -> WireVersion, db: Db, v: WireVersion, now: int)
    requires Coherent(pay, db) && Stamped(pay, v)
    ensures Ulids(ImportedOne(db, v, now)) == Ulids(db) + if Has(db, ItemOf(v)) then {} else {v.ulid}
    ensures !Has(db, ItemOf(v)) ==> v.ulid !in Ulids(db)
  {
    hide TableOk, NewVersion, Has, WellFormed, Coherent, Agrees, ImportedOne, Parented;
    var row := ImportAppends(pay, db, v, now);
    if !Has(db, ItemOf(v)) {
      UlidsSnoc(db.versions, row, db, ImportedOne(db, v, now));
      FreshUlid(Parented(db, Key(v.profile, v.name), v.slug, now).versions, row, db);
    }
  }

  lemma FreshUlid(vs: seq<Version>, row: Version, db: Db)
    requires NewVersion(vs, row) && vs == db.versions && row.ulid != ""
    ensures row.ulid !in Ulids(db)
  {
  }

  /** The first row of a batch that brings an item which the node lacks; rows without a ULID do not count. */
  ghost predicate Leads(db: Db, rows: seq<WireVersion>, i: nat)
    requires i < |rows|
  {
    && rows[i].ulid != "" && !Has(db, ItemOf(rows[i]))
    && forall j | 0 <= j < i && rows[j].ulid != "" :: ItemOf(rows[j]) != ItemOf(rows[i])
  }

  ghost predicate AllAgree(pay: string -> WireVersion, rows: seq<WireVersion>) {
    forall i | 0 <= i < |rows| :: Agrees(pay, rows[i])
  }

  /** The ULIDs of the leading rows. */
  ghost function NewUlids(db: Db, rows: seq<WireVersion>): set<string> {
    set i: nat | 0 <= i < |rows| && Leads(db, rows, i) :: rows[i].ulid
  }

  lemma LeadsOfPrefix(db: Db, rows: seq<WireVersion>, n: nat, i: nat)
    requires i < n <= |rows|
    ensures Leads(db, rows[..n], i) <==> Leads(db, rows, i)
  {
    hide Has;
    assert forall j | 0 <= j < n :: rows[..n][j] == rows[j];
  }

  /** The last row leads exactly when its content is not there yet when it is its turn. */
  lemma LastLeads(pay: string -> WireVersion, db: Db, rows: seq<WireVersion>, at: nat -> int)
    requires Coherent(pay, db) && AllAgree(pay, rows) && rows != []
    ensures var n := |rows| - 1;
            var d := ImportedAll(db, rows[..n], at);
            && Coherent(pay, d) && AllAgree(pay, rows[..n])
            && (Leads(db, rows, n) <==> rows[n].ulid != "" && !Has(d, ItemOf(rows[n])))
  {
    hide Coherent, Has, Agrees, ImportedAll, Content;
    var n := |rows| - 1;
    var front := rows[..n];
    assert forall i | 0 <= i < n :: front[i] == rows[i];
    ImportIsUnion(pay, db, front, at);
    ContentMember(db, ImportedAll(db, front, at), front, ItemOf(rows[n]));
  }

  lemma NewUlidsSnoc(db: Db, rows: seq<WireVersion>)
    requires rows != []
    ensures var n := |rows| - 1;
            NewUlids(db, rows) == NewUlids(db, rows[..n]) + if Leads(db, rows, n) then {rows[n].ulid} else {}
  {
    hide Leads;
    var n := |rows| - 1;
    var front := rows[..n];
    forall i: nat | i < n ensures Leads(db, front, i) <==> Leads(db, rows, i) { LeadsOfPrefix(db, rows, n, i); }
    forall u | u in NewUlids(db, rows) ensures u in NewUlids(db, front) || (Leads(db, rows, n) && u == rows[n].ulid) {
      var i: nat :| i < |rows| && Leads(db, rows, i) && rows[i].ulid == u;
      if i < n { assert front[i] == rows[i]; }
    }
    forall u | u in NewUlids(db, front) ensures u in NewUlids(db, rows) {
      var i: nat :| i < n && Leads(db, front, i) && front[i].ulid == u;
      assert rows[i] == front[i];
    }
  }

  /** Which ULIDs survive a batch: those the node had, and those of the rows that lead. */
  lemma {:induction false} UlidsAfter(pay: string -> WireVersion, db: Db, rows: seq<WireVersion>, at: nat -> int)
    requires Coherent(pay, db) && AllAgree(pay, rows)
    ensures Ulids(ImportedAll(db, rows, at)) == Ulids(db) + NewUlids(db, rows)
  {
    hide Coherent, Has, Agrees, ImportedOne, Leads, Ulids, NewUlids;
    if rows == [] {
      NothingLeads(db);
    } else {
      var n := |rows| - 1;
      LastLeads(pay, db, rows, at);
      UlidsAfter(pay, db, rows[..n], at);
      NewUlidsSnoc(db, rows);
      assert Agrees(pay, rows[n]);
      var d := ImportedAll(db, rows[..n], at);
      if rows[n].ulid != "" { ImportOneUlids(pay, d, rows[n], at(n)); } else { Unimported(d, rows[n], at(n)); }
    }
  }

  lemma NothingLeads(db: Db)
    ensures NewUlids(db, []) == {}
  {
  }

  lemma Unimported(db: Db, v: WireVersion, now: int)
    requires v.ulid == ""
    ensures ImportedOne(db, v, now) == db
  {
  }

  // every order of a batch

  ghost predicate Rearranged(rows: seq<WireVersion>, perm: seq<WireVersion>) { multiset(rows) == multiset(perm) }

  lemma SameRows(rows: seq<WireVersion>, perm: seq<WireVersion>)
    requires Rearranged(rows, perm)
    ensures forall v :: v in rows <==> v in perm
  {
    forall v ensures v in rows <==> v in perm {
      assert v in rows <==> v in multiset(rows);
      assert v in perm <==> v in multiset(perm);
    }
  }

  /** The rows with one of them moved to the front. */
  function Foremost(rows: seq<WireVersion>, i: nat): seq<WireVersion>
    requires i < |rows|
  {
    [rows[i]] + (rows[..i] + rows[i + 1..])
  }

  lemma ForemostIsRearranged(rows: seq<WireVersion>, i: nat)
    requires i < |rows|
    ensures Rearranged(rows, Foremost(rows, i))
  {
    assert rows == rows[..i] + ([rows[i]] + rows[i + 1..]);
  }

  lemma AgreeRearranged(pay: string -> WireVersion, rows: seq<WireVersion>, perm: seq<WireVersion>)
    requires AllAgree(pay, rows) && Rearranged(rows, perm)
    ensures AllAgree(pay, perm)
  {
    hide Agrees, Rearranged;
    SameRows(rows, perm);
    forall i | 0 <= i < |perm| ensures Agrees(pay, perm[i]) {
      assert perm[i] in rows;
    }
  }

  /** A row with content the node lacks. */
  ghost predicate Fresh(db: Db, v: WireVersion) { v.ulid != "" && !Has(db, ItemOf(v)) }

  /** The first row with the item of a fresh one leads. */
  lemma {:induction false} LeaderOf(db: Db, rows: seq<WireVersion>, i: nat) returns (j: nat)
    requires i < |rows| && Fresh(db, rows[i])
    ensures j <= i && Leads(db, rows, j) && ItemOf(rows[j]) == ItemOf(rows[i])
    decreases i
  {
    hide Has;
    if Leads(db, rows, i) {
      j := i;
    } else {
      var k: nat :| k < i && rows[k].ulid != "" && ItemOf(rows[k]) == ItemOf(rows[i]);
      j := LeaderOf(db, rows, k);
    }
  }

  /** No two rows carry one new item under different ULIDs. */
  ghost predicate OneUlidEach(db: Db, rows: seq<WireVersion>) {
    forall v, w | v in rows && w in rows && Fresh(db, v) && Fresh(db, w) && ItemOf(v) == ItemOf(w) :: v.ulid == w.ulid
  }

  lemma LeadingUlids(db: Db, rows: seq<WireVersion>, u: string)
    requires OneUlidEach(db, rows)
    ensures u in NewUlids(db, rows) <==> exists v :: v in rows && Fresh(db, v) && v.ulid == u
  {
    hide Has;
    if u in NewUlids(db, rows) {
      var i: nat :| i < |rows| && Leads(db, rows, i) && rows[i].ulid == u;
      assert rows[i] in rows && Fresh(db, rows[i]);
    }
    if v :| v in rows && Fresh(db, v) && v.ulid == u {
      var i: nat :| i < |rows| && rows[i] == v;
      var j := LeaderOf(db, rows, i);
      assert rows[j] in rows && Fresh(db, rows[j]);
    }
  }

  ghost predicate UlidsFixed(db: Db, rows: seq<WireVersion>, at: nat -> int, bt: nat -> int) {
    forall perm | Rearranged(rows, perm) :: Ulids(ImportedAll(db, perm, bt)) == Ulids(ImportedAll(db, rows, at))
  }

  lemma OneUlidOneItem(pay: string -> WireVersion, v: WireVersion, w: WireVersion)
    requires Stamped(pay, v) && Stamped(pay, w) && v.ulid == w.ulid
    ensures ItemOf(v) == ItemOf(w)
  {
    assert Payload(v) == Payload(w);
  }

  /** A row in front keeps out the ULIDs of all others with its item. */
  lemma FrontWins(pay: string -> WireVersion, db: Db, rows: seq<WireVersion>, at: nat -> int, w: WireVersion)
    requires Coherent(pay, db) && AllAgree(pay, rows) && rows != [] && Agrees(pay, w)
    requires Fresh(db, rows[0]) && Fresh(db, w) && ItemOf(rows[0]) == ItemOf(w) && rows[0].ulid != w.ulid
    ensures var after := Ulids(ImportedAll(db, rows, at)); rows[0].ulid in after && w.ulid !in after
  {
    hide Coherent, Has, ImportedAll, ImportedOne, Ulids;
    UlidsAfter(pay, db, rows, at);
    assert Leads(db, rows, 0);
    ImportOneUlids(pay, db, w, 0);
    forall i: nat | i < |rows| && Leads(db, rows, i) ensures rows[i].ulid != w.ulid {
      assert Agrees(pay, rows[i]);
      if rows[i].ulid == w.ulid { OneUlidOneItem(pay, rows[i], w); }
    }
  }

  /** All orders of a batch leave the same ULIDs exactly when no two of its rows carry one item that the
      node lacks under different ULIDs. */
  lemma UlidsDependOnOrderIff(pay: string -> WireVersion, db: Db, rows: seq<WireVersion>, at: nat -> int, bt: nat -> int)
    requires Coherent(pay, db) && AllAgree(pay, rows)
    ensures UlidsFixed(db, rows, at, bt) <==> OneUlidEach(db, rows)
  {
    hide Coherent, Fresh, Agrees, ImportedAll, Ulids, NewUlids, Rearranged, AllAgree, OneUlidEach;
    if OneUlidEach(db, rows) {
      forall perm | Rearranged(rows, perm) ensures Ulids(ImportedAll(db, perm, bt)) == Ulids(ImportedAll(db, rows, at)) {
        AgreeRearranged(pay, rows, perm);
        SameUlids(db, rows, perm);
        UlidsAfter(pay, db, rows, at);
        UlidsAfter(pay, db, perm, bt);
      }
    } else {
      ClashShows(pay, db, rows, at, bt);
    }
  }

  lemma SameUlids(db: Db, rows: seq<WireVersion>, perm: seq<WireVersion>)
    requires OneUlidEach(db, rows) && Rearranged(rows, perm)
    ensures NewUlids(db, perm) == NewUlids(db, rows)
  {
    hide Fresh, NewUlids, Rearranged;
    SameRows(rows, perm);
    forall u ensures u in NewUlids(db, perm) <==> u in NewUlids(db, rows) {
      LeadingUlids(db, rows, u);
      LeadingUlids(db, perm, u);
    }
  }

  lemma ClashShows(pay: string -> WireVersion, db: Db, rows: seq<WireVersion>, at: nat -> int, bt: nat -> int)
    requires Coherent(pay, db) && AllAgree(pay, rows) && !OneUlidEach(db, rows)
    ensures !UlidsFixed(db, rows, at, bt)
  {
    hide Coherent, Fresh, Agrees, ImportedAll, Ulids, Rearranged;
    var v, w :| v in rows && w in rows && Fresh(db, v) && Fresh(db, w) && ItemOf(v) == ItemOf(w) && v.ulid != w.ulid;
    var i: nat :| i < |rows| && rows[i] == v;
    var j: nat :| j < |rows| && rows[j] == w;
    ForemostIsRearranged(rows, i);
    ForemostIsRearranged(rows, j);
    AgreeRearranged(pay, rows, Foremost(rows, i));
    AgreeRearranged(pay, rows, Foremost(rows, j));
    FrontWins(pay, db, Foremost(rows, i), bt, w);
    FrontWins(pay, db, Foremost(rows, j), bt, v);
  }

  // numbers

  lemma ParentKeepsSizes(db: Db, key: Key, slug: string, now: int, k: Key, it: Item, n: nat)
    requires WellFormed(db)
    ensures Size(Parented(db, key, slug, now), k) == Size(db, k)
    ensures NumberedAs(Parented(db, key, slug, now), it, n) <==> NumberedAs(db, it, n)
  {
    hide TableOk;
    var p := Parented(db, key, slug, now);
    CountOfUnknown(db.versions, db.nextId);
    if i :| 0 <= i < |p.versions| && Carries(p, i, it) && p.versions[i].number == n {
      assert Carries(db, i, it);
    }
    if i :| 0 <= i < |db.versions| && Carries(db, i, it) && db.versions[i].number == n {
      assert Carries(p, i, it);
    }
  }

  lemma AppendedNumbers(p: Db, d: Db, key: Key, v: Version, it: Item, n: nat)
    requires WellFormed(p) && key in p.skills && v.skillId == p.skills[key].id && d == p.(versions := p.versions + [v])
    ensures NumberedAs(d, it, n) <==> NumberedAs(p, it, n) || (it == Item(key.profile, key.name, v.sha) && n == v.number)
  {
    hide TableOk;
    if i :| 0 <= i < |d.versions| && Carries(d, i, it) && d.versions[i].number == n {
      if i < |p.versions| {
        assert Carries(p, i, it);
      } else {
        assert p.skills[KeyOf(it)].id == p.skills[key].id;
      }
    }
    if i :| 0 <= i < |p.versions| && Carries(p, i, it) && p.versions[i].number == n {
      assert Carries(d, i, it);
    }
    if it == Item(key.profile, key.name, v.sha) && n == v.number {
      assert Carries(d, |p.versions|, it);
    }
  }

  lemma AppendedSize(p: Db, d: Db, key: Key, v: Version, k: Key)
    requires WellFormed(p) && key in p.skills && v.skillId == p.skills[key].id && NewVersion(p.versions, v)
    requires d == p.(versions := p.versions + [v])
    ensures Size(d, k) == Size(p, k) + if k == key then 1 else 0
    ensures v.number == Size(p, key) + 1
  {
    hide NewVersion;
    AppendKeepsTable(p.versions, v);
    NewNumber(p.versions, v);
  }

  lemma NewNumber(vs: seq<Version>, v: Version)
    requires TableOk(vs) && NewVersion(vs, v)
    ensures v.number == Count(vs, v.skillId) + 1
  {
    MaxIsCount(vs, v.skillId);
  }

  /** New content gets the next number of its skill on this node. */
  lemma ImportOneNumbers(pay: string -> WireVersion, db: Db, v: WireVersion, now: int, it: Item, n: nat, k: Key)
    requires Coherent(pay, db) && Stamped(pay, v)
    ensures NumberedAs(ImportedOne(db, v, now), it, n) <==>
            NumberedAs(db, it, n) || (it == ItemOf(v) && !Has(db, it) && n == Size(db, KeyOf(it)) + 1)
    ensures Size(ImportedOne(db, v, now), k) == Size(db, k) + if k == KeyOf(ItemOf(v)) && !Has(db, ItemOf(v)) then 1 else 0
  {
    hide NewVersion, Has, WellFormed, Coherent, Agrees, ImportedOne, Parented, NumberedAs, Size;
    var key := Key(v.profile, v.name);
    var p, d := Parented(db, key, v.slug, now), ImportedOne(db, v, now);
    var row := ImportAppends(pay, db, v, now);
    CoherentIsWellFormed(pay, db);
    ParentKeepsSizes(db, key, v.slug, now, k, it, n);
    ParentKeepsSizes(db, key, v.slug, now, key, it, n);
    if !Has(db, ItemOf(v)) {
      AppendedNumbers(p, d, key, row, it, n);
      AppendedSize(p, d, key, row, k);
      AppendedSize(p, d, key, row, key);
    }
  }

  ghost predicate NumbersAgree(d: Db, e: Db) { forall it, n :: NumberedAs(d, it, n) <==> NumberedAs(e, it, n) }

  lemma NumbersAreHad(db: Db, it: Item, n: nat)
    requires NumberedAs(db, it, n)
    ensures Has(db, it)
  {
  }

  /** How many rows of a batch lead for a skill. */
  ghost function LeadsOf(db: Db, rows: seq<WireVersion>, k: Key): nat {
    if rows == [] then 0
    else
      var n := |rows| - 1;
      LeadsOf(db, rows[..n], k) + if Leads(db, rows, n) && KeyOf(ItemOf(rows[n])) == k then 1 else 0
  }

  /** The number a batch gives to an item: it comes after the numbers its skill has, and after those of
      the leading rows of its skill before it. */
  ghost predicate NumberedBy(db: Db, rows: seq<WireVersion>, it: Item, n: nat) {
    exists i :: 0 <= i < |rows| && Leads(db, rows, i) && ItemOf(rows[i]) == it
                && n == Size(db, KeyOf(it)) + 1 + LeadsOf(db, rows[..i], KeyOf(it))
  }

  lemma NumberedBySnoc(db: Db, rows: seq<WireVersion>, it: Item, n: nat)
    requires rows != []
    ensures var m := |rows| - 1;
            NumberedBy(db, rows, it, n) <==>
            NumberedBy(db, rows[..m], it, n)
            || (Leads(db, rows, m) && ItemOf(rows[m]) == it && n == Size(db, KeyOf(it)) + 1 + LeadsOf(db, rows[..m], KeyOf(it)))
  {
    hide Leads, LeadsOf, Size;
    var m := |rows| - 1;
    var front := rows[..m];
    forall i: nat | i < m ensures (Leads(db, front, i) <==> Leads(db, rows, i)) && front[..i] == rows[..i] && front[i] == rows[i] {
      LeadsOfPrefix(db, rows, m, i);
    }
    if i :| 0 <= i < |front| && Leads(db, front, i) && ItemOf(front[i]) == it
            && n == Size(db, KeyOf(it)) + 1 + LeadsOf(db, front[..i], KeyOf(it)) {
      assert Leads(db, rows, i) && rows[..i] == front[..i];
    }
    if i :| 0 <= i < |rows| && Leads(db, rows, i) && ItemOf(rows[i]) == it
            && n == Size(db, KeyOf(it)) + 1 + LeadsOf(db, rows[..i], KeyOf(it)) {
      if i < m { assert Leads(db, front, i) && rows[..i] == front[..i]; }
    }
  }

  /** The sizes and numbers after a batch: every leading row makes its skill one larger and takes the
      next number. */
  lemma {:induction false} NumbersAfter(pay: string -> WireVersion, db: Db, rows: seq<WireVersion>, at: nat -> int,
                                        it: Item, n: nat, k: Key)
    requires Coherent(pay, db) && AllAgree(pay, rows)
    ensures Size(ImportedAll(db, rows, at), k) == Size(db, k) + LeadsOf(db, rows, k)
    ensures NumberedAs(ImportedAll(db, rows, at), it, n) <==> NumberedAs(db, it, n) || NumberedBy(db, rows, it, n)
  {
    hide Coherent, Has, Agrees, ImportedOne, Leads, NumberedAs, NumberedBy, Size;
    if rows == [] {
      NothingNumbered(db, it, n);
    } else {
      var m := |rows| - 1;
      var v := rows[m];
      LastLeads(pay, db, rows, at);
      NumbersAfter(pay, db, rows[..m], at, it, n, k);
      NumbersAfter(pay, db, rows[..m], at, it, n, KeyOf(it));
      NumberedBySnoc(db, rows, it, n);
      assert Agrees(pay, v);
      var d := ImportedAll(db, rows[..m], at);
      if v.ulid != "" { ImportOneNumbers(pay, d, v, at(m), it, n, k); } else { Unimported(d, v, at(m)); }
    }
  }

  lemma NothingNumbered(db: Db, it: Item, n: nat)
    ensures !NumberedBy(db, [], it, n)
  {
  }

  lemma {:induction false} LeaderCounts(db: Db, rows: seq<WireVersion>, i: nat, k: Key)
    requires i < |rows| && Leads(db, rows, i) && KeyOf(ItemOf(rows[i])) == k
    ensures LeadsOf(db, rows, k) >= 1
  {
    hide Leads;
    var n := |rows| - 1;
    if i < n {
      LeadsOfPrefix(db, rows, n, i);
      LeaderCounts(db, rows[..n], i, k);
    }
  }

  lemma {:induction false} NoLeaderNoCount(db: Db, rows: seq<WireVersion>, k: Key)
    requires forall i | 0 <= i < |rows| && KeyOf(ItemOf(rows[i])) == k :: !Leads(db, rows, i)
    ensures LeadsOf(db, rows, k) == 0
  {
    hide Leads;
    if rows != [] {
      var n := |rows| - 1;
      forall i | 0 <= i < n && KeyOf(ItemOf(rows[..n][i])) == k ensures !Leads(db, rows[..n], i) { LeadsOfPrefix(db, rows, n, i); }
      NoLeaderNoCount(db, rows[..n], k);
    }
  }

  /** No two rows carry different new items of one skill. */
  ghost predicate OneItemEach(db: Db, rows: seq<WireVersion>) {
    forall v, w | v in rows && w in rows && Fresh(db, v) && Fresh(db, w) && KeyOf(ItemOf(v)) == KeyOf(ItemOf(w)) ::
      ItemOf(v) == ItemOf(w)
  }

  ghost predicate Brings(db: Db, rows: seq<WireVersion>, it: Item) { exists v :: v in rows && Fresh(db, v) && ItemOf(v) == it }

  lemma LoneItemsNumber(db: Db, rows: seq<WireVersion>, it: Item, n: nat)
    requires OneItemEach(db, rows)
    ensures NumberedBy(db, rows, it, n) <==> Brings(db, rows, it) && n == Size(db, KeyOf(it)) + 1
  {
    hide Has, Size;
    if i :| 0 <= i < |rows| && Leads(db, rows, i) && ItemOf(rows[i]) == it
            && n == Size(db, KeyOf(it)) + 1 + LeadsOf(db, rows[..i], KeyOf(it)) {
      LoneLeader(db, rows, i);
      assert rows[i] in rows && Fresh(db, rows[i]);
    }
    if Brings(db, rows, it) && n == Size(db, KeyOf(it)) + 1 {
      var v :| v in rows && Fresh(db, v) && ItemOf(v) == it;
      var i: nat :| i < |rows| && rows[i] == v;
      var j := LeaderOf(db, rows, i);
      LoneLeader(db, rows, j);
    }
  }

  lemma LeadersShareItem(db: Db, rows: seq<WireVersion>, i: nat, j: nat)
    requires OneItemEach(db, rows) && i < |rows| && j < |rows| && Leads(db, rows, i) && Leads(db, rows, j)
    requires KeyOf(ItemOf(rows[i])) == KeyOf(ItemOf(rows[j]))
    ensures ItemOf(rows[i]) == ItemOf(rows[j])
  {
    hide Has;
    assert rows[i] in rows && rows[j] in rows && Fresh(db, rows[i]) && Fresh(db, rows[j]);
  }

  lemma LoneLeader(db: Db, rows: seq<WireVersion>, i: nat)
    requires OneItemEach(db, rows) && i < |rows| && Leads(db, rows, i)
    ensures LeadsOf(db, rows[..i], KeyOf(ItemOf(rows[i]))) == 0
  {
    hide Has;
    var k := KeyOf(ItemOf(rows[i]));
    forall m | 0 <= m < i && KeyOf(ItemOf(rows[..i][m])) == k ensures !Leads(db, rows[..i], m) {
      LeadsOfPrefix(db, rows, i, m);
      if Leads(db, rows, m) { LeadersShareItem(db, rows, m, i); }
    }
    NoLeaderNoCount(db, rows[..i], k);
  }

  ghost predicate NumbersFixed(db: Db, rows: seq<WireVersion>, at: nat -> int, bt: nat -> int) {
    forall perm | Rearranged(rows, perm) :: NumbersAgree(ImportedAll(db, perm, bt), ImportedAll(db, rows, at))
  }

  /** All orders of a batch give the same version numbers exactly when no two of its rows carry different
      items of one skill that the node lacks. */
  lemma NumbersDependOnOrderIff(pay: string -> WireVersion, db: Db, rows: seq<WireVersion>, at: nat -> int, bt: nat -> int)
    requires Coherent(pay, db) && AllAgree(pay, rows)
    ensures NumbersFixed(db, rows, at, bt) <==> OneItemEach(db, rows)
  {
    hide Coherent, Fresh, Agrees, ImportedAll, NumbersAgree, Rearranged, AllAgree, OneItemEach;
    if OneItemEach(db, rows) {
      forall perm | Rearranged(rows, perm) ensures NumbersAgree(ImportedAll(db, perm, bt), ImportedAll(db, rows, at)) {
        AgreeRearranged(pay, rows, perm);
        SameNumbers(pay, db, rows, perm, at, bt);
      }
    } else {
      CrowdShows(pay, db, rows, at, bt);
    }
  }

  lemma SameNumbers(pay: string -> WireVersion, db: Db, rows: seq<WireVersion>, perm: seq<WireVersion>, at: nat -> int, bt: nat -> int)
    requires Coherent(pay, db) && AllAgree(pay, rows) && AllAgree(pay, perm) && OneItemEach(db, rows) && Rearranged(rows, perm)
    ensures NumbersAgree(ImportedAll(db, perm, bt), ImportedAll(db, rows, at))
  {
    hide Coherent, Fresh, AllAgree, ImportedAll, NumberedAs, NumberedBy, Size, Rearranged, LeadsOf;
    SameRows(rows, perm);
    forall it, n: nat
      ensures NumberedAs(ImportedAll(db, perm, bt), it, n) <==> NumberedAs(ImportedAll(db, rows, at), it, n)
    {
      NumbersAfter(pay, db, rows, at, it, n, KeyOf(it));
      NumbersAfter(pay, db, perm, bt, it, n, KeyOf(it));
      LoneItemsNumber(db, rows, it, n);
      LoneItemsNumber(db, perm, it, n);
    }
  }

  /** The item in front gets the next number of its skill, and no other item of the skill gets that. */
  lemma FrontIsNext(pay: string -> WireVersion, db: Db, rows: seq<WireVersion>, at: nat -> int, w: WireVersion)
    requires Coherent(pay, db) && AllAgree(pay, rows) && rows != [] && Fresh(db, rows[0]) && Fresh(db, w)
    requires KeyOf(ItemOf(rows[0])) == KeyOf(ItemOf(w)) && ItemOf(rows[0]) != ItemOf(w)
    ensures var d, n := ImportedAll(db, rows, at), Size(db, KeyOf(ItemOf(w))) + 1;
            NumberedAs(d, ItemOf(rows[0]), n) && !NumberedAs(d, ItemOf(w), n)
  {
    hide Coherent, Has, AllAgree, ImportedAll, NumberedAs, Size;
    var it, k := ItemOf(w), KeyOf(ItemOf(w));
    var n := Size(db, k) + 1;
    assert Leads(db, rows, 0) && LeadsOf(db, rows[..0], k) == 0;
    NumbersAfter(pay, db, rows, at, ItemOf(rows[0]), n, k);
    NumbersAfter(pay, db, rows, at, it, n, k);
    if NumberedAs(db, it, n) { NumbersAreHad(db, it, n); }
    forall i | 0 <= i < |rows| && Leads(db, rows, i) && ItemOf(rows[i]) == it ensures LeadsOf(db, rows[..i], k) >= 1 {
      LeadsOfPrefix(db, rows, i, 0);
      LeaderCounts(db, rows[..i], 0, k);
    }
  }

  lemma CrowdShows(pay: string -> WireVersion, db: Db, rows: seq<WireVersion>, at: nat -> int, bt: nat -> int)
    requires Coherent(pay, db) && AllAgree(pay, rows) && !OneItemEach(db, rows)
    ensures !NumbersFixed(db, rows, at, bt)
  {
    hide Coherent, Fresh, AllAgree, ImportedAll, NumberedAs, Rearranged, Size;
    var v, w :| v in rows && w in rows && Fresh(db, v) && Fresh(db, w) && KeyOf(ItemOf(v)) == KeyOf(ItemOf(w)) && ItemOf(v) != ItemOf(w);
    var i: nat :| i < |rows| && rows[i] == v;
    var j: nat :| j < |rows| && rows[j] == w;
    var n := Size(db, KeyOf(ItemOf(w))) + 1;
    ForemostIsRearranged(rows, i);
    ForemostIsRearranged(rows, j);
    AgreeRearranged(pay, rows, Foremost(rows, i));
    AgreeRearranged(pay, rows, Foremost(rows, j));
    FrontIsNext(pay, db, Foremost(rows, i), bt, w);
    FrontIsNext(pay, db, Foremost(rows, j), bt, v);
    var x, z := ImportedAll(db, Foremost(rows, i), bt), ImportedAll(db, Foremost(rows, j), bt);
    assert NumberedAs(x, ItemOf(v), n) && !NumberedAs(z, ItemOf(v), n);
  }

  function Sample(sha: string, ulid: string): WireVersion {
    WireVersion("personal", "lint", "lint", sha, map[], "", "", "", ulid)
  }

  lemma EmptyIsCoherent(pay: string -> WireVersion)
    ensures Coherent(pay, EMPTY) && forall it :: !Has(EMPTY, it)
  {
  }

  /** An input where the order shows in the ULIDs: one content, authored on two nodes. */
  lemma UlidsMayDependOnOrder(at: nat -> int)
    ensures var a, b := Sample("s", "01A"), Sample("s", "01B");
            Ulids(ImportedAll(EMPTY, [a, b], at)) != Ulids(ImportedAll(EMPTY, [b, a], at))
  {
    hide Ulids, ImportedAll, Has, Coherent;
    var pay := (u: string) => Payload(Sample("s", u));
    var a, b := Sample("s", "01A"), Sample("s", "01B");
    EmptyIsCoherent(pay);
    FrontWins(pay, EMPTY, [a, b], at, b);
    FrontWins(pay, EMPTY, [b, a], at, a);
  }

  lemma SamplesDiffer(pay: string -> WireVersion)
    requires forall u :: pay(u) == Payload(Sample(if u == "01A" then "s" else "t", u))
    ensures var a, b := Sample("s", "01A"), Sample("t", "01B");
            && AllAgree(pay, [a, b]) && AllAgree(pay, [b, a])
            && ItemOf(a) != ItemOf(b) && KeyOf(ItemOf(a)) == KeyOf(ItemOf(b)) && Fresh(EMPTY, a) && Fresh(EMPTY, b)
  {
    EmptyIsCoherent(pay);
  }

  lemma OneNumberDiffers(d: Db, e: Db, it: Item, n: nat)
    requires NumberedAs(d, it, n) && !NumberedAs(e, it, n)
    ensures !NumbersAgree(d, e)
  {
    hide NumberedAs;
  }

  /** An input where the order shows in the numbers: two versions of one skill. */
  lemma NumbersMayDependOnOrder(at: nat -> int)
    ensures var a, b := Sample("s", "01A"), Sample("t", "01B");
            !NumbersAgree(ImportedAll(EMPTY, [a, b], at), ImportedAll(EMPTY, [b, a], at))
  {
    hide *;
    var pay := (u: string) => Payload(Sample(if u == "01A" then "s" else "t", u));
    var a, b := Sample("s", "01A"), Sample("t", "01B");
    EmptyIsCoherent(pay);
    SamplesDiffer(pay);
    FrontIsNext(pay, EMPTY, [a, b], at, b);
    FrontIsNext(pay, EMPTY, [b, a], at, a);
    OneNumberDiffers(ImportedAll(EMPTY, [a, b], at), ImportedAll(EMPTY, [b, a], at), ItemOf(a), Size(EMPTY, KeyOf(ItemOf(a))) + 1);
  }

  // ---------------------------------------------------------------- export

  ghost predicate Exports(db: Db, profile: string, k: Key, i: nat) {
    && i < |db.versions| && k in db.skills && k.profile == profile
    && db.skills[k].id == db.versions[i].skillId && db.versions[i].ulid != ""
  }

  /** The profile's stamped versions by ULID. */
  ghost function UlidIndex(db: Db, profile: string): (index: Keyset.Table<WireVersion>)
    requires WellFormed(db)
  {
    UlidKeysAreUnique(db, profile);
    map k, i: nat | k in db.skills && 0 <= i < |db.versions| && Exports(db, profile, k, i)
      :: Codes(db.versions[i].ulid) := Wire(k, db.skills[k], db.versions[i])
  }

  lemma UlidKeysAreUnique(db: Db, profile: string)
    requires WellFormed(db)
    ensures forall k, i: nat, l, j: nat | Exports(db, profile, k, i) && Exports(db, profile, l, j)
                                && Codes(db.versions[i].ulid) == Codes(db.versions[j].ulid) :: k == l && i == j
  {
    forall k, i: nat, l, j: nat | Exports(db, profile, k, i) && Exports(db, profile, l, j)
                        && Codes(db.versions[i].ulid) == Codes(db.versions[j].ulid)
      ensures k == l && i == j
    {
      CodesInjective(db.versions[i].ulid, db.versions[j].ulid);
    }
  }

  /** ExportSkillVersions: rows after a ULID, in ULID order; the empty text is before every ULID. */
  ghost function Exported(db: Db, profile: string, since: string, limit: nat): seq<WireVersion>
    requires WellFormed(db)
  {
    var index := UlidIndex(db, profile);
    Keyset.Rows(index, Keyset.Scan(index.Keys, Codes(since), limit))
  }

  /** All pages from a frozen exporter, each asked for with the last ULID of the one before. */
  ghost function FullPull(db: Db, profile: string): seq<WireVersion>
    requires WellFormed(db)
  {
    var index := UlidIndex(db, profile);
    Keyset.Rows(index, Keyset.ScanAll(index.Keys, []))
  }

  /** Paging a frozen exporter from the empty cursor is the full pull, for every page size. */
  lemma PagesAreTheFullPull(db: Db, profile: string, limit: nat)
    requires WellFormed(db) && limit > 0
    ensures Keyset.Flatten(Keyset.RowPages(UlidIndex(db, profile), Codes(""), limit)) == FullPull(db, profile)
  {
    hide UlidIndex;
    assert Codes("") == [];
    Keyset.RowPagesAreTheScan(UlidIndex(db, profile), [], limit);
  }

  /** What a pull resumed from a cursor still gets: exactly the rows whose ULID sorts after it. A row
      imported behind the cursor is never among them. */
  lemma ResumedPullGetsIff(db: Db, profile: string, since: string, k: Key, i: nat)
    requires WellFormed(db) && Exports(db, profile, k, i)
    ensures var index := UlidIndex(db, profile);
            Wire(k, db.skills[k], db.versions[i]) in Keyset.Rows(index, Keyset.ScanAll(index.Keys, Codes(since)))
            <==> Keyset.Less(Codes(since), Codes(db.versions[i].ulid))
  {
    hide Keyset.Less, TableOk, Codes;
    var index := UlidIndex(db, profile);
    var key, row := Codes(db.versions[i].ulid), Wire(k, db.skills[k], db.versions[i]);
    assert Exports(db, profile, k, i);
    IndexHolds(db, profile, k, i);
    Keyset.ScanAllIsSortedRest(index.Keys, Codes(since));
    var ks := Keyset.ScanAll(index.Keys, Codes(since));
    if key in ks {
      var n :| 0 <= n < |ks| && ks[n] == key;
      assert Keyset.Rows(index, ks)[n] == row;
    }
    if row in Keyset.Rows(index, ks) {
      var n :| 0 <= n < |ks| && Keyset.Rows(index, ks)[n] == row;
      var l, j := IndexKey(db, profile, ks[n]);
    }
  }

  lemma IndexHolds(db: Db, profile: string, k: Key, i: nat)
    requires WellFormed(db) && Exports(db, profile, k, i)
    ensures var index := UlidIndex(db, profile);
            Codes(db.versions[i].ulid) in index && index[Codes(db.versions[i].ulid)] == Wire(k, db.skills[k], db.versions[i])
  {
    hide Codes, WellFormed;
    UlidKeysAreUnique(db, profile);
  }

  lemma IndexKey(db: Db, profile: string, key: Keyset.Key) returns (k: Key, i: nat)
    requires WellFormed(db) && key in UlidIndex(db, profile)
    ensures Exports(db, profile, k, i) && key == Codes(db.versions[i].ulid)
    ensures UlidIndex(db, profile)[key] == Wire(k, db.skills[k], db.versions[i])
  {
    hide Codes, WellFormed;
    UlidKeysAreUnique(db, profile);
    k, i :| Exports(db, profile, k, i) && Codes(db.versions[i].ulid) == key;
  }

  /** A pulled row is a version of the profile, under its own ULID. */
  lemma PulledRow(pay: string -> WireVersion, db: Db, profile: string, n: nat) returns (k: Key, i: nat)
    requires Coherent(pay, db) && WellFormed(db) && n < |FullPull(db, profile)|
    ensures Exports(db, profile, k, i) && FullPull(db, profile)[n] == Wire(k, db.skills[k], db.versions[i])
    ensures Agrees(pay, FullPull(db, profile)[n])
  {
    hide UlidIndex, Keyset.ScanAll, Keyset.Less, WellFormed, Codes;
    var index := UlidIndex(db, profile);
    var ks := Keyset.ScanAll(index.Keys, []);
    k, i := IndexKey(db, profile, ks[n]);
    assert Names(pay, db, i);
  }

  /** A full pull offers exactly the profile's stamped content, every row under its own ULID. */
  lemma FullPullOffers(pay: string -> WireVersion, db: Db, profile: string)
    requires Coherent(pay, db)
    ensures WellFormed(db)
    ensures forall n | 0 <= n < |FullPull(db, profile)| :: Agrees(pay, FullPull(db, profile)[n])
    ensures forall it :: Offers(FullPull(db, profile), it) <==> it.profile == profile && HasStamped(db, it)
  {
    hide FullPull, WellFormed, Agrees, Names;
    assert WellFormed(db);
    var rows := FullPull(db, profile);
    forall n | 0 <= n < |rows| ensures Agrees(pay, rows[n]) {
      var k, i := PulledRow(pay, db, profile, n);
    }
    forall it ensures Offers(rows, it) <==> it.profile == profile && HasStamped(db, it) {
      if Offers(rows, it) {
        var n :| 0 <= n < |rows| && rows[n].ulid != "" && ItemOf(rows[n]) == it;
        var k, i := PulledRow(pay, db, profile, n);
        assert k == Key(it.profile, it.name);
        assert Carries(db, i, it);
      }
      if it.profile == profile && HasStamped(db, it) {
        var i :| 0 <= i < |db.versions| && Carries(db, i, it) && db.versions[i].ulid != "";
        ExportedItem(db, profile, i, it);
      }
    }
  }

  lemma ExportedItem(db: Db, profile: string, i: nat, it: Item)
    requires WellFormed(db) && i < |db.versions| && Carries(db, i, it) && it.profile == profile && db.versions[i].ulid != ""
    ensures Offers(FullPull(db, profile), it)
  {
    hide UlidIndex, TableOk;
    var k := Key(it.profile, it.name);
    var index, key := UlidIndex(db, profile), Codes(db.versions[i].ulid);
    var ks := Keyset.ScanAll(index.Keys, []);
    assert Exports(db, profile, k, i);
    IndexHolds(db, profile, k, i);
    Keyset.ScanAllIsSortedRest(index.Keys, []);
    assert Keyset.Less([], key);
    var n :| 0 <= n < |ks| && ks[n] == key;
    assert FullPull(db, profile)[n] == Wire(k, db.skills[k], db.versions[i]);
  }

  /** A row on the wire says what its version and its parent say. */
  ghost predicate SentFrom(v: WireVersion, db: Db, k: Key, x: Version) {
    && k in db.skills && x.skillId == db.skills[k].id && x.ulid != ""
    && v.profile == k.profile && v.name == k.name && v.slug == db.skills[k].slug
    && StoredFrom(x, v)
  }

  /** What an export is, however it is found: stamped versions of the profile after the cursor, in ULID
      order, at most `limit`, and one is only left out behind a full page of smaller ones. */
  lemma ExportMeans(db: Db, profile: string, since: string, limit: nat)
    requires WellFormed(db)
    ensures var page := Exported(db, profile, since, limit);
            && |page| <= limit
            && (forall i, j | 0 <= i < j < |page| :: Keyset.Less(Codes(page[i].ulid), Codes(page[j].ulid)))
            && (forall v | v in page ::
                  && v.profile == profile && Keyset.Less(Codes(since), Codes(v.ulid))
                  && exists k, x :: x in db.versions && SentFrom(v, db, k, x))
            && (forall k, x | k in db.skills && k.profile == profile && x in db.versions && x.skillId == db.skills[k].id
                              && x.ulid != "" && Keyset.Less(Codes(since), Codes(x.ulid)) ::
                  || (exists v :: v in page && SentFrom(v, db, k, x))
                  || (|page| == limit && forall v | v in page :: Keyset.Less(Codes(v.ulid), Codes(x.ulid))))
  {
    hide UlidIndex, Keyset.Less, Keyset.Scan, Codes, WellFormed;
    var index := UlidIndex(db, profile);
    var ks := Keyset.Scan(index.Keys, Codes(since), limit);
    var page := Exported(db, profile, since, limit);
    Keyset.PageMeans(index.Keys, Codes(since), limit);
    forall n | 0 <= n < |page|
      ensures ks[n] == Codes(page[n].ulid) && page[n].profile == profile
      ensures exists k, x :: x in db.versions && SentFrom(page[n], db, k, x)
    {
      var k, i := IndexKey(db, profile, ks[n]);
      assert db.versions[i] in db.versions && SentFrom(page[n], db, k, db.versions[i]);
    }
    forall v | v in page ensures exists n :: 0 <= n < |page| && page[n] == v && Codes(v.ulid) in ks {
      var n :| 0 <= n < |page| && page[n] == v;
      assert ks[n] == Codes(page[n].ulid);
    }
    forall k, x | k in db.skills && k.profile == profile && x in db.versions && x.skillId == db.skills[k].id
                  && x.ulid != "" && Keyset.Less(Codes(since), Codes(x.ulid))
      ensures || (exists v :: v in page && SentFrom(v, db, k, x))
              || (|page| == limit && forall v | v in page :: Keyset.Less(Codes(v.ulid), Codes(x.ulid)))
    {
      var i :| 0 <= i < |db.versions| && db.versions[i] == x;
      assert Exports(db, profile, k, i);
      IndexHolds(db, profile, k, i);
      if Codes(x.ulid) in ks {
        var n :| 0 <= n < |ks| && ks[n] == Codes(x.ulid);
        assert page[n] in page && SentFrom(page[n], db, k, x);
      }
    }
  }

  /** A version registered under a ULID can travel: a full pull of the profile offers it from then on. */
  lemma RegisteredIsOffered(db: Db, hash: Hash, input: RegisterInput, ulid: string, now: int)
    requires WellFormed(db) && ulid != ""
    requires var r := Registered(db, hash, input, ulid, now).1; r.Ok? && r.value.created
    ensures var d := Registered(db, hash, input, ulid, now).0;
            && WellFormed(d)
            && Offers(FullPull(d, input.profile), Item(input.profile, input.name, ShaOf(hash, input.fm, input.body)))
            && exists v :: v in FullPull(d, input.profile) && v.profile == input.profile && v.name == input.name
                           && v.fm == input.fm && v.body == input.body && v.author == input.author
                           && v.source == input.source && v.ulid == ulid
  {
    hide WellFormed, Registered, ShaOf, UlidIndex, Keyset.Less;
    var (d, r) := Registered(db, hash, input, ulid, now);
    var k := Key(input.profile, input.name);
    var it := Item(input.profile, input.name, ShaOf(hash, input.fm, input.body));
    RegisterKeeps(db, hash, input, ulid, now);
    RegistrationRecords(db, hash, input, ulid, now);
    var i := |db.versions|;
    assert Carries(d, i, it) && Exports(d, k.profile, k, i);
    ExportedItem(d, input.profile, i, it);
    IndexHolds(d, k.profile, k, i);
    EmptyComesFirst(ulid);
    assert Codes("") == [];
    ResumedPullGetsIff(d, k.profile, "", k, i);
  }

  lemma EmptyComesFirst(ulid: string)
    requires ulid != ""
    ensures Keyset.Less(Codes(""), Codes(ulid))
  {
  }

  // resuming from a cursor

  /** All pages asked for from a cursor on. */
  ghost function Resumed(db: Db, profile: string, since: string): seq<WireVersion>
    requires WellFormed(db)
  {
    var index := UlidIndex(db, profile);
    Keyset.Rows(index, Keyset.ScanAll(index.Keys, Codes(since)))
  }

  /** Content under a ULID that sorts after the cursor. */
  ghost predicate HasAfter(db: Db, it: Item, since: string) {
    exists i | 0 <= i < |db.versions| ::
      Carries(db, i, it) && db.versions[i].ulid != "" && Keyset.Less(Codes(since), Codes(db.versions[i].ulid))
  }

  lemma ResumedOffers(db: Db, profile: string, since: string, it: Item)
    requires WellFormed(db)
    ensures Offers(Resumed(db, profile, since), it) <==> it.profile == profile && HasAfter(db, it, since)
  {
    hide UlidIndex, Keyset.ScanAll, Keyset.Less, WellFormed, Codes;
    var index := UlidIndex(db, profile);
    var ks := Keyset.ScanAll(index.Keys, Codes(since));
    var rows := Resumed(db, profile, since);
    if n :| 0 <= n < |rows| && rows[n].ulid != "" && ItemOf(rows[n]) == it {
      var k, i := IndexKey(db, profile, ks[n]);
      ResumedPullGetsIff(db, profile, since, k, i);
      assert rows[n] in rows;
      assert k == KeyOf(it);
      assert Carries(db, i, it);
    }
    if it.profile == profile && HasAfter(db, it, since) {
      var i :| 0 <= i < |db.versions| && Carries(db, i, it) && db.versions[i].ulid != ""
               && Keyset.Less(Codes(since), Codes(db.versions[i].ulid));
      assert Exports(db, profile, KeyOf(it), i);
      ResumedPullGetsIff(db, profile, since, KeyOf(it), i);
      var row := Wire(KeyOf(it), db.skills[KeyOf(it)], db.versions[i]);
      var n :| 0 <= n < |rows| && rows[n] == row;
    }
  }

  /** An exporter as it may look some time later: versions are added, skills keep their ids. */
  ghost predicate Grown(db: Db, d: Db) {
    db.versions <= d.versions && forall k | k in db.skills :: k in d.skills && d.skills[k].id == db.skills[k].id
  }

  lemma RunGrows(db: Db, ops: seq<Op>)
    requires WellFormed(db)
    ensures Grown(db, Run(db, ops)) && WellFormed(Run(db, ops))
  {
    hide Run, WellFormed, NumbersAreUpTo;
    RunKeepsWellFormed(db, ops);
    forall k | k in db.skills ensures k in Run(db, ops).skills && Run(db, ops).skills[k].id == db.skills[k].id {
      RunKeepsIds(db, ops, k);
    }
  }

  /** A peer that has pulled everything, and resumes from a cursor later, gets all that is offered by then. */
  ghost predicate ResumesFully(db: Db, d: Db, profile: string, since: string)
    requires WellFormed(db) && WellFormed(d)
  {
    forall it | Offers(FullPull(d, profile), it) :: Offers(FullPull(db, profile), it) || Offers(Resumed(d, profile, since), it)
  }

  /** Every stamped version the exporter gained for the profile sorts after the cursor. */
  ghost predicate GainedAhead(db: Db, d: Db, profile: string, since: string) {
    forall k, i | |db.versions| <= i < |d.versions| && Exports(d, profile, k, i) ::
      Keyset.Less(Codes(since), Codes(d.versions[i].ulid))
  }

  lemma KeptOrGained(pay: string -> WireVersion, db: Db, d: Db, it: Item, i: nat)
    requires Coherent(pay, db) && WellFormed(d) && Grown(db, d)
    requires i < |db.versions| && Carries(d, i, it)
    ensures Carries(db, i, it)
  {
    hide TableOk;
    assert d.versions[i] == db.versions[i];
    var k :| k in db.skills && db.skills[k].id == db.versions[i].skillId;
    assert k == KeyOf(it);
  }

  lemma OneVersionEach(db: Db, it: Item, i: nat, j: nat)
    requires WellFormed(db) && i < |db.versions| && j < |db.versions| && Carries(db, i, it) && Carries(db, j, it)
    ensures i == j
  {
  }

  /** The item of a version gained behind the cursor is missed. */
  lemma GainedBehindIsMissed(db: Db, d: Db, profile: string, since: string, k: Key, i: nat)
    requires WellFormed(db) && WellFormed(d) && Grown(db, d)
    requires |db.versions| <= i < |d.versions| && Exports(d, profile, k, i)
    requires !Keyset.Less(Codes(since), Codes(d.versions[i].ulid))
    ensures var it := Item(k.profile, k.name, d.versions[i].sha);
            HasStamped(d, it) && !HasStamped(db, it) && !HasAfter(d, it, since)
  {
    hide WellFormed, Codes, Keyset.Less;
    var it := Item(k.profile, k.name, d.versions[i].sha);
    assert Carries(d, i, it);
    if j :| 0 <= j < |db.versions| && Carries(db, j, it) && db.versions[j].ulid != "" {
      assert d.versions[j] == db.versions[j];
      OneVersionEach(d, it, i, j);
    }
    if j :| 0 <= j < |d.versions| && Carries(d, j, it) && d.versions[j].ulid != ""
            && Keyset.Less(Codes(since), Codes(d.versions[j].ulid)) {
      OneVersionEach(d, it, i, j);
    }
  }

  /** A resumed pull is complete exactly when all that the exporter has gained since, under ULIDs, sorts
      after the cursor. What it imports from others need not. */
  lemma ResumedPullIsCompleteIff(pay: string -> WireVersion, db: Db, d: Db, profile: string, since: string)
    requires Coherent(pay, db) && Coherent(pay, d) && Grown(db, d)
    ensures WellFormed(db) && WellFormed(d)
    ensures ResumesFully(db, d, profile, since) <==> GainedAhead(db, d, profile, since)
  {
    hide FullPull, Resumed, Keyset.Less, Codes, HasStamped, HasAfter, Offers, WellFormed, Coherent;
    CoherentIsWellFormed(pay, db);
    CoherentIsWellFormed(pay, d);
    FullPullOffers(pay, db, profile);
    FullPullOffers(pay, d, profile);
    if GainedAhead(db, d, profile, since) {
      forall it | Offers(FullPull(d, profile), it)
        ensures Offers(FullPull(db, profile), it) || Offers(Resumed(d, profile, since), it)
      {
        ResumedOffers(d, profile, since, it);
        StampedIsKeptOrAhead(pay, db, d, profile, since, it);
      }
    } else {
      var k, i :| |db.versions| <= i < |d.versions| && Exports(d, profile, k, i)
                  && !Keyset.Less(Codes(since), Codes(d.versions[i].ulid));
      var it := Item(k.profile, k.name, d.versions[i].sha);
      GainedBehindIsMissed(db, d, profile, since, k, i);
      ResumedOffers(d, profile, since, it);
      assert Offers(FullPull(d, profile), it);
    }
  }

  lemma StampedIsKeptOrAhead(pay: string -> WireVersion, db: Db, d: Db, profile: string, since: string, it: Item)
    requires Coherent(pay, db) && WellFormed(d) && Grown(db, d) && GainedAhead(db, d, profile, since)
    requires it.profile == profile && HasStamped(d, it)
    ensures HasStamped(db, it) || HasAfter(d, it, since)
  {
    hide WellFormed, Codes, Keyset.Less, Coherent;
    var i :| 0 <= i < |d.versions| && Carries(d, i, it) && d.versions[i].ulid != "";
    if i < |db.versions| {
      KeptOrGained(pay, db, d, it, i);
      assert d.versions[i] == db.versions[i];
    } else {
      assert Exports(d, profile, KeyOf(it), i);
    }
  }

  /** An input where it is not: a peer pulls "01B" from a node, the node then imports "01A", and the peer
      resumes from "01B". */
  lemma ResumedPullMayMiss(at: nat -> int)
    ensures var before := ImportedAll(EMPTY, [Sample("s", "01B")], at);
            var after := ImportedOne(before, Sample("t", "01A"), at(1));
            && WellFormed(before) && WellFormed(after)
            && Offers(FullPull(after, "personal"), Item("personal", "lint", "t"))
            && !ResumesFully(before, after, "personal", "01B")
  {
    hide FullPull, Resumed, HasStamped, Has, HasAfter, Offers, WellFormed, Coherent, ImportedOne, ImportedAll, Content, Agrees;
    var pay := (u: string) => Payload(Sample(if u == "01A" then "t" else "s", u));
    var b, a := Sample("s", "01B"), Sample("t", "01A");
    var it := ItemOf(a);
    var before := ImportedAll(EMPTY, [b], at);
    var after := ImportedOne(before, a, at(1));
    SamplesAgree(pay);
    EmptyIsCoherent(pay);
    StampedIsHad(EMPTY, it);
    ImportIsUnion(pay, EMPTY, [b], at);
    ImportKeepsCoherent(pay, before, a, at(1));
    OnlyOneOffered(b, it);
    ContentMember(EMPTY, before, [b], it);
    ImportStamps(pay, EMPTY, [b], at, it);
    ImportOneStamps(pay, before, a, at(1), it);
    CoherentIsWellFormed(pay, before);
    CoherentIsWellFormed(pay, after);
    FullPullOffers(pay, before, "personal");
    FullPullOffers(pay, after, "personal");
    ResumedOffers(after, "personal", "01B", it);
    NothingAfter(pay, after);
    assert Offers(FullPull(after, "personal"), it);
  }

  lemma SamplesAgree(pay: string -> WireVersion)
    requires forall u :: pay(u) == Payload(Sample(if u == "01A" then "t" else "s", u))
    ensures Agrees(pay, Sample("s", "01B")) && Agrees(pay, Sample("t", "01A"))
  {
  }

  lemma OnlyOneOffered(b: WireVersion, it: Item)
    requires ItemOf(b) != it
    ensures !Offers([b], it)
  {
  }

  lemma NothingAfter(pay: string -> WireVersion, db: Db)
    requires Coherent(pay, db) && forall u :: pay(u).sha == "t" ==> u == "01A"
    ensures !HasAfter(db, Item("personal", "lint", "t"), "01B")
  {
    hide WellFormed, Codes, Keyset.Less;
    forall i | 0 <= i < |db.versions| && Carries(db, i, Item("personal", "lint", "t")) && db.versions[i].ulid != ""
      ensures db.versions[i].ulid == "01A"
    {
      assert Names(pay, db, i);
      assert Payload(Wire(Key("personal", "lint"), db.skills[Key("personal", "lint")], db.versions[i])) == pay(db.versions[i].ulid);
    }
    AIsBeforeB();
  }

  lemma AIsBeforeB()
    ensures !Keyset.Less(Codes("01B"), Codes("01A"))
  {
    assert Codes("01B") == [48, 49, 66] && Codes("01A") == [48, 49, 65];
    assert Codes("01B")[1..] == [49, 66] && Codes("01A")[1..] == [49, 65];
    assert [49, 66][1..] == [66] && [49, 65][1..] == [65];
  }

  /** Rows stamped in different milliseconds are exported in time order. */
  lemma ExportInTimeOrder(db: Db, profile: string, since: string, limit: nat, i: nat, j: nat,
                          a: nat, b: nat, r: seq<int>, s: seq<int>)
    requires WellFormed(db) && i < |Exported(db, profile, since, limit)| && j < |Exported(db, profile, since, limit)|
    requires a < TIME_RANGE && b < TIME_RANGE && IsDraw(r) && IsDraw(s) && a < b
    requires Exported(db, profile, since, limit)[i].ulid == Generated(a, r)
    requires Exported(db, profile, since, limit)[j].ulid == Generated(b, s)
    ensures i < j
  {
    hide UlidIndex, Keyset.Less, Keyset.Scan, Keyset.ScanAll, WellFormed, Generated;
    var index := UlidIndex(db, profile);
    var ks := Keyset.Scan(index.Keys, Codes(since), limit);
    Keyset.ScanIsPrefix(index.Keys, Codes(since), limit);
    Keyset.ScanAllIsSortedRest(index.Keys, Codes(since));
    var _, _ := IndexKey(db, profile, ks[i]);
    var _, _ := IndexKey(db, profile, ks[j]);
    UlidsSortByTime(a, b, r, s);
    Keyset.NeverBothLess(ks[i], ks[j]);
    Keyset.LessIrreflexive(ks[i]);
  }

  // ---------------------------------------------------------------- a network of nodes

  /** `to` pulls everything `from` has for the profile, importing the n-th row at time `at(n)`. */
  datatype Pull = Pull(from: nat, to: nat, at: nat -> int)

  ghost predicate NetworkOk(pay: string -> WireVersion, nodes: seq<Db>) {
    forall n | 0 <= n < |nodes| :: Coherent(pay, nodes[n])
  }

  predicate Among(nodes: nat, schedule: seq<Pull>) {
    forall i | 0 <= i < |schedule| :: schedule[i].from < nodes && schedule[i].to < nodes
  }

  ghost function Pulled(nodes: seq<Db>, profile: string, p: Pull): (r: seq<Db>)
    requires p.from < |nodes| && p.to < |nodes|
    ensures |r| == |nodes|
  {
    if WellFormed(nodes[p.from]) then
      nodes[p.to := ImportedAll(nodes[p.to], FullPull(nodes[p.from], profile), p.at)]
    else nodes
  }

  /** Which nodes' initial content has come each node's way, when the mute ones pass nothing on. */
  function Told(known: seq<set<nat>>, p: Pull, mute: set<nat>): (r: seq<set<nat>>)
    requires p.from < |known| && p.to < |known|
    ensures |r| == |known|
  {
    if p.from in mute then known else known[p.to := known[p.to] + known[p.from]]
  }

  function Gossip(known: seq<set<nat>>, schedule: seq<Pull>, mute: set<nat>): (r: seq<set<nat>>)
    requires Among(|known|, schedule)
    ensures |r| == |known|
    decreases |schedule|
  {
    if schedule == [] then known else Gossip(Told(known, schedule[0], mute), schedule[1..], mute)
  }

  function Alone(n: nat): (r: seq<set<nat>>)
    ensures |r| == n
  {
    seq(n, i requires 0 <= i < n => {i})
  }

  ghost function Synced(nodes: seq<Db>, profile: string, schedule: seq<Pull>): (r: seq<Db>)
    requires Among(|nodes|, schedule)
    ensures |r| == |nodes|
    decreases |schedule|
  {
    if schedule == [] then nodes else Synced(Pulled(nodes, profile, schedule[0]), profile, schedule[1..])
  }

  lemma PullKeepsNetwork(pay: string -> WireVersion, nodes: seq<Db>, profile: string, p: Pull)
    requires NetworkOk(pay, nodes) && p.from < |nodes| && p.to < |nodes|
    ensures WellFormed(nodes[p.from]) && NetworkOk(pay, Pulled(nodes, profile, p))
    ensures forall it :: Has(Pulled(nodes, profile, p)[p.to], it) <==>
                         Has(nodes[p.to], it) || (it.profile == profile && HasStamped(nodes[p.from], it))
    ensures forall it :: HasStamped(Pulled(nodes, profile, p)[p.to], it) <==>
                         HasStamped(nodes[p.to], it)
                         || (it.profile == profile && HasStamped(nodes[p.from], it) && !Has(nodes[p.to], it))
  {
    hide Coherent, Has, HasStamped, Offers, ImportedAll, Agrees, FullPull, WellFormed, Content;
    var rows := FullPullOf(pay, nodes, profile, p);
    var d := Pulled(nodes, profile, p)[p.to];
    ImportIsUnion(pay, nodes[p.to], rows, p.at);
    forall it
      ensures Has(d, it) <==> Has(nodes[p.to], it) || (it.profile == profile && HasStamped(nodes[p.from], it))
      ensures HasStamped(d, it) <==> HasStamped(nodes[p.to], it)
                                     || (it.profile == profile && HasStamped(nodes[p.from], it) && !Has(nodes[p.to], it))
    {
      ContentMember(nodes[p.to], d, rows, it);
      ImportStamps(pay, nodes[p.to], rows, p.at, it);
    }
  }

  lemma FullPullOf(pay: string -> WireVersion, nodes: seq<Db>, profile: string, p: Pull) returns (rows: seq<WireVersion>)
    requires NetworkOk(pay, nodes) && p.from < |nodes| && p.to < |nodes|
    ensures WellFormed(nodes[p.from]) && rows == FullPull(nodes[p.from], profile)
    ensures forall n | 0 <= n < |rows| :: Agrees(pay, rows[n])
    ensures forall it :: Offers(rows, it) <==> it.profile == profile && HasStamped(nodes[p.from], it)
  {
    hide Coherent, Has, HasStamped, Offers, Agrees, FullPull, WellFormed;
    FullPullOffers(pay, nodes[p.from], profile);
    rows := FullPull(nodes[p.from], profile);
  }

  /** The nodes that hold an item without a ULID: they cannot pass it on, not even after a peer has
      offered it to them, since that row is dropped. */
  ghost function Mute(start: seq<Db>, it: Item): set<nat> {
    set i | 0 <= i < |start| && Has(start[i], it) && !HasStamped(start[i], it)
  }

  /** A node that began with the item under a ULID has been heard of. */
  ghost predicate Reached(start: seq<Db>, known: seq<set<nat>>, j: nat, it: Item)
    requires j < |known|
  {
    exists i :: 0 <= i < |start| && i in known[j] && HasStamped(start[i], it)
  }

  /** A node has what it began with and what has reached it, and passes it on unless it is mute. */
  ghost predicate Spread(start: seq<Db>, now: seq<Db>, known: seq<set<nat>>, it: Item)
    requires |start| == |now| == |known|
  {
    forall j | 0 <= j < |now| ::
      && j in known[j]
      && (Has(now[j], it) <==> Has(start[j], it) || Reached(start, known, j, it))
      && (HasStamped(now[j], it) <==> j !in Mute(start, it) && Reached(start, known, j, it))
  }

  lemma ToldReaches(start: seq<Db>, known: seq<set<nat>>, p: Pull, mute: set<nat>, j: nat, it: Item)
    requires p.from < |known| && p.to < |known| && j < |known|
    ensures Reached(start, Told(known, p, mute), j, it) <==>
            Reached(start, known, j, it) || (j == p.to && p.from !in mute && Reached(start, known, p.from, it))
  {
    hide HasStamped;
  }

  lemma PullSpreads(pay: string -> WireVersion, start: seq<Db>, now: seq<Db>, profile: string, known: seq<set<nat>>, p: Pull, it: Item)
    requires |start| == |now| == |known| && NetworkOk(pay, now) && p.from < |now| && p.to < |now|
    requires it.profile == profile && Spread(start, now, known, it)
    ensures Spread(start, Pulled(now, profile, p), Told(known, p, Mute(start, it)), it)
  {
    hide Has, HasStamped, NetworkOk, WellFormed, ImportedAll, FullPull, Reached;
    PullKeepsNetwork(pay, now, profile, p);
    var next, told := Pulled(now, profile, p), Told(known, p, Mute(start, it));
    forall j | 0 <= j < |next|
      ensures j in told[j]
      ensures Has(next[j], it) <==> Has(start[j], it) || Reached(start, told, j, it)
      ensures HasStamped(next[j], it) <==> j !in Mute(start, it) && Reached(start, told, j, it)
    {
      ToldReaches(start, known, p, Mute(start, it), j, it);
      if j == p.to && j !in Mute(start, it) && Has(start[j], it) { SelfReached(start, known, j, it); }
    }
  }

  lemma SelfReached(start: seq<Db>, known: seq<set<nat>>, j: nat, it: Item)
    requires j < |start| && j < |known| && j in known[j] && j !in Mute(start, it) && Has(start[j], it)
    ensures Reached(start, known, j, it)
  {
    hide Has, HasStamped;
  }

  lemma {:induction false} ItemSpreads(pay: string -> WireVersion, start: seq<Db>, now: seq<Db>, profile: string,
                                       known: seq<set<nat>>, schedule: seq<Pull>, it: Item)
    requires |start| == |now| == |known| && NetworkOk(pay, now) && Among(|now|, schedule)
    requires it.profile == profile && Spread(start, now, known, it)
    ensures Spread(start, Synced(now, profile, schedule), Gossip(known, schedule, Mute(start, it)), it)
    decreases |schedule|
  {
    hide Spread, NetworkOk, Pulled, Told, Mute;
    if schedule != [] {
      PullKeepsNetwork(pay, now, profile, schedule[0]);
      PullSpreads(pay, start, now, profile, known, schedule[0], it);
      assert Among(|now|, schedule[1..]);
      ItemSpreads(pay, start, Pulled(now, profile, schedule[0]), profile, Told(known, schedule[0], Mute(start, it)), schedule[1..], it);
    }
  }

  lemma {:induction false} SyncKeepsNetwork(pay: string -> WireVersion, nodes: seq<Db>, profile: string, schedule: seq<Pull>)
    requires NetworkOk(pay, nodes) && Among(|nodes|, schedule)
    ensures NetworkOk(pay, Synced(nodes, profile, schedule))
    decreases |schedule|
  {
    hide NetworkOk, Pulled;
    if schedule != [] {
      PullKeepsNetwork(pay, nodes, profile, schedule[0]);
      assert Among(|nodes|, schedule[1..]);
      SyncKeepsNetwork(pay, Pulled(nodes, profile, schedule[0]), profile, schedule[1..]);
    }
  }

  lemma AllBegin(start: seq<Db>, it: Item)
    ensures Spread(start, start, Alone(|start|), it)
  {
    hide Has, HasStamped;
    forall j | 0 <= j < |start|
      ensures j in Alone(|start|)[j]
      ensures Reached(start, Alone(|start|), j, it) <==> HasStamped(start[j], it)
      ensures HasStamped(start[j], it) ==> Has(start[j], it)
    {
      assert Alone(|start|)[j] == {j};
      StampedIsHad(start[j], it);
    }
  }

  lemma StampedIsHad(db: Db, it: Item)
    ensures HasStamped(db, it) ==> Has(db, it)
  {
  }

  /** What has come the way of node j through the schedule, for one item. */
  ghost predicate Arrives(start: seq<Db>, schedule: seq<Pull>, j: nat, it: Item)
    requires Among(|start|, schedule) && j < |start|
  {
    Reached(start, Gossip(Alone(|start|), schedule, Mute(start, it)), j, it)
  }

  /** After any schedule of full pulls a node has what it began with and the stamped content of its
      sources, direct ones and those behind nodes that could pass it on, and nothing else; and ULIDs
      still name one payload each. */
  lemma SyncedIsUnion(pay: string -> WireVersion, start: seq<Db>, profile: string, schedule: seq<Pull>)
    requires NetworkOk(pay, start) && Among(|start|, schedule)
    ensures var end := Synced(start, profile, schedule);
            && NetworkOk(pay, end)
            && forall j, it: Item | 0 <= j < |end| && it.profile == profile ::
                 Has(end[j], it) <==> Has(start[j], it) || Arrives(start, schedule, j, it)
  {
    hide Has, HasStamped, Reached, Mute, NetworkOk, Synced, Gossip, Alone;
    SyncKeepsNetwork(pay, start, profile, schedule);
    forall j, it: Item | 0 <= j < |start| && it.profile == profile
      ensures Has(Synced(start, profile, schedule)[j], it) <==> Has(start[j], it) || Arrives(start, schedule, j, it)
    {
      AllBegin(start, it);
      ItemSpreads(pay, start, start, profile, Alone(|start|), schedule, it);
    }
  }

  ghost predicate Agree(nodes: seq<Db>, profile: string) {
    forall i, j, it: Item | 0 <= i < |nodes| && 0 <= j < |nodes| && it.profile == profile && Has(nodes[i], it) :: Has(nodes[j], it)
  }

  /** For every schedule whatever: all nodes agree in the end exactly when whatever any of them began
      with is there, or arrives, everywhere else. */
  lemma NodesAgreeIff(pay: string -> WireVersion, start: seq<Db>, profile: string, schedule: seq<Pull>)
    requires NetworkOk(pay, start) && Among(|start|, schedule)
    ensures Agree(Synced(start, profile, schedule), profile) <==>
            forall i, j, it: Item | 0 <= i < |start| && 0 <= j < |start| && it.profile == profile && Has(start[i], it) ::
              Has(start[j], it) || Arrives(start, schedule, j, it)
  {
    hide Has, Arrives, NetworkOk, Synced;
    SyncedIsUnion(pay, start, profile, schedule);
    var end := Synced(start, profile, schedule);
    if Agree(end, profile) {
      forall i, j, it: Item | 0 <= i < |start| && 0 <= j < |start| && it.profile == profile && Has(start[i], it)
        ensures Has(start[j], it) || Arrives(start, schedule, j, it)
      {
        assert Has(end[i], it) && Has(end[j], it);
      }
    }
    if forall i, j, it: Item | 0 <= i < |start| && 0 <= j < |start| && it.profile == profile && Has(start[i], it) ::
         Has(start[j], it) || Arrives(start, schedule, j, it)
    {
      forall i, j, it: Item | 0 <= i < |end| && 0 <= j < |end| && it.profile == profile && Has(end[i], it) ensures Has(end[j], it) {
        if !Has(start[i], it) { ArrivesFrom(start, schedule, i, it); }
      }
    }
  }

  lemma ArrivesFrom(start: seq<Db>, schedule: seq<Pull>, j: nat, it: Item)
    requires Among(|start|, schedule) && j < |start| && Arrives(start, schedule, j, it)
    ensures exists i :: 0 <= i < |start| && Has(start[i], it)
  {
    hide Has, HasStamped, Gossip, Alone, Mute;
    var i :| 0 <= i < |start| && HasStamped(start[i], it);
    StampedIsHad(start[i], it);
  }

  /** The schedule carries every node's content to every other, around the nodes that cannot pass an
      item on. */
  ghost predicate Thorough(start: seq<Db>, profile: string, schedule: seq<Pull>)
    requires Among(|start|, schedule)
  {
    forall i, j, it: Item | 0 <= i < |start| && 0 <= j < |start| && it.profile == profile && HasStamped(start[i], it) ::
      i in Gossip(Alone(|start|), schedule, Mute(start, it))[j]
  }

  /** Content that some nodes have, all of them without a ULID, and others do not have at all. */
  ghost predicate Stranded(start: seq<Db>, it: Item) {
    && (exists i :: 0 <= i < |start| && Has(start[i], it))
    && (exists i :: 0 <= i < |start| && !Has(start[i], it))
    && (forall i | 0 <= i < |start| :: !HasStamped(start[i], it))
  }

  /** Convergence: after a thorough schedule all nodes agree exactly when no content was stranded. */
  lemma AllNodesConverge(pay: string -> WireVersion, start: seq<Db>, profile: string, schedule: seq<Pull>)
    requires NetworkOk(pay, start) && Among(|start|, schedule) && Thorough(start, profile, schedule)
    ensures NetworkOk(pay, Synced(start, profile, schedule))
    ensures Agree(Synced(start, profile, schedule), profile) <==> forall it: Item | it.profile == profile :: !Stranded(start, it)
  {
    hide Has, HasStamped, Mute, NetworkOk, Synced, Gossip, Alone, Agree;
    SyncedIsUnion(pay, start, profile, schedule);
    NodesAgreeIff(pay, start, profile, schedule);
    forall it: Item, i, j | it.profile == profile && 0 <= i < |start| && 0 <= j < |start| && HasStamped(start[i], it)
      ensures Arrives(start, schedule, j, it)
    {
    }
    forall it: Item, j | it.profile == profile && 0 <= j < |start| && Arrives(start, schedule, j, it)
      ensures exists i :: 0 <= i < |start| && HasStamped(start[i], it)
    {
    }
  }

  // which schedules are thorough

  lemma {:induction false} GossipGrows(known: seq<set<nat>>, schedule: seq<Pull>, mute: set<nat>, j: nat)
    requires Among(|known|, schedule) && j < |known|
    ensures known[j] <= Gossip(known, schedule, mute)[j]
    decreases |schedule|
  {
    if schedule != [] {
      assert Among(|known|, schedule[1..]);
      GossipGrows(Told(known, schedule[0], mute), schedule[1..], mute, j);
    }
  }

  lemma {:induction false} DirectPullTells(known: seq<set<nat>>, schedule: seq<Pull>, mute: set<nat>, n: nat)
    requires Among(|known|, schedule) && n < |schedule| && schedule[n].from !in mute
    requires schedule[n].from in known[schedule[n].from]
    ensures schedule[n].from in Gossip(known, schedule, mute)[schedule[n].to]
    decreases |schedule|
  {
    assert Among(|known|, schedule[1..]);
    var told := Told(known, schedule[0], mute);
    if n == 0 {
      GossipGrows(told, schedule[1..], mute, schedule[0].to);
    } else {
      assert schedule[1..][n - 1] == schedule[n];
      DirectPullTells(told, schedule[1..], mute, n - 1);
    }
  }

  ghost predicate Pulls(schedule: seq<Pull>, i: nat, j: nat) {
    exists n :: 0 <= n < |schedule| && schedule[n].from == i && schedule[n].to == j
  }

  /** A schedule in which every node pulls from every other at least once is thorough, in any order. */
  lemma DirectPullsAreThorough(start: seq<Db>, profile: string, schedule: seq<Pull>)
    requires Among(|start|, schedule)
    requires forall i, j | 0 <= i < |start| && 0 <= j < |start| && i != j :: Pulls(schedule, i, j)
    ensures Thorough(start, profile, schedule)
  {
    hide Has, HasStamped;
    forall i, j, it: Item | 0 <= i < |start| && 0 <= j < |start| && it.profile == profile && HasStamped(start[i], it)
      ensures i in Gossip(Alone(|start|), schedule, Mute(start, it))[j]
    {
      assert i in Alone(|start|)[i];
      if i == j {
        GossipGrows(Alone(|start|), schedule, Mute(start, it), j);
      } else {
        assert Pulls(schedule, i, j);
        var n :| 0 <= n < |schedule| && schedule[n].from == i && schedule[n].to == j;
        DirectPullTells(Alone(|start|), schedule, Mute(start, it), n);
      }
    }
  }

  /** All of the profile's content is under ULIDs. */
  ghost predicate FullyStamped(nodes: seq<Db>, profile: string) {
    forall i, it: Item | 0 <= i < |nodes| && it.profile == profile && Has(nodes[i], it) :: HasStamped(nodes[i], it)
  }

  /** Between fully stamped nodes gossip through others is as good as a direct pull, and all nodes come
      to hold the union. */
  lemma StampedNodesConverge(pay: string -> WireVersion, start: seq<Db>, profile: string, schedule: seq<Pull>)
    requires NetworkOk(pay, start) && Among(|start|, schedule) && FullyStamped(start, profile)
    requires forall i, j | 0 <= i < |start| && 0 <= j < |start| :: i in Gossip(Alone(|start|), schedule, {})[j]
    ensures var end := Synced(start, profile, schedule);
            && NetworkOk(pay, end)
            && forall j, it: Item | 0 <= j < |end| && it.profile == profile ::
                 Has(end[j], it) <==> exists i :: 0 <= i < |start| && Has(start[i], it)
  {
    hide Has, HasStamped, NetworkOk, Synced, Gossip, Alone, Arrives;
    SyncedIsUnion(pay, start, profile, schedule);
    forall j, it: Item | 0 <= j < |start| && it.profile == profile
      ensures Has(Synced(start, profile, schedule)[j], it) <==> exists i :: 0 <= i < |start| && Has(start[i], it)
    {
      if Arrives(start, schedule, j, it) { ArrivesFrom(start, schedule, j, it); }
      if i :| 0 <= i < |start| && Has(start[i], it) { NobodyIsMute(start, profile, schedule, i, j, it); }
    }
  }

  lemma NobodyIsMute(start: seq<Db>, profile: string, schedule: seq<Pull>, i: nat, j: nat, it: Item)
    requires Among(|start|, schedule) && FullyStamped(start, profile) && i < |start| && j < |start|
    requires it.profile == profile && Has(start[i], it) && i in Gossip(Alone(|start|), schedule, {})[j]
    ensures Arrives(start, schedule, j, it)
  {
    hide Has, HasStamped, Gossip, Alone;
    assert Mute(start, it) == {};
  }

  // an old node

  const OLD_ITEM := Item("personal", "lint", "s")

  /** A node whose only version was registered before there were ULIDs. */
  const OLD_NODE := Db(map[Key("personal", "lint") := Skill(1, "lint", Local, Authored, [], Some(0), 1)],
                       [Version(1, 1, "s", map[], "", "", "", "")], 2, 1)

  lemma OldNodeIsWellFormed()
    ensures WellFormed(OLD_NODE)
  {
    hide Numbered;
    OldTable(OLD_NODE.versions);
  }

  lemma OldTable(vs: seq<Version>)
    requires |vs| == 1 && vs[0].number == 1
    ensures TableOk(vs)
  {
    assert vs[..0] == [];
  }

  lemma OldNodeIsCoherent(pay: string -> WireVersion)
    ensures Coherent(pay, OLD_NODE) && Has(OLD_NODE, OLD_ITEM) && !HasStamped(OLD_NODE, OLD_ITEM)
  {
    hide WellFormed;
    OldNodeIsWellFormed();
    assert Carries(OLD_NODE, 0, OLD_ITEM);
    assert Key("personal", "lint") in OLD_NODE.skills;
  }

  /** What it has never reaches a new node, whatever the schedule. */
  lemma OldContentNeverTravels(pay: string -> WireVersion, schedule: seq<Pull>)
    requires Among(2, schedule)
    ensures var end := Synced([OLD_NODE, EMPTY], "personal", schedule);
            Has(end[0], OLD_ITEM) && !Has(end[1], OLD_ITEM) && !Agree(end, "personal")
  {
    hide Has, HasStamped, Coherent, Synced, Gossip, Alone;
    var start := [OLD_NODE, EMPTY];
    OldNodeIsCoherent(pay);
    EmptyIsCoherent(pay);
    StampedIsHad(EMPTY, OLD_ITEM);
    SyncedIsUnion(pay, start, "personal", schedule);
    forall j | 0 <= j < 2 ensures !Arrives(start, schedule, j, OLD_ITEM) {}
  }
}
