/** The registry tables and their writers (internal/pgstore/pgstore.go, migrations 0001, 0002, 0007).
    A transaction is one atomic step on a `Db` value; `now` is its timestamp. */
module Registry {
  import opened Outcomes
  import opened SkillFile
  import Text

  datatype Key = Key(profile: string, name: string)

  datatype Status = Draft | Local | Promoted | Retired

  datatype Origin = Authored | Proposed | Imported

  /** The CHECK constraints of migration 0001, after the defaults of RegisterVersion. */
  function StatusOf(s: string): Option<Status> {
    if s == "" || s == "draft" then Some(Draft)
    else if s == "local" then Some(Local)
    else if s == "promoted" then Some(Promoted)
    else if s == "retired" then Some(Retired)
    else None
  }

  function OriginOf(s: string): Option<Origin> {
    if s == "" || s == "authored" then Some(Authored)
    else if s == "proposed" then Some(Proposed)
    else if s == "imported" then Some(Imported)
    else None
  }

  function OriginText(o: Origin): string {
    match o case Authored => "authored" case Proposed => "proposed" case Imported => "imported"
  }

  datatype Skill = Skill(id: nat, slug: string, status: Status, origin: Origin, tags: seq<string>,
                         head: Option<nat>, updatedAt: int)

  /** A row of skill_versions; its own id is its position in the append-only table. An empty ULID stands
      for NULL, as in rows from before migration 0007. */
  datatype Version = Version(skillId: nat, number: nat, sha: string, fm: Frontmatter, body: string,
                             author: string, source: string, ulid: string)

  datatype Db = Db(skills: map<Key, Skill>, versions: seq<Version>, nextId: nat, clock: int)

  const EMPTY := Db(map[], [], 1, 0)

  datatype RegisterInput = RegisterInput(profile: string, name: string, fm: Frontmatter, body: string,
                                         author: string, source: string, origin: string, status: string,
                                         tags: seq<string>)

  datatype Error = NameRequired | ConstraintViolation | NotFound | UnknownKind

  datatype Receipt = Receipt(number: nat, sha: string, created: bool)

  /** A version on the wire: the parent travels by logical identity, numbers and ids do not travel. */
  datatype WireVersion = WireVersion(profile: string, name: string, slug: string, sha: string, fm: Frontmatter,
                                     body: string, author: string, source: string, ulid: string)

  function Later(a: int, b: int): int { if a < b then b else a }

  /** SELECT COALESCE(MAX(version), 0) ... WHERE skill_id = $1 */
  function MaxNumber(vs: seq<Version>, sid: nat): nat {
    if vs == [] then 0
    else
      var m := MaxNumber(vs[..|vs| - 1], sid);
      var v := vs[|vs| - 1];
      if v.skillId == sid && m < v.number then v.number else m
  }

  /** SELECT ... WHERE skill_id = $1 AND sha = $2 */
  function Find(vs: seq<Version>, sid: nat, sha: string): (r: Option<nat>)
    ensures r.Some? ==> r.value < |vs| && vs[r.value].skillId == sid && vs[r.value].sha == sha
    ensures r.None? ==> forall i | 0 <= i < |vs| :: !(vs[i].skillId == sid && vs[i].sha == sha)
  {
    if vs == [] then None
    else if vs[|vs| - 1].skillId == sid && vs[|vs| - 1].sha == sha then Some(|vs| - 1)
    else Find(vs[..|vs| - 1], sid, sha)
  }

  /** A clash in the partial unique index: rows without a ULID, here the empty text, are not in it. */
  predicate UlidTaken(vs: seq<Version>, ulid: string) {
    ulid != "" && exists i | 0 <= i < |vs| :: vs[i].ulid == ulid
  }

  // ---------------------------------------------------------------- registration

  predicate Blank(s: string) { Text.TrimSpace(s) == "" }

  function NewSkill(db: Db, slug: string, status: Status, origin: Origin, tags: seq<string>, now: int): Skill {
    Skill(db.nextId, slug, status, origin, tags, None, now)
  }

  function WithNewSkill(db: Db, key: Key, skill: Skill): Db {
    db.(skills := db.skills[key := skill], nextId := db.nextId + 1, clock := Later(db.clock, skill.updatedAt))
  }

  function WithSkill(db: Db, key: Key, skill: Skill): Db {
    db.(skills := db.skills[key := skill], clock := Later(db.clock, skill.updatedAt))
  }

  /** The upsert on (profile, name): create with the given attributes, else only touch updated_at. */
  function Upserted(db: Db, key: Key, status: Status, origin: Origin, tags: seq<string>, now: int): Db {
    if key in db.skills then WithSkill(db, key, db.skills[key].(updatedAt := now))
    else WithNewSkill(db, key, NewSkill(db, Slug(key.name), status, origin, tags, now))
  }

  function Appended(db: Db, key: Key, v: Version): Db
    requires key in db.skills
  {
    db.(versions := db.versions + [v], skills := db.skills[key := db.skills[key].(head := Some(|db.versions|))])
  }

  /** What one registration does: the state after the transaction and its result. */
  function Registered(db: Db, hash: Hash, input: RegisterInput, ulid: string, now: int): (Db, Result<Receipt, Error>) {
    var key := Key(input.profile, input.name);
    var sha := CanonicalSHA(hash, input.fm, input.body);
    var status, origin := StatusOf(input.status), OriginOf(input.origin);
    if Blank(input.name) || Blank(input.profile) then (db, Err(NameRequired))
    else if status == None || origin == None then (db, Err(ConstraintViolation))
    else
      var up := Upserted(db, key, status.value, origin.value, input.tags, now);
      var sid := up.skills[key].id;
      match Find(up.versions, sid, sha)
      case Some(i) => (up, Ok(Receipt(up.versions[i].number, sha, false)))
      case None =>
        if UlidTaken(up.versions, ulid) then (db, Err(ConstraintViolation))
        else
          var n := MaxNumber(up.versions, sid) + 1;
          var v := Version(sid, n, sha, input.fm, input.body, input.author, input.source, ulid);
          (Appended(up, key, v), Ok(Receipt(n, sha, true)))
  }

  /** registerVersionTx on a transaction's working copy; after an error the copy is thrown away. */
  method RegisterVersionTx(tx: Db, hash: Hash, input: RegisterInput, ulid: string, now: int)
    returns (tx': Db, r: Result<Receipt, Error>)
    ensures r == Registered(tx, hash, input, ulid, now).1
    ensures r.Ok? ==> tx' == Registered(tx, hash, input, ulid, now).0
  {
    hide Find, MaxNumber, Slug, StatusOf, OriginOf, CanonicalSHA, UlidTaken, Blank, Later;
    tx' := tx;
    if Blank(input.name) || Blank(input.profile) { return tx', Err(NameRequired); }
    var sha := CanonicalSHA(hash, input.fm, input.body);
    var status := StatusOf(input.status);
    var origin := OriginOf(input.origin);
    if status == None || origin == None { return tx', Err(ConstraintViolation); }
    var key := Key(input.profile, input.name);
    if key in tx'.skills {
      tx' := WithSkill(tx', key, tx'.skills[key].(updatedAt := now));
    } else {
      tx' := WithNewSkill(tx', key, NewSkill(tx', Slug(input.name), status.value, origin.value, input.tags, now));
    }
    var skillID := tx'.skills[key].id;
    var existing := Find(tx'.versions, skillID, sha);
    if existing.Some? {
      return tx', Ok(Receipt(tx'.versions[existing.value].number, sha, false));
    }
    var nextVer := MaxNumber(tx'.versions, skillID) + 1;
    if UlidTaken(tx'.versions, ulid) { return tx', Err(ConstraintViolation); }
    var newVersionID := |tx'.versions|;
    var row := Version(skillID, nextVer, sha, input.fm, input.body, input.author, input.source, ulid);
    tx' := tx'.(versions := tx'.versions + [row]);
    tx' := tx'.(skills := tx'.skills[key := tx'.skills[key].(head := Some(newVersionID))]);
    r := Ok(Receipt(nextVer, sha, true));
  }

  /** UPDATE skills SET status = $3: the trigger bumps updated_at even when nothing changes. */
  function StatusSet(db: Db, key: Key, status: Status, now: int): (Db, Result<(), Error>) {
    if key !in db.skills then (db, Err(NotFound))
    else (WithSkill(db, key, db.skills[key].(status := status, updatedAt := now)), Ok(()))
  }

  function NonEmpty(s: string, fallback: string): string { if s == "" then fallback else s }

  /** The parent an imported version hangs on: found, or created with the column defaults. */
  function Parented(db: Db, key: Key, slug: string, now: int): (d: Db)
    ensures key in d.skills
  {
    if key in db.skills then db
    else WithNewSkill(db, key, NewSkill(db, NonEmpty(slug, key.name), Draft, Authored, [], now))
  }

  /** One row of ImportSkillVersions.  The head pointer of the parent is not moved. */
  function ImportedOne(db: Db, v: WireVersion, now: int): Db {
    if v.ulid == "" then db
    else
      var key := Key(v.profile, v.name);
      var d := Parented(db, key, v.slug, now);
      var sid := d.skills[key].id;
      if UlidTaken(d.versions, v.ulid) || Find(d.versions, sid, v.sha).Some? then d
      else d.(versions := d.versions + [Version(sid, MaxNumber(d.versions, sid) + 1, v.sha, v.fm, v.body,
                                                v.author, v.source, v.ulid)])
  }

  /** The long-lived handle: transactions commit into `db` or leave it alone. */
  class Store {
    var db: Db

    constructor (initial: Db)
      ensures db == initial
    {
      db := initial;
    }

    method RegisterVersion(hash: Hash, input: RegisterInput, ulid: string, now: int) returns (r: Result<Receipt, Error>)
      modifies this
      ensures (db, r) == Registered(old(db), hash, input, ulid, now)
      ensures r.Err? ==> db == old(db)
      ensures r.Ok? ==> Key(input.profile, input.name) in db.skills
      ensures r.Ok? && !r.value.created ==> db.versions == old(db).versions
      ensures r.Ok? && r.value.created ==>
        db.versions == old(db).versions + [Version(db.skills[Key(input.profile, input.name)].id, r.value.number, r.value.sha,
                                                   input.fm, input.body, input.author, input.source, ulid)]
    {
      var tx;
      tx, r := RegisterVersionTx(db, hash, input, ulid, now);
      if r.Err? { return; }
      db := tx;
    }

    method RetireSkill(profile: string, name: string, now: int) returns (r: Result<(), Error>)
      modifies this
      ensures (db, r) == StatusSet(old(db), Key(profile, name), Retired, now)
      ensures r.Ok? <==> Key(profile, name) in old(db).skills
      ensures r.Err? ==> r.error == NotFound && db == old(db)
      ensures db.versions == old(db).versions && db.skills.Keys == old(db).skills.Keys && db.nextId == old(db).nextId
      ensures forall k | k in db.skills && k != Key(profile, name) :: db.skills[k] == old(db).skills[k]
      ensures r.Ok? ==> var row := db.skills[Key(profile, name)];
                        row.status == Retired && row.updatedAt == now
                        && row == old(db).skills[Key(profile, name)].(status := row.status, updatedAt := row.updatedAt)
    {
      var key := Key(profile, name);
      if key !in db.skills { return Err(NotFound); }
      var row := db.skills[key];
      db := WithSkill(db, key, row.(status := Retired, updatedAt := now));
      r := Ok(());
    }
  }

  // ---------------------------------------------------------------- what every writer keeps

  function Count(vs: seq<Version>, sid: nat): nat {
    if vs == [] then 0
    else Count(vs[..|vs| - 1], sid) + if vs[|vs| - 1].skillId == sid then 1 else 0
  }

  ghost predicate Numbered(vs: seq<Version>) {
    forall i | 0 <= i < |vs| :: vs[i].number == 1 + Count(vs[..i], vs[i].skillId)
  }

  ghost predicate UniqueShas(vs: seq<Version>) {
    forall i, j | 0 <= i < j < |vs| :: !(vs[i].skillId == vs[j].skillId && vs[i].sha == vs[j].sha)
  }

  ghost predicate UniqueUlids(vs: seq<Version>) {
    forall i, j | 0 <= i < j < |vs| && vs[i].ulid != "" :: vs[i].ulid != vs[j].ulid
  }

  ghost predicate TableOk(vs: seq<Version>) { Numbered(vs) && UniqueShas(vs) && UniqueUlids(vs) }

  ghost predicate OwnHead(db: Db, key: Key)
    requires key in db.skills
  {
    match db.skills[key].head
    case None => true
    case Some(h) => h < |db.versions| && db.versions[h].skillId == db.skills[key].id
  }

  ghost predicate WellFormed(db: Db) {
    && (forall k | k in db.skills :: db.skills[k].id < db.nextId && db.skills[k].updatedAt <= db.clock && OwnHead(db, k))
    && (forall k, l | k in db.skills && l in db.skills && db.skills[k].id == db.skills[l].id :: k == l)
    && (forall i | 0 <= i < |db.versions| :: db.versions[i].skillId < db.nextId)
    && TableOk(db.versions)
  }

  /** The head is the newest version; a skill without a version has no head. */
  ghost predicate HeadsAreNewest(db: Db) {
    forall k | k in db.skills ::
      match db.skills[k].head
      case None => Count(db.versions, db.skills[k].id) == 0
      case Some(h) => h < |db.versions| && db.versions[h].number == Count(db.versions, db.skills[k].id)
  }

  /** The numbers of one skill's versions. */
  function Numbers(vs: seq<Version>, sid: nat): set<nat> {
    set i | 0 <= i < |vs| && vs[i].skillId == sid :: vs[i].number
  }

  ghost predicate NumbersAreUpTo(vs: seq<Version>, sid: nat) {
    forall n :: n in Numbers(vs, sid) <==> 1 <= n <= Count(vs, sid)
  }

  lemma NumbersSnoc(vs: seq<Version>, sid: nat)
    requires vs != []
    ensures var last := vs[|vs| - 1];
            Numbers(vs, sid) == Numbers(vs[..|vs| - 1], sid) + if last.skillId == sid then {last.number} else {}
  {
    var front, last := vs[..|vs| - 1], vs[|vs| - 1];
    forall n | n in Numbers(front, sid) ensures n in Numbers(vs, sid) {
      var i :| 0 <= i < |front| && front[i].skillId == sid && front[i].number == n;
      assert vs[i] == front[i];
    }
    forall n | n in Numbers(vs, sid) && !(last.skillId == sid && n == last.number) ensures n in Numbers(front, sid) {
      var i :| 0 <= i < |vs| && vs[i].skillId == sid && vs[i].number == n;
      assert front[i] == vs[i];
    }
  }

  lemma NumberedPrefix(vs: seq<Version>)
    requires Numbered(vs) && vs != []
    ensures Numbered(vs[..|vs| - 1])
  {
    var front := vs[..|vs| - 1];
    forall i | 0 <= i < |front| ensures front[i].number == 1 + Count(front[..i], front[i].skillId) {
      assert front[..i] == vs[..i];
    }
  }

  lemma {:induction false} MaxIsCount(vs: seq<Version>, sid: nat)
    requires Numbered(vs)
    ensures MaxNumber(vs, sid) == Count(vs, sid)
  {
    if vs != [] {
      NumberedPrefix(vs);
      MaxIsCount(vs[..|vs| - 1], sid);
    }
  }

  /** A skill's version numbers are exactly 1..n, n being how many versions it has; MAX finds n. */
  lemma {:induction false} NumbersAreExact(vs: seq<Version>, sid: nat)
    requires Numbered(vs)
    ensures NumbersAreUpTo(vs, sid)
    ensures MaxNumber(vs, sid) == Count(vs, sid)
  {
    MaxIsCount(vs, sid);
    if vs != [] {
      NumberedPrefix(vs);
      NumbersAreExact(vs[..|vs| - 1], sid);
      NumbersSnoc(vs, sid);
    }
  }

  lemma {:induction false} CountOfUnknown(vs: seq<Version>, sid: nat)
    requires forall i | 0 <= i < |vs| :: vs[i].skillId != sid
    ensures Count(vs, sid) == 0
  {
    if vs != [] { CountOfUnknown(vs[..|vs| - 1], sid); }
  }

  /** Appending the row every writer builds keeps the table's shape. */
  lemma AppendKeepsTable(vs: seq<Version>, v: Version)
    requires TableOk(vs) && NewVersion(vs, v)
    ensures TableOk(vs + [v])
    ensures forall sid :: Count(vs + [v], sid) == Count(vs, sid) + if sid == v.skillId then 1 else 0
  {
    var ws := vs + [v];
    NumbersAreExact(vs, v.skillId);
    assert ws[..|vs|] == vs;
    forall i | 0 <= i < |ws| ensures ws[i].number == 1 + Count(ws[..i], ws[i].skillId) {
      if i < |vs| { assert ws[..i] == vs[..i]; }
    }
  }

  datatype Op =
    | Register(hash: Hash, input: RegisterInput, ulid: string, now: int)
    | SetStatus(key: Key, status: Status, now: int)
    | Import(row: WireVersion, now: int)

  function Apply(db: Db, op: Op): Db {
    match op
    case Register(hash, input, ulid, now) => Registered(db, hash, input, ulid, now).0
    case SetStatus(key, status, now) => StatusSet(db, key, status, now).0
    case Import(row, now) => ImportedOne(db, row, now)
  }

  function Run(db: Db, ops: seq<Op>): Db {
    if ops == [] then db else Apply(Run(db, ops[..|ops| - 1]), ops[|ops| - 1])
  }

  /** What a registration did, if anything: an upsert, and then perhaps one appended version. */
  lemma RegisteredShape(db: Db, hash: Hash, input: RegisterInput, ulid: string, now: int)
    returns (up: Db, status: Status, origin: Origin)
    ensures var (d, r) := Registered(db, hash, input, ulid, now);
            var key := Key(input.profile, input.name);
            && (r.Err? ==> d == db)
            && (r.Ok? ==> up == Upserted(db, key, status, origin, input.tags, now) && key in up.skills)
            && (r.Ok? && !r.value.created ==> d == up)
            && (r.Ok? && r.value.created ==>
                  exists v :: NewVersion(up.versions, v) && v.skillId == up.skills[key].id && d == Appended(up, key, v))
  {
    var (d, r) := Registered(db, hash, input, ulid, now);
    var key := Key(input.profile, input.name);
    up, status, origin := db, Draft, Authored;
    if r.Ok? {
      status, origin := StatusOf(input.status).value, OriginOf(input.origin).value;
      up := Upserted(db, key, status, origin, input.tags, now);
      if r.value.created {
        var v := d.versions[|d.versions| - 1];
        assert NewVersion(up.versions, v) && v.skillId == up.skills[key].id && d == Appended(up, key, v);
      }
    }
  }

  /** The row every writer builds before it appends. */
  predicate NewVersion(vs: seq<Version>, v: Version) {
    && v.number == MaxNumber(vs, v.skillId) + 1
    && Find(vs, v.skillId, v.sha).None?
    && !UlidTaken(vs, v.ulid)
  }

  lemma NewSkillKeeps(db: Db, key: Key, s: Skill)
    requires WellFormed(db) && key !in db.skills && s.id == db.nextId && s.head == None
    ensures WellFormed(WithNewSkill(db, key, s))
    ensures HeadsAreNewest(db) ==> HeadsAreNewest(WithNewSkill(db, key, s))
  {
    CountOfUnknown(db.versions, db.nextId);
  }

  lemma TouchKeeps(db: Db, key: Key, s: Skill)
    requires WellFormed(db) && key in db.skills && s.id == db.skills[key].id && s.head == db.skills[key].head
    ensures WellFormed(WithSkill(db, key, s))
    ensures HeadsAreNewest(db) ==> HeadsAreNewest(WithSkill(db, key, s))
  {
  }

  lemma UpsertKeeps(db: Db, key: Key, status: Status, origin: Origin, tags: seq<string>, now: int)
    requires WellFormed(db)
    ensures var up := Upserted(db, key, status, origin, tags, now);
            WellFormed(up) && key in up.skills && up.versions == db.versions && (HeadsAreNewest(db) ==> HeadsAreNewest(up))
  {
    if key in db.skills {
      TouchKeeps(db, key, db.skills[key].(updatedAt := now));
    } else {
      NewSkillKeeps(db, key, NewSkill(db, Slug(key.name), status, origin, tags, now));
    }
  }

  /** A version added without moving a head, as an import does. */
  lemma VersionKeeps(db: Db, key: Key, v: Version)
    requires WellFormed(db) && key in db.skills && v.skillId == db.skills[key].id && NewVersion(db.versions, v)
    ensures WellFormed(db.(versions := db.versions + [v]))
  {
    AppendKeepsTable(db.versions, v);
  }

  /** A version added as the new head, as a registration does. */
  lemma AppendedKeeps(db: Db, key: Key, v: Version)
    requires WellFormed(db) && key in db.skills && v.skillId == db.skills[key].id && NewVersion(db.versions, v)
    ensures WellFormed(Appended(db, key, v))
  {
    hide TableOk, NewVersion;
    AppendKeepsTable(db.versions, v);
    var d := Appended(db, key, v);
    forall k | k in d.skills
      ensures d.skills[k].id < d.nextId && d.skills[k].updatedAt <= d.clock && OwnHead(d, k)
    {
      assert k in db.skills && OwnHead(db, k);
    }
    assert forall k | k in d.skills :: d.skills[k].id == db.skills[k].id;
  }

  lemma AppendedKeepsHeads(db: Db, key: Key, v: Version)
    requires WellFormed(db) && key in db.skills && v.skillId == db.skills[key].id && NewVersion(db.versions, v)
    requires HeadsAreNewest(db)
    ensures HeadsAreNewest(Appended(db, key, v))
  {
    AppendKeepsTable(db.versions, v);
    MaxIsCount(db.versions, v.skillId);
    var d := Appended(db, key, v);
    forall k | k in d.skills && k != key
      ensures d.skills[k] == db.skills[k] && Count(d.versions, d.skills[k].id) == Count(db.versions, db.skills[k].id)
    {
      assert db.skills[k].id != db.skills[key].id;
    }
  }

  lemma ParentKeeps(db: Db, key: Key, slug: string, now: int)
    requires WellFormed(db)
    ensures WellFormed(Parented(db, key, slug, now))
    ensures HeadsAreNewest(db) ==> HeadsAreNewest(Parented(db, key, slug, now))
    ensures Parented(db, key, slug, now).versions == db.versions
  {
    if key !in db.skills {
      NewSkillKeeps(db, key, NewSkill(db, NonEmpty(slug, key.name), Draft, Authored, [], now));
    }
  }

  lemma RegisterKeeps(db: Db, hash: Hash, input: RegisterInput, ulid: string, now: int)
    requires WellFormed(db)
    ensures var d := Registered(db, hash, input, ulid, now).0;
            WellFormed(d) && db.versions <= d.versions && (HeadsAreNewest(db) ==> HeadsAreNewest(d))
  {
    var (d, r) := Registered(db, hash, input, ulid, now);
    var up, status, origin := RegisteredShape(db, hash, input, ulid, now);
    var key := Key(input.profile, input.name);
    if r.Ok? {
      UpsertKeeps(db, key, status, origin, input.tags, now);
      if r.value.created {
        var v :| NewVersion(up.versions, v) && v.skillId == up.skills[key].id && d == Appended(up, key, v);
        AppendedKeeps(up, key, v);
        if HeadsAreNewest(db) { AppendedKeepsHeads(up, key, v); }
      }
    }
  }

  lemma StatusKeeps(db: Db, key: Key, status: Status, now: int)
    requires WellFormed(db)
    ensures var d := StatusSet(db, key, status, now).0;
            WellFormed(d) && d.versions == db.versions && (HeadsAreNewest(db) ==> HeadsAreNewest(d))
  {
    if key in db.skills {
      TouchKeeps(db, key, db.skills[key].(status := status, updatedAt := now));
    }
  }

  lemma ImportKeeps(db: Db, row: WireVersion, now: int)
    requires WellFormed(db)
    ensures WellFormed(ImportedOne(db, row, now)) && db.versions <= ImportedOne(db, row, now).versions
  {
    if row.ulid != "" {
      var key := Key(row.profile, row.name);
      ParentKeeps(db, key, row.slug, now);
      var p, d := Parented(db, key, row.slug, now), ImportedOne(db, row, now);
      if d != p {
        VersionKeeps(p, key, d.versions[|d.versions| - 1]);
      }
    }
  }

  lemma ApplyKeepsWellFormed(db: Db, op: Op)
    requires WellFormed(db)
    ensures WellFormed(Apply(db, op)) && db.versions <= Apply(db, op).versions
    ensures HeadsAreNewest(db) && !op.Import? ==> HeadsAreNewest(Apply(db, op))
  {
    match op
    case Register(hash, input, ulid, now) => RegisterKeeps(db, hash, input, ulid, now);
    case SetStatus(key, status, now) => StatusKeeps(db, key, status, now);
    case Import(row, now) => ImportKeeps(db, row, now);
  }

  /** Over every mix of register, status and import steps the tables stay well formed, versions are
      never changed or dropped, and every skill's numbers stay exactly 1..n. */
  lemma {:induction false} RunKeepsWellFormed(db: Db, ops: seq<Op>)
    requires WellFormed(db)
    ensures WellFormed(Run(db, ops))
    ensures db.versions <= Run(db, ops).versions
    ensures forall sid :: NumbersAreUpTo(Run(db, ops).versions, sid)
  {
    if ops != [] {
      RunKeepsWellFormed(db, ops[..|ops| - 1]);
      ApplyKeepsWellFormed(Run(db, ops[..|ops| - 1]), ops[|ops| - 1]);
    }
    forall sid ensures NumbersAreUpTo(Run(db, ops).versions, sid) {
      NumbersAreExact(Run(db, ops).versions, sid);
    }
  }

  /** Without imports the head is always the newest version, also after old content is registered again. */
  lemma {:induction false} HeadIsNewestWithoutImports(db: Db, ops: seq<Op>)
    requires WellFormed(db) && HeadsAreNewest(db)
    requires forall i | 0 <= i < |ops| :: !ops[i].Import?
    ensures HeadsAreNewest(Run(db, ops))
  {
    if ops != [] {
      var front := ops[..|ops| - 1];
      assert forall i | 0 <= i < |front| :: front[i] == ops[i];
      HeadIsNewestWithoutImports(db, front);
      RunKeepsWellFormed(db, front);
      ApplyKeepsWellFormed(Run(db, front), ops[|ops| - 1]);
    }
  }

  // ---------------------------------------------------------------- registering the same content again

  lemma ApplyKeepsIds(db: Db, op: Op, key: Key)
    requires key in db.skills
    ensures key in Apply(db, op).skills && Apply(db, op).skills[key].id == db.skills[key].id
  {
    hide CanonicalSHA, MaxNumber, Find, Blank, Slug, UlidTaken, StatusOf, OriginOf, Later;
  }

  lemma {:induction false} RunKeepsIds(db: Db, ops: seq<Op>, key: Key)
    requires key in db.skills
    ensures key in Run(db, ops).skills && Run(db, ops).skills[key].id == db.skills[key].id
  {
    hide Apply;
    if ops != [] {
      RunKeepsIds(db, ops[..|ops| - 1], key);
      ApplyKeepsIds(Run(db, ops[..|ops| - 1]), ops[|ops| - 1], key);
    }
  }

  /** The version a successful registration speaks of. */
  lemma ReceiptIsOfVersion(db: Db, hash: Hash, input: RegisterInput, ulid: string, now: int) returns (i: nat)
    requires WellFormed(db) && Registered(db, hash, input, ulid, now).1.Ok?
    ensures var (d, r) := Registered(db, hash, input, ulid, now);
            var key := Key(input.profile, input.name);
            && WellFormed(d) && key in d.skills && i < |d.versions| && d.versions[i].skillId == d.skills[key].id
            && d.versions[i].sha == r.value.sha == CanonicalSHA(hash, input.fm, input.body)
            && d.versions[i].number == r.value.number
  {
    hide CanonicalSHA, MaxNumber, Blank, Slug, UlidTaken, StatusOf, OriginOf, Later, WellFormed;
    RegisterKeeps(db, hash, input, ulid, now);
    var (d, r) := Registered(db, hash, input, ulid, now);
    var sid := d.skills[Key(input.profile, input.name)].id;
    i := if r.value.created then |d.versions| - 1 else Find(d.versions, sid, r.value.sha).value;
  }

  lemma FindIs(vs: seq<Version>, i: nat)
    requires UniqueShas(vs) && i < |vs|
    ensures Find(vs, vs[i].skillId, vs[i].sha) == Some(i)
  {
  }

  lemma FoundAgain(db: Db, hash: Hash, input: RegisterInput, ulid: string, now: int, i: nat)
    requires WellFormed(db) && Key(input.profile, input.name) in db.skills && i < |db.versions|
    requires db.versions[i].skillId == db.skills[Key(input.profile, input.name)].id
    requires db.versions[i].sha == CanonicalSHA(hash, input.fm, input.body)
    requires !Blank(input.name) && !Blank(input.profile) && StatusOf(input.status).Some? && OriginOf(input.origin).Some?
    ensures var (d, r) := Registered(db, hash, input, ulid, now);
            var key := Key(input.profile, input.name);
            && r == Ok(Receipt(db.versions[i].number, db.versions[i].sha, false))
            && d == WithSkill(db, key, db.skills[key].(updatedAt := now))
  {
    hide CanonicalSHA, MaxNumber, Find, Blank, Slug, UlidTaken, StatusOf, OriginOf, Later;
    FindIs(db.versions, i);
  }

  /** Content registered once keeps its version number: registering it again, after whatever else has
      happened to the registry, returns that number, adds nothing, moves no head and changes no status.
      It is not quite a no-op: the row's timestamp moves, so the change feed shows the skill again. */
  lemma RegisteredForGood(db: Db, hash: Hash, input: RegisterInput, ulid: string, now: int, ops: seq<Op>,
                          again: RegisterInput, ulid': string, now': int)
    requires WellFormed(db) && Registered(db, hash, input, ulid, now).1.Ok?
    requires again.profile == input.profile && again.name == input.name
    requires CanonicalSHA(hash, again.fm, again.body) == CanonicalSHA(hash, input.fm, input.body)
    requires StatusOf(again.status).Some? && OriginOf(again.origin).Some?
    ensures var (first, r) := Registered(db, hash, input, ulid, now);
            var later := Run(first, ops);
            var (d, s) := Registered(later, hash, again, ulid', now');
            var key := Key(input.profile, input.name);
            && s == Ok(Receipt(r.value.number, r.value.sha, false))
            && key in later.skills && d == WithSkill(later, key, later.skills[key].(updatedAt := now'))
  {
    hide CanonicalSHA, WellFormed, Run, StatusOf, OriginOf, Blank;
    var i := ReceiptIsOfVersion(db, hash, input, ulid, now);
    NotBlank(db, hash, input, ulid, now);
    var first := Registered(db, hash, input, ulid, now).0;
    hide Registered;
    RunKeepsWellFormed(first, ops);
    RunKeepsIds(first, ops, Key(input.profile, input.name));
    FoundAgain(Run(first, ops), hash, again, ulid', now', i);
  }

  lemma NotBlank(db: Db, hash: Hash, input: RegisterInput, ulid: string, now: int)
    requires Registered(db, hash, input, ulid, now).1.Ok?
    ensures !Blank(input.name) && !Blank(input.profile)
  {
    hide CanonicalSHA, MaxNumber, Find, Blank, Slug, UlidTaken, StatusOf, OriginOf, Later;
  }

  // ---------------------------------------------------------------- what a registration records

  /** The status a caller asks for; no text means draft. */
  predicate AsksStatus(text: string, s: Status) {
    match s
    case Draft => text == "" || text == "draft"
    case Local => text == "local"
    case Promoted => text == "promoted"
    case Retired => text == "retired"
  }

  predicate AsksOrigin(text: string, o: Origin) {
    match o
    case Authored => text == "" || text == "authored"
    case Proposed => text == "proposed"
    case Imported => text == "imported"
  }

  lemma TextsAsk(status: string, origin: string)
    ensures StatusOf(status) == None <==> forall s :: !AsksStatus(status, s)
    ensures StatusOf(status).Some? ==> AsksStatus(status, StatusOf(status).value)
    ensures OriginOf(origin) == None <==> forall o :: !AsksOrigin(origin, o)
    ensures OriginOf(origin).Some? ==> AsksOrigin(origin, OriginOf(origin).value)
  {
    if StatusOf(status).Some? { assert AsksStatus(status, StatusOf(status).value); }
    if OriginOf(origin).Some? { assert AsksOrigin(origin, OriginOf(origin).value); }
  }

  /** The skill has a version with this content. */
  ghost predicate HasContent(db: Db, key: Key, sha: string) {
    key in db.skills && exists i | 0 <= i < |db.versions| :: db.versions[i].skillId == db.skills[key].id && db.versions[i].sha == sha
  }

  /** The receipt speaks of a version the skill has. */
  ghost predicate HasVersion(db: Db, key: Key, sha: string, number: nat) {
    key in db.skills
    && exists i | 0 <= i < |db.versions| ::
         db.versions[i].skillId == db.skills[key].id && db.versions[i].sha == sha && db.versions[i].number == number
  }

  /** The content of a version is everything but the marker. */
  function ShaOf(hash: Hash, fm: Frontmatter, body: string): string { hash(fm - {"x-phantom-skills"}, body) }

  lemma FoundIff(db: Db, key: Key, status: Status, origin: Origin, tags: seq<string>, now: int, sha: string)
    requires WellFormed(db)
    ensures var up := Upserted(db, key, status, origin, tags, now);
            Find(up.versions, up.skills[key].id, sha).Some? <==> HasContent(db, key, sha)
  {
    hide Slug, TableOk, Later;
    var up := Upserted(db, key, status, origin, tags, now);
    if key !in db.skills { NothingFound(db.versions, db.nextId, sha); }
  }

  /** When a registration is refused, and that it then changes nothing: a blank name or profile comes
      before anything else; then a status or origin outside the constraints, or a taken ULID for content
      that is new. */
  lemma RegisterFailsIff(db: Db, hash: Hash, input: RegisterInput, ulid: string, now: int)
    requires WellFormed(db)
    ensures var (d, r) := Registered(db, hash, input, ulid, now);
            var blank := Text.AllSpace(input.name) || Text.AllSpace(input.profile);
            var unseen := !HasContent(db, Key(input.profile, input.name), ShaOf(hash, input.fm, input.body));
            && (r.Err? ==> d == db && r.error in {NameRequired, ConstraintViolation})
            && (r == Err(NameRequired) <==> blank)
            && (r == Err(ConstraintViolation) <==>
                  && !blank
                  && (|| (forall s :: !AsksStatus(input.status, s))
                      || (forall o :: !AsksOrigin(input.origin, o))
                      || (unseen && ulid != "" && exists i | 0 <= i < |db.versions| :: db.versions[i].ulid == ulid)))
  {
    hide Slug, Find, MaxNumber, WellFormed, StatusOf, OriginOf, AsksStatus, AsksOrigin, Text.AllSpace, HasContent, Later, Text.TrimSpace;
    Text.TrimEmptyIff(input.name);
    Text.TrimEmptyIff(input.profile);
    TextsAsk(input.status, input.origin);
    var key := Key(input.profile, input.name);
    if StatusOf(input.status).Some? && OriginOf(input.origin).Some? {
      FoundIff(db, key, StatusOf(input.status).value, OriginOf(input.origin).value, input.tags, now,
               ShaOf(hash, input.fm, input.body));
    }
  }

  /** What a registration that succeeds leaves behind. Content the skill has already adds nothing. New
      content becomes one more version with just what the caller gave, the next number and the ULID, and
      the skill's head. A new skill has the attributes asked for; an old one keeps all but its timestamp
      and head; nothing else changes. */
  lemma RegistrationRecords(db: Db, hash: Hash, input: RegisterInput, ulid: string, now: int)
    requires WellFormed(db) && Registered(db, hash, input, ulid, now).1.Ok?
    ensures var (d, r) := Registered(db, hash, input, ulid, now);
            var key := Key(input.profile, input.name);
            var sha := ShaOf(hash, input.fm, input.body);
            && r.value.sha == sha
            && (r.value.created <==> !HasContent(db, key, sha))
            && HasVersion(d, key, sha, r.value.number)
            && d.versions == db.versions + (if r.value.created then
                 [Version(d.skills[key].id, r.value.number, sha, input.fm, input.body, input.author, input.source, ulid)] else [])
            && (r.value.created ==> r.value.number == Count(db.versions, d.skills[key].id) + 1)
            && d.skills.Keys == db.skills.Keys + {key}
            && (forall k | k in db.skills && k != key :: d.skills[k] == db.skills[k])
  {
    hide Slug, MaxNumber, WellFormed, StatusOf, OriginOf, Text.AllSpace, Later, Text.TrimSpace, TableOk, HasContent;
    var key := Key(input.profile, input.name);
    var (d, r) := Registered(db, hash, input, ulid, now);
    FoundIff(db, key, StatusOf(input.status).value, OriginOf(input.origin).value, input.tags, now,
             ShaOf(hash, input.fm, input.body));
    if r.value.created {
      NumbersAreUsual(db, d.skills[key].id);
      assert d.versions[|db.versions|].sha == r.value.sha;
    } else {
      assert d.versions == db.versions + [];
    }
  }

  lemma NumbersAreUsual(db: Db, sid: nat)
    requires WellFormed(db)
    ensures MaxNumber(db.versions, sid) == Count(db.versions, sid)
  {
    NumbersAreExact(db.versions, sid);
  }

  lemma RegistrationLeavesRow(db: Db, hash: Hash, input: RegisterInput, ulid: string, now: int)
    requires Registered(db, hash, input, ulid, now).1.Ok?
    ensures var (d, r) := Registered(db, hash, input, ulid, now);
            var key := Key(input.profile, input.name);
            && key in d.skills
            && (var row := d.skills[key];
                && row.updatedAt == now
                && (r.value.created ==> row.head == Some(|db.versions|))
                && (key in db.skills ==>
                      && (row.id, row.slug, row.status, row.origin, row.tags) ==
                         (db.skills[key].id, db.skills[key].slug, db.skills[key].status, db.skills[key].origin, db.skills[key].tags)
                      && (!r.value.created ==> row.head == db.skills[key].head))
                && (key !in db.skills ==>
                      && row.slug == Slug(input.name) && row.tags == input.tags
                      && AsksStatus(input.status, row.status) && AsksOrigin(input.origin, row.origin)
                      && (!r.value.created ==> row.head == None)))
  {
    hide Slug, MaxNumber, Find, Text.AllSpace, Later, Text.TrimSpace, CanonicalSHA, UlidTaken, StatusOf, OriginOf;
    TextsAsk(input.status, input.origin);
  }

  // ---------------------------------------------------------------- who publishes a skill

  /** A step that says so: a status step, or a registration that creates the skill as published. */
  predicate Publishes(db: Db, op: Op, key: Key) {
    match op
    case Register(_, input, _, _) =>
      Key(input.profile, input.name) == key && key !in db.skills && (input.status == "promoted" || input.status == "retired")
    case SetStatus(k, status, _) => k == key && (status == Promoted || status == Retired)
    case Import(_, _) => false
  }

  ghost predicate InPublic(db: Db, key: Key) { key in db.skills && db.skills[key].status in {Promoted, Retired} }

  lemma StepInPublic(db: Db, op: Op, key: Key)
    requires InPublic(Apply(db, op), key)
    ensures InPublic(db, key) || Publishes(db, op, key)
  {
    hide Slug, MaxNumber, Find, CanonicalSHA, UlidTaken, Later, Registered;
    if op.Register? {
      if Registered(db, op.hash, op.input, op.ulid, op.now).1.Ok? {
        RegistrationLeavesRow(db, op.hash, op.input, op.ulid, op.now);
      }
      RegistrationLeavesOthers(db, op.hash, op.input, op.ulid, op.now, key);
    }
  }

  lemma RegistrationLeavesOthers(db: Db, hash: Hash, input: RegisterInput, ulid: string, now: int, k: Key)
    ensures var (d, r) := Registered(db, hash, input, ulid, now);
            && (r.Err? ==> d == db)
            && (k != Key(input.profile, input.name) ==>
                  (k in d.skills <==> k in db.skills) && (k in db.skills ==> d.skills[k] == db.skills[k]))
  {
    hide Slug, MaxNumber, Find, CanonicalSHA, UlidTaken, Later, StatusOf, OriginOf, Blank;
  }

  /** Over any run, a skill that ends up promoted or retired was so before, or some status step or
      registration of the run said so: imports publish nothing. */
  lemma {:induction false} PublishedBySomebody(db: Db, ops: seq<Op>, key: Key)
    requires InPublic(Run(db, ops), key)
    ensures InPublic(db, key) || exists i | 0 <= i < |ops| :: Publishes(Run(db, ops[..i]), ops[i], key)
  {
    hide InPublic, Publishes, Apply;
    if ops != [] {
      var n := |ops| - 1;
      StepInPublic(Run(db, ops[..n]), ops[n], key);
      if InPublic(Run(db, ops[..n]), key) {
        PublishedBySomebody(db, ops[..n], key);
        if i :| 0 <= i < n && Publishes(Run(db, ops[..n][..i]), ops[..n][i], key) {
          assert ops[..n][..i] == ops[..i] && ops[..n][i] == ops[i];
          assert Publishes(Run(db, ops[..i]), ops[i], key);
        }
      }
    }
  }

  // ---------------------------------------------------------------- what an import records

  /** The row an import gives a skill the node did not have: the column defaults. */
  predicate ByDefault(s: Skill, v: WireVersion, now: int) {
    && s.status == Draft && s.origin == Authored && s.tags == [] && s.head == None && s.updatedAt == now
    && (v.slug != "" ==> s.slug == v.slug) && (v.slug == "" ==> s.slug == v.name)
  }

  /** The version an import stores has the fields of the row on the wire. */
  predicate StoredFrom(x: Version, v: WireVersion) {
    x.sha == v.sha && x.fm == v.fm && x.body == v.body && x.author == v.author && x.source == v.source && x.ulid == v.ulid
  }

  /** One row without a ULID changes nothing. Any other leaves every skill there is as it was, and one it
      has to create has the defaults; unless it is dropped it adds one version, and it moves no head. */
  lemma ImportRecords(db: Db, v: WireVersion, now: int)
    requires WellFormed(db)
    ensures var d := ImportedOne(db, v, now);
            var key := Key(v.profile, v.name);
            && (v.ulid == "" ==> d == db)
            && (v.ulid != "" ==> d.skills.Keys == db.skills.Keys + {key})
            && (forall k | k in db.skills :: k in d.skills && d.skills[k] == db.skills[k])
            && (forall k | k in d.skills && k !in db.skills :: k == key && ByDefault(d.skills[k], v, now))
            && (DropsRow(db, v) ==> d.versions == db.versions)
            && (!DropsRow(db, v) ==>
                  && |d.versions| == |db.versions| + 1 && db.versions <= d.versions
                  && StoredFrom(d.versions[|db.versions|], v)
                  && d.versions[|db.versions|].skillId == d.skills[key].id)
  {
    hide WellFormed, MaxNumber, Find, UlidTaken, Later, DropsRow;
    ImportShape(db, v, now);
  }

  // ---------------------------------------------------------------- what imports do to heads

  predicate DropsRow(db: Db, row: WireVersion) {
    || row.ulid == ""
    || UlidTaken(db.versions, row.ulid)
    || (Key(row.profile, row.name) in db.skills
        && Find(db.versions, db.skills[Key(row.profile, row.name)].id, row.sha).Some?)
  }

  lemma NothingFound(vs: seq<Version>, sid: nat, sha: string)
    requires forall i | 0 <= i < |vs| :: vs[i].skillId != sid
    ensures Find(vs, sid, sha).None?
  {
  }

  /** An import either stops at the parent row, or appends one row to its parent's versions. */
  lemma ImportShape(db: Db, row: WireVersion, now: int)
    requires WellFormed(db)
    ensures var key := Key(row.profile, row.name);
            var p, d := Parented(db, key, row.slug, now), ImportedOne(db, row, now);
            && (DropsRow(db, row) ==> d == db || d == p)
            && (!DropsRow(db, row) ==>
                  exists v :: NewVersion(p.versions, v) && v.skillId == p.skills[key].id && v.sha == row.sha
                              && v.ulid == row.ulid && v.body == row.body && v.fm == row.fm
                              && v.author == row.author && v.source == row.source
                              && d == p.(versions := p.versions + [v]))
  {
    var key := Key(row.profile, row.name);
    var p, d := Parented(db, key, row.slug, now), ImportedOne(db, row, now);
    if key !in db.skills { NothingFound(p.versions, p.skills[key].id, row.sha); }
    if !DropsRow(db, row) {
      var v := d.versions[|d.versions| - 1];
      assert NewVersion(p.versions, v) && v.skillId == p.skills[key].id && d == p.(versions := p.versions + [v]);
    }
  }

  lemma StrayVersionBreaksHeads(db: Db, key: Key, v: Version)
    requires WellFormed(db) && HeadsAreNewest(db) && key in db.skills
    requires v.skillId == db.skills[key].id && NewVersion(db.versions, v)
    ensures !HeadsAreNewest(db.(versions := db.versions + [v]))
  {
    AppendKeepsTable(db.versions, v);
    assert Count(db.versions + [v], v.skillId) == Count(db.versions, v.skillId) + 1;
  }

  /** An import moves no head, so the heads stay newest exactly when it drops the row. */
  lemma ImportKeepsHeadsIff(db: Db, row: WireVersion, now: int)
    requires WellFormed(db) && HeadsAreNewest(db)
    ensures HeadsAreNewest(ImportedOne(db, row, now)) <==> DropsRow(db, row)
  {
    var key := Key(row.profile, row.name);
    var p := Parented(db, key, row.slug, now);
    ParentKeeps(db, key, row.slug, now);
    ImportShape(db, row, now);
    if !DropsRow(db, row) {
      var v :| NewVersion(p.versions, v) && v.skillId == p.skills[key].id
               && ImportedOne(db, row, now) == p.(versions := p.versions + [v]);
      StrayVersionBreaksHeads(p, key, v);
    }
  }

  // ---------------------------------------------------------------- what the change feed relies on

  predicate Published(s: Status) { s == Promoted || s == Retired }

  /** A row as the feed may see it change: identity stays, and once published never un-published. */
  predicate Follows(old': Skill, new': Skill) {
    && new'.id == old'.id && new'.slug == old'.slug && new'.origin == old'.origin
    && (Published(old'.status) ==> Published(new'.status))
  }

  /** How a committed step may change what the feed shows: rows and versions stay; a row that changes
      gets a timestamp later than all before it. */
  ghost predicate Evolves(db: Db, next: Db) {
    && db.versions <= next.versions
    && db.clock <= next.clock
    && (forall k | k in db.skills :: k in next.skills && Follows(db.skills[k], next.skills[k]))
    && (forall k | k in next.skills ::
          || (k in db.skills && next.skills[k] == db.skills[k])
          || db.clock < next.skills[k].updatedAt)
  }

  lemma UpsertEvolves(db: Db, key: Key, status: Status, origin: Origin, tags: seq<string>, now: int)
    requires db.clock < now
    ensures var up := Upserted(db, key, status, origin, tags, now); Evolves(db, up) && db.clock < up.skills[key].updatedAt
  {
    hide Slug;
  }

  lemma AppendEvolves(db: Db, up: Db, key: Key, v: Version)
    requires Evolves(db, up) && key in up.skills && db.clock < up.skills[key].updatedAt
    ensures Evolves(db, Appended(up, key, v))
  {
  }

  lemma RegisterEvolves(db: Db, hash: Hash, input: RegisterInput, ulid: string, now: int)
    requires db.clock < now
    ensures Evolves(db, Registered(db, hash, input, ulid, now).0)
  {
    var up, status, origin := RegisteredShape(db, hash, input, ulid, now);
    var key := Key(input.profile, input.name);
    UpsertEvolves(db, key, status, origin, input.tags, now);
    var r := Registered(db, hash, input, ulid, now);
    if r.1.Ok? && r.1.value.created {
      var v :| NewVersion(up.versions, v) && v.skillId == up.skills[key].id && r.0 == Appended(up, key, v);
      AppendEvolves(db, up, key, v);
    }
  }

  lemma StatusEvolves(db: Db, key: Key, status: Status, now: int)
    requires db.clock < now && Published(status)
    ensures Evolves(db, StatusSet(db, key, status, now).0)
  {
  }

  lemma ImportEvolves(db: Db, row: WireVersion, now: int)
    requires WellFormed(db) && db.clock < now
    ensures Evolves(db, ImportedOne(db, row, now))
  {
    var key := Key(row.profile, row.name);
    var p := Parented(db, key, row.slug, now);
    assert Evolves(db, p);
    ImportShape(db, row, now);
  }

  /** Nothing the registry does un-publishes a skill, unless a status step says so. */
  lemma ApplyEvolves(db: Db, op: Op)
    requires WellFormed(db) && db.clock < op.now
    requires op.SetStatus? ==> Published(op.status)
    ensures Evolves(db, Apply(db, op))
  {
    match op
    case Register(hash, input, ulid, now) => RegisterEvolves(db, hash, input, ulid, now);
    case SetStatus(key, status, now) => StatusEvolves(db, key, status, now);
    case Import(row, now) => ImportEvolves(db, row, now);
  }
}
