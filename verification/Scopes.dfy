/** The daemon's live view of its scopes (internal/server/registry.go): which bearer token speaks for
    which (profile, skillset), reloaded all or nothing. */
module Scopes {
  import opened Outcomes
  import Text

  datatype ScopeKey = ScopeKey(profile: string, skillset: string)

  datatype Binding = Binding(key: ScopeKey, token: string, page: int)

  /** What the files of one profile directory say; a page of zero means unset. */
  datatype ScopeFiles = ScopeFiles(skillset: string, token: string, page: int)

  /** An entry of the profiles directory; its files are None when they cannot be read or parsed. */
  datatype DirEntry = DirEntry(name: string, isDir: bool, files: Option<ScopeFiles>)

  datatype Listing = NotExist | Unreadable | Listed(entries: seq<DirEntry>)

  datatype Error = NoConfigDir | UnreadableProfiles | BadScope(profile: string) | DuplicateToken(key: ScopeKey)

  datatype View = View(byToken: map<string, Binding>, byScope: map<ScopeKey, Binding>)

  const EMPTY := View(map[], map[])

  function KeyFor(profile: string, f: ScopeFiles): ScopeKey {
    ScopeKey(profile, if f.skillset == "" then "default" else f.skillset)
  }

  function BindingFor(profile: string, f: ScopeFiles, page: int): Binding {
    Binding(KeyFor(profile, f), f.token, if f.page != 0 then f.page else page)
  }

  predicate Readable(e: DirEntry) { e.files.Some? && Text.TrimSpace(e.files.value.token) != "" }

  function With(v: View, b: Binding): View { View(v.byToken[b.token := b], v.byScope[b.key := b]) }

  /** The view of the entries in order, or the first problem. */
  function Scanned(entries: seq<DirEntry>, page: int): Result<View, Error> {
    if entries == [] then Ok(EMPTY)
    else
      var e := entries[|entries| - 1];
      match Scanned(entries[..|entries| - 1], page)
      case Err(error) => Err(error)
      case Ok(v) =>
        if !e.isDir then Ok(v)
        else if !Readable(e) then Err(BadScope(e.name))
        else
          var b := BindingFor(e.name, e.files.value, page);
          if b.token in v.byToken then Err(DuplicateToken(b.key)) else Ok(With(v, b))
  }

  function Loaded(configDir: string, listing: Listing, page: int): Result<View, Error> {
    if configDir == "" then Err(NoConfigDir)
    else match listing
      case NotExist => Ok(EMPTY)
      case Unreadable => Err(UnreadableProfiles)
      case Listed(entries) => Scanned(entries, page)
  }

  class Registry {
    var byToken: map<string, Binding>
    var byScope: map<ScopeKey, Binding>

    constructor ()
      ensures Value() == EMPTY
    {
      byToken, byScope := map[], map[];
    }

    function Value(): View
      reads this
    {
      View(byToken, byScope)
    }

    method Swap(byToken: map<string, Binding>, byScope: map<ScopeKey, Binding>)
      modifies this
      ensures Value() == View(byToken, byScope)
    {
      this.byToken, this.byScope := byToken, byScope;
    }

    /** Builds both maps aside; the first problem leaves the registry as it was. */
    method Load(configDir: string, listing: Listing, page: int) returns (r: Result<nat, Error>)
      modifies this
      ensures match Loaded(configDir, listing, page)
              case Err(error) => r == Err(error) && Value() == old(Value())
              case Ok(v) => r == Ok(|v.byScope|) && Value() == v
      ensures configDir == "" ==> r == Err(NoConfigDir)
      ensures configDir != "" && listing.NotExist? ==> r == Ok(0) && byToken == map[] && byScope == map[]
      ensures configDir != "" && listing.Unreadable? ==> r == Err(UnreadableProfiles)
      ensures r.Err? ==> byToken == old(byToken) && byScope == old(byScope)
    {
      if configDir == "" { return Err(NoConfigDir); }
      if listing.NotExist? { Swap(map[], map[]); return Ok(0); }
      if listing.Unreadable? { return Err(UnreadableProfiles); }
      var entries := listing.entries;
      var newByToken: map<string, Binding>, newByScope: map<ScopeKey, Binding> := map[], map[];
      for n := 0 to |entries|
        invariant Scanned(entries[..n], page) == Ok(View(newByToken, newByScope))
      {
        var e := entries[n];
        assert entries[..n + 1][..n] == entries[..n];
        if !e.isDir { continue; }
        if !Readable(e) {
          FirstProblem(entries, n + 1, page);
          return Err(BadScope(e.name));
        }
        var auth := e.files.value;
        var key := KeyFor(e.name, auth);
        if auth.token in newByToken {
          FirstProblem(entries, n + 1, page);
          return Err(DuplicateToken(key));
        }
        newByToken := newByToken[auth.token := BindingFor(e.name, auth, page)];
        newByScope := newByScope[key := newByToken[auth.token]];
      }
      assert entries[..|entries|] == entries;
      Swap(newByToken, newByScope);
      r := Ok(|newByScope|);
    }
  }

  lemma {:induction false} FirstProblem(entries: seq<DirEntry>, n: nat, page: int)
    requires n <= |entries| && Scanned(entries[..n], page).Err?
    ensures Scanned(entries, page) == Scanned(entries[..n], page)
    decreases |entries|
  {
    if n == |entries| {
      assert entries[..n] == entries;
    } else {
      var front := entries[..|entries| - 1];
      assert front[..n] == entries[..n];
      FirstProblem(front, n, page);
    }
  }

  /** Directory names are unique. */
  ghost predicate UniqueNames(entries: seq<DirEntry>) {
    forall i, j | 0 <= i < j < |entries| :: entries[i].name != entries[j].name
  }

  predicate AllReadable(entries: seq<DirEntry>) {
    forall i | 0 <= i < |entries| && entries[i].isDir :: Readable(entries[i])
  }

  predicate UniqueTokens(entries: seq<DirEntry>) {
    forall i, j | 0 <= i < j < |entries| && entries[i].isDir && entries[j].isDir ::
      entries[i].files.Some? && entries[j].files.Some? ==> entries[i].files.value.token != entries[j].files.value.token
  }

  /** Tokens and scopes are in bijection. */
  ghost predicate Bijective(v: View) {
    && (forall t | t in v.byToken :: v.byToken[t].token == t && v.byToken[t].key in v.byScope
                                     && v.byScope[v.byToken[t].key] == v.byToken[t])
    && (forall k | k in v.byScope :: v.byScope[k].key == k && v.byScope[k].token in v.byToken
                                     && v.byToken[v.byScope[k].token] == v.byScope[k])
  }

  /** LookupByToken finds this binding under its own token. */
  predicate Answers(v: View, b: Binding) { b.token in v.byToken && v.byToken[b.token] == b }

  ghost predicate Owned(entries: seq<DirEntry>, b: Binding, page: int) {
    exists i | 0 <= i < |entries| && entries[i].isDir && Readable(entries[i]) :: b == BindingFor(entries[i].name, entries[i].files.value, page)
  }

  lemma OwnedSnoc(entries: seq<DirEntry>, b: Binding, page: int)
    requires entries != []
    ensures var n := |entries| - 1;
            Owned(entries, b, page) <==>
            Owned(entries[..n], b, page)
            || (entries[n].isDir && Readable(entries[n]) && b == BindingFor(entries[n].name, entries[n].files.value, page))
  {
    var n := |entries| - 1;
    var front := entries[..n];
    if Owned(front, b, page) {
      var i :| 0 <= i < |front| && front[i].isDir && Readable(front[i])
               && b == BindingFor(front[i].name, front[i].files.value, page);
      assert entries[i] == front[i];
    }
  }

  lemma {:induction false} ScanIsBijective(entries: seq<DirEntry>, page: int)
    requires UniqueNames(entries)
    ensures Scanned(entries, page).Ok? <==> AllReadable(entries) && UniqueTokens(entries)
    ensures Scanned(entries, page).Ok? ==>
              var v := Scanned(entries, page).value;
              && Bijective(v)
              && forall b :: Answers(v, b) <==> Owned(entries, b, page)
  {
    hide Text.TrimSpace, Bijective, Owned, Answers;
    if entries == [] {
      NothingOwned(page);
    } else {
      var front := entries[..|entries| - 1];
      assert forall i | 0 <= i < |front| :: front[i] == entries[i];
      ScanIsBijective(front, page);
      if Scanned(front, page).Ok? { LastEntry(entries, page); } else { TokensSnoc(entries); }
    }
  }

  lemma NothingOwned(page: int)
    ensures Bijective(EMPTY) && forall b :: !Owned([], b, page) && !Answers(EMPTY, b)
  {
  }

  lemma TokensSnoc(entries: seq<DirEntry>)
    requires entries != []
    ensures var n := |entries| - 1;
            AllReadable(entries) && UniqueTokens(entries) <==>
            && AllReadable(entries[..n]) && UniqueTokens(entries[..n])
            && (entries[n].isDir ==> Readable(entries[n]) && !TokenAmong(entries[..n], entries[n].files.value.token))
  {
    hide Text.TrimSpace;
    var n := |entries| - 1;
    assert forall i | 0 <= i < n :: entries[..n][i] == entries[i];
  }

  ghost predicate TokenAmong(entries: seq<DirEntry>, token: string) {
    exists i | 0 <= i < |entries| && entries[i].isDir && entries[i].files.Some? :: entries[i].files.value.token == token
  }

  lemma WithKeepsBijective(v: View, b: Binding)
    requires Bijective(v) && b.token !in v.byToken && b.key !in v.byScope
    ensures Bijective(With(v, b))
    ensures forall c :: Answers(With(v, b), c) <==> Answers(v, c) || c == b
  {
  }

  /** A token is taken exactly when an entry before has it; a scope never is, names being unique. */
  lemma TakenTokens(entries: seq<DirEntry>, v: View, token: string, name: string, page: int)
    requires AllReadable(entries) && Bijective(v)
    requires forall b :: Answers(v, b) <==> Owned(entries, b, page)
    requires forall i | 0 <= i < |entries| :: entries[i].name != name
    ensures token in v.byToken <==> TokenAmong(entries, token)
    ensures forall k | k in v.byScope :: k.profile != name
  {
    hide Text.TrimSpace;
    if token in v.byToken {
      assert Answers(v, v.byToken[token]);
    }
    if TokenAmong(entries, token) {
      var i :| 0 <= i < |entries| && entries[i].isDir && entries[i].files.Some? && entries[i].files.value.token == token;
      assert Owned(entries, BindingFor(entries[i].name, entries[i].files.value, page), page);
    }
    forall k | k in v.byScope ensures k.profile != name {
      assert Answers(v, v.byScope[k]);
    }
  }

  lemma LastEntry(entries: seq<DirEntry>, page: int)
    requires entries != [] && UniqueNames(entries)
    requires var front := entries[..|entries| - 1];
             && AllReadable(front) && UniqueTokens(front) && Scanned(front, page).Ok? && Bijective(Scanned(front, page).value)
             && forall b :: Answers(Scanned(front, page).value, b) <==> Owned(front, b, page)
    ensures Scanned(entries, page).Ok? <==> AllReadable(entries) && UniqueTokens(entries)
    ensures Scanned(entries, page).Ok? ==> Bijective(Scanned(entries, page).value)
    ensures Scanned(entries, page).Ok? ==> forall b :: Answers(Scanned(entries, page).value, b) <==> Owned(entries, b, page)
  {
    hide Text.TrimSpace, Bijective, Owned, AllReadable, UniqueTokens, Answers, TokenAmong, With;
    var n := |entries| - 1;
    var front, e := entries[..n], entries[n];
    var v := Scanned(front, page).value;
    TokensSnoc(entries);
    forall b ensures Owned(entries, b, page) <==>
                     Owned(front, b, page) || (e.isDir && Readable(e) && b == BindingFor(e.name, e.files.value, page))
    {
      OwnedSnoc(entries, b, page);
    }
    if e.isDir && Readable(e) {
      var b := BindingFor(e.name, e.files.value, page);
      TakenTokens(front, v, b.token, e.name, page);
      if b.token !in v.byToken { WithKeepsBijective(v, b); }
    }
  }

  // ---------------------------------------------------------------- what a scan means

  /** The files of the directory could be read, and the token is not blank. */
  predicate Sound(e: DirEntry) { e.files.Some? && !Text.AllSpace(e.files.value.token) }

  /** The binding is what the directory says: its name is the profile, no skillset means the default one,
      and no page size means the daemon's own. */
  predicate Speaks(b: Binding, e: DirEntry, page: int) {
    && e.isDir && e.files.Some?
    && b.key.profile == e.name && b.token == e.files.value.token
    && (if e.files.value.skillset == "" then b.key.skillset == "default" else b.key.skillset == e.files.value.skillset)
    && (if e.files.value.page == 0 then b.page == page else b.page == e.files.value.page)
  }

  lemma SoundIff(e: DirEntry)
    ensures Sound(e) <==> Readable(e)
  {
    hide Text.TrimSpace, Text.AllSpace;
    if e.files.Some? { Text.TrimEmptyIff(e.files.value.token); }
  }

  /** A scan succeeds exactly when every profile directory is readable and no token is used twice; then
      tokens and scopes are in bijection, and there is one binding for each directory and no other. */
  lemma ScanIsBijectionIff(entries: seq<DirEntry>, page: int)
    requires UniqueNames(entries)
    ensures Scanned(entries, page).Ok? <==>
            (forall e | e in entries && e.isDir :: Sound(e)) && UniqueTokens(entries)
    ensures Scanned(entries, page).Ok? ==>
              var v := Scanned(entries, page).value;
              && Bijective(v)
              && forall b :: Answers(v, b) <==> exists e :: e in entries && Speaks(b, e, page)
  {
    hide Bijective, Scanned, UniqueTokens, UniqueNames, Text.TrimSpace, Text.AllSpace;
    ScanIsBijective(entries, page);
    forall e ensures Sound(e) <==> Readable(e) { SoundIff(e); }
    if Scanned(entries, page).Ok? {
      forall b ensures Owned(entries, b, page) <==> exists e :: e in entries && Speaks(b, e, page) {
        if Owned(entries, b, page) {
          var i :| 0 <= i < |entries| && entries[i].isDir && Readable(entries[i])
                   && b == BindingFor(entries[i].name, entries[i].files.value, page);
          assert Speaks(b, entries[i], page);
        }
        if e :| e in entries && Speaks(b, e, page) { assert b == BindingFor(e.name, e.files.value, page); }
      }
    }
  }

  /** The problem a scan stops at: all before it is in order. */
  ghost predicate Blames(entries: seq<DirEntry>, n: nat, page: int, error: Error) {
    && n < |entries| && entries[n].isDir && Scanned(entries[..n], page).Ok?
    && if Sound(entries[n]) then
         && TokenAmong(entries[..n], entries[n].files.value.token)
         && error == DuplicateToken(ScopeKey(entries[n].name, if entries[n].files.value.skillset == "" then "default"
                                                              else entries[n].files.value.skillset))
       else error == BadScope(entries[n].name)
  }

  /** A scan that fails reports the first directory that is not in order. */
  lemma {:induction false} FailureBlames(entries: seq<DirEntry>, page: int) returns (n: nat)
    requires UniqueNames(entries) && Scanned(entries, page).Err?
    ensures Blames(entries, n, page, Scanned(entries, page).error)
  {
    hide Text.TrimSpace, Text.AllSpace, TokenAmong, Bijective, Owned, Answers, AllReadable, UniqueTokens;
    n := |entries| - 1;
    var front, e := entries[..n], entries[n];
    assert forall i | 0 <= i < |front| :: front[i] == entries[i];
    if Scanned(front, page).Err? {
      var m := FailureBlames(front, page);
      assert front[..m] == entries[..m];
      n := m;
    } else {
      ScanIsBijective(front, page);
      SoundIff(e);
      if Readable(e) {
        TakenTokens(front, Scanned(front, page).value, e.files.value.token, e.name, page);
      }
    }
  }
}
