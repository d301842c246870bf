/** The SKILL.md codec (internal/skillfile/skillfile.go).  YAML and SHA-256 stay abstract: they are
    function values, and what is assumed of them is said by `Faithful`. */
module SkillFile {
  import opened Outcomes
  import opened Text

  /** A frontmatter value, as JSON and YAML decode it. */
  datatype Value =
    | Str(text: string)
    | Dict(entries: map<string, Value>)
    | List(items: seq<Value>)
    | Scalar(literal: string)

  type Frontmatter = map<string, Value>

  const MARKER_KEY := "x-phantom-skills"

  /** Says that a skill directory is managed, and which registry content was written there. */
  datatype Marker = Marker(origin: string, status: string, sha: string)

  datatype Yaml = Yaml(marshal: Frontmatter -> Option<string>, unmarshal: string -> Option<Frontmatter>)

  type Hash = (Frontmatter, string) -> string

  /** The content-addressed identity of a version; the marker is not part of it. */
  function CanonicalSHA(hash: Hash, fm: Frontmatter, body: string): string {
    hash(fm - {MARKER_KEY}, body)
  }

  function MarkerValue(marker: Marker): Value {
    Dict(map["origin" := Str(marker.origin), "status" := Str(marker.status), "sha" := Str(marker.sha)])
  }

  function WithMarker(fm: Frontmatter, marker: Marker): Frontmatter {
    (fm - {MARKER_KEY})[MARKER_KEY := MarkerValue(marker)]
  }

  const OPENING := "---\n"
  const CLOSING := "---\n\n"

  function Layout(yml: string, body: string): string {
    OPENING + yml + CLOSING + TrimNewlines(body) + "\n"
  }

  function Rendered(y: Yaml, fm: Frontmatter, body: string, marker: Marker): Option<string> {
    match y.marshal(WithMarker(fm, marker))
    case None => None
    case Some(yml) => Some(Layout(yml, body))
  }

  /** Render: copy every entry but a smuggled-in marker, inject the real one, lay the file out. */
  method Render(y: Yaml, frontmatter: Frontmatter, body: string, marker: Marker) returns (file: Option<string>)
    ensures file == Rendered(y, frontmatter, body, marker)
  {
    var fm: Frontmatter := map[];
    var todo := frontmatter.Keys;
    while todo != {}
      invariant todo <= frontmatter.Keys
      invariant fm == map k | k in frontmatter && k !in todo && k != MARKER_KEY :: frontmatter[k]
      decreases todo
    {
      var k :| k in todo;
      todo := todo - {k};
      if k != MARKER_KEY {
        fm := fm[k := frontmatter[k]];
      }
    }
    fm := fm[MARKER_KEY := MarkerValue(marker)];
    assert fm == WithMarker(frontmatter, marker);
    var yml := y.marshal(fm);
    if yml == None { return None; }
    var out := "---\n";
    out := out + yml.value;
    out := out + "---\n\n";
    out := out + TrimNewlines(body);
    out := out + "\n";
    file := Some(out);
  }

  datatype Parsed = Parsed(fm: Frontmatter, body: string)

  /** None is the YAML error. */
  function Parse(y: Yaml, s: string): Option<Parsed> {
    if !("---" <= s) then Some(Parsed(map[], s))
    else
      var rest := TrimPrefix(TrimPrefix(s, "---"), "\n");
      var idx := Index(rest, "\n---");
      if idx < 0 then Some(Parsed(map[], s))
      else
        var fmText := rest[..idx];
        var bodyText := TrimPrefix(TrimPrefix(rest[idx + 4..], "\n"), "\n");
        if TrimSpace(fmText) == "" then Some(Parsed(map[], bodyText))
        else match y.unmarshal(fmText)
          case None => None
          case Some(fm) => Some(Parsed(fm, bodyText))
  }

  function AsString(entries: map<string, Value>, key: string): string {
    if key in entries && entries[key].Str? then entries[key].text else ""
  }

  /** None means the directory is hand-authored. */
  function MarkerOf(fm: Frontmatter): Option<Marker> {
    if MARKER_KEY in fm && fm[MARKER_KEY].Dict? then
      var m := fm[MARKER_KEY].entries;
      Some(Marker(AsString(m, "origin"), AsString(m, "status"), AsString(m, "sha")))
    else None
  }

  // ---------------------------------------------------------------- what Parse makes of any text

  /** Where a frontmatter begins: after the opening `---` and the newline that may follow it. */
  function Start(s: string): nat {
    if "---\n" <= s then 4 else 3
  }

  /** The text has a frontmatter block, which goes from its start to `end`: it opens with `---`, and `end`
      is the first newline from there on that `---` follows. */
  ghost predicate Block(s: string, end: nat) {
    && "---" <= s && Start(s) <= end && OccursAt(s, "\n---", end)
    && forall i | Start(s) <= i < end :: !OccursAt(s, "\n---", i)
  }

  ghost predicate HasBlock(s: string) { exists end: nat :: Block(s, end) }

  function Between(s: string, end: nat): string
    requires Start(s) <= end <= |s|
  {
    s[Start(s)..end]
  }

  /** It has one that is not blank and that the YAML library rejects. */
  ghost predicate Undecodable(y: Yaml, s: string) {
    exists end: nat :: Block(s, end) && !AllSpace(Between(s, end)) && y.unmarshal(Between(s, end)) == None
  }

  /** The frontmatter of a text that decodes: empty without a block or with a blank one. */
  ghost predicate Fronted(y: Yaml, s: string, fm: Frontmatter) {
    if HasBlock(s) then
      exists end: nat :: Block(s, end) && if AllSpace(Between(s, end)) then fm == map[] else y.unmarshal(Between(s, end)) == Some(fm)
    else fm == map[]
  }

  function Newlines(n: nat): string { seq(n, _ => '\n') }

  /** Its body: all of it without a block, else what follows the closing `---`, less up to two newlines. */
  ghost predicate Bodied(s: string, body: string) {
    if HasBlock(s) then
      exists end: nat, n: nat ::
        && Block(s, end) && n <= 2 && s[end + 4..] == Newlines(n) + body && (n == 2 || !("\n" <= body))
    else body == s
  }

  lemma OneBlock(s: string, a: nat, b: nat)
    requires Block(s, a) && Block(s, b)
    ensures a == b
  {
  }

  lemma RestIsTail(s: string)
    requires "---" <= s
    ensures Start(s) <= |s| && TrimPrefix(TrimPrefix(s, "---"), "\n") == s[Start(s)..]
  {
    assert "---\n" <= s <==> "\n" <= s[3..];
  }

  lemma BlockIsIndex(s: string)
    requires "---" <= s
    ensures var i := Index(s[Start(s)..], "\n---");
            && (i < 0 ==> !HasBlock(s))
            && (i >= 0 ==> Block(s, Start(s) + i))
  {
    RestIsTail(s);
    var n, rest := Start(s), s[Start(s)..];
    IndexMeans(rest, "\n---");
    forall j | n <= j ensures OccursAt(s, "\n---", j) == OccursAt(rest, "\n---", j - n) {
      OccursInTail(s, "\n---", n, j);
    }
  }

  lemma NewlinesOff(t: string) returns (n: nat)
    ensures var body := TrimPrefix(TrimPrefix(t, "\n"), "\n");
            n <= 2 && t == Newlines(n) + body && (n == 2 || !("\n" <= body))
  {
    var once := TrimPrefix(t, "\n");
    n := if !("\n" <= t) then 0 else if !("\n" <= once) then 1 else 2;
    assert Newlines(1) == "\n" && Newlines(2) == "\n" + "\n";
  }

  /** Parse fails exactly on a text whose frontmatter block does not decode. Any other text, with or
      without a block, has the frontmatter and the body of its layout. */
  lemma ParseMeans(y: Yaml, s: string)
    ensures Parse(y, s) == None <==> Undecodable(y, s)
    ensures Parse(y, s).Some? ==> Fronted(y, s, Parse(y, s).value.fm) && Bodied(s, Parse(y, s).value.body)
  {
    hide Index, TrimPrefix, TrimSpace, AllSpace, Block;
    if "---" <= s {
      RestIsTail(s);
      BlockIsIndex(s);
      var i := Index(s[Start(s)..], "\n---");
      if i >= 0 {
        var end := Start(s) + i;
        assert Block(s, end) && end + 4 <= |s| by { BlockFits(s, end); }
        forall e: nat | Block(s, e) ensures e == end { OneBlock(s, e, end); }
        assert s[Start(s)..][..i] == Between(s, end);
        assert s[Start(s)..][i + 4..] == s[end + 4..];
        TrimEmptyIff(Between(s, end));
        var n := NewlinesOff(s[end + 4..]);
      }
    } else {
      NoBlock(s);
    }
  }

  lemma BlockFits(s: string, end: nat)
    requires Block(s, end)
    ensures Start(s) <= end && end + 4 <= |s|
  {
  }

  lemma NoBlock(s: string)
    requires !("---" <= s)
    ensures !HasBlock(s)
  {
  }

  predicate RuleLineAt(text: string, i: int) {
    OccursAt(text, "---", i) && (i == 0 || text[i - 1] == '\n')
  }

  /** What is assumed of the YAML library on one frontmatter: the text is not blank, ends in a
      newline, has no line that starts with `---`, and decodes back without its last newline. */
  ghost predicate Faithful(y: Yaml, fm: Frontmatter) {
    match y.marshal(fm)
    case None => false
    case Some(yml) =>
      && yml != "" && yml[|yml| - 1] == '\n'
      && (forall i :: !RuleLineAt(yml, i))
      && TrimSpace(yml[..|yml| - 1]) != ""
      && y.unmarshal(yml[..|yml| - 1]) == Some(fm)
  }

  lemma EarlierIsRule(yml: string, tail: string, i: nat)
    requires yml != "" && yml[|yml| - 1] == '\n' && i < |yml| - 1
    ensures OccursAt(yml + "---" + tail, "\n---", i) ==> RuleLineAt(yml, i + 1)
  {
    var rest := yml + "---" + tail;
    var last := |yml| - 1;
    if OccursAt(rest, "\n---", i) {
      var w := rest[i..i + 4];
      assert w[0] == rest[i] && w[1] == rest[i + 1] && w[2] == rest[i + 2] && w[3] == rest[i + 3];
      assert rest[last] == '\n';
      assert i + 3 < last;
      assert yml[i + 1..i + 4] == "---";
    }
  }

  /** The closing delimiter found by Parse is the one Render wrote. */
  lemma ClosingIsFound(yml: string, tail: string)
    requires yml != "" && yml[|yml| - 1] == '\n'
    requires forall i :: !RuleLineAt(yml, i)
    ensures Index(yml + "---" + tail, "\n---") == |yml| - 1
  {
    var rest := yml + "---" + tail;
    var last := |yml| - 1;
    assert rest[last..last + 4] == "\n---";
    forall i | 0 <= i < last ensures !OccursAt(rest, "\n---", i) { EarlierIsRule(yml, tail, i); }
    IndexIsFirst(rest, "\n---", last);
  }

  lemma PrefixOff(prefix: string, rest: string)
    ensures prefix <= prefix + rest
    ensures TrimPrefix(prefix + rest, prefix) == rest
  {
  }

  lemma LayoutSplits(yml: string, body: string)
    ensures Layout(yml, body) == "---" + ("\n" + (yml + "---" + ("\n" + ("\n" + (TrimNewlines(body) + "\n")))))
  {
  }

  /** Parse on a file laid out around a text without rule lines. */
  lemma ParseOfLayout(y: Yaml, yml: string, body: string)
    requires yml != "" && yml[|yml| - 1] == '\n'
    requires forall i :: !RuleLineAt(yml, i)
    requires TrimSpace(yml[..|yml| - 1]) != ""
    ensures Parse(y, Layout(yml, body)) ==
            match y.unmarshal(yml[..|yml| - 1])
            case None => None
            case Some(fm) => Some(Parsed(fm, TrimNewlines(body) + "\n"))
  {
    var text := TrimNewlines(body) + "\n";
    var tail := "\n" + ("\n" + text);
    var rest := yml + "---" + tail;
    LayoutSplits(yml, body);
    PrefixOff("---", "\n" + rest);
    PrefixOff("\n", rest);
    ClosingIsFound(yml, tail);
    assert rest[|yml| - 1 + 4..] == tail;
    PrefixOff("\n", "\n" + text);
    PrefixOff("\n", text);
    assert rest[..|yml| - 1] == yml[..|yml| - 1];
  }

  /** Parse undoes Render for every body, `---` lines and leading newlines included. */
  lemma ParseOfRender(y: Yaml, fm: Frontmatter, body: string, marker: Marker)
    requires Faithful(y, WithMarker(fm, marker))
    ensures var file := Rendered(y, fm, body, marker);
            && file.Some?
            && Parse(y, file.value) == Some(Parsed(WithMarker(fm, marker), TrimNewlines(body) + "\n"))
  {
    ParseOfLayout(y, y.marshal(WithMarker(fm, marker)).value, body);
  }

  /** What Render does to a body: its trailing newlines go, and nothing else. */
  lemma {:induction false} BodyIsKept(body: string) returns (n: nat)
    ensures body == TrimNewlines(body) + Newlines(n)
    ensures TrimNewlines(body) != "" ==> TrimNewlines(body)[|TrimNewlines(body)| - 1] != '\n'
  {
    n := 0;
    if body != "" && body[|body| - 1] == '\n' {
      var front := body[..|body| - 1];
      var m := BodyIsKept(front);
      n := m + 1;
      assert Newlines(n) == Newlines(m) + "\n" && body == front + "\n";
    }
  }

  /** Rendering succeeds, and the marker can be read back from the file. */
  predicate MarksBack(y: Yaml, fm: Frontmatter, body: string, marker: Marker) {
    var file := Rendered(y, fm, body, marker);
    && file.Some?
    && Parse(y, file.value).Some?
    && MarkerOf(Parse(y, file.value).value.fm) == Some(marker)
  }

  /** The registry SHA written is the one read back: what lets a later sync skip the file. */
  lemma MarkerReadBack(y: Yaml, fm: Frontmatter, body: string, marker: Marker)
    requires Faithful(y, WithMarker(fm, marker))
    ensures MarksBack(y, fm, body, marker)
  {
    ParseOfRender(y, fm, body, marker);
    MarkerOfInjected(fm, marker);
  }

  lemma MarkerOfInjected(fm: Frontmatter, marker: Marker)
    ensures MarkerOf(WithMarker(fm, marker)) == Some(marker)
  {
    var entries := MarkerValue(marker).entries;
    assert AsString(entries, "origin") == marker.origin;
    assert AsString(entries, "status") == marker.status;
    assert AsString(entries, "sha") == marker.sha;
  }

  // ---------------------------------------------------------------- slugs

  predicate Alnum(c: char) { 'a' <= c <= 'z' || IsDigit(c) }

  /** unicode.ToLower, as far as a slug can see it: besides A-Z only U+0130 and U+212A have an
      ASCII lower case; every other result stays outside [a-z0-9]. */
  function LowerRune(c: char): char {
    if 'A' <= c <= 'Z' then c - 'A' + 'a'
    else if c == '\U{130}' then 'i'
    else if c == '\U{212A}' then 'k'
    else c
  }

  function Lower(s: string): (r: string)
    ensures |r| == |s| && forall i | 0 <= i < |s| :: r[i] == LowerRune(s[i])
  {
    seq(|s|, i requires 0 <= i < |s| => LowerRune(s[i]))
  }

  /** Length of the run of [a-z0-9] at the front. */
  function RunLength(s: string): (n: nat)
    ensures n <= |s|
    ensures forall i | 0 <= i < n :: Alnum(s[i])
    ensures n < |s| ==> !Alnum(s[n])
  {
    if s != "" && Alnum(s[0]) then 1 + RunLength(s[1..]) else 0
  }

  /** The maximal [a-z0-9] runs, in order. */
  function Words(s: string): (ws: seq<string>)
    decreases |s|
  {
    if s == "" then []
    else if !Alnum(s[0]) then Words(s[1..])
    else [s[..RunLength(s)]] + Words(s[RunLength(s)..])
  }

  function Join(ws: seq<string>): string {
    if ws == [] then ""
    else if |ws| == 1 then ws[0]
    else ws[0] + "-" + Join(ws[1..])
  }

  /** The directory slug of a skill name. */
  function Slug(name: string): string {
    Join(Words(Lower(TrimSpace(name))))
  }

  predicate EndsInRun(s: string) { s != "" && Alnum(s[|s| - 1]) }

  lemma NoWords(c: char)
    ensures Words("") == [] && (!Alnum(c) ==> Words([c]) == [])
  {
    assert [c][1..] == "";
  }

  lemma RunThenChar(s: string, c: char)
    requires s != "" && RunLength(s) == |s|
    ensures Words(s) == [s]
    ensures Words(s + [c]) == if Alnum(c) then [s + [c]] else [s]
  {
    hide Words, RunLength;
    NoWords(c);
    FirstWord(s, "");
    assert s + "" == s;
    if Alnum(c) {
      FirstWord(s + [c], "");
      assert (s + [c]) + "" == s + [c];
    } else {
      FirstWord(s, [c]);
    }
  }

  lemma RunThenRest(s: string, n: nat, c: char)
    requires 0 < n < |s| && n == RunLength(s)
    ensures Words(s) == [s[..n]] + Words(s[n..])
    ensures Words(s + [c]) == [s[..n]] + Words(s[n..] + [c])
  {
    hide Words, RunLength;
    FirstWord(s[..n], s[n..]);
    FirstWord(s[..n], s[n..] + [c]);
    assert s == s[..n] + s[n..] && s + [c] == s[..n] + (s[n..] + [c]);
  }

  lemma RunAhead(w: string, ws: seq<string>, c: char)
    ensures ws != [] ==> var all := [w] + ws;
            all[..|all| - 1] + [all[|all| - 1] + [c]] == [w] + (ws[..|ws| - 1] + [ws[|ws| - 1] + [c]])
    ensures ([w] + ws) + [[c]] == [w] + (ws + [[c]])
  {
  }

  /** One more character either extends the last run, opens a run, or leaves the runs alone. */
  lemma {:induction false} WordsSnoc(s: string, c: char)
    ensures EndsInRun(s) ==> Words(s) != []
    ensures Words(s + [c]) ==
            if !Alnum(c) then Words(s)
            else if EndsInRun(s) then Words(s)[..|Words(s)| - 1] + [Words(s)[|Words(s)| - 1] + [c]]
            else Words(s) + [[c]]
    decreases |s|
  {
    var t := s + [c];
    if s == "" {
      assert t[1..] == "" && t == [c];
      if Alnum(c) { assert RunLength(t) == 1; assert t[..1] == [c]; }
    } else if !Alnum(s[0]) {
      assert t[1..] == s[1..] + [c];
      assert |s| > 1 ==> s[1..][|s[1..]| - 1] == s[|s| - 1];
      WordsSnoc(s[1..], c);
    } else {
      var n := RunLength(s);
      if n == |s| {
        RunThenChar(s, c);
      } else {
        RunThenRest(s, n, c);
        assert s[n..][|s[n..]| - 1] == s[|s| - 1];
        WordsSnoc(s[n..], c);
        RunAhead(s[..n], Words(s[n..]), c);
      }
    }
  }

  lemma {:induction false} JoinSnoc(ws: seq<string>, w: string)
    ensures Join(ws + [w]) == if ws == [] then w else Join(ws) + "-" + w
  {
    if ws == [] {
      assert ws + [w] == [w];
    } else {
      assert (ws + [w])[1..] == ws[1..] + [w];
      JoinSnoc(ws[1..], w);
      if |ws| > 1 {
        assert ws[0] + "-" + (Join(ws[1..]) + "-" + w) == ws[0] + "-" + Join(ws[1..]) + "-" + w;
      } else {
        assert ws[1..] == [];
      }
    }
  }

  /** Typing on after the last word. */
  lemma JoinExtend(front: seq<string>, w: string, c: char)
    ensures Join(front + [w + [c]]) == Join(front + [w]) + [c]
  {
    JoinSnoc(front, w);
    JoinSnoc(front, w + [c]);
    if front != [] {
      assert Join(front) + "-" + (w + [c]) == Join(front) + "-" + w + [c];
    }
  }

  /** strings.Trim(s, "-") */
  function TrimHyphens(s: string): string {
    if s != "" && s[0] == '-' then TrimHyphens(s[1..])
    else if s != "" && s[|s| - 1] == '-' then TrimHyphens(s[..|s| - 1])
    else s
  }

  /** What the loop has written after reading a prefix. */
  function Written(prefix: string): string {
    Join(Words(prefix)) + if PendingHyphen(prefix) then "-" else ""
  }

  ghost predicate AllWords(ws: seq<string>) {
    forall i | 0 <= i < |ws| :: ws[i] != "" && forall j | 0 <= j < |ws[i]| :: Alnum(ws[i][j])
  }

  lemma {:induction false} WordsAreRuns(s: string)
    ensures AllWords(Words(s))
    decreases |s|
  {
    if s != "" {
      WordsAreRuns(if Alnum(s[0]) then s[RunLength(s)..] else s[1..]);
    }
  }

  /** A joined slug neither starts nor ends with a hyphen, and has no doubled one. */
  lemma {:induction false} JoinShape(ws: seq<string>)
    requires AllWords(ws)
    ensures var s := Join(ws);
            && (ws == [] <==> s == "")
            && (s != "" ==> Alnum(s[0]) && Alnum(s[|s| - 1]))
            && (forall i | 0 <= i < |s| :: Alnum(s[i]) || s[i] == '-')
            && (forall i | 0 <= i < |s| - 1 :: s[i] == '-' ==> Alnum(s[i + 1]))
  {
    if |ws| > 1 {
      JoinShape(ws[1..]);
      var w, t := ws[0], Join(ws[1..]);
      var s := w + "-" + t;
      assert Join(ws) == s;
      forall i | 0 <= i < |s| ensures (Alnum(s[i]) || s[i] == '-') && (i < |s| - 1 && s[i] == '-' ==> Alnum(s[i + 1])) {
        if i < |w| { assert s[i] == w[i]; }
        else if i > |w| { assert s[i] == t[i - |w| - 1]; }
      }
    }
  }

  lemma TrimWritten(prefix: string)
    ensures TrimHyphens(Written(prefix)) == Join(Words(prefix))
  {
    WordsAreRuns(prefix);
    JoinShape(Words(prefix));
    var s := Join(Words(prefix));
    assert TrimHyphens(s) == s;
    if Written(prefix) != s { assert Written(prefix)[..|s|] == s; }
  }

  predicate PendingHyphen(prefix: string) { Words(prefix) != [] && !EndsInRun(prefix) }

  /** A letter or digit is written as it is, after the hyphen that was pending if one was. */
  lemma WrittenAlnum(prefix: string, r: char)
    requires Alnum(r)
    ensures Written(prefix + [r]) == Written(prefix) + [r]
    ensures !PendingHyphen(prefix + [r])
  {
    var ws := Words(prefix);
    WordsSnoc(prefix, r);
    if EndsInRun(prefix) {
      JoinExtend(ws[..|ws| - 1], ws[|ws| - 1], r);
      assert ws == ws[..|ws| - 1] + [ws[|ws| - 1]];
    } else {
      JoinSnoc(ws, [r]);
    }
  }

  /** Anything else leaves at most one hyphen pending, and none at the front. */
  lemma WrittenOther(prefix: string, r: char)
    requires !Alnum(r)
    ensures Written(prefix + [r]) ==
            if |Written(prefix)| > 0 && !PendingHyphen(prefix) then Written(prefix) + "-" else Written(prefix)
    ensures PendingHyphen(prefix + [r]) <==> |Written(prefix)| > 0
  {
    WordsSnoc(prefix, r);
    WordsAreRuns(prefix);
    JoinShape(Words(prefix));
  }

  method Slugify(name: string) returns (slug: string)
    ensures slug == Slug(name)
  {
    hide TrimSpace, Lower;
    var text := Lower(TrimSpace(name));
    var out := "";
    var prevHyphen := false;
    var n := 0;
    while n < |text|
      invariant 0 <= n <= |text|
      invariant out == Written(text[..n])
      invariant prevHyphen <==> PendingHyphen(text[..n])
    {
      var r := text[n];
      assert text[..n + 1] == text[..n] + [r];
      if Alnum(r) { WrittenAlnum(text[..n], r); } else { WrittenOther(text[..n], r); }
      if Alnum(r) {
        out := out + [r];
        prevHyphen := false;
      } else if !prevHyphen && |out| > 0 {
        out := out + "-";
        prevHyphen := true;
      }
      n := n + 1;
    }
    assert text[..n] == text;
    TrimWritten(text);
    slug := TrimHyphens(out);
  }

  predicate LetterOrDigit(c: char) { 'a' <= c <= 'z' || '0' <= c <= '9' }

  /** The words are all the maximal runs of letters and digits of the text, in order. */
  ghost predicate Splits(s: string, ws: seq<string>)
    decreases |ws|
  {
    if ws == [] then forall i | 0 <= i < |s| :: !LetterOrDigit(s[i])
    else exists i, j :: SplitsAt(s, ws[0], i, j) && Splits(s[j..], ws[1..])
  }

  /** The first run goes from i to j. */
  predicate SplitsAt(s: string, w: string, i: int, j: int) {
    && 0 <= i < j <= |s| && s[i..j] == w
    && (forall k | 0 <= k < i :: !LetterOrDigit(s[k])) && (forall k | i <= k < j :: LetterOrDigit(s[k]))
    && (j < |s| ==> !LetterOrDigit(s[j]))
  }

  lemma {:induction false} WordsSplit(s: string)
    ensures Splits(s, Words(s))
    decreases |s|
  {
    if s == "" {
    } else if !Alnum(s[0]) {
      var ws := Words(s[1..]);
      WordsSplit(s[1..]);
      if ws == [] {
        forall i | 0 <= i < |s| ensures !LetterOrDigit(s[i]) { if i > 0 { assert s[i] == s[1..][i - 1]; } }
      } else {
        var i, j :| SplitsAt(s[1..], ws[0], i, j) && Splits(s[1..][j..], ws[1..]);
        OneLater(s, ws[0], i, j);
        assert s[j + 1..] == s[1..][j..];
        assert SplitsAt(s, ws[0], i + 1, j + 1) && Splits(s[j + 1..], ws[1..]);
      }
    } else {
      var n := RunLength(s);
      WordsSplit(s[n..]);
      assert n > 0 && SplitsAt(s, s[..n], 0, n);
      var ws := Words(s);
      assert ws[0] == s[..n] && ws[1..] == Words(s[n..]);
    }
  }

  lemma OneLater(s: string, w: string, i: int, j: int)
    requires s != "" && !LetterOrDigit(s[0]) && SplitsAt(s[1..], w, i, j)
    ensures SplitsAt(s, w, i + 1, j + 1)
  {
    var t := s[1..];
    assert s[i + 1..j + 1] == t[i..j];
    forall k | 0 <= k < i + 1 ensures !LetterOrDigit(s[k]) { if k > 0 { assert s[k] == t[k - 1]; } }
    forall k | i + 1 <= k < j + 1 ensures LetterOrDigit(s[k]) { assert s[k] == t[k - 1]; }
    if j + 1 < |s| { assert s[j + 1] == t[j]; }
  }

  /** The words with one hyphen between each two. */
  ghost predicate Hyphenated(s: string, ws: seq<string>) {
    match |ws|
    case 0 => s == ""
    case 1 => s == ws[0]
    case _ => |ws[0]| < |s| && s[..|ws[0]|] == ws[0] && s[|ws[0]|] == '-' && Hyphenated(s[|ws[0]| + 1..], ws[1..])
  }

  lemma {:induction false} JoinHyphenates(ws: seq<string>)
    ensures Hyphenated(Join(ws), ws)
  {
    if |ws| > 1 {
      JoinHyphenates(ws[1..]);
      assert Join(ws)[|ws[0]| + 1..] == Join(ws[1..]);
    }
  }

  /** The slug is the maximal runs of letters and digits of the trimmed, lowered name, with one hyphen
      between each two. */
  lemma SlugMeans(name: string)
    ensures exists ws :: Splits(Lower(TrimSpace(name)), ws) && Hyphenated(Slug(name), ws)
  {
    var ws := Words(Lower(TrimSpace(name)));
    WordsSplit(Lower(TrimSpace(name)));
    JoinHyphenates(ws);
    assert Splits(Lower(TrimSpace(name)), ws) && Hyphenated(Slug(name), ws);
  }

  /** Never a leading, trailing or doubled hyphen, nothing outside [a-z0-9-]. */
  lemma SlugShape(name: string)
    ensures var s := Slug(name);
            && (s != "" ==> Alnum(s[0]) && Alnum(s[|s| - 1]))
            && (forall i | 0 <= i < |s| :: Alnum(s[i]) || s[i] == '-')
            && (forall i | 0 <= i < |s| - 1 :: s[i] == '-' ==> s[i + 1] != '-')
  {
    WordsAreRuns(Lower(TrimSpace(name)));
    JoinShape(Words(Lower(TrimSpace(name))));
  }

  lemma {:induction false} RunLengthOf(w: string, rest: string)
    requires forall j | 0 <= j < |w| :: Alnum(w[j])
    requires rest == "" || !Alnum(rest[0])
    ensures RunLength(w + rest) == |w|
  {
    if w == "" {
      assert w + rest == rest;
    } else {
      assert (w + rest)[1..] == w[1..] + rest;
      RunLengthOf(w[1..], rest);
    }
  }

  lemma FirstWord(w: string, rest: string)
    requires w != "" && forall j | 0 <= j < |w| :: Alnum(w[j])
    requires rest == "" || !Alnum(rest[0])
    ensures Words(w + rest) == [w] + Words(rest)
  {
    RunLengthOf(w, rest);
    var s := w + rest;
    assert s[0] == w[0] && s[..|w|] == w && s[|w|..] == rest;
  }

  lemma {:induction false} WordsOfJoin(ws: seq<string>)
    requires AllWords(ws)
    ensures Words(Join(ws)) == ws
  {
    if |ws| == 1 {
      FirstWord(ws[0], "");
      assert ws[0] + "" == ws[0];
    } else if |ws| > 1 {
      var rest := "-" + Join(ws[1..]);
      FirstWord(ws[0], rest);
      assert ws[0] + rest == Join(ws);
      assert rest[1..] == Join(ws[1..]);
      assert Words(rest) == Words(rest[1..]);
      WordsOfJoin(ws[1..]);
      assert ws == [ws[0]] + ws[1..];
    }
  }

  lemma SlugIdempotent(name: string)
    ensures Slug(Slug(name)) == Slug(name)
  {
    var ws := Words(Lower(TrimSpace(name)));
    var s := Slug(name);
    WordsAreRuns(Lower(TrimSpace(name)));
    JoinShape(ws);
    assert TrimSpace(s) == s;
    assert Lower(s) == s;
    WordsOfJoin(ws);
  }

  /** A name has an empty slug exactly when no character of it lowers into [a-z0-9]. */
  lemma {:induction false} SlugEmptyIff(name: string)
    ensures Slug(name) == "" <==> forall c | c in TrimSpace(name) :: !Alnum(LowerRune(c))
  {
    var t := TrimSpace(name);
    WordsAreRuns(Lower(t));
    JoinShape(Words(Lower(t)));
    WordsEmptyIff(Lower(t));
    assert (exists i | 0 <= i < |t| :: Alnum(Lower(t)[i])) <==> (exists c | c in t :: Alnum(LowerRune(c))) by {
      if c :| c in t && Alnum(LowerRune(c)) {
        var i :| 0 <= i < |t| && t[i] == c;
        assert Alnum(Lower(t)[i]);
      }
    }
  }

  lemma {:induction false} WordsEmptyIff(s: string)
    ensures Words(s) == [] <==> forall i | 0 <= i < |s| :: !Alnum(s[i])
    decreases |s|
  {
    if s != "" && !Alnum(s[0]) {
      WordsEmptyIff(s[1..]);
      assert forall i | 1 <= i < |s| :: s[i] == s[1..][i - 1];
    }
  }
}
