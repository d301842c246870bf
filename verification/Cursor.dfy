/** The change-feed cursor (internal/server/handlers_sync.go) and the file it is kept in
    (internal/syncer/syncer.go).  A cursor is a wall-clock reading in nanoseconds and a row id. */
module Cursor {
  import opened Outcomes
  import opened Text
  import Keyset

  datatype Position = Position(nanos: int, id: int)

  const BOOTSTRAP := Position(0, 0)

  predicate Valid(p: Position) { IsInt64(p.nanos) && IsInt64(p.id) }

  function Encode(p: Position): string {
    FormatInt(p.nanos) + "." + FormatInt(p.id)
  }

  function Decode(s: string): (p: Position)
    ensures Valid(p)
  {
    if s == "" then BOOTSTRAP
    else
      var dot := LastIndex(s, '.');
      if dot < 0 then BOOTSTRAP
      else match (ParseInt64(s[..dot]), ParseInt64(s[dot + 1..]))
        case (Some(nanos), Some(id)) => Position(nanos, id)
        case _ => BOOTSTRAP
  }

  lemma DecodeOfEncode(p: Position)
    requires Valid(p)
    ensures Decode(Encode(p)) == p
  {
    var a, b := FormatInt(p.nanos), FormatInt(p.id);
    LastIndexOfOnly(a, '.', b);
    assert Encode(p) == a + ['.'] + b;
    assert Encode(p)[..|a|] == a && Encode(p)[|a| + 1..] == b;
    ParseOfFormat(p.nanos);
    ParseOfFormat(p.id);
  }

  /** The text is a cursor: two numerals of 64-bit integers with a dot between them. */
  ghost predicate Denotes(s: string, p: Position) {
    Valid(p) && exists a, b :: s == a + "." + b && Spells(a, p.nanos) && Spells(b, p.id) && '.' !in b
  }

  /** A text that is a cursor decodes to its position, and any other to the beginning. */
  lemma DecodeMeans(s: string)
    ensures forall p | Denotes(s, p) :: Decode(s) == p
    ensures (forall p :: !Denotes(s, p)) ==> Decode(s) == Position(0, 0)
  {
    hide Decode, Denotes;
    forall p | Denotes(s, p) ensures Decode(s) == p { DecodeOfDenoted(s, p); }
    DecodeOfOther(s);
  }

  lemma DecodeOfDenoted(s: string, p: Position)
    requires Denotes(s, p)
    ensures Decode(s) == p
  {
    hide ParseInt64, Spells, LastIndex;
    var a, b :| s == a + "." + b && Spells(a, p.nanos) && Spells(b, p.id) && '.' !in b;
    LastIndexOfOnly(a, '.', b);
    assert s == a + ['.'] + b && s[..|a|] == a && s[|a| + 1..] == b;
    ParseMeans(a, p.nanos);
    ParseMeans(b, p.id);
  }

  lemma DecodeOfOther(s: string)
    ensures Decode(s) == Position(0, 0) || Denotes(s, Decode(s))
  {
    hide ParseInt64, Spells, LastIndex;
    var dot := LastIndex(s, '.');
    if dot >= 0 && ParseInt64(s[..dot]).Some? && ParseInt64(s[dot + 1..]).Some? {
      var p := Position(ParseInt64(s[..dot]).value, ParseInt64(s[dot + 1..]).value);
      ParseMeans(s[..dot], p.nanos);
      ParseMeans(s[dot + 1..], p.id);
      LastIndexIsLast(s, '.');
      assert s == s[..dot] + "." + s[dot + 1..];
      assert Denotes(s, p);
    }
  }

  /** What the server answers when a page is empty: the request's cursor, re-rendered. */
  function Canonical(s: string): string { Encode(Decode(s)) }

  /** Re-rendering settles after one round, for every string a client may hold. */
  lemma CanonicalSettles(s: string)
    ensures Decode(Canonical(s)) == Decode(s)
    ensures Canonical(Canonical(s)) == Canonical(s)
    ensures Canonical(s) != ""
  {
    DecodeOfEncode(Decode(s));
  }

  /** Rows carry microseconds; the driver rounds the cursor's nanoseconds down to them. */
  function KeyOf(p: Position): Keyset.Key { [p.nanos / 1000, p.id] }

  /** The cursor file: what saveCursor writes and loadCursor reads. */
  function Saved(cursor: string): string { cursor + "\n" }

  function Loaded(file: Option<string>): string {
    match file
    case None => ""
    case Some(text) => TrimSpace(text)
  }

  /** A cursor the server rendered survives the file. */
  lemma LoadOfSave(p: Position)
    ensures Loaded(Some(Saved(Encode(p)))) == Encode(p)
  {
    var s := Encode(p);
    assert s[0] == FormatInt(p.nanos)[0];
    assert s[|s| - 1] == FormatInt(p.id)[|FormatInt(p.id)| - 1];
    TrimSpaceOfSolid(s);
  }
}
