/** Keyset pagination: `WHERE key > $from ORDER BY key ASC LIMIT $n` over a table indexed by a
    unique key.  Keys are integer sequences compared lexicographically, which covers the composite
    (updated_at, id) cursor of the change feed, the id cursor of the listing and the ULID cursor of
    the op-log export. */
module Keyset {

  type Key = seq<int>

  /** Lexicographic order; a proper prefix comes first. */
  predicate Less(a: Key, b: Key) {
    |b| != 0 && (|a| == 0 || a[0] < b[0] || (a[0] == b[0] && Less(a[1..], b[1..])))
  }

  lemma {:induction false} LessIrreflexive(a: Key)
    ensures !Less(a, a)
  {
    if |a| != 0 { LessIrreflexive(a[1..]); }
  }

  lemma {:induction false} LessTransitive(a: Key, b: Key, c: Key)
    requires Less(a, b) && Less(b, c)
    ensures Less(a, c)
  {
    if |a| != 0 && a[0] == b[0] && b[0] == c[0] { LessTransitive(a[1..], b[1..], c[1..]); }
  }

  lemma {:induction false} LessTotal(a: Key, b: Key)
    ensures Less(a, b) || a == b || Less(b, a)
  {
    if |a| != 0 && |b| != 0 && a[0] == b[0] {
      LessTotal(a[1..], b[1..]);
      if a[1..] == b[1..] {
        assert a == [a[0]] + a[1..] && b == [b[0]] + b[1..];
      }
    }
  }

  /** The keys a cursor has not passed yet. */
  function After(keys: set<Key>, from: Key): set<Key> {
    set k | k in keys && Less(from, k)
  }

  predicate IsLeast(k: Key, keys: set<Key>) {
    k in keys && forall j | j in keys :: j == k || Less(k, j)
  }

  lemma {:induction false} LeastExists(keys: set<Key>)
    requires keys != {}
    ensures exists k :: IsLeast(k, keys)
    decreases |keys|
  {
    var x :| x in keys;
    var rest := keys - {x};
    if rest == {} {
      assert keys == {x};
      assert IsLeast(x, keys);
    } else {
      LeastExists(rest);
      var m :| IsLeast(m, rest);
      LessTotal(x, m);
      var k := if Less(x, m) then x else m;
      forall j | j in keys ensures j == k || Less(k, j) {
        if j in rest && Less(x, m) && j != m { LessTransitive(x, m, j); }
      }
      assert IsLeast(k, keys);
    }
  }

  lemma NeverBothLess(a: Key, b: Key)
    ensures !(Less(a, b) && Less(b, a))
  {
    if Less(a, b) && Less(b, a) {
      LessTransitive(a, b, a);
      LessIrreflexive(a);
    }
  }

  lemma LeastIsUnique(keys: set<Key>)
    ensures forall a, b | IsLeast(a, keys) && IsLeast(b, keys) :: a == b
  {
    forall a, b | IsLeast(a, keys) && IsLeast(b, keys) ensures a == b { NeverBothLess(a, b); }
  }

  /** The first key in index order. */
  function Least(keys: set<Key>): (k: Key)
    requires keys != {}
    ensures IsLeast(k, keys)
  {
    LeastExists(keys);
    LeastIsUnique(keys);
    var k :| k in keys && IsLeast(k, keys);
    k
  }

  lemma AfterShrinks(keys: set<Key>, from: Key, k: Key)
    requires k in After(keys, from)
    ensures After(keys, k) < After(keys, from)
    ensures |After(keys, k)| < |After(keys, from)|
  {
    forall j | j in After(keys, k) ensures j in After(keys, from) { LessTransitive(from, k, j); }
    LessIrreflexive(k);
    SubsetSize(After(keys, k), After(keys, from));
  }

  lemma {:induction false} SubsetSize(a: set<Key>, b: set<Key>)
    requires a < b
    ensures |a| < |b|
  {
    var extra := b - a;
    assert b == a + extra;
    assert |b| == |a| + |extra|;
  }

  /** Every row the cursor has not passed, in index order: the query without its LIMIT. */
  function ScanAll(keys: set<Key>, from: Key): (ks: seq<Key>)
    ensures forall i | 0 <= i < |ks| :: ks[i] in keys
    decreases |After(keys, from)|
  {
    if After(keys, from) == {} then []
    else
      var k := Least(After(keys, from));
      AfterShrinks(keys, from, k);
      [k] + ScanAll(keys, k)
  }

  /** The query as issued: at most `n` rows. */
  function Scan(keys: set<Key>, from: Key, n: nat): (ks: seq<Key>)
    ensures forall i | 0 <= i < |ks| :: ks[i] in keys
    decreases n
  {
    if n == 0 || After(keys, from) == {} then []
    else
      var k := Least(After(keys, from));
      [k] + Scan(keys, k, n - 1)
  }

  ghost predicate Ascending(ks: seq<Key>) {
    forall i, j | 0 <= i < j < |ks| :: Less(ks[i], ks[j])
  }

  /** ScanAll is the sorted enumeration of exactly the keys after the cursor. */
  lemma {:induction false} ScanAllIsSortedRest(keys: set<Key>, from: Key)
    ensures Ascending(ScanAll(keys, from))
    ensures forall k :: k in ScanAll(keys, from) <==> k in keys && Less(from, k)
    decreases |After(keys, from)|
  {
    if After(keys, from) == {} {
      forall k ensures !(k in keys && Less(from, k)) {
        assert k !in After(keys, from);
      }
    } else {
      var m := Least(After(keys, from));
      AfterShrinks(keys, from, m);
      ScanAllIsSortedRest(keys, m);
      forall k | k in keys && Less(from, k) ensures k == m || k in ScanAll(keys, m) {
        assert k in After(keys, from);
      }
      forall k | k in ScanAll(keys, m) ensures k in keys && Less(from, k) { LessTransitive(from, m, k); }
    }
  }

  /** Sorting leaves no freedom: any ascending sequence with those elements is the scan. */
  lemma {:induction false} SortedRestIsUnique(keys: set<Key>, from: Key, ks: seq<Key>)
    requires Ascending(ks)
    requires forall k :: k in ks <==> k in keys && Less(from, k)
    ensures ks == ScanAll(keys, from)
    decreases |After(keys, from)|
  {
    if ks == [] {
      assert forall k | k in After(keys, from) :: k in ks;
      assert After(keys, from) == {};
    } else {
      assert ks[0] in After(keys, from);
      var m := Least(After(keys, from));
      assert m in ks;
      var i :| 0 <= i < |ks| && ks[i] == m;
      if i != 0 {
        assert ks[0] in After(keys, from);
        NeverBothLess(ks[0], m);
        LessIrreflexive(m);
      }
      AfterShrinks(keys, from, m);
      forall k | k in keys && Less(m, k) ensures k in ks[1..] {
        LessTransitive(from, m, k);
        LessIrreflexive(m);
        assert k in ks && k != ks[0];
      }
      SortedRestIsUnique(keys, m, ks[1..]);
      assert ks == [ks[0]] + ks[1..];
    }
  }

  /** A LIMITed page is the head of the full scan. */
  lemma {:induction false} ScanIsPrefix(keys: set<Key>, from: Key, n: nat)
    ensures |Scan(keys, from, n)| == if |ScanAll(keys, from)| < n then |ScanAll(keys, from)| else n
    ensures Scan(keys, from, n) <= ScanAll(keys, from)
    decreases n
  {
    if n != 0 && After(keys, from) != {} {
      ScanIsPrefix(keys, Least(After(keys, from)), n - 1);
    }
  }

  /** What a page is, however it is found: rows after the cursor in order, at most `n`, and a row is only
      left out behind a full page of smaller ones. */
  lemma PageMeans(keys: set<Key>, from: Key, n: nat)
    ensures var page := Scan(keys, from, n);
            && |page| <= n && Ascending(page)
            && (forall k | k in page :: k in keys && Less(from, k))
            && (forall k | k in keys && Less(from, k) && k !in page :: |page| == n && forall j | j in page :: Less(j, k))
  {
    hide Less;
    var page, all := Scan(keys, from, n), ScanAll(keys, from);
    ScanIsPrefix(keys, from, n);
    ScanAllIsSortedRest(keys, from);
    forall k | k in page ensures k in all { var i :| 0 <= i < |page| && page[i] == k; assert all[i] == k; }
    forall k | k in keys && Less(from, k) && k !in page ensures |page| == n && forall j | j in page :: Less(j, k) {
      assert k in all;
      var i :| 0 <= i < |all| && all[i] == k;
      assert i >= |page|;
      forall j | j in page ensures Less(j, k) { var m :| 0 <= m < |page| && page[m] == j; assert all[m] == j; }
    }
  }

  /** Resuming from the last key of a page continues the scan where the page stopped. */
  lemma {:induction false} ScanResumes(keys: set<Key>, from: Key, n: nat)
    requires Scan(keys, from, n) != []
    ensures var page := Scan(keys, from, n);
            && ScanAll(keys, from) == page + ScanAll(keys, page[|page| - 1])
            && page[|page| - 1] in After(keys, from)
    decreases n
  {
    var m := Least(After(keys, from));
    var rest := Scan(keys, m, n - 1);
    if rest == [] {
      assert Scan(keys, from, n) == [m];
    } else {
      ScanResumes(keys, m, n - 1);
      var last := rest[|rest| - 1];
      var tail := ScanAll(keys, last);
      assert Scan(keys, from, n) == [m] + rest;
      assert ScanAll(keys, from) == [m] + ScanAll(keys, m);
      assert [m] + (rest + tail) == ([m] + rest) + tail;
      LessTransitive(from, m, last);
    }
  }

  function Flatten<T>(ss: seq<seq<T>>): seq<T> {
    if ss == [] then [] else ss[0] + Flatten(ss[1..])
  }

  // ---------------------------------------------------------------- tables

  type Table<R> = map<Key, R>

  function Rows<R>(table: Table<R>, ks: seq<Key>): seq<R>
    requires forall i | 0 <= i < |ks| :: ks[i] in table
  {
    seq(|ks|, i requires 0 <= i < |ks| => table[ks[i]])
  }

  /** The pages of rows read by asking again from the last key, until a page is empty. */
  function RowPages<R>(table: Table<R>, from: Key, n: nat): (pages: seq<seq<R>>)
    decreases |After(table.Keys, from)|
  {
    var ks := Scan(table.Keys, from, n);
    if ks == [] then []
    else
      ScanResumes(table.Keys, from, n);
      AfterShrinks(table.Keys, from, ks[|ks| - 1]);
      [Rows(table, ks)] + RowPages(table, ks[|ks| - 1], n)
  }

  lemma RowsConcat<R>(table: Table<R>, a: seq<Key>, b: seq<Key>)
    requires forall i | 0 <= i < |a| :: a[i] in table
    requires forall i | 0 <= i < |b| :: b[i] in table
    ensures Rows(table, a + b) == Rows(table, a) + Rows(table, b)
  {
  }

  /** Pages concatenate to the sorted rows after the first cursor: no gap, no repeat, for every page size. */
  lemma {:induction false} RowPagesAreTheScan<R>(table: Table<R>, from: Key, n: nat)
    requires n > 0
    ensures Flatten(RowPages(table, from, n)) == Rows(table, ScanAll(table.Keys, from))
    decreases |After(table.Keys, from)|
  {
    hide Less;
    var ks := Scan(table.Keys, from, n);
    if ks == [] {
      ScanIsPrefix(table.Keys, from, n);
    } else {
      var last := ks[|ks| - 1];
      ScanResumes(table.Keys, from, n);
      AfterShrinks(table.Keys, from, last);
      RowPagesAreTheScan(table, last, n);
      RowsConcat(table, ks, ScanAll(table.Keys, last));
      var pages := RowPages(table, from, n);
      assert pages[0] == Rows(table, ks) && pages[1..] == RowPages(table, last, n);
    }
  }
}
