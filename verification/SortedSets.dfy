/** `[...new Set(items)].sort()`: the ascending list of the distinct items. */
module SortedSets {
  import opened Texts

  predicate SameElements(a: seq<string>, b: seq<string>) {
    (forall x | x in a :: x in b) && (forall x | x in b :: x in a)
  }

  predicate Ascending(s: seq<string>) {
    forall i, j | 0 <= i < j < |s| :: StrLess(s[i], s[j])
  }

  function Insert(x: string, s: seq<string>): (r: seq<string>)
    requires Ascending(s)
    ensures Ascending(r) && SameElements(r, [x] + s)
  {
    if s == [] then [x]
    else if x == s[0] then s
    else if StrLess(x, s[0]) then
      InsertFirst(x, s);
      [x] + s
    else
      InsertLater(x, s, Insert(x, s[1..]));
      [s[0]] + Insert(x, s[1..])
  }

  lemma InsertFirst(x: string, s: seq<string>)
    requires s != [] && Ascending(s) && StrLess(x, s[0])
    ensures Ascending([x] + s)
  {
    forall j | 0 <= j < |s| ensures StrLess(x, s[j]) {
      if j > 0 { StrLessTransitive(x, s[0], s[j]); }
    }
  }

  lemma InsertLater(x: string, s: seq<string>, rest: seq<string>)
    requires s != [] && Ascending(s) && x != s[0] && !StrLess(x, s[0])
    requires Ascending(rest) && SameElements(rest, [x] + s[1..])
    ensures Ascending([s[0]] + rest) && SameElements([s[0]] + rest, [x] + s)
  {
    StrLessTotal(x, s[0]);
    assert s == [s[0]] + s[1..];
    forall j | 0 <= j < |rest| ensures StrLess(s[0], rest[j]) {
      assert rest[j] in [x] + s[1..];
    }
  }

  function SortedSet(items: seq<string>): (r: seq<string>)
    ensures Ascending(r) && SameElements(r, items)
  {
    if items == [] then [] else
      assert items == [items[0]] + items[1..];
      Insert(items[0], SortedSet(items[1..]))
  }

  /** An ascending list is determined by its elements. */
  lemma {:induction false} AscendingUnique(a: seq<string>, b: seq<string>)
    requires Ascending(a) && Ascending(b) && SameElements(a, b)
    ensures a == b
  {
    assert (a != [] ==> a[0] in a) && (b != [] ==> b[0] in b);
    if a != [] {
      FirstIsLeast(a, b);
      FirstIsLeast(b, a);
      StrLessTotal(a[0], b[0]);
      RestElements(a, b);
      RestElements(b, a);
      AscendingUnique(a[1..], b[1..]);
      assert a == [a[0]] + a[1..] && b == [b[0]] + b[1..];
    }
  }

  lemma FirstIsLeast(a: seq<string>, b: seq<string>)
    requires a != [] && b != [] && Ascending(a) && SameElements(a, b)
    ensures a[0] == b[0] || StrLess(a[0], b[0])
  {
    assert b[0] in a;
  }

  lemma RestElements(a: seq<string>, b: seq<string>)
    requires a != [] && b != [] && a[0] == b[0] && Ascending(a) && SameElements(a, b)
    ensures forall x | x in a[1..] :: x in b[1..]
  {
    forall x | x in a[1..] ensures x in b[1..] {
      var i :| 0 <= i < |a[1..]| && a[1..][i] == x;
      StrLessTotal(a[0], a[i + 1]);
      assert a[i + 1] in b && b == [b[0]] + b[1..];
    }
  }
}
