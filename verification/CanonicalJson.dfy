/** The canonical form of a JSON value: object keys sorted at every level. */
module CanonicalJson {
  import opened SortedSets

  datatype Json = Null | Bool(b: bool) | Num(n: real) | Str(s: string) | Arr(items: seq<Json>) | Obj(entries: seq<Entry>)

  datatype Entry = Entry(key: string, value: Json)

  function Keys(entries: seq<Entry>): (r: seq<string>)
    ensures |r| == |entries| && forall i | 0 <= i < |entries| :: r[i] == entries[i].key
  {
    seq(|entries|, i requires 0 <= i < |entries| => entries[i].key)
  }

  // The keys of an object differ, at every level.
  predicate Proper(j: Json) {
    match j
    case Arr(items) => forall i | 0 <= i < |items| :: Proper(items[i])
    case Obj(entries) =>
      && (forall i, k | 0 <= i < k < |entries| :: entries[i].key != entries[k].key)
      && (forall i | 0 <= i < |entries| :: Proper(entries[i].value))
    case _ => true
  }

  // The place of a key.
  function Find(entries: seq<Entry>, key: string): (i: nat)
    requires key in Keys(entries)
    ensures i < |entries| && entries[i].key == key
  {
    if entries[0].key == key then 0
    else
      assert forall k | 1 <= k < |entries| :: Keys(entries[1..])[k - 1] == Keys(entries)[k];
      1 + Find(entries[1..], key)
  }

  function CanonicalValue(j: Json): Json {
    match j
    case Arr(items) => Arr(seq(|items|, i requires 0 <= i < |items| => CanonicalValue(items[i])))
    case Obj(entries) =>
      var sorted := SortedSet(Keys(entries));
      Obj(seq(|sorted|, i requires 0 <= i < |sorted| =>
        assert sorted[i] in sorted;
        Entry(sorted[i], CanonicalValue(entries[Find(entries, sorted[i])].value))))
    case _ => j
  }

  // Equal up to the order of keys.
  predicate Same(a: Json, b: Json) {
    match (a, b)
    case (Arr(x), Arr(y)) => |x| == |y| && forall i | 0 <= i < |x| :: Same(x[i], y[i])
    case (Obj(x), Obj(y)) =>
      && (forall i | 0 <= i < |x| :: x[i].key in Keys(y) && Same(x[i].value, y[Find(y, x[i].key)].value))
      && (forall i | 0 <= i < |y| :: y[i].key in Keys(x))
    case _ => a == b
  }

  lemma SameKeys(x: seq<Entry>, y: seq<Entry>)
    requires SortedSet(Keys(x)) == SortedSet(Keys(y))
    ensures SameElements(Keys(x), Keys(y))
  {
    var s := SortedSet(Keys(x));
    assert forall k :: k in Keys(x) <==> k in s;
  }

  lemma SortedSameKeys(x: seq<Entry>, y: seq<Entry>)
    requires SameElements(Keys(x), Keys(y))
    ensures SortedSet(Keys(x)) == SortedSet(Keys(y))
  {
    AscendingUnique(SortedSet(Keys(x)), SortedSet(Keys(y)));
  }

  // Distinct keys have one place.
  lemma FindIsUnique(entries: seq<Entry>, i: nat)
    requires i < |entries| && forall k, l | 0 <= k < l < |entries| :: entries[k].key != entries[l].key
    ensures entries[i].key in Keys(entries) && Find(entries, entries[i].key) == i
  {
    assert Keys(entries)[i] == entries[i].key;
  }

  /** The canonical form forgets the order of keys and nothing else. */
  lemma {:induction false} CanonicalIffSame(a: Json, b: Json)
    requires Proper(a) && Proper(b)
    ensures CanonicalValue(a) == CanonicalValue(b) <==> Same(a, b)
    decreases a
  {
    match (a, b)
    case (Arr(x), Arr(y)) =>
      if |x| == |y| {
        forall i | 0 <= i < |x| ensures CanonicalValue(x[i]) == CanonicalValue(y[i]) <==> Same(x[i], y[i]) {
          CanonicalIffSame(x[i], y[i]);
        }
      }
      ArraysAgree(x, y);
    case (Obj(x), Obj(y)) =>
      forall i | 0 <= i < |x| && x[i].key in Keys(y)
        ensures CanonicalValue(x[i].value) == CanonicalValue(y[Find(y, x[i].key)].value) <==> Same(x[i].value, y[Find(y, x[i].key)].value)
      {
        CanonicalIffSame(x[i].value, y[Find(y, x[i].key)].value);
      }
      ObjectsAgree(x, y);
    case _ =>
  }

  lemma ArraysAgree(x: seq<Json>, y: seq<Json>)
    ensures CanonicalValue(Arr(x)) == CanonicalValue(Arr(y)) <==>
      |x| == |y| && forall i | 0 <= i < |x| :: CanonicalValue(x[i]) == CanonicalValue(y[i])
  {
    var cx, cy := CanonicalValue(Arr(x)).items, CanonicalValue(Arr(y)).items;
    if cx == cy {
      forall i | 0 <= i < |x| ensures CanonicalValue(x[i]) == CanonicalValue(y[i]) { assert cx[i] == cy[i]; }
    }
  }

  // The entries of the canonical object.
  function CanonicalEntries(x: seq<Entry>): seq<Entry> { CanonicalValue(Obj(x)).entries }

  lemma CanonicalEntry(x: seq<Entry>)
    ensures CanonicalValue(Obj(x)) == Obj(CanonicalEntries(x))
    ensures |CanonicalEntries(x)| == |SortedSet(Keys(x))|
    ensures forall k | 0 <= k < |SortedSet(Keys(x))| ::
      && SortedSet(Keys(x))[k] in Keys(x)
      && CanonicalEntries(x)[k] == Entry(SortedSet(Keys(x))[k], CanonicalValue(x[Find(x, SortedSet(Keys(x))[k])].value))
  {
    var sorted := SortedSet(Keys(x));
    assert forall k | 0 <= k < |sorted| :: sorted[k] in sorted;
  }

  predicate EntriesAgree(x: seq<Entry>, y: seq<Entry>) {
    && (forall i | 0 <= i < |x| :: x[i].key in Keys(y) && CanonicalValue(x[i].value) == CanonicalValue(y[Find(y, x[i].key)].value))
    && (forall i | 0 <= i < |y| :: y[i].key in Keys(x))
  }

  lemma ObjectsAgree(x: seq<Entry>, y: seq<Entry>)
    requires forall i, k | 0 <= i < k < |x| :: x[i].key != x[k].key
    ensures CanonicalValue(Obj(x)) == CanonicalValue(Obj(y)) <==> EntriesAgree(x, y)
  {
    CanonicalEntry(x);
    CanonicalEntry(y);
    if CanonicalEntries(x) == CanonicalEntries(y) { AgreeIfEqual(x, y); }
    if EntriesAgree(x, y) { EqualIfAgree(x, y); }
  }

  lemma AgreeIfEqual(x: seq<Entry>, y: seq<Entry>)
    requires forall i, k | 0 <= i < k < |x| :: x[i].key != x[k].key
    requires CanonicalEntries(x) == CanonicalEntries(y)
    ensures EntriesAgree(x, y)
  {
    CanonicalEntry(x);
    CanonicalEntry(y);
    var sx, sy := SortedSet(Keys(x)), SortedSet(Keys(y));
    hide CanonicalValue, CanonicalEntries;
    forall k | 0 <= k < |sx| ensures sx[k] == sy[k] { assert CanonicalEntries(x)[k] == CanonicalEntries(y)[k]; }
    assert sx == sy;
    SameKeys(x, y);
    forall i | 0 <= i < |x|
      ensures x[i].key in Keys(y) && CanonicalValue(x[i].value) == CanonicalValue(y[Find(y, x[i].key)].value)
    {
      FindIsUnique(x, i);
      assert x[i].key in sx;
      var k :| 0 <= k < |sx| && sx[k] == x[i].key;
      assert CanonicalEntries(x)[k] == CanonicalEntries(y)[k];
    }
    forall i | 0 <= i < |y| ensures y[i].key in Keys(x) { assert Keys(y)[i] == y[i].key; }
  }

  lemma EqualIfAgree(x: seq<Entry>, y: seq<Entry>)
    requires EntriesAgree(x, y)
    ensures CanonicalEntries(x) == CanonicalEntries(y)
  {
    CanonicalEntry(x);
    CanonicalEntry(y);
    hide CanonicalValue, CanonicalEntries;
    SortedSameKeys(x, y);
    var s := SortedSet(Keys(x));
    forall k | 0 <= k < |s| ensures CanonicalEntries(x)[k] == CanonicalEntries(y)[k] {
      var i := Find(x, s[k]);
      assert x[i].key == s[k];
    }
  }
}
