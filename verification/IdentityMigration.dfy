/** The migration that merges properties with the same (source, external_id). */
module IdentityMigration {
  import opened Wrappers

  datatype Property = Property(
    documentId: string, source: Option<string>, externalId: Option<string>,
    photoUrls: seq<string>, photos: seq<string>, downloaded: bool)

  type Properties = map<nat, Property>

  // For each relation table the property_id of its rows.
  type Relations = map<string, seq<Option<nat>>>

  datatype Identity = Identity(source: Option<string>, externalId: Option<string>)

  function IdentityOf(p: Property): Identity { Identity(p.source, p.externalId) }

  // Present, not blank, and without blanks at the ends; SQLite's trim removes spaces only.
  predicate Clean(s: Option<string>) {
    s.Some? && s.value != "" && s.value[0] != ' ' && s.value[|s.value| - 1] != ' '
  }

  predicate InvalidIdentity(p: Property) { !Clean(p.source) || !Clean(p.externalId) }

  /** Which rows stop the migration: those whose source or external id is missing, empty, or has a space at an end. */
  lemma InvalidRowsAre(p: Property)
    ensures InvalidIdentity(p) <==>
      || p.source.None? || p.externalId.None? || p.source == Some("") || p.externalId == Some("")
      || (p.source.Some? && p.source.value != "" && (" " <= p.source.value || p.source.value[|p.source.value| - 1] == ' '))
      || (p.externalId.Some? && p.externalId.value != ""
          && (" " <= p.externalId.value || p.externalId.value[|p.externalId.value| - 1] == ' '))
  {
  }

  // ---------- Groups of equal identity ----------

  function IdsOf(ps: Properties, identity: Identity): set<nat> {
    set id | id in ps && IdentityOf(ps[id]) == identity
  }

  predicate IsLeast(x: nat, s: set<nat>) {
    x in s && forall y | y in s :: x <= y
  }

  lemma {:induction false} LeastExists(s: set<nat>) returns (least: nat)
    requires s != {}
    ensures IsLeast(least, s)
    decreases |s|
  {
    var x :| x in s;
    least := x;
    if s != {x} {
      var z := LeastExists(s - {x});
      least := if x <= z then x else z;
      forall y | y in s ensures least <= y { assert y == x || y in s - {x}; }
    }
  }

  function Least(s: set<nat>): (x: nat)
    requires s != {}
    ensures IsLeast(x, s)
  {
    assert exists x: nat :: IsLeast(x, s) by { var x := LeastExists(s); }
    var x: nat :| IsLeast(x, s);
    x
  }

  // ORDER BY id ASC
  function Sorted(s: set<nat>): seq<nat> {
    if s == {} then [] else [Least(s)] + Sorted(s - {Least(s)})
  }

  lemma SortedCons(s: set<nat>)
    requires s != {}
    ensures Sorted(s) == [Least(s)] + Sorted(s - {Least(s)}) && s == {Least(s)} + (s - {Least(s)})
    ensures |s - {Least(s)}| == |s| - 1
  {
  }

  lemma {:induction false} SortedElements(s: set<nat>)
    ensures |Sorted(s)| == |s|
    ensures forall x :: x in Sorted(s) <==> x in s
  {
    if s != {} {
      SortedCons(s);
      SortedElements(s - {Least(s)});
      hide Sorted, Least;
    }
  }

  predicate Increasing(r: seq<nat>) {
    forall i, j | 0 <= i < j < |r| :: r[i] < r[j]
  }

  lemma IncreasingCons(x: nat, rest: seq<nat>)
    requires Increasing(rest) && forall y | y in rest :: x < y
    ensures Increasing([x] + rest)
  {
    assert forall i | 0 <= i < |rest| :: rest[i] in rest;
  }

  lemma {:induction false} SortedFacts(s: set<nat>)
    ensures |Sorted(s)| == |s| && forall x :: x in Sorted(s) <==> x in s
    ensures Increasing(Sorted(s))
  {
    SortedElements(s);
    if s != {} {
      SortedCons(s);
      var least := Least(s);
      SortedFacts(s - {least});
      hide Sorted, Increasing;
      IncreasingCons(least, Sorted(s - {least}));
    }
  }

  // The row that remains of those with the same identity.
  function Survivor(ps: Properties, id: nat): nat
    requires id in ps
  {
    assert id in IdsOf(ps, IdentityOf(ps[id]));
    Least(IdsOf(ps, IdentityOf(ps[id])))
  }

  lemma SurvivorFacts(ps: Properties, id: nat)
    requires id in ps
    ensures var s := Survivor(ps, id); s in ps && s <= id && IdentityOf(ps[s]) == IdentityOf(ps[id]) && Survivor(ps, s) == s
    ensures forall other | other in ps && IdentityOf(ps[other]) == IdentityOf(ps[id]) :: Survivor(ps, other) == Survivor(ps, id)
  {
    assert id in IdsOf(ps, IdentityOf(ps[id]));
  }

  // ---------- Media lists ----------

  // [...new Set(values.filter(non-empty))]
  function UniqueValues(values: seq<string>): seq<string> {
    if values == [] then []
    else
      var before, last := UniqueValues(values[..|values| - 1]), values[|values| - 1];
      if last == "" || last in before then before else before + [last]
  }

  lemma {:induction false} UniqueValuesFacts(values: seq<string>)
    ensures forall v :: v in UniqueValues(values) <==> v in values && v != ""
    ensures forall i, j | 0 <= i < j < |UniqueValues(values)| :: UniqueValues(values)[i] != UniqueValues(values)[j]
  {
    if values != [] {
      UniqueValuesFacts(values[..|values| - 1]);
      assert values == values[..|values| - 1] + [values[|values| - 1]];
    }
  }

  // The public paths of the files copied from a duplicate's directory to its keeper's.
  type Copied = map<nat, map<string, string>>

  function LocalPrefix(p: Property): string { "/photos/" + p.documentId + "/" }

  // The local photos of a property are those in its directory.
  lemma LocalPhotosAre(p: Property, photo: string)
    ensures LocalPrefix(p) <= photo <==> exists rest :: photo == "/photos/" + p.documentId + "/" + rest
  {
    if LocalPrefix(p) <= photo {
      var rest := photo[|LocalPrefix(p)|..];
      assert photo == LocalPrefix(p) + rest;
    }
  }

  // The photos of a duplicate: copied files under their new path, other local files dropped.
  function Rewritten(photos: seq<string>, dup: Property, copied: map<string, string>): seq<string> {
    if photos == [] then []
    else
      var photo := photos[0];
      (if photo in copied then [copied[photo]]
       else if LocalPrefix(dup) <= photo then []
       else [photo]) + Rewritten(photos[1..], dup, copied)
  }

  datatype Media = Media(photoUrls: seq<string>, photos: seq<string>, downloaded: bool)

  function CopiedOf(copied: Copied, id: nat): map<string, string> { if id in copied then copied[id] else map[] }

  // What has been collected from the rows of a group.
  function Collected(ps: Properties, rows: seq<nat>, copied: Copied): Media
    requires rows != [] && forall id | id in rows :: id in ps
  {
    var last := rows[|rows| - 1];
    var p := ps[last];
    if |rows| == 1 then Media(p.photoUrls, p.photos, p.downloaded)
    else
      var before := Collected(ps, rows[..|rows| - 1], copied);
      Media(before.photoUrls + p.photoUrls, before.photos + Rewritten(p.photos, p, CopiedOf(copied, last)), before.downloaded || p.downloaded)
  }

  function MergedMedia(ps: Properties, rows: seq<nat>, copied: Copied): Media
    requires rows != [] && forall id | id in rows :: id in ps
  {
    var all := Collected(ps, rows, copied);
    Media(UniqueValues(all.photoUrls), UniqueValues(all.photos), all.downloaded)
  }

  // ---------- The whole migration as a function ----------

  function GroupOf(ps: Properties, id: nat): seq<nat>
    requires id in ps
  {
    Sorted(IdsOf(ps, IdentityOf(ps[id])))
  }

  lemma GroupFacts(ps: Properties, id: nat)
    requires id in ps
    ensures var rows := GroupOf(ps, id);
            && rows != [] && rows[0] == Survivor(ps, id) && id in rows
            && (forall x | x in rows :: x in ps && IdentityOf(ps[x]) == IdentityOf(ps[id]))
            && (forall x | x in ps && IdentityOf(ps[x]) == IdentityOf(ps[id]) :: x in rows)
  {
    var ids, rows := IdsOf(ps, IdentityOf(ps[id])), GroupOf(ps, id);
    SortedFacts(ids);
    assert id in ids && id in rows;
    assert rows[0] in ids && Survivor(ps, id) in rows;
  }

  // A keeper takes over the media of its group; a row that is alone keeps its own.
  function Keeper(ps: Properties, id: nat, copied: Copied): Property
    requires id in ps
  {
    GroupFacts(ps, id);
    var rows := GroupOf(ps, id);
    if |rows| == 1 then ps[id]
    else
      var media := MergedMedia(ps, rows, copied);
      ps[id].(photoUrls := media.photoUrls, photos := media.photos, downloaded := media.downloaded)
  }

  function Merged(ps: Properties, copied: Copied): Properties {
    map id | id in ps && Survivor(ps, id) == id :: Keeper(ps, id, copied)
  }

  // The reference of a relation row once the rows in gone have been merged away.
  function Redirected(r: Option<nat>, ps: Properties, gone: set<nat>): Option<nat> {
    if r.Some? && r.value in gone && r.value in ps then Some(Survivor(ps, r.value)) else r
  }

  function RedirectedRows(rows: seq<Option<nat>>, ps: Properties, gone: set<nat>): (r: seq<Option<nat>>)
    ensures |r| == |rows|
  {
    seq(|rows|, i requires 0 <= i < |rows| => Redirected(rows[i], ps, gone))
  }

  function RedirectedAll(relations: Relations, ps: Properties, gone: set<nat>): Relations {
    map t | t in relations :: RedirectedRows(relations[t], ps, gone)
  }

  predicate Orphaned(relations: Relations, ps: Properties) {
    exists t | t in relations :: exists r | r in relations[t] :: r.Some? && r.value !in ps
  }

  function MergedRelations(relations: Relations, ps: Properties): Relations {
    RedirectedAll(relations, ps, ps.Keys)
  }

  predicate Migratable(ps: Properties, relations: Relations) {
    (forall id | id in ps :: !InvalidIdentity(ps[id])) && !Orphaned(relations, ps)
  }

  // ---------- What the migration achieves ----------

  /** No two properties share an identity, and each one that remains is the first of its group. */
  lemma IdentitiesAreUnique(ps: Properties, copied: Copied)
    ensures forall a, b | a in Merged(ps, copied) && b in Merged(ps, copied) && a != b ::
      !(Merged(ps, copied)[a].source == Merged(ps, copied)[b].source && Merged(ps, copied)[a].externalId == Merged(ps, copied)[b].externalId)
    ensures forall id | id in ps :: exists keeper | keeper in Merged(ps, copied) ::
      keeper <= id && Merged(ps, copied)[keeper].source == ps[id].source && Merged(ps, copied)[keeper].externalId == ps[id].externalId
  {
    var m := Merged(ps, copied);
    hide Survivor, Keeper;
    forall id | id in m ensures IdentityOf(m[id]) == IdentityOf(ps[id]) { KeeperIdentity(ps, id, copied); }
    forall a, b | a in m && b in m && a != b ensures !(m[a].source == m[b].source && m[a].externalId == m[b].externalId) {
      assert IdentityOf(m[a]) != IdentityOf(m[b]) by { SurvivorFacts(ps, a); }
    }
    forall id | id in ps
      ensures exists keeper | keeper in m :: keeper <= id && m[keeper].source == ps[id].source && m[keeper].externalId == ps[id].externalId
    {
      SurvivorFacts(ps, id);
      assert Survivor(ps, id) in m;
    }
  }

  /** Relations keep their number and order; each row refers to a property with the identity it referred to before. */
  lemma RelationsAreKept(ps: Properties, relations: Relations, copied: Copied, t: string, k: nat)
    requires !Orphaned(relations, ps) && t in relations && k < |relations[t]|
    ensures var after := MergedRelations(relations, ps);
            && after.Keys == relations.Keys && |after[t]| == |relations[t]|
            && after[t][k].Some? == relations[t][k].Some?
            && (relations[t][k].Some? ==>
                  && relations[t][k].value in ps && after[t][k].value in Merged(ps, copied)
                  && IdentityOf(Merged(ps, copied)[after[t][k].value]) == IdentityOf(ps[relations[t][k].value]))
  {
    if relations[t][k].Some? {
      assert relations[t][k] in relations[t];
      SurvivorFacts(ps, relations[t][k].value);
    }
  }

  lemma {:induction false} CollectedUrls(ps: Properties, rows: seq<nat>, copied: Copied)
    requires rows != [] && forall id | id in rows :: id in ps
    ensures forall url :: url in Collected(ps, rows, copied).photoUrls <==> exists id | id in rows :: url in ps[id].photoUrls
  {
    var before, last := rows[..|rows| - 1], rows[|rows| - 1];
    assert rows == before + [last];
    if |rows| > 1 {
      CollectedUrls(ps, before, copied);
    } else {
      assert rows[0] == last;
    }
  }

  // Some row with the identity has the URL.
  predicate InGroup(ps: Properties, identity: Identity, url: string) {
    exists d | d in ps && IdentityOf(ps[d]) == identity :: url in ps[d].photoUrls
  }

  /** The keeper of a group has every URL of the group, each once. */
  lemma KeeperHasEveryUrlOnce(ps: Properties, id: nat, copied: Copied)
    requires id in ps && Survivor(ps, id) == id && |GroupOf(ps, id)| > 1
    ensures var urls := Merged(ps, copied)[id].photoUrls;
            && (forall i, j | 0 <= i < j < |urls| :: urls[i] != urls[j])
            && (forall url :: url in urls <==> url != "" && InGroup(ps, IdentityOf(ps[id]), url))
  {
    GroupFacts(ps, id);
    var rows := GroupOf(ps, id);
    CollectedUrls(ps, rows, copied);
    UniqueValuesFacts(Collected(ps, rows, copied).photoUrls);
    hide Collected, UniqueValues, GroupOf, IdsOf;
    forall url ensures (exists d | d in rows :: url in ps[d].photoUrls) <==> InGroup(ps, IdentityOf(ps[id]), url) {
      if InGroup(ps, IdentityOf(ps[id]), url) {
        var d :| d in ps && IdentityOf(ps[d]) == IdentityOf(ps[id]) && url in ps[d].photoUrls;
        assert d in rows;
      }
    }
  }

  // What a photo of a duplicate becomes: the new path of a copied file; a local file that was not copied is dropped.
  predicate Becomes(photo: string, dup: Property, copied: map<string, string>, v: string) {
    if photo in copied then v == copied[photo] else v == photo && !(LocalPrefix(dup) <= photo)
  }

  predicate FromDuplicate(ps: Properties, d: nat, copied: Copied, v: string)
    requires d in ps
  {
    exists photo | photo in ps[d].photos :: Becomes(photo, ps[d], CopiedOf(copied, d), v)
  }

  lemma {:induction false} RewrittenPhotos(photos: seq<string>, dup: Property, copied: map<string, string>)
    ensures forall v :: v in Rewritten(photos, dup, copied) <==> exists photo | photo in photos :: Becomes(photo, dup, copied, v)
  {
    if photos != [] {
      RewrittenPhotos(photos[1..], dup, copied);
      assert photos == [photos[0]] + photos[1..];
      forall v ensures v in Rewritten(photos, dup, copied) <==> exists photo | photo in photos :: Becomes(photo, dup, copied, v) {
        var first := if photos[0] in copied then [copied[photos[0]]] else if LocalPrefix(dup) <= photos[0] then [] else [photos[0]];
        assert Rewritten(photos, dup, copied) == first + Rewritten(photos[1..], dup, copied);
        assert v in first <==> Becomes(photos[0], dup, copied, v);
        assert photos[0] in photos;
        hide Becomes, Rewritten;
      }
    }
  }

  lemma {:induction false} CollectedPhotos(ps: Properties, rows: seq<nat>, copied: Copied, v: string)
    requires rows != [] && forall id | id in rows :: id in ps
    ensures v in Collected(ps, rows, copied).photos <==>
      v in ps[rows[0]].photos || exists k | 0 < k < |rows| :: FromDuplicate(ps, rows[k], copied, v)
  {
    var before, last := rows[..|rows| - 1], rows[|rows| - 1];
    assert rows == before + [last];
    if |rows| > 1 {
      CollectedPhotos(ps, before, copied, v);
      RewrittenPhotos(ps[last].photos, ps[last], CopiedOf(copied, last));
      assert Collected(ps, rows, copied).photos
          == Collected(ps, before, copied).photos + Rewritten(ps[last].photos, ps[last], CopiedOf(copied, last));
      assert v in Rewritten(ps[last].photos, ps[last], CopiedOf(copied, last)) <==> FromDuplicate(ps, last, copied, v);
      hide Collected, Rewritten, FromDuplicate;
      assert forall k | 0 < k < |before| :: rows[k] == before[k];
      if exists k | 0 < k < |rows| :: FromDuplicate(ps, rows[k], copied, v) {
        var k :| 0 < k < |rows| && FromDuplicate(ps, rows[k], copied, v);
        if k < |before| { assert FromDuplicate(ps, before[k], copied, v); }
      }
    }
  }

  /**
    The keeper of a group has, each once, its own photos and those of its duplicates: copied files under their new paths,
    photos that are not local to the duplicate as they are, and no local file that was not copied.
   */
  lemma KeeperHasEveryPhotoOnce(ps: Properties, id: nat, copied: Copied)
    requires id in ps && Survivor(ps, id) == id && |GroupOf(ps, id)| > 1
    ensures var photos := Merged(ps, copied)[id].photos;
            && (forall i, j | 0 <= i < j < |photos| :: photos[i] != photos[j])
            && (forall v :: v in photos <==> v != "" && (v in ps[id].photos || InDuplicates(ps, id, copied, v)))
  {
    GroupFacts(ps, id);
    SortedFacts(IdsOf(ps, IdentityOf(ps[id])));
    var rows := GroupOf(ps, id);
    UniqueValuesFacts(Collected(ps, rows, copied).photos);
    assert Merged(ps, copied)[id].photos == UniqueValues(Collected(ps, rows, copied).photos);
    assert forall k | 0 < k < |rows| :: rows[k] in rows && rows[k] != id;
    hide Collected, UniqueValues, GroupOf, IdsOf, Merged, Survivor, FromDuplicate, IdentityOf;
    forall v ensures (exists k | 0 < k < |rows| :: FromDuplicate(ps, rows[k], copied, v)) <==> InDuplicates(ps, id, copied, v) {
      if InDuplicates(ps, id, copied, v) {
        var d :| d in ps && d != id && IdentityOf(ps[d]) == IdentityOf(ps[id]) && FromDuplicate(ps, d, copied, v);
        var k :| 0 <= k < |rows| && rows[k] == d;
      }
    }
    forall v ensures v in Collected(ps, rows, copied).photos <==> v in ps[id].photos || InDuplicates(ps, id, copied, v) {
      CollectedPhotos(ps, rows, copied, v);
    }
  }

  predicate InDuplicates(ps: Properties, id: nat, copied: Copied, v: string)
    requires id in ps
  {
    exists d | d in ps && d != id && IdentityOf(ps[d]) == IdentityOf(ps[id]) :: FromDuplicate(ps, d, copied, v)
  }

  lemma AloneIsOneRow(ps: Properties, id: nat)
    requires id in ps && forall d | d in ps && d != id :: IdentityOf(ps[d]) != IdentityOf(ps[id])
    ensures |GroupOf(ps, id)| == 1 && Survivor(ps, id) == id
  {
    assert IdsOf(ps, IdentityOf(ps[id])) == {id};
    SortedFacts({id});
  }

  /** A second run finds nothing to do. */
  lemma SecondRunFindsNothing(ps: Properties, relations: Relations, copied: Copied, copied': Copied)
    requires Migratable(ps, relations)
    ensures Migratable(Merged(ps, copied), MergedRelations(relations, ps))
    ensures Merged(Merged(ps, copied), copied') == Merged(ps, copied)
    ensures MergedRelations(MergedRelations(relations, ps), Merged(ps, copied)) == MergedRelations(relations, ps)
    ensures forall id | id in Merged(ps, copied) :: |GroupOf(Merged(ps, copied), id)| == 1
  {
    var m, after := Merged(ps, copied), MergedRelations(relations, ps);
    hide Survivor, GroupOf, IdsOf, Keeper, RedirectedAll;
    IdentitiesAreUnique(ps, copied);
    forall id | id in m ensures |GroupOf(m, id)| == 1 && Survivor(m, id) == id { AloneIsOneRow(m, id); }
    MergedAlone(m, copied');
    RedirectedAlone(m, after);
    NoOrphansLeft(ps, relations, copied);
    forall id | id in m ensures !InvalidIdentity(m[id]) { KeeperIdentity(ps, id, copied); }
  }

  lemma NoOrphansLeft(ps: Properties, relations: Relations, copied: Copied)
    requires !Orphaned(relations, ps)
    ensures !Orphaned(MergedRelations(relations, ps), Merged(ps, copied))
  {
    var after := MergedRelations(relations, ps);
    forall t, r: Option<nat> | t in after && r in after[t] && r.Some? ensures r.value in Merged(ps, copied) {
      var k :| 0 <= k < |after[t]| && after[t][k] == r;
      RelationsAreKept(ps, relations, copied, t, k);
    }
  }

  lemma KeeperIdentity(ps: Properties, id: nat, copied: Copied)
    requires id in ps
    ensures IdentityOf(Keeper(ps, id, copied)) == IdentityOf(ps[id])
  {
  }

  lemma MergedAlone(m: Properties, copied: Copied)
    requires forall id | id in m :: |GroupOf(m, id)| == 1 && Survivor(m, id) == id
    ensures Merged(m, copied) == m
  {
    hide Survivor, GroupOf;
  }

  lemma RedirectedAlone(m: Properties, relations: Relations)
    requires forall id | id in m :: Survivor(m, id) == id
    ensures MergedRelations(relations, m) == relations
  {
    hide Survivor;
    forall t | t in relations ensures RedirectedRows(relations[t], m, m.Keys) == relations[t] { }
  }
}
