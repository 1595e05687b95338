/** The migration as it runs on the database: nested loops over groups, duplicates and relation tables. */
module PropertyDatabase {
  import opened Wrappers
  import opened IdentityMigration

  datatype Outcome = Done(duplicateGroups: nat, duplicateRows: nat) | InvalidRows | OrphanedRelations

  // Each group once, keeper first, and every row that is not alone in one of them.
  predicate GroupsOk(ps: Properties, groups: seq<seq<nat>>) {
    && (forall g | 0 <= g < |groups| :: IsGroup(ps, groups[g]))
    && (forall g, h | 0 <= g < h < |groups| :: groups[g][0] != groups[h][0])
    && (forall id | id in ps && |GroupOf(ps, id)| > 1 :: GroupOf(ps, id) in groups)
  }

  predicate IsGroup(ps: Properties, rows: seq<nat>) {
    |rows| > 1 && rows[0] in ps && rows == GroupOf(ps, rows[0])
  }

  predicate Staged(ps: Properties, rows: seq<nat>, copied: Copied, media: map<nat, Media>) {
    && rows != [] && (forall id | id in rows :: id in ps)
    && rows[0] in media && media[rows[0]] == MergedMedia(ps, rows, copied)
  }

  lemma CollectedStep(ps: Properties, rows: seq<nat>, d: nat, copied: Copied)
    requires 0 < d < |rows| && forall id | id in rows :: id in ps
    ensures var before, p := Collected(ps, rows[..d], copied), ps[rows[d]];
            Collected(ps, rows[..d + 1], copied)
            == Media(before.photoUrls + p.photoUrls, before.photos + Rewritten(p.photos, p, CopiedOf(copied, rows[d])),
                     before.downloaded || p.downloaded)
  {
    assert rows[..d + 1][..d] == rows[..d];
  }

  lemma GroupRows(ps: Properties, rows: seq<nat>)
    requires IsGroup(ps, rows)
    ensures forall id | id in rows :: id in ps && IdentityOf(ps[id]) == IdentityOf(ps[rows[0]])
    ensures forall d | 0 < d < |rows| :: Survivor(ps, rows[d]) == rows[0] && rows[d] != rows[0]
    ensures Survivor(ps, rows[0]) == rows[0]
    ensures forall id | id in ps && IdentityOf(ps[id]) == IdentityOf(ps[rows[0]]) :: id in rows
  {
    GroupFacts(ps, rows[0]);
    SortedFacts(IdsOf(ps, IdentityOf(ps[rows[0]])));
    forall d | 0 < d < |rows| ensures Survivor(ps, rows[d]) == rows[0] {
      assert rows[d] in rows;
      SameGroup(ps, rows[d], rows[0]);
    }
  }

  // The state after the rows in gone are merged away and the keepers have their media.
  predicate PartlyMerged(now: Properties, relations: Relations, ps: Properties, before: Relations, gone: set<nat>, keepers: set<nat>, copied: Copied) {
    && gone <= ps.Keys && now.Keys == ps.Keys - gone
    && (forall id | id in gone :: Survivor(ps, id) != id)
    && (forall id | id in now :: now[id] == if id in keepers then Keeper(ps, id, copied) else ps[id])
    && relations == RedirectedAll(before, ps, gone)
  }

  // The duplicates of these keepers.
  function DuplicatesOf(ps: Properties, keepers: set<nat>): set<nat> {
    set id | id in ps && Survivor(ps, id) != id && Survivor(ps, id) in keepers
  }

  lemma SameGroup(ps: Properties, a: nat, b: nat)
    requires a in ps && b in ps && IdentityOf(ps[a]) == IdentityOf(ps[b])
    ensures GroupOf(ps, a) == GroupOf(ps, b) && Survivor(ps, a) == Survivor(ps, b)
  {
  }

  // Rows of one identity are all in ids or all outside.
  predicate Closed(ps: Properties, ids: set<nat>) {
    forall a, b | a in ps && b in ps && IdentityOf(ps[a]) == IdentityOf(ps[b]) :: a in ids ==> b in ids
  }

  lemma GroupTaken(ps: Properties, ids: set<nat>, id: nat)
    requires Closed(ps, ids) && id in ids && id in ps
    ensures var rows := GroupOf(ps, id);
            && rows != [] && id in rows && (forall x | x in rows :: x in ids && x in ps && GroupOf(ps, x) == rows)
            && Closed(ps, ids - set x | x in rows) && (|rows| > 1 ==> IsGroup(ps, rows))
  {
    GroupFacts(ps, id);
    var rows := GroupOf(ps, id);
    SurvivorFacts(ps, id);
    SameGroup(ps, rows[0], id);
    forall x | x in rows ensures GroupOf(ps, x) == rows && x in ids { SameGroup(ps, x, id); }
  }

  class Database {
    var properties: Properties
    var relations: Relations

    // The identities of more than one row, each with its rows in ascending order.
    method DuplicateGroups() returns (groups: seq<seq<nat>>)
      ensures GroupsOk(properties, groups)
    {
      groups := [];
      var ids := properties.Keys;
      while ids != {}
        invariant ids <= properties.Keys && Closed(properties, ids)
        invariant forall g | 0 <= g < |groups| :: IsGroup(properties, groups[g]) && groups[g][0] !in ids
        invariant forall g, h | 0 <= g < h < |groups| :: groups[g][0] != groups[h][0]
        invariant forall id | id in properties && id !in ids && |GroupOf(properties, id)| > 1 :: GroupOf(properties, id) in groups
        decreases ids
      {
        var id :| id in ids;
        GroupTaken(properties, ids, id);
        hide GroupOf, Closed, IsGroup;
        var rows := GroupOf(properties, id);
        assert rows[0] in rows;
        if |rows| > 1 { groups := groups + [rows]; }
        ids := ids - set x | x in rows;
      }
    }

    // The media of each keeper.
    method StageMedia(groups: seq<seq<nat>>, copied: Copied) returns (media: map<nat, Media>)
      requires GroupsOk(properties, groups)
      ensures forall g | 0 <= g < |groups| :: Staged(properties, groups[g], copied, media)
    {
      media := map[];
      for g := 0 to |groups|
        invariant forall h | 0 <= h < g :: Staged(properties, groups[h], copied, media)
      {
        GroupRows(properties, groups[g]);
        var one := StageGroup(groups[g], copied);
        media := media[groups[g][0] := one];
      }
    }

    // The keeper's own media, then those of its duplicates.
    method StageGroup(rows: seq<nat>, copied: Copied) returns (media: Media)
      requires rows != [] && forall id | id in rows :: id in properties
      ensures media == MergedMedia(properties, rows, copied)
    {
      var keeper := properties[rows[0]];
      var current := Media(keeper.photoUrls, keeper.photos, keeper.downloaded);
      assert rows[..1] == [rows[0]];
      for d := 1 to |rows|
        invariant current == Collected(properties, rows[..d], copied)
      {
        CollectedStep(properties, rows, d, copied);
        var duplicate := properties[rows[d]];
        current := Media(current.photoUrls + duplicate.photoUrls,
          current.photos + Rewritten(duplicate.photos, duplicate, CopiedOf(copied, rows[d])),
          current.downloaded || duplicate.downloaded);
      }
      assert rows[..|rows|] == rows;
      media := Media(UniqueValues(current.photoUrls), UniqueValues(current.photos), current.downloaded);
    }

    // UPDATE table SET property_id = keeper WHERE property_id = duplicate, for each table.
    method MoveRelations(keeper: nat, duplicate: nat)
      modifies this`relations
      ensures relations.Keys == old(relations).Keys
      ensures forall t | t in relations :: relations[t] == MovedRows(old(relations)[t], keeper, duplicate)
    {
      var tables := relations.Keys;
      while tables != {}
        invariant tables <= relations.Keys == old(relations).Keys
        invariant forall t | t in tables :: relations[t] == old(relations)[t]
        invariant forall t | t in relations && t !in tables :: relations[t] == MovedRows(old(relations)[t], keeper, duplicate)
        decreases tables
      {
        var t :| t in tables;
        relations := relations[t := MovedRows(relations[t], keeper, duplicate)];
        tables := tables - {t};
      }
    }

    method MergeDuplicate(keeper: nat, duplicate: nat, ghost ps: Properties, ghost before: Relations, ghost gone: set<nat>,
                          ghost keepers: set<nat>, ghost copied: Copied)
      requires PartlyMerged(properties, relations, ps, before, gone, keepers, copied)
      requires duplicate in ps && duplicate !in gone && keeper == Survivor(ps, duplicate) != duplicate
      modifies this
      ensures PartlyMerged(properties, relations, ps, before, gone + {duplicate}, keepers, copied)
    {
      hide Survivor, Keeper;
      MoveRelations(keeper, duplicate);
      Moved(before, ps, gone, duplicate, relations);
      hide RedirectedAll;
      properties := properties - {duplicate};
    }

    // One group: the references to each duplicate are moved and its row is deleted; then the keeper gets the media.
    method MergeGroup(rows: seq<nat>, media: Media, ghost ps: Properties, ghost before: Relations, ghost keepers: set<nat>, ghost copied: Copied)
      requires IsGroup(ps, rows) && rows[0] !in keepers
      requires PartlyMerged(properties, relations, ps, before, DuplicatesOf(ps, keepers), keepers, copied)
      requires (forall id | id in rows :: id in ps) && media == MergedMedia(ps, rows, copied)
      modifies this
      ensures PartlyMerged(properties, relations, ps, before, DuplicatesOf(ps, keepers + {rows[0]}), keepers + {rows[0]}, copied)
    {
      ghost var gone := DuplicatesOf(ps, keepers);
      assert |rows| > 1;
      hide *;
      NoneMerged(rows);
      for d := 1 to |rows|
        invariant gone == DuplicatesOf(ps, keepers) + FirstDuplicates(rows, d)
        invariant PartlyMerged(properties, relations, ps, before, gone, keepers, copied)
      {
        OneMoreDuplicate(ps, keepers, rows, d);
        MergeDuplicate(rows[0], rows[d], ps, before, gone, keepers, copied);
        gone := gone + {rows[d]};
      }
      FullyGone(ps, keepers, rows, gone);
      KeeperOfGroup(ps, rows, copied, media);
      MediaTaken(properties, relations, ps, before, gone, keepers, copied, rows[0]);
      properties := properties[rows[0] := properties[rows[0]].(
        photoUrls := media.photoUrls, photos := media.photos, downloaded := media.downloaded)];
    }

    method MergeGroups(groups: seq<seq<nat>>, media: map<nat, Media>, ghost copied: Copied)
      requires GroupsOk(properties, groups)
      requires forall g | 0 <= g < |groups| :: Staged(properties, groups[g], copied, media)
      modifies this
      ensures properties == Merged(old(properties), copied)
      ensures relations == MergedRelations(old(relations), old(properties))
    {
      ghost var ps, before := properties, relations;
      ghost var keepers: set<nat> := {};
      NothingMerged(properties, relations, copied);
      hide *;
      assert Keepers(groups, 0) == {} by { NoKeepers(groups); }
      for g := 0 to |groups|
        invariant keepers == Keepers(groups, g)
        invariant PartlyMerged(properties, relations, ps, before, DuplicatesOf(ps, keepers), keepers, copied)
      {
        NextKeeper(ps, groups, g);
        assert Staged(ps, groups[g], copied, media);
        StagedFacts(ps, groups[g], copied, media);
        MergeGroup(groups[g], media[groups[g][0]], ps, before, keepers, copied);
        keepers := keepers + {groups[g][0]};
      }
      AllMerged(properties, relations, ps, before, groups, copied);
    }

    /**
      The migration refuses rows without a clean identity, and undoes everything when relations refer to no property;
      otherwise the database becomes the merged one. It reports the merged groups and the deleted rows.
     */
    method Migrate(copied: Copied) returns (outcome: Outcome)
      modifies this
      ensures outcome == InvalidRows <==> exists id | id in old(properties) :: InvalidIdentity(old(properties)[id])
      ensures outcome.Done? <==> Migratable(old(properties), old(relations))
      ensures outcome.Done? ==> properties == Merged(old(properties), copied)
      ensures outcome.Done? ==> relations == MergedRelations(old(relations), old(properties))
      ensures outcome.Done? ==> outcome.duplicateGroups == |MergedKeepers(old(properties))|
      ensures outcome.Done? ==> outcome.duplicateRows == |old(properties)| - |properties|
      ensures !outcome.Done? ==> properties == old(properties) && relations == old(relations)
    {
      if exists id | id in properties :: InvalidIdentity(properties[id]) { return InvalidRows; }
      var groups := DuplicateGroups();
      var media := StageMedia(groups, copied);
      var oldProperties, oldRelations := properties, relations;
      hide *;
      MergeGroups(groups, media, copied);
      var after := DuplicateGroups();
      NoGroupsLeft(oldProperties, copied, after);
      var orphaned := Orphaned(relations, properties);
      OrphansStay(oldProperties, oldRelations, copied);
      if |after| > 0 || orphaned {
        properties, relations := oldProperties, oldRelations;
        return OrphanedRelations;
      }
      var duplicateRows := CountRemoved(groups);
      GroupsCounted(oldProperties, groups);
      RowsCounted(oldProperties, groups, copied);
      RemovedIsNat(oldProperties, groups);
      return Done(|groups|, duplicateRows);
    }
  }

  method CountRemoved(groups: seq<seq<nat>>) returns (duplicateRows: int)
    ensures duplicateRows == RemovedRows(groups, |groups|)
  {
    duplicateRows := 0;
    for g := 0 to |groups|
      invariant duplicateRows == RemovedRows(groups, g)
    {
      duplicateRows := duplicateRows + |groups[g]| - 1;
    }
  }

  function MovedRows(rows: seq<Option<nat>>, keeper: nat, duplicate: nat): (r: seq<Option<nat>>)
    ensures |r| == |rows|
  {
    seq(|rows|, i requires 0 <= i < |rows| => if rows[i] == Some(duplicate) then Some(keeper) else rows[i])
  }

  // Moving one duplicate more.
  lemma OneMoreGone(relations: Relations, ps: Properties, gone: set<nat>, duplicate: nat)
    requires duplicate in ps && Survivor(ps, duplicate) != duplicate && gone <= ps.Keys
    requires forall id | id in gone :: Survivor(ps, id) != id
    ensures forall t | t in relations ::
      MovedRows(RedirectedRows(relations[t], ps, gone), Survivor(ps, duplicate), duplicate)
      == RedirectedRows(relations[t], ps, gone + {duplicate})
  {
    forall t | t in relations
      ensures MovedRows(RedirectedRows(relations[t], ps, gone), Survivor(ps, duplicate), duplicate)
           == RedirectedRows(relations[t], ps, gone + {duplicate})
    {
      forall i | 0 <= i < |relations[t]|
        ensures MovedRows(RedirectedRows(relations[t], ps, gone), Survivor(ps, duplicate), duplicate)[i]
             == Redirected(relations[t][i], ps, gone + {duplicate})
      {
        var r := relations[t][i];
        if r.Some? && r.value in ps { SurvivorFacts(ps, r.value); }
        hide Survivor;
      }
    }
  }

  function FirstDuplicates(rows: seq<nat>, d: nat): set<nat> {
    set i | 0 < i < d && i < |rows| :: rows[i]
  }

  lemma NoneMerged(rows: seq<nat>)
    ensures FirstDuplicates(rows, 1) == {}
  {
  }

  lemma OneMoreDuplicate(ps: Properties, keepers: set<nat>, rows: seq<nat>, d: nat)
    requires IsGroup(ps, rows) && rows[0] !in keepers && 0 < d < |rows|
    ensures FirstDuplicates(rows, d + 1) == FirstDuplicates(rows, d) + {rows[d]}
    ensures rows[d] in ps && rows[d] !in DuplicatesOf(ps, keepers) + FirstDuplicates(rows, d)
    ensures rows[0] == Survivor(ps, rows[d]) != rows[d]
  {
    GroupRows(ps, rows);
    assert rows[d] in rows;
    SortedFacts(IdsOf(ps, IdentityOf(ps[rows[0]])));
    hide Survivor;
  }

  lemma FullyGone(ps: Properties, keepers: set<nat>, rows: seq<nat>, gone: set<nat>)
    requires IsGroup(ps, rows) && gone == DuplicatesOf(ps, keepers) + FirstDuplicates(rows, |rows|)
    ensures gone == DuplicatesOf(ps, keepers + {rows[0]}) && rows[0] !in gone
  {
    GroupRows(ps, rows);
    forall id | id in ps ensures id in gone <==> id in DuplicatesOf(ps, keepers + {rows[0]}) {
      SurvivorFacts(ps, id);
      if Survivor(ps, id) == rows[0] { assert id in rows; }
      hide Survivor;
    }
  }

  lemma MediaTaken(now: Properties, relations: Relations, ps: Properties, before: Relations, gone: set<nat>, keepers: set<nat>,
                   copied: Copied, keeper: nat)
    requires PartlyMerged(now, relations, ps, before, gone, keepers, copied)
    requires keeper in ps && keeper !in gone && keeper !in keepers
    ensures keeper in now && now[keeper] == ps[keeper]
    ensures PartlyMerged(now[keeper := Keeper(ps, keeper, copied)], relations, ps, before, gone, keepers + {keeper}, copied)
  {
    hide Survivor, Keeper, RedirectedAll;
  }

  lemma KeeperOfGroup(ps: Properties, rows: seq<nat>, copied: Copied, media: Media)
    requires IsGroup(ps, rows) && (forall id | id in rows :: id in ps) && media == MergedMedia(ps, rows, copied)
    ensures rows[0] in ps
    ensures Keeper(ps, rows[0], copied)
         == ps[rows[0]].(photoUrls := media.photoUrls, photos := media.photos, downloaded := media.downloaded)
  {
  }

  lemma Moved(before: Relations, ps: Properties, gone: set<nat>, duplicate: nat, after: Relations)
    requires duplicate in ps && Survivor(ps, duplicate) != duplicate && gone <= ps.Keys
    requires forall id | id in gone :: Survivor(ps, id) != id
    requires after.Keys == before.Keys
    requires forall t | t in after :: after[t] == MovedRows(RedirectedAll(before, ps, gone)[t], Survivor(ps, duplicate), duplicate)
    ensures after == RedirectedAll(before, ps, gone + {duplicate})
  {
    OneMoreGone(before, ps, gone, duplicate);
    hide Survivor, MovedRows, RedirectedRows;
  }

  // The keepers of the first n groups.
  function Keepers(groups: seq<seq<nat>>, n: nat): set<nat> {
    set g | 0 <= g < n && g < |groups| && groups[g] != [] :: groups[g][0]
  }

  lemma NoKeepers(groups: seq<seq<nat>>)
    ensures Keepers(groups, 0) == {}
  {
  }

  lemma NothingMerged(ps: Properties, relations: Relations, copied: Copied)
    ensures PartlyMerged(ps, relations, ps, relations, DuplicatesOf(ps, {}), {}, copied)
  {
    hide Survivor;
    forall t | t in relations ensures RedirectedRows(relations[t], ps, {}) == relations[t] { }
    assert DuplicatesOf(ps, {}) == {};
  }

  lemma NextKeeper(ps: Properties, groups: seq<seq<nat>>, g: nat)
    requires GroupsOk(ps, groups) && g < |groups|
    ensures IsGroup(ps, groups[g]) && groups[g][0] !in Keepers(groups, g)
    ensures Keepers(groups, g + 1) == Keepers(groups, g) + {groups[g][0]}
  {
    hide GroupOf;
  }

  lemma StagedFacts(ps: Properties, rows: seq<nat>, copied: Copied, media: map<nat, Media>)
    requires Staged(ps, rows, copied, media)
    ensures rows != [] && (forall id | id in rows :: id in ps) && rows[0] in media && media[rows[0]] == MergedMedia(ps, rows, copied)
  {
  }

  // When every group is merged, all duplicates are gone.
  lemma AllMerged(now: Properties, relations: Relations, ps: Properties, before: Relations, groups: seq<seq<nat>>, copied: Copied)
    requires GroupsOk(ps, groups)
    requires PartlyMerged(now, relations, ps, before, DuplicatesOf(ps, Keepers(groups, |groups|)), Keepers(groups, |groups|), copied)
    ensures now == Merged(ps, copied) && relations == MergedRelations(before, ps)
  {
    var keepers := Keepers(groups, |groups|);
    forall id | id in ps ensures id in DuplicatesOf(ps, keepers) <==> Survivor(ps, id) != id {
      if Survivor(ps, id) != id { DuplicateHasKeeper(ps, groups, id); }
    }
    forall id | id in ps && Survivor(ps, id) == id ensures id in keepers || Keeper(ps, id, copied) == ps[id] {
      if |GroupOf(ps, id)| > 1 { KeeperIsKept(ps, groups, id); } else { GroupFacts(ps, id); }
    }
    AllRedirected(ps, before, DuplicatesOf(ps, keepers));
    hide Survivor, Keeper, GroupOf;
  }

  lemma KeeperIsKept(ps: Properties, groups: seq<seq<nat>>, id: nat)
    requires GroupsOk(ps, groups) && id in ps && |GroupOf(ps, id)| > 1
    ensures Survivor(ps, id) in Keepers(groups, |groups|)
  {
    GroupFacts(ps, id);
    hide Survivor, GroupOf;
    var g :| 0 <= g < |groups| && groups[g] == GroupOf(ps, id);
    assert groups[g][0] == Survivor(ps, id);
  }

  lemma DuplicateHasKeeper(ps: Properties, groups: seq<seq<nat>>, id: nat)
    requires GroupsOk(ps, groups) && id in ps && Survivor(ps, id) != id
    ensures Survivor(ps, id) in Keepers(groups, |groups|)
  {
    GroupFacts(ps, id);
    KeeperIsKept(ps, groups, id);
  }

  // A survivor's references stay, so redirecting the duplicates redirects all.
  lemma AllRedirected(ps: Properties, relations: Relations, gone: set<nat>)
    requires forall id | id in ps :: id in gone <==> Survivor(ps, id) != id
    ensures RedirectedAll(relations, ps, gone) == MergedRelations(relations, ps)
  {
    hide Survivor;
    forall t | t in relations ensures RedirectedRows(relations[t], ps, gone) == RedirectedRows(relations[t], ps, ps.Keys) { }
  }

  lemma NoGroupsLeft(ps: Properties, copied: Copied, after: seq<seq<nat>>)
    requires GroupsOk(Merged(ps, copied), after)
    ensures after == []
  {
    var m := Merged(ps, copied);
    IdentitiesAreUnique(ps, copied);
    hide Merged, Survivor, GroupOf;
    if after != [] {
      var rows := after[0];
      assert IsGroup(m, rows);
      AloneIsOneRow(m, rows[0]);
    }
  }

  lemma OrphansStay(ps: Properties, relations: Relations, copied: Copied)
    ensures Orphaned(MergedRelations(relations, ps), Merged(ps, copied)) <==> Orphaned(relations, ps)
  {
    if !Orphaned(relations, ps) { NoOrphansLeft(ps, relations, copied); }
    if Orphaned(relations, ps) {
      var t :| t in relations && exists r | r in relations[t] :: r.Some? && r.value !in ps;
      var r :| r in relations[t] && r.Some? && r.value !in ps;
      var k :| 0 <= k < |relations[t]| && relations[t][k] == r;
      var after := MergedRelations(relations, ps);
      assert after[t][k] == r && r in after[t];
      assert r.value !in Merged(ps, copied);
    }
  }

  // ---------- The report ----------

  function MergedKeepers(ps: Properties): set<nat> {
    set id | id in ps && Survivor(ps, id) == id && |GroupOf(ps, id)| > 1
  }

  // groups.reduce((total, group) => total + group.rows.length - 1, 0)
  function RemovedRows(groups: seq<seq<nat>>, n: nat): int
    requires n <= |groups|
  {
    if n == 0 then 0 else RemovedRows(groups, n - 1) + |groups[n - 1]| - 1
  }

  lemma {:induction false} KeepersCounted(ps: Properties, groups: seq<seq<nat>>, n: nat)
    requires GroupsOk(ps, groups) && n <= |groups|
    ensures |Keepers(groups, n)| == n
  {
    if n == 0 {
      assert Keepers(groups, 0) == {};
    } else {
      KeepersCounted(ps, groups, n - 1);
      NextKeeper(ps, groups, n - 1);
    }
  }

  lemma GroupsCounted(ps: Properties, groups: seq<seq<nat>>)
    requires GroupsOk(ps, groups)
    ensures |groups| == |MergedKeepers(ps)|
  {
    KeepersCounted(ps, groups, |groups|);
    forall id ensures id in Keepers(groups, |groups|) <==> id in MergedKeepers(ps) {
      if id in Keepers(groups, |groups|) {
        var g :| 0 <= g < |groups| && groups[g] != [] && groups[g][0] == id;
        assert IsGroup(ps, groups[g]);
        GroupRows(ps, groups[g]);
      }
      if id in MergedKeepers(ps) { KeeperIsKept(ps, groups, id); }
      hide GroupOf, Survivor;
    }
    assert Keepers(groups, |groups|) == MergedKeepers(ps);
  }

  lemma {:induction false} DuplicatesCounted(ps: Properties, keepers: set<nat>, rows: seq<nat>, d: nat)
    requires IsGroup(ps, rows) && rows[0] !in keepers && 1 <= d <= |rows|
    ensures |DuplicatesOf(ps, keepers) + FirstDuplicates(rows, d)| == |DuplicatesOf(ps, keepers)| + d - 1
  {
    if d == 1 {
      NoneMerged(rows);
      assert DuplicatesOf(ps, keepers) + {} == DuplicatesOf(ps, keepers);
    } else {
      DuplicatesCounted(ps, keepers, rows, d - 1);
      OneMoreDuplicate(ps, keepers, rows, d - 1);
      hide DuplicatesOf, FirstDuplicates, IsGroup;
      assert DuplicatesOf(ps, keepers) + FirstDuplicates(rows, d)
          == (DuplicatesOf(ps, keepers) + FirstDuplicates(rows, d - 1)) + {rows[d - 1]};
    }
  }

  lemma {:induction false} RemovedCounted(ps: Properties, groups: seq<seq<nat>>, n: nat)
    requires GroupsOk(ps, groups) && n <= |groups|
    ensures |DuplicatesOf(ps, Keepers(groups, n))| == RemovedRows(groups, n)
  {
    if n == 0 {
      assert Keepers(groups, 0) == {} && DuplicatesOf(ps, {}) == {};
    } else {
      hide DuplicatesOf, Keepers, GroupsOk, IsGroup;
      RemovedCounted(ps, groups, n - 1);
      NextKeeper(ps, groups, n - 1);
      GroupRemoved(ps, Keepers(groups, n - 1), groups[n - 1]);
    }
  }

  lemma GroupRemoved(ps: Properties, keepers: set<nat>, rows: seq<nat>)
    requires IsGroup(ps, rows) && rows[0] !in keepers
    ensures |DuplicatesOf(ps, keepers + {rows[0]})| == |DuplicatesOf(ps, keepers)| + |rows| - 1
  {
    DuplicatesCounted(ps, keepers, rows, |rows|);
    FullyGone(ps, keepers, rows, DuplicatesOf(ps, keepers) + FirstDuplicates(rows, |rows|));
  }

  lemma RemovedIsNat(ps: Properties, groups: seq<seq<nat>>)
    requires GroupsOk(ps, groups)
    ensures RemovedRows(groups, |groups|) >= 0
  {
    RemovedCounted(ps, groups, |groups|);
  }

  lemma RowsCounted(ps: Properties, groups: seq<seq<nat>>, copied: Copied)
    requires GroupsOk(ps, groups)
    ensures RemovedRows(groups, |groups|) == |ps| - |Merged(ps, copied)|
  {
    RemovedCounted(ps, groups, |groups|);
    var gone := DuplicatesOf(ps, Keepers(groups, |groups|));
    forall id | id in ps ensures id in gone <==> Survivor(ps, id) != id {
      if Survivor(ps, id) != id { DuplicateHasKeeper(ps, groups, id); }
    }
    hide Survivor, Keeper;
    assert Merged(ps, copied).Keys == ps.Keys - gone && gone <= ps.Keys;
    assert |ps.Keys - gone| == |ps.Keys| - |gone|;
  }
}
