/**
 Collecting for several instances with one set of visited instances, as a change of nodes
 does: an instance already visited is skipped at its turn. Skipping may leave out records
 that reach a skipped instance, and exactly which is stated here; it leaves out none whose
 evaluation could have changed.
 */
module DnsBatchInvalidation {
  import opened Text
  import opened DnsInvalidation

  const Hops: nat := MaxDepth + 1

  /** Turn by turn, each collection starting at depth 0 with what was visited before. */
  function CollectAll(db: Db, order: seq<string>, ids: seq<string>): Found
    requires forall k :: k in order ==> k in db
  {
    if ids == [] then Found({}, {})
    else
      var before := CollectAll(db, order, ids[..|ids| - 1]);
      var own := Collect(db, order, ids[|ids| - 1], before.seen, 0);
      Found(before.affected + own.affected, own.seen)
  }

  /** The instances not yet visited at their turn. */
  function Explored(db: Db, order: seq<string>, ids: seq<string>): set<string>
    requires forall k :: k in order ==> k in db
  {
    if ids == [] then {}
    else
      var front, id := ids[..|ids| - 1], ids[|ids| - 1];
      Explored(db, order, front) + (if id in CollectAll(db, order, front).seen then {} else {id})
  }

  /** The depending instances' own records, and those that refer to the instances. */
  method MarkDepending(db: Db, order: seq<string>, ids: seq<string>) returns (affected: set<string>)
    requires (forall k :: k in order ==> k in db) && (forall id :: id in ids ==> id in db)
    ensures affected == Marked(db, order, ids)
  {
    hide Collect;
    var collector := new Collector(db, order);
    affected := {};
    ghost var collected: set<string> := {};
    assert ids[..0] == [];
    for i := 0 to |ids|
      invariant fresh(collector) && collector.db == db && collector.order == order
      invariant Found(collected, collector.seen) == CollectAll(db, order, ids[..i])
      invariant affected == (set id | id in ids[..i] :: db[id].record) + collected
    {
      assert ids[..i + 1] == ids[..i] + [ids[i]] && ids[..i + 1][..i] == ids[..i];
      affected := affected + {db[ids[i]].record};
      var referenced := collector.CollectReferencing(ids[i], 0);
      affected := affected + referenced;
      collected := collected + referenced;
    }
    assert ids[..|ids|] == ids;
  }

  // ---- what is visited hangs together

  /** Every visited instance was explored or refers to a visited one. */
  ghost predicate RootedAt(db: Db, seen: set<string>, roots: set<string>) {
    roots <= seen && forall y :: y in seen && y !in roots ==> y in db && exists p :: p in seen && RefersTo(db[y], p)
  }

  lemma GrowRooted(db: Db, seen: set<string>, roots: set<string>, after: set<string>, id: string)
    requires RootedAt(db, seen, roots) && seen <= after && id in after && Rooted(db, after - seen, id)
    ensures RootedAt(db, after, roots + {id})
  {
    hide RefersTo;
    forall y | y in after && y !in roots + {id}
      ensures y in db && exists p :: p in after && RefersTo(db[y], p)
    {
      if y in seen {
        var p :| p in seen && RefersTo(db[y], p);
      } else {
        assert y in after - seen;
        var p :| p in after - seen && RefersTo(db[y], p);
      }
    }
  }

  lemma {:induction false} SeenIsRooted(db: Db, order: seq<string>, ids: seq<string>)
    requires Lists(db, order)
    ensures RootedAt(db, CollectAll(db, order, ids).seen, Explored(db, order, ids))
  {
    hide Collect, RefersTo, Rooted;
    if ids != [] {
      var front, id := ids[..|ids| - 1], ids[|ids| - 1];
      SeenIsRooted(db, order, front);
      var seen := CollectAll(db, order, front).seen;
      if id in seen {
        SkipsVisited(db, order, id, seen);
      } else {
        CollectAdds(db, order, id, seen, 0);
        ItselfVisited(db, order, id, seen, 0);
        GrowRooted(db, seen, Explored(db, order, front), Collect(db, order, id, seen, 0).seen, id);
      }
    }
  }

  lemma SkipsVisited(db: Db, order: seq<string>, id: string, seen: set<string>)
    requires id in seen && forall k :: k in order ==> k in db
    ensures Collect(db, order, id, seen, 0) == Found({}, seen)
  {
  }

  /** A chain that meets a visited instance before an unvisited end passes an explored one. */
  lemma {:induction false} PassesRoot(db: Db, seen: set<string>, roots: set<string>, path: seq<string>, i: nat) returns (j: nat)
    requires RootedAt(db, seen, roots) && Chain(db, path) && path[0] !in seen && i < |path| && path[i] in seen
    ensures 1 <= j <= i && path[j] in roots
    decreases i
  {
    if path[i] in roots {
      j := i;
    } else {
      assert i >= 1 && RefersTo(db[path[i]], path[i - 1]);
      var p :| p in seen && RefersTo(db[path[i]], p);
      j := PassesRoot(db, seen, roots, path, i - 1);
    }
  }

  lemma ChainSuffix(db: Db, path: seq<string>, record: string, id: string, j: nat)
    requires ChainTo(db, path, record, id) && j < |path| - 1
    ensures ChainTo(db, path[j..], record, path[j])
  {
    hide RefersTo;
    var tail := path[j..];
    forall k | 1 <= k < |tail|
      ensures tail[k] in db && RefersTo(db[tail[k]], tail[k - 1])
    {
      assert tail[k] == path[j + k] && tail[k - 1] == path[j + k - 1];
    }
  }

  /** Whatever the visited set cuts off was collected for the explored instance it hangs from. */
  lemma CutIsCovered(db: Db, order: seq<string>, seen: set<string>, roots: set<string>, id: string, record: string)
    requires Lists(db, order) && RootedAt(db, seen, roots) && id !in seen && Reaches(db, record, id, Hops)
    ensures record in Collect(db, order, id, seen, 0).affected || exists r :: r in roots && Reaches(db, record, r, Hops)
  {
    hide Collect, Chain, RefersTo, RootedAt;
    var path :| ChainTo(db, path, record, id) && |path| - 1 <= Hops;
    var short := FirstHit(db, path, record, id);
    if i :| 1 <= i < |short| - 1 && short[i] in seen {
      var j := PassesRoot(db, seen, roots, short, i);
      ChainSuffix(db, short, record, id, j);
      assert Reaches(db, record, short[j], Hops);
    } else {
      ChainIsCollected(db, order, seen, 0, short);
    }
  }

  // ---- what is collected

  ghost predicate ReachesSome(db: Db, record: string, roots: set<string>) {
    exists r :: r in roots && Reaches(db, record, r, Hops)
  }

  /** The collection is the union over the instances that were explored at their turn. */
  lemma {:induction false} CollectAllExactly(db: Db, order: seq<string>, ids: seq<string>, record: string)
    requires Lists(db, order)
    ensures record in CollectAll(db, order, ids).affected <==> ReachesSome(db, record, Explored(db, order, ids))
  {
    hide Collect, Reaches;
    if ids != [] {
      var front, id := ids[..|ids| - 1], ids[|ids| - 1];
      var seen, roots := CollectAll(db, order, front).seen, Explored(db, order, front);
      CollectAllExactly(db, order, front, record);
      if id in seen {
        SkipsVisited(db, order, id, seen);
      } else {
        SeenIsRooted(db, order, front);
        if record in Collect(db, order, id, seen, 0).affected { CollectSound(db, order, id, seen, 0, record); }
        if Reaches(db, record, id, Hops) { CutIsCovered(db, order, seen, roots, id, record); }
        if ReachesSome(db, record, Explored(db, order, ids)) {
          var r :| r in Explored(db, order, ids) && Reaches(db, record, r, Hops);
          assert r == id || r in roots;
        }
      }
    }
  }

  /** As sets: the union of what each explored instance affects. */
  lemma CollectAllIsUnion(db: Db, order: seq<string>, ids: seq<string>)
    requires Lists(db, order)
    ensures CollectAll(db, order, ids).affected == set r, record | r in Explored(db, order, ids) && record in Affected(db, order, r) :: record
  {
    hide Affected, Reaches, CollectAll, Explored;
    forall record
      ensures record in CollectAll(db, order, ids).affected <==>
                record in set r, q | r in Explored(db, order, ids) && q in Affected(db, order, r) :: q
    {
      CollectAllExactly(db, order, ids, record);
      forall r
        ensures record in Affected(db, order, r) <==> Reaches(db, record, r, Hops)
      {
        AffectedExactly(db, order, r, record);
      }
    }
  }

  // ---- what evaluation can have noticed

  /**
   The two states of the nodes differ in what enabled instances yield by themselves, and only
   for the listed ones.
   */
  ghost predicate YieldAlike(db: Db, ids: seq<string>, leaf: Leaf, other: Leaf) {
    forall y, recordType :: y in db && db[y].enabled && y !in ids ==> leaf(db[y], recordType) == other(db[y], recordType)
  }

  /** An instance that uses nobody's output is never skipped. */
  lemma OwnIsExplored(db: Db, order: seq<string>, ids: seq<string>, z: string)
    requires Lists(db, order) && z in ids && z in db && !db[z].action.Use?
    ensures z in Explored(db, order, ids)
  {
    hide Collect, CollectAll, Explored;
    SeenIsRooted(db, order, ids);
    ListedIsVisited(db, order, ids, z);
  }

  lemma {:induction false} ListedIsVisited(db: Db, order: seq<string>, ids: seq<string>, z: string)
    requires Lists(db, order) && z in ids
    ensures z in CollectAll(db, order, ids).seen
  {
    hide Collect, RefersTo, Rooted;
    var front, id := ids[..|ids| - 1], ids[|ids| - 1];
    assert ids == front + [id];
    var seen := CollectAll(db, order, front).seen;
    CollectAdds(db, order, id, seen, 0);
    if z == id {
      ItselfVisited(db, order, id, seen, 0);
    } else {
      ListedIsVisited(db, order, front, z);
    }
  }

  /** No listed instance that yields something by itself is read on the way. */
  ghost predicate OutOfReach(db: Db, ids: seq<string>, id: string, hops: int) {
    forall z :: z in ids && z in db && db[z].action.Own? ==> id != z && !InstanceReaches(db, id, z, hops)
  }

  lemma {:induction false} SameWithoutReach(db: Db, ids: seq<string>, records: map<string, RecordInfo>, leaf: Leaf, other: Leaf, recordType: string, id: string, seen: set<string>, depth: nat)
    requires TrimmedIds(db) && YieldAlike(db, ids, leaf, other) && id in db && db[id].enabled
    requires OutOfReach(db, ids, id, Hops - depth)
    ensures Evaluate(db, records, leaf, recordType, id, seen, depth) == Evaluate(db, records, other, recordType, id, seen, depth)
    decreases MaxDepth + 2 - depth
  {
    hide InstanceReaches, TrimSpace;
    if depth <= MaxDepth && id !in seen && db[id].action.Use? {
      var target := db[id].action.target;
      if target in db && db[target].enabled {
        forall z | z in ids && z in db && db[z].action.Own?
          ensures target != z && !InstanceReaches(db, target, z, Hops - (depth + 1))
        {
          if target == z || InstanceReaches(db, target, z, Hops - (depth + 1)) { HopBefore(db, id, target, z, Hops - depth); }
        }
        SameWithoutReach(db, ids, records, leaf, other, recordType, target, seen + {id}, depth + 1);
      }
    }
  }

  /**
   Batch invalidation covers evaluation: however the nodes change what the listed instances
   yield, no enabled instance of an unmarked record evaluates differently.
   */
  lemma BatchCoversEvaluation(db: Db, order: seq<string>, ids: seq<string>, records: map<string, RecordInfo>, leaf: Leaf, other: Leaf, recordType: string, id: string)
    requires Lists(db, order) && TrimmedIds(db) && (forall x :: x in ids ==> x in db) && YieldAlike(db, ids, leaf, other)
    requires id in db && db[id].enabled && db[id].record !in Marked(db, order, ids)
    ensures Evaluate(db, records, leaf, recordType, id, {}, 0) == Evaluate(db, records, other, recordType, id, {}, 0)
  {
    hide Evaluate, CollectAll, Explored, InstanceReaches, Reaches, TrimmedIds, YieldAlike, Lists;
    var record := db[id].record;
    CollectAllExactly(db, order, ids, record);
    forall z | z in ids && z in db && db[z].action.Own?
      ensures id != z && !InstanceReaches(db, id, z, Hops)
    {
      OwnIsExplored(db, order, ids, z);
      RecordReaches(db, id, z, Hops);
    }
    SameWithoutReach(db, ids, records, leaf, other, recordType, id, {}, 0);
  }

  // ---- which records skipping leaves out, on the reference graph

  ghost predicate Near(db: Db, y: string, r: string) {
    y == r || InstanceReaches(db, y, r, MaxDepth)
  }

  ghost predicate NearSome(db: Db, y: string, roots: set<string>) {
    exists r :: r in roots && Near(db, y, r)
  }

  /** The instances not within eight hops of an earlier one that is not skipped itself. */
  ghost function Leaders(db: Db, ids: seq<string>): set<string> {
    if ids == [] then {}
    else
      var front, id := Leaders(db, ids[..|ids| - 1]), ids[|ids| - 1];
      front + (if NearSome(db, id, front) then {} else {id})
  }

  lemma NearChain(db: Db, y: string, r: string) returns (path: seq<string>)
    requires Near(db, y, r) && y != r
    ensures Chain(db, path) && Open(path, {}) && 2 <= |path| <= MaxDepth + 1 && path[0] == r && path[|path| - 1] == y
  {
    hide Chain, Open;
    var long :| Chain(db, long) && |long| >= 2 && long[0] == r && long[|long| - 1] == y && |long| - 1 <= MaxDepth;
    path := ShortestTo(db, long);
  }

  lemma ChainIsNear(db: Db, path: seq<string>, j: nat)
    requires Chain(db, path) && |path| <= MaxDepth + 1 && j < |path|
    ensures Near(db, path[|path| - 1], path[j])
  {
    hide RefersTo;
    if j < |path| - 1 {
      var tail := path[j..];
      forall k | 1 <= k < |tail|
        ensures tail[k] in db && RefersTo(db[tail[k]], tail[k - 1])
      {
        assert tail[k] == path[j + k] && tail[k - 1] == path[j + k - 1];
      }
      assert Chain(db, tail);
    }
  }

  /** One turn: what is near the explored instance is visited, unless it hangs from an earlier one. */
  lemma TurnVisits(db: Db, order: seq<string>, seen: set<string>, roots: set<string>, id: string, y: string)
    requires Lists(db, order) && RootedAt(db, seen, roots) && id !in seen && Near(db, y, id)
    ensures y in Collect(db, order, id, seen, 0).seen || NearSome(db, y, roots)
  {
    hide Collect, RefersTo, RootedAt, Near, Rooted, Chain;
    if y == id {
      ItselfVisited(db, order, id, seen, 0);
    } else {
      var path := NearChain(db, y, id);
      if i :| 1 <= i < |path| - 1 && path[i] in seen {
        var j := PassesRoot(db, seen, roots, path, i);
        ChainIsNear(db, path, j);
      } else {
        ChainIsVisited(db, order, seen, 0, path);
      }
    }
  }

  /** Visited is exactly what is within eight hops of an explored instance. */
  lemma {:induction false} VisitedAllExactly(db: Db, order: seq<string>, ids: seq<string>, y: string)
    requires Lists(db, order)
    ensures y in CollectAll(db, order, ids).seen <==> NearSome(db, y, Explored(db, order, ids))
  {
    hide Collect, Near, RefersTo, Rooted, RootedAt;
    if ids != [] {
      var front, id := ids[..|ids| - 1], ids[|ids| - 1];
      var seen, roots := CollectAll(db, order, front).seen, Explored(db, order, front);
      VisitedAllExactly(db, order, front, y);
      if id in seen {
        SkipsVisited(db, order, id, seen);
      } else {
        SeenIsRooted(db, order, front);
        CollectAdds(db, order, id, seen, 0);
        NearNew(db, order, id, seen, y);
        if Near(db, y, id) { TurnVisits(db, order, seen, roots, id, y); }
        assert forall r :: r in Explored(db, order, ids) <==> r in roots || r == id;
      }
    }
  }

  lemma NearNew(db: Db, order: seq<string>, id: string, seen: set<string>, y: string)
    requires Lists(db, order)
    ensures y in Collect(db, order, id, seen, 0).seen && y !in seen ==> Near(db, y, id)
  {
    hide Collect, InstanceReaches;
    if y in Collect(db, order, id, seen, 0).seen && y !in seen { SeenSound(db, order, id, seen, 0, y); }
  }

  /** Explored, told from the references alone. */
  lemma {:induction false} ExploredExactly(db: Db, order: seq<string>, ids: seq<string>)
    requires Lists(db, order)
    ensures Explored(db, order, ids) == Leaders(db, ids)
  {
    hide CollectAll, NearSome;
    if ids != [] {
      var front, id := ids[..|ids| - 1], ids[|ids| - 1];
      ExploredExactly(db, order, front);
      VisitedAllExactly(db, order, front, id);
    }
  }

  function OwnRecords(db: Db, ids: seq<string>): set<string> {
    set id | id in ids && id in db :: db[id].record
  }

  /** Everything the batch marks. */
  function Marked(db: Db, order: seq<string>, ids: seq<string>): set<string>
    requires forall k :: k in order ==> k in db
  {
    OwnRecords(db, ids) + CollectAll(db, order, ids).affected
  }

  /** Every record that reaches a listed instance is marked. */
  ghost predicate Complete(db: Db, order: seq<string>, ids: seq<string>)
    requires Lists(db, order)
  {
    forall id, record :: id in ids && record in Affected(db, order, id) ==> record in Marked(db, order, ids)
  }

  /**
   No record is left out if and only if each one that reaches a skipped instance within nine
   hops is the record of a listed one or reaches a leader within nine.
   */
  lemma CompleteIff(db: Db, order: seq<string>, ids: seq<string>)
    requires Lists(db, order)
    ensures Complete(db, order, ids) <==>
              forall id, record :: id in ids && id !in Leaders(db, ids) && Reaches(db, record, id, Hops) ==>
                record in OwnRecords(db, ids) || ReachesSome(db, record, Leaders(db, ids))
  {
    hide Affected, Reaches, CollectAll, Explored, Leaders, OwnRecords;
    ExploredExactly(db, order, ids);
    forall id, record
      ensures record in Affected(db, order, id) <==> Reaches(db, record, id, Hops)
      ensures record in Marked(db, order, ids) <==> record in OwnRecords(db, ids) || ReachesSome(db, record, Leaders(db, ids))
      ensures id in Leaders(db, ids) && Reaches(db, record, id, Hops) ==> ReachesSome(db, record, Leaders(db, ids))
    {
      AffectedExactly(db, order, id, record);
      CollectAllExactly(db, order, ids, record);
    }
    hide Marked, ReachesSome;
    if Complete(db, order, ids) {
      forall id, record | id in ids && id !in Leaders(db, ids) && Reaches(db, record, id, Hops)
        ensures record in OwnRecords(db, ids) || ReachesSome(db, record, Leaders(db, ids))
      {
        assert record in Affected(db, order, id);
      }
    }
  }

  // ---- two instances

  /** Only instances within eight hops are visited. */
  lemma {:induction false} SeenSound(db: Db, order: seq<string>, id: string, seen: set<string>, depth: nat, y: string)
    requires forall k :: k in order ==> k in db
    requires y in Collect(db, order, id, seen, depth).seen && y !in seen
    ensures depth <= MaxDepth && (y == id || InstanceReaches(db, y, id, MaxDepth - depth))
    decreases MaxDepth + 1 - depth, |order| + 1
  {
    hide InstanceReaches;
    if y != id { EachSeenSound(db, order, id, seen + {id}, depth, |order|, y); }
  }

  lemma {:induction false} EachSeenSound(db: Db, order: seq<string>, id: string, seen: set<string>, depth: nat, n: nat, y: string)
    requires depth <= MaxDepth && n <= |order| && forall k :: k in order ==> k in db
    requires y in CollectEach(db, order, id, seen, depth, n).seen && y !in seen
    ensures InstanceReaches(db, y, id, MaxDepth - depth)
    decreases MaxDepth + 1 - depth, n
  {
    hide RefersTo, Collect, Chain;
    var before := CollectEach(db, order, id, seen, depth, n - 1);
    var candidate := order[n - 1];
    if y in before.seen {
      EachSeenSound(db, order, id, seen, depth, n - 1, y);
    } else {
      SeenSound(db, order, candidate, before.seen, depth + 1, y);
      if y == candidate {
        TwoChain(db, id, candidate);
      } else {
        var path :| Chain(db, path) && |path| >= 2 && path[0] == candidate && path[|path| - 1] == y && |path| - 1 <= MaxDepth - depth - 1;
        PrependChain(db, id, path);
      }
    }
  }

  lemma TwoChain(db: Db, id: string, candidate: string)
    requires candidate in db && RefersTo(db[candidate], id)
    ensures Chain(db, [id, candidate])
  {
  }

  lemma PrependChain(db: Db, id: string, path: seq<string>)
    requires Chain(db, path) && path[0] in db && RefersTo(db[path[0]], id)
    ensures Chain(db, [id] + path)
  {
    hide RefersTo;
    var longer := [id] + path;
    forall i | 1 <= i < |longer|
      ensures longer[i] in db && RefersTo(db[longer[i]], longer[i - 1])
    {
      if i > 1 { assert longer[i] == path[i - 1] && longer[i - 1] == path[i - 2]; }
    }
  }

  /** Visited from `first`: itself and exactly what reaches it within eight hops. */
  lemma VisitedExactly(db: Db, order: seq<string>, first: string, y: string)
    requires Lists(db, order)
    ensures y in Collect(db, order, first, {}, 0).seen <==> y == first || InstanceReaches(db, y, first, MaxDepth)
  {
    hide Collect, Chain, Open;
    if y in Collect(db, order, first, {}, 0).seen { SeenSound(db, order, first, {}, 0, y); }
    if y == first {
      ItselfVisited(db, order, first, {}, 0);
    } else if InstanceReaches(db, y, first, MaxDepth) {
      var path :| Chain(db, path) && |path| >= 2 && path[0] == first && path[|path| - 1] == y && |path| - 1 <= MaxDepth;
      ChainEnds(db, path);
      var short := ShortestTo(db, path);
      ChainIsVisited(db, order, {}, 0, short);
    }
  }

  lemma {:induction false} ShortestTo(db: Db, path: seq<string>) returns (short: seq<string>)
    requires Chain(db, path) && |path| >= 2
    ensures Chain(db, short) && Open(short, {}) && 2 <= |short| <= |path| && short[0] == path[0] && short[|short| - 1] == path[|path| - 1]
    decreases |path|
  {
    hide RefersTo;
    if i :| 1 <= i < |path| - 1 && path[i] == path[0] {
      var tail := path[i..];
      forall k | 1 <= k < |tail|
        ensures tail[k] in db && RefersTo(db[tail[k]], tail[k - 1])
      {
        assert tail[k] == path[i + k] && tail[k - 1] == path[i + k - 1];
      }
      short := ShortestTo(db, tail);
    } else {
      short := path;
    }
  }

  /**
   For two instances, a record the second affects is missed if and only if the second is
   within eight hops of the first and the record is not within nine of it.
   */
  lemma MissedIff(db: Db, order: seq<string>, first: string, second: string, record: string)
    requires Lists(db, order)
    ensures record in Affected(db, order, first) + Affected(db, order, second) && record !in CollectAll(db, order, [first, second]).affected
              <==>
            && (second == first || InstanceReaches(db, second, first, MaxDepth))
            && Reaches(db, record, second, Hops) && !Reaches(db, record, first, Hops)
  {
    hide Collect, Reaches, InstanceReaches, Affected;
    var ids := [first, second];
    assert ids[..1] == [first] && [first][..0] == [];
    AffectedExactly(db, order, first, record);
    AffectedExactly(db, order, second, record);
    CollectAllExactly(db, order, ids, record);
    VisitedExactly(db, order, first, second);
    assert CollectAll(db, order, [first]).seen == Collect(db, order, first, {}, 0).seen;
    assert Explored(db, order, [first]) == {first};
    var roots := Explored(db, order, ids);
    assert roots == if second in CollectAll(db, order, [first]).seen then {first} else {first, second};
    assert first in roots;
  }

  // ---- for instance: eleven instances, each using the one before

  function Id(i: nat): (id: string)
    ensures |id| == i + 1
  {
    seq(i + 1, _ => 'a')
  }

  lemma IdIsTrimmed(i: nat)
    ensures TrimSpace(Id(i)) == Id(i)
  {
    assert Trimmed(Id(i));
  }

  function Ids(from: nat, to: nat): (ids: seq<string>)
    requires from <= to
    ensures |ids| == to - from && forall i :: 0 <= i < |ids| ==> ids[i] == Id(from + i)
  {
    seq(to - from, i requires i >= 0 => Id(from + i))
  }

  /** Instance `i` belongs to a record of its own and uses instance `i - 1`. */
  function Member(i: nat): Instance {
    Instance(Id(i), true, if i == 0 then Own("") else Use(Id(i - 1)))
  }

  function Row(length: nat): Db {
    if length == 0 then map[] else Row(length - 1)[Id(length - 1) := Member(length - 1)]
  }

  lemma {:induction false} RowHas(length: nat)
    ensures forall i: nat :: i < length ==> Id(i) in Row(length) && Row(length)[Id(i)] == Member(i)
    ensures forall id :: id in Row(length) ==> 0 < |id| <= length && id == Id(|id| - 1)
  {
    hide Member;
    if length > 0 {
      RowHas(length - 1);
      forall i: nat | i < length
        ensures Id(i) in Row(length) && Row(length)[Id(i)] == Member(i)
      {
        assert i < length - 1 ==> |Id(i)| != |Id(length - 1)|;
      }
    }
  }

  /** In the row, references count down one by one. */
  lemma RowRefers(length: nat, i: nat, target: string)
    requires i < length
    ensures Id(i) in Row(length)
    ensures RefersTo(Row(length)[Id(i)], target) <==> i > 0 && target == Id(i - 1)
  {
    hide TrimSpace, Row;
    RowHas(length);
    if i > 0 { IdIsTrimmed(i - 1); }
  }

  lemma RowChain(length: nat, from: nat, to: nat)
    requires from < to < length
    ensures ChainTo(Row(length), Ids(from, to + 1), Id(to), Id(from)) && Open(Ids(from, to + 1), {})
  {
    hide Chain, Open, Row, Id;
    RowLinks(length, from, to);
    RowOpen(from, to);
    RowRecord(length, to);
    var path := Ids(from, to + 1);
    assert |path| == to + 1 - from >= 2;
    assert path[0] == Id(from) && path[|path| - 1] == Id(to);
  }

  lemma RowRecord(length: nat, i: nat)
    requires i < length
    ensures Id(i) in Row(length) && Row(length)[Id(i)].record == Id(i)
  {
    hide Row, Id;
    RowHas(length);
  }

  lemma RowLinks(length: nat, from: nat, to: nat)
    requires from < to < length
    ensures Chain(Row(length), Ids(from, to + 1))
  {
    hide RefersTo, Row, Id;
    var path := Ids(from, to + 1);
    forall i | 1 <= i < |path|
      ensures path[i] in Row(length) && RefersTo(Row(length)[path[i]], path[i - 1])
    {
      assert path[i - 1] == Id(from + (i - 1));
      RowRefers(length, from + i, path[i - 1]);
    }
  }

  lemma RowOpen(from: nat, to: nat)
    requires from < to
    ensures Open(Ids(from, to + 1), {})
  {
    hide Id;
    var path := Ids(from, to + 1);
    forall i | 1 <= i < |path| - 1
      ensures path[i] != path[0]
    {
      assert |path[i]| != |path[0]|;
    }
  }

  lemma {:induction false} RowCountsDown(length: nat, path: seq<string>, last: nat, j: nat)
    requires Chain(Row(length), path) && path[|path| - 1] == Id(last) && last < length && j < |path|
    ensures j <= last && path[|path| - 1 - j] == Id(last - j)
  {
    hide RefersTo, Row, Id;
    if j > 0 {
      RowCountsDown(length, path, last, j - 1);
      var i := |path| - j;
      RowRefers(length, last - (j - 1), path[i - 1]);
      assert RefersTo(Row(length)[path[i]], path[i - 1]);
    }
  }

  lemma RowOutOfReach(length: nat, last: nat)
    requires MaxDepth + 1 < last < length
    ensures !Reaches(Row(length), Id(last), Id(0), MaxDepth + 1)
  {
    hide Row, Chain, Id;
    forall path | ChainTo(Row(length), path, Id(last), Id(0))
      ensures |path| - 1 > MaxDepth + 1
    {
      ChainEnds(Row(length), path);
      RowHas(length);
      assert path[|path| - 1] == Id(last);
      RowCountsDown(length, path, last, |path| - 1);
      assert |Id(last - (|path| - 1))| == |Id(0)|;
    }
  }

  lemma ChainEnds(db: Db, path: seq<string>)
    requires Chain(db, path) && |path| >= 2
    ensures path[|path| - 1] in db
  {
  }

  lemma RowIsListed(length: nat)
    ensures Lists(Row(length), Ids(0, length))
  {
    hide Row, Id;
    RowHas(length);
    var order := Ids(0, length);
    forall i, j | 0 <= i < j < length
      ensures order[i] != order[j]
    {
      assert |order[i]| != |order[j]|;
    }
    forall id
      ensures id in Row(length) <==> id in order
    {
      if id in Row(length) { assert order[|id| - 1] == id; }
    }
  }

  /**
   Listing instances 0 and 5, the record of instance 10 reaches instance 5 and is left out. It
   makes no difference: past eight hops evaluation is refused.
   */
  lemma RecordTenIsLeftOut()
    ensures Lists(Row(11), Ids(0, 11))
    ensures var db, order := Row(11), Ids(0, 11);
            && Id(10) in Affected(db, order, Id(5))
            && Id(10) !in Affected(db, order, Id(0)) && Id(10) !in CollectAll(db, order, [Id(0), Id(5)]).affected
  {
    hide Row, CollectAll, Affected, Chain, Open, Id, Lists;
    RowIsListed(11);
    RowChain(11, 0, 5);
    RowChain(11, 5, 10);
    var db, order := Row(11), Ids(0, 11);
    assert Reaches(db, Id(10), Id(5), Hops);
    assert InstanceReaches(db, Id(5), Id(0), MaxDepth);
    hide Reaches, InstanceReaches;
    RowOutOfReach(11, 10);
    MissedIff(db, order, Id(0), Id(5), Id(10));
    AffectedExactly(db, order, Id(5), Id(10));
    AffectedExactly(db, order, Id(0), Id(10));
  }
}
