/**
 DNS instances may use another instance's output. When an instance changes, the records
 whose evaluation could read it must be evaluated again: this collects them, and what
 evaluation reads is covered by what is collected.
 */
module DnsInvalidation {
  import opened Text

  /** What an instance does: use another one's output, or something of its own. */
  datatype Action = Use(target: string) | Own(payload: string) | BadJSON

  datatype Instance = Instance(record: string, enabled: bool, action: Action)

  type Db = map<string, Instance>

  const MaxDepth: nat := 8

  predicate RefersTo(instance: Instance, id: string) {
    instance.action.Use? && TrimSpace(instance.action.target) == id
  }

  /** The organization's instances in listing order. */
  ghost predicate Lists(db: Db, order: seq<string>) {
    && (forall id :: id in db <==> id in order)
    && (forall i, j :: 0 <= i < j < |order| ==> order[i] != order[j])
  }

  // ---- collection

  datatype Found = Found(affected: set<string>, seen: set<string>)

  /** The recursion with its shared set of visited instances. */
  function Collect(db: Db, order: seq<string>, id: string, seen: set<string>, depth: nat): Found
    requires forall k :: k in order ==> k in db
    decreases MaxDepth + 1 - depth, |order| + 1
  {
    if depth > MaxDepth || id in seen then Found({}, seen)
    else CollectEach(db, order, id, seen + {id}, depth, |order|)
  }

  /** The first `n` candidates. */
  function CollectEach(db: Db, order: seq<string>, id: string, seen: set<string>, depth: nat, n: nat): Found
    requires depth <= MaxDepth && n <= |order| && forall k :: k in order ==> k in db
    decreases MaxDepth + 1 - depth, n
  {
    if n == 0 then Found({}, seen)
    else
      var before := CollectEach(db, order, id, seen, depth, n - 1);
      var candidate := order[n - 1];
      if !RefersTo(db[candidate], id) then before
      else
        var child := Collect(db, order, candidate, before.seen, depth + 1);
        Found(before.affected + {db[candidate].record} + child.affected, child.seen)
  }

  class Collector {
    const db: Db
    const order: seq<string>
    var seen: set<string>

    constructor (db: Db, order: seq<string>)
      ensures this.db == db && this.order == order && seen == {}
    {
      this.db, this.order, seen := db, order, {};
    }

    /** Terminates on cyclic references: the depth bounds the recursion. */
    method CollectReferencing(id: string, depth: nat) returns (affected: set<string>)
      requires forall k :: k in order ==> k in db
      modifies this
      ensures Found(affected, seen) == Collect(db, order, id, old(seen), depth)
      decreases MaxDepth + 1 - depth
    {
      affected := {};
      if depth > MaxDepth || id in seen { return; }
      seen := seen + {id};
      for i := 0 to |order|
        invariant Found(affected, seen) == CollectEach(db, order, id, old(seen) + {id}, depth, i)
      {
        if RefersTo(db[order[i]], id) {
          affected := affected + {db[order[i]].record};
          var child := CollectReferencing(order[i], depth + 1);
          affected := affected + child;
        }
      }
    }
  }

  // ---- reference chains

  /** `path[0]` is referenced by `path[1]`, which is referenced by `path[2]`, … */
  ghost predicate Chain(db: Db, path: seq<string>) {
    && path != []
    && forall i :: 1 <= i < |path| ==> path[i] in db && RefersTo(db[path[i]], path[i - 1])
  }

  /** An instance of the record reaches `id` in 1 to `hops` hops. */
  ghost predicate Reaches(db: Db, record: string, id: string, hops: nat) {
    exists path :: ChainTo(db, path, record, id) && |path| - 1 <= hops
  }

  ghost predicate ChainTo(db: Db, path: seq<string>, record: string, id: string) {
    Chain(db, path) && |path| >= 2 && path[0] == id && db[path[|path| - 1]].record == record
  }

  lemma ExtendChain(db: Db, id: string, candidate: string, path: seq<string>, record: string)
    requires candidate in db && RefersTo(db[candidate], id) && ChainTo(db, path, record, candidate)
    ensures ChainTo(db, [id] + path, record, id)
  {
    hide RefersTo;
    var longer := [id] + path;
    forall i | 1 <= i < |longer|
      ensures longer[i] in db && RefersTo(db[longer[i]], longer[i - 1])
    {
      if i > 1 { assert longer[i] == path[i - 1] && longer[i - 1] == path[i - 2]; }
    }
  }

  /** Only records that do reach the changed instance are collected. */
  lemma {:induction false} CollectSound(db: Db, order: seq<string>, id: string, seen: set<string>, depth: nat, record: string)
    requires forall k :: k in order ==> k in db
    requires record in Collect(db, order, id, seen, depth).affected
    ensures depth <= MaxDepth && Reaches(db, record, id, MaxDepth + 1 - depth)
    decreases MaxDepth + 1 - depth, |order| + 1
  {
    hide Reaches;
    EachSound(db, order, id, seen + {id}, depth, |order|, record);
  }

  lemma {:induction false} EachSound(db: Db, order: seq<string>, id: string, seen: set<string>, depth: nat, n: nat, record: string)
    requires depth <= MaxDepth && n <= |order| && forall k :: k in order ==> k in db
    requires record in CollectEach(db, order, id, seen, depth, n).affected
    ensures Reaches(db, record, id, MaxDepth + 1 - depth)
    decreases MaxDepth + 1 - depth, n
  {
    hide RefersTo, Collect;
    var before := CollectEach(db, order, id, seen, depth, n - 1);
    var candidate := order[n - 1];
    if record in before.affected {
      EachSound(db, order, id, seen, depth, n - 1, record);
    } else if record == db[candidate].record {
      assert ChainTo(db, [id, candidate], record, id);
    } else {
      CollectSound(db, order, candidate, before.seen, depth + 1, record);
      var path :| ChainTo(db, path, record, candidate) && |path| - 1 <= MaxDepth - depth;
      ExtendChain(db, id, candidate, path, record);
    }
  }

  // ---- nothing within reach is missed

  /** What a call newly visits: its own instance, and instances that refer to newly visited ones. */
  ghost predicate Rooted(db: Db, added: set<string>, id: string) {
    forall y :: y in added && y != id ==> y in db && exists p :: p in added && RefersTo(db[y], p)
  }

  lemma {:induction false} CollectAdds(db: Db, order: seq<string>, id: string, seen: set<string>, depth: nat)
    requires forall k :: k in order ==> k in db
    ensures var after := Collect(db, order, id, seen, depth).seen;
            seen <= after && Rooted(db, after - seen, id)
    decreases MaxDepth + 1 - depth, |order| + 1
  {
    if depth <= MaxDepth && id !in seen {
      EachAdds(db, order, id, seen + {id}, depth, |order|);
      var after := CollectEach(db, order, id, seen + {id}, depth, |order|).seen;
      assert after - (seen + {id}) <= after - seen;
      forall y | y in after - seen && y != id
        ensures y in db && exists p :: p in after - seen && RefersTo(db[y], p)
      {
        assert y in after - (seen + {id});
        assert y in db;
        var p :| p in (after - (seen + {id})) + {id} && RefersTo(db[y], p);
        assert p in after - seen;
      }
    }
  }

  lemma {:induction false} EachAdds(db: Db, order: seq<string>, id: string, seen: set<string>, depth: nat, n: nat)
    requires depth <= MaxDepth && n <= |order| && forall k :: k in order ==> k in db
    ensures var after := CollectEach(db, order, id, seen, depth, n).seen;
            seen <= after
            && forall y :: y in after - seen ==> y in db && exists p :: p in (after - seen) + {id} && RefersTo(db[y], p)
    decreases MaxDepth + 1 - depth, n
  {
    hide RefersTo, Collect;
    if n > 0 {
      var before := CollectEach(db, order, id, seen, depth, n - 1).seen;
      var candidate := order[n - 1];
      EachAdds(db, order, id, seen, depth, n - 1);
      if RefersTo(db[candidate], id) {
        CollectAdds(db, order, candidate, before, depth + 1);
        var after := Collect(db, order, candidate, before, depth + 1).seen;
        forall y | y in after - seen
          ensures y in db && exists p :: p in (after - seen) + {id} && RefersTo(db[y], p)
        {
          if y in before {
            var p :| p in (before - seen) + {id} && RefersTo(db[y], p);
            assert p in (after - seen) + {id};
          } else if y == candidate {
            assert id in (after - seen) + {id};
          } else {
            assert y in after - before;
            var p :| p in after - before && RefersTo(db[y], p);
            assert p in (after - seen) + {id};
          }
        }
      }
    }
  }

  /** Within the chain, `path[0]` occurs only at its start and no inner instance was visited. */
  ghost predicate Open(path: seq<string>, seen: set<string>) {
    forall i :: 1 <= i < |path| - 1 ==> path[i] != path[0] && path[i] !in seen
  }

  /** Looking at earlier siblings does not visit the chain of a later one. */
  lemma {:induction false} SiblingsApart(db: Db, added: set<string>, sibling: string, id: string, path: seq<string>, i: nat)
    requires Chain(db, path) && path[0] == id && Open(path, {}) && 1 <= i < |path| - 1
    requires Rooted(db, added, sibling) && id !in added && sibling in db && RefersTo(db[sibling], id) && sibling != path[1]
    ensures path[i] !in added
    decreases i
  {
    if path[i] in added {
      assert RefersTo(db[path[i]], path[i - 1]);
      if path[i] != sibling {
        var p :| p in added && RefersTo(db[path[i]], p);
        assert p == path[i - 1];
        if i > 1 { SiblingsApart(db, added, sibling, id, path, i - 1); }
      }
    }
  }

  /** Candidates before `path[1]` leave the inner chain unvisited. */
  lemma {:induction false} EarlierLeaveOpen(db: Db, order: seq<string>, id: string, seen: set<string>, depth: nat, n: nat, path: seq<string>)
    requires Lists(db, order) && depth <= MaxDepth && n <= |order|
    requires Chain(db, path) && path[0] == id && Open(path, seen) && id in seen
    requires |path| >= 2 && forall k :: 0 <= k < n ==> order[k] != path[1]
    ensures Open(path, CollectEach(db, order, id, seen, depth, n).seen)
    ensures seen <= CollectEach(db, order, id, seen, depth, n).seen
    decreases n
  {
    hide RefersTo, Collect;
    if n > 0 {
      EarlierLeaveOpen(db, order, id, seen, depth, n - 1, path);
      var before := CollectEach(db, order, id, seen, depth, n - 1).seen;
      var candidate := order[n - 1];
      if RefersTo(db[candidate], id) {
        CollectAdds(db, order, candidate, before, depth + 1);
        var after := Collect(db, order, candidate, before, depth + 1).seen;
        forall i | 1 <= i < |path| - 1
          ensures path[i] !in after
        {
          SiblingsApart(db, after - before, candidate, id, path, i);
        }
      }
    }
  }

  lemma {:induction false} EachKeeps(db: Db, order: seq<string>, id: string, seen: set<string>, depth: nat, m: nat, n: nat)
    requires depth <= MaxDepth && m <= n <= |order| && forall k :: k in order ==> k in db
    ensures CollectEach(db, order, id, seen, depth, m).affected <= CollectEach(db, order, id, seen, depth, n).affected
    decreases n - m
  {
    hide RefersTo, Collect;
    if m < n { EachKeeps(db, order, id, seen, depth, m, n - 1); }
  }

  lemma ChainTail(db: Db, path: seq<string>, seen: set<string>)
    requires Chain(db, path) && |path| >= 3 && Open(path, seen)
    ensures Chain(db, path[1..]) && Open(path[1..], seen)
  {
    var tail := path[1..];
    forall i | 1 <= i < |tail|
      ensures tail[i] in db && RefersTo(db[tail[i]], tail[i - 1])
    {
      assert tail[i] == path[i + 1] && tail[i - 1] == path[i];
    }
    forall i | 1 <= i < |tail| - 1
      ensures tail[i] != tail[0] && tail[i] !in seen
    {
      assert tail[i] == path[i + 1] && tail[0] == path[1];
      assert RefersTo(db[path[i + 1]], path[i]) && RefersTo(db[path[1]], path[0]);
    }
  }

  lemma {:induction false} ChainIsCollected(db: Db, order: seq<string>, seen: set<string>, depth: nat, path: seq<string>)
    requires Lists(db, order) && Chain(db, path) && |path| >= 2 && Open(path, seen) && path[0] !in seen
    requires |path| - 1 <= MaxDepth + 1 - depth && depth <= MaxDepth
    ensures db[path[|path| - 1]].record in Collect(db, order, path[0], seen, depth).affected
    decreases |path|
  {
    hide RefersTo;
    var id := path[0];
    var visited := seen + {id};
    assert path[1] in order;
    var j :| 0 <= j < |order| && order[j] == path[1];
    assert Open(path, visited);
    EarlierLeaveOpen(db, order, id, visited, depth, j, path);
    var before := CollectEach(db, order, id, visited, depth, j).seen;
    assert RefersTo(db[path[1]], path[0]);
    if |path| > 2 {
      ChainTail(db, path, before);
      assert path[1] !in before;
      ChainIsCollected(db, order, before, depth + 1, path[1..]);
    }
    hide Collect;
    EachKeeps(db, order, id, visited, depth, j + 1, |order|);
    hide CollectEach;
    CollectUnfolds(db, order, id, seen, depth);
  }

  lemma CollectUnfolds(db: Db, order: seq<string>, id: string, seen: set<string>, depth: nat)
    requires depth <= MaxDepth && id !in seen && forall k :: k in order ==> k in db
    ensures Collect(db, order, id, seen, depth) == CollectEach(db, order, id, seen + {id}, depth, |order|)
  {
  }

  /** Every chain contains one that meets its end only once. */
  lemma {:induction false} FirstHit(db: Db, path: seq<string>, record: string, id: string) returns (short: seq<string>)
    requires ChainTo(db, path, record, id)
    ensures ChainTo(db, short, record, id) && Open(short, {}) && |short| <= |path|
    decreases |path|
  {
    hide RefersTo;
    if i :| 1 <= i < |path| - 1 && path[i] == id {
      var tail := path[i..];
      forall k | 1 <= k < |tail|
        ensures tail[k] in db && RefersTo(db[tail[k]], tail[k - 1])
      {
        assert tail[k] == path[i + k] && tail[k - 1] == path[i + k - 1];
      }
      short := FirstHit(db, tail, record, id);
    } else {
      short := path;
    }
  }

  ghost function Affected(db: Db, order: seq<string>, id: string): set<string>
    requires Lists(db, order)
  {
    Collect(db, order, id, {}, 0).affected
  }

  /** Exactly the records with an instance whose references reach the changed one within nine hops. */
  lemma AffectedExactly(db: Db, order: seq<string>, id: string, record: string)
    requires Lists(db, order)
    ensures record in Affected(db, order, id) <==> Reaches(db, record, id, 9)
  {
    hide Collect, Chain, Open;
    if record in Affected(db, order, id) {
      CollectSound(db, order, id, {}, 0, record);
    }
    if Reaches(db, record, id, MaxDepth + 1) {
      var path :| ChainTo(db, path, record, id) && |path| - 1 <= MaxDepth + 1;
      var short := FirstHit(db, path, record, id);
      ChainIsCollected(db, order, {}, 0, short);
    }
  }

  // ---- what evaluation reads

  datatype RecordInfo = RecordInfo(recordType: string, deletePending: bool)

  datatype Outcome = Answer(values: seq<string>) | NotFound | Refused(code: string)

  /** The values an instance yields by itself, given the record type asked for. */
  type Leaf = (Instance, string) -> Outcome

  function Evaluate(db: Db, records: map<string, RecordInfo>, leaf: Leaf, recordType: string, id: string, seen: set<string>, depth: nat): Outcome
    requires id in db
    decreases MaxDepth + 2 - depth
  {
    if depth > MaxDepth then Refused("INSTANCE_REFERENCE_DEPTH_EXCEEDED")
    else if id in seen then Refused("INSTANCE_REFERENCE_CYCLE")
    else match db[id].action
      case BadJSON => Refused("INVALID_ACTION")
      case Own(_) => leaf(db[id], recordType)
      case Use(target) =>
        if target !in db then NotFound
        else if !db[target].enabled then Refused("REFERENCED_INSTANCE_DISABLED")
        else if db[target].record !in records then NotFound
        else if records[db[target].record].deletePending then Refused("REFERENCED_INSTANCE_DELETE_PENDING")
        else if records[db[target].record].recordType != recordType then Refused("REFERENCED_INSTANCE_RECORD_TYPE_MISMATCH")
        else Evaluate(db, records, leaf, recordType, target, seen + {id}, depth + 1)
  }

  /** Two states of the database that differ in one instance at most: changed, created or removed. */
  ghost predicate DifferAt(db: Db, other: Db, x: string) {
    forall id :: id != x ==> (id in db <==> id in other) && (id in db ==> other[id] == db[id])
  }

  ghost predicate TrimmedIds(db: Db) {
    forall id :: id in db ==> TrimSpace(id) == id
  }

  ghost predicate InstanceReaches(db: Db, id: string, x: string, hops: int) {
    exists path :: Chain(db, path) && |path| >= 2 && path[0] == x && path[|path| - 1] == id && |path| - 1 <= hops
  }

  lemma RecordReaches(db: Db, id: string, x: string, hops: nat)
    requires id in db
    ensures InstanceReaches(db, id, x, hops) ==> Reaches(db, db[id].record, x, hops)
  {
    hide Chain;
    if InstanceReaches(db, id, x, hops) {
      var path :| Chain(db, path) && |path| >= 2 && path[0] == x && path[|path| - 1] == id && |path| - 1 <= hops;
      assert ChainTo(db, path, db[id].record, x);
    }
  }

  lemma HopBefore(db: Db, id: string, target: string, x: string, hops: int)
    requires id in db && RefersTo(db[id], target)
    requires InstanceReaches(db, target, x, hops - 1) || (target == x && hops >= 1)
    ensures InstanceReaches(db, id, x, hops)
  {
    hide RefersTo;
    if target == x && hops >= 1 {
      assert Chain(db, [x, id]);
    } else {
      var path :| Chain(db, path) && |path| >= 2 && path[0] == x && path[|path| - 1] == target && |path| - 1 <= hops - 1;
      var longer := path + [id];
      forall i | 1 <= i < |longer|
        ensures longer[i] in db && RefersTo(db[longer[i]], longer[i - 1])
      {
        if i < |path| { assert longer[i] == path[i] && longer[i - 1] == path[i - 1]; }
      }
      assert Chain(db, longer) && longer[|longer| - 1] == id;
    }
  }

  lemma {:induction false} OutOfReachIsUnread(db: Db, other: Db, x: string, records: map<string, RecordInfo>, leaf: Leaf, recordType: string, id: string, seen: set<string>, depth: nat)
    requires DifferAt(db, other, x) && TrimmedIds(db) && TrimSpace(x) == x && id in db && id != x
    requires !InstanceReaches(db, id, x, MaxDepth + 1 - depth)
    ensures id in other && Evaluate(db, records, leaf, recordType, id, seen, depth) == Evaluate(other, records, leaf, recordType, id, seen, depth)
    decreases MaxDepth + 2 - depth
  {
    hide InstanceReaches, TrimSpace;
    if depth <= MaxDepth && id !in seen && db[id].action.Use? {
      var target := db[id].action.target;
      if target == x {
        HopBefore(db, id, target, x, MaxDepth + 1 - depth);
      } else if target in db {
        if InstanceReaches(db, target, x, MaxDepth - depth) { HopBefore(db, id, target, x, MaxDepth + 1 - depth); }
        if depth + 1 <= MaxDepth + 1 {
          OutOfReachIsUnread(db, other, x, records, leaf, recordType, target, seen + {id}, depth + 1);
        }
      }
    }
  }

  /**
   Invalidation covers evaluation: whatever happens to instance `x`, no instance of a record
   that is not collected evaluates differently, diagnostics included.
   */
  lemma InvalidationCoversEvaluation(db: Db, other: Db, order: seq<string>, x: string, records: map<string, RecordInfo>, leaf: Leaf, recordType: string, id: string)
    requires Lists(db, order) && DifferAt(db, other, x) && TrimmedIds(db) && TrimSpace(x) == x
    requires id in db && id != x && db[id].record !in Affected(db, order, x)
    ensures id in other && Evaluate(db, records, leaf, recordType, id, {}, 0) == Evaluate(other, records, leaf, recordType, id, {}, 0)
  {
    hide Evaluate, Affected, Chain, InstanceReaches, Reaches, TrimSpace, TrimmedIds, DifferAt, Lists;
    AffectedExactly(db, order, x, db[id].record);
    RecordReaches(db, id, x, MaxDepth + 1);
    OutOfReachIsUnread(db, other, x, records, leaf, recordType, id, {}, 0);
  }

  // ---- several changed instances sharing one set of visited instances

  lemma {:induction false} EachSeenGrows(db: Db, order: seq<string>, id: string, seen: set<string>, depth: nat, m: nat, n: nat)
    requires depth <= MaxDepth && m <= n <= |order| && forall k :: k in order ==> k in db
    ensures CollectEach(db, order, id, seen, depth, m).seen <= CollectEach(db, order, id, seen, depth, n).seen
    decreases n - m
  {
    hide RefersTo, Collect;
    if m < n {
      EachSeenGrows(db, order, id, seen, depth, m, n - 1);
      CollectAdds(db, order, order[n - 1], CollectEach(db, order, id, seen, depth, n - 1).seen, depth + 1);
    }
  }

  lemma {:induction false} ChainIsVisited(db: Db, order: seq<string>, seen: set<string>, depth: nat, path: seq<string>)
    requires Lists(db, order) && Chain(db, path) && Open(path, seen) && path[0] !in seen
    requires |path| - 1 <= MaxDepth - depth
    ensures path[|path| - 1] in Collect(db, order, path[0], seen, depth).seen
    decreases |path|
  {
    hide RefersTo;
    var id := path[0];
    var visited := seen + {id};
    CollectUnfolds(db, order, id, seen, depth);
    if |path| == 1 {
      EachSeenGrows(db, order, id, visited, depth, 0, |order|);
    } else {
      assert path[1] in order;
      var j :| 0 <= j < |order| && order[j] == path[1];
      assert Open(path, visited);
      EarlierLeaveOpen(db, order, id, visited, depth, j, path);
      var before := CollectEach(db, order, id, visited, depth, j).seen;
      assert RefersTo(db[path[1]], path[0]);
      if |path| > 2 {
        ChainTail(db, path, before);
        ChainIsVisited(db, order, before, depth + 1, path[1..]);
      } else {
        ItselfVisited(db, order, path[1], before, depth + 1);
      }
      EachSeenGrows(db, order, id, visited, depth, j + 1, |order|);
    }
  }

  lemma ItselfVisited(db: Db, order: seq<string>, id: string, seen: set<string>, depth: nat)
    requires depth <= MaxDepth && forall k :: k in order ==> k in db
    ensures id in Collect(db, order, id, seen, depth).seen
  {
    hide RefersTo;
    if id !in seen { EachSeenGrows(db, order, id, seen + {id}, depth, 0, |order|); }
  }

  // ---- what evaluation yields

  /** Each instance of the path uses the output of the one before. */
  ghost predicate Uses(db: Db, path: seq<string>) {
    && path != [] && (forall i :: 0 <= i < |path| ==> path[i] in db)
    && forall i :: 1 <= i < |path| ==> db[path[i]].action == Use(path[i - 1])
  }

  predicate Usable(db: Db, records: map<string, RecordInfo>, recordType: string, id: string) {
    && id in db && db[id].enabled && db[id].record in records
    && !records[db[id].record].deletePending && records[db[id].record].recordType == recordType
  }

  /** All but the last can be used for the record type. */
  ghost predicate AllUsable(db: Db, records: map<string, RecordInfo>, recordType: string, path: seq<string>) {
    forall i :: 0 <= i < |path| - 1 ==> Usable(db, records, recordType, path[i])
  }

  ghost predicate NoneSeen(path: seq<string>, seen: set<string>) {
    && (forall i :: 0 <= i < |path| ==> path[i] !in seen)
    && (forall i, j :: 0 <= i < j < |path| ==> path[i] != path[j])
  }

  lemma {:induction false} EvaluateAlong(db: Db, records: map<string, RecordInfo>, leaf: Leaf, recordType: string, path: seq<string>, seen: set<string>, depth: nat)
    requires Uses(db, path) && AllUsable(db, records, recordType, path) && NoneSeen(path, seen)
    ensures var outcome := Evaluate(db, records, leaf, recordType, path[|path| - 1], seen, depth);
            && (depth + |path| - 1 <= MaxDepth && db[path[0]].action.Own? ==> outcome == leaf(db[path[0]], recordType))
            && (depth <= MaxDepth + 1 <= depth + |path| - 1 ==> outcome == Refused("INSTANCE_REFERENCE_DEPTH_EXCEEDED"))
    decreases |path|
  {
    if |path| > 1 && depth <= MaxDepth {
      var front := path[..|path| - 1];
      assert Usable(db, records, recordType, front[|front| - 1]);
      EvaluateAlong(db, records, leaf, recordType, front, seen + {path[|path| - 1]}, depth + 1);
    }
  }

  /** References that end at an instance with output of its own never meet an instance twice. */
  lemma {:induction false} NoRepeats(db: Db, path: seq<string>, i: nat, j: nat)
    requires Uses(db, path) && db[path[0]].action.Own? && i < j < |path|
    ensures path[i] != path[j]
    decreases i
  {
    assert db[path[j]].action == Use(path[j - 1]);
    if i > 0 {
      assert db[path[i]].action == Use(path[i - 1]);
      NoRepeats(db, path, i - 1, j - 1);
    }
  }

  /** Within eight hops an instance yields what the instance at the end of its references yields. */
  lemma EvaluationYields(db: Db, records: map<string, RecordInfo>, leaf: Leaf, recordType: string, path: seq<string>)
    requires Uses(db, path) && AllUsable(db, records, recordType, path) && db[path[0]].action.Own? && |path| - 1 <= 8
    ensures Evaluate(db, records, leaf, recordType, path[|path| - 1], {}, 0) == leaf(db[path[0]], recordType)
  {
    forall i, j | 0 <= i < j < |path|
      ensures path[i] != path[j]
    {
      NoRepeats(db, path, i, j);
    }
    EvaluateAlong(db, records, leaf, recordType, path, {}, 0);
  }

  /** Beyond eight it is refused. */
  lemma EvaluationRefusesDepth(db: Db, records: map<string, RecordInfo>, leaf: Leaf, recordType: string, path: seq<string>)
    requires Uses(db, path) && AllUsable(db, records, recordType, path) && NoneSeen(path, {}) && |path| - 1 >= 9
    ensures Evaluate(db, records, leaf, recordType, path[|path| - 1], {}, 0) == Refused("INSTANCE_REFERENCE_DEPTH_EXCEEDED")
  {
    EvaluateAlong(db, records, leaf, recordType, path, {}, 0);
  }

  /** A target that cannot be used is refused, with the reason. */
  lemma EvaluationRefusesTarget(db: Db, records: map<string, RecordInfo>, leaf: Leaf, recordType: string, id: string, target: string)
    requires id in db && db[id].action == Use(target) && !Usable(db, records, recordType, target)
    ensures Evaluate(db, records, leaf, recordType, id, {}, 0) ==
              if target !in db then NotFound
              else if !db[target].enabled then Refused("REFERENCED_INSTANCE_DISABLED")
              else if db[target].record !in records then NotFound
              else if records[db[target].record].deletePending then Refused("REFERENCED_INSTANCE_DELETE_PENDING")
              else Refused("REFERENCED_INSTANCE_RECORD_TYPE_MISMATCH")
  {
  }

  /** A padded reference is followed by the collection. */
  lemma PaddedReferenceIsCollected(db: Db, order: seq<string>, id: string, candidate: string)
    requires Lists(db, order) && candidate in db && db[candidate].action.Use? && TrimSpace(db[candidate].action.target) == id
    ensures db[candidate].record in Affected(db, order, id)
  {
    hide TrimSpace, Collect, Affected;
    assert ChainTo(db, [id, candidate], db[candidate].record, id);
    AffectedExactly(db, order, id, db[candidate].record);
  }
}
