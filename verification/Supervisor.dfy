/**
 Switching a node from one set of listeners to another. Binds may fail at any point;
 `running` is the set of bound sockets, `trace` every value it has ever had.
 */
module Supervisor {
  import opened Text
  import opened Listeners

  /** A running listener; its identity shows whether a socket was kept or bound anew. */
  datatype Runtime = Runtime(id: nat, rules: seq<Rule>)

  datatype Stopped = Stopped(key: Key, rules: seq<Rule>)

  datatype Outcome = Applied | Rejected | BindFailed(key: Key) | RestoreFailed(key: Key)

  ghost predicate Doomed(parse: Parser, grouped: map<Key, seq<Rule>>, key: Key) {
    key !in grouped && exists other :: other in grouped && Overlap(parse, key, other)
  }

  /** The listeners of `before` that survive the first phase. */
  ghost predicate Survivors(parse: Parser, grouped: map<Key, seq<Rule>>, before: map<Key, Runtime>, after: map<Key, Runtime>) {
    && (forall key :: key in after <==> key in before && !Doomed(parse, grouped, key))
    && (forall key :: key in after ==> after[key] == before[key])
  }

  /** `stopped` lists, once each, the doomed listeners with the rules they had. */
  ghost predicate Lists(parse: Parser, grouped: map<Key, seq<Rule>>, before: map<Key, Runtime>, stopped: seq<Stopped>) {
    && (forall i :: 0 <= i < |stopped| ==>
          stopped[i].key in before && Doomed(parse, grouped, stopped[i].key) && stopped[i].rules == before[stopped[i].key].rules)
    && (forall key :: key in before && Doomed(parse, grouped, key) ==> exists i :: 0 <= i < |stopped| && stopped[i].key == key)
  }

  ghost predicate SameRules(a: map<Key, Runtime>, b: map<Key, Runtime>) {
    forall key :: key in a && key in b ==> a[key].rules == b[key].rules
  }

  lemma SafeSubset(parse: Parser, some: set<Key>, all: set<Key>)
    requires Safe(parse, all) && some <= all
    ensures Safe(parse, some)
  {
  }

  /** Survivors of the first phase and the new listeners can all run at once. */
  lemma SurvivorsFit(parse: Parser, grouped: map<Key, seq<Rule>>, before: map<Key, Runtime>, after: map<Key, Runtime>)
    requires Safe(parse, before.Keys) && Safe(parse, grouped.Keys) && Survivors(parse, grouped, before, after)
    ensures Safe(parse, after.Keys + grouped.Keys)
  {
    var all := after.Keys + grouped.Keys;
    forall a, b | a in all && b in all && a != b
      ensures !Overlap(parse, a, b)
    {
      OverlapSymmetric(parse, a, b);
      if a in grouped && b !in grouped { assert !Doomed(parse, grouped, b); }
      if a !in grouped && b in grouped { assert !Doomed(parse, grouped, a); }
    }
  }

  lemma OverlapSymmetric(parse: Parser, a: Key, b: Key)
    ensures Overlap(parse, a, b) <==> Overlap(parse, b, a)
  {
  }

  class Supervisor {
    const parse: Parser
    var listeners: map<Key, Runtime>
    var running: set<Key>
    var nextID: nat
    ghost var trace: seq<set<Key>>

    ghost predicate TraceSafe()
      reads this`trace
    {
      forall i :: 0 <= i < |trace| ==> Safe(parse, trace[i])
    }

    /** Between calls: every registered listener is bound, nothing else is, and nothing ever overlapped. */
    ghost predicate Valid()
      reads this
    {
      running == listeners.Keys && Safe(parse, running) && TraceSafe()
    }

    constructor (parse: Parser)
      ensures Valid() && listeners == map[] && this.parse == parse
    {
      this.parse := parse;
      listeners, running, nextID, trace := map[], {}, 0, [];
    }

    /** A bind, which the operating system grants or refuses; only TCP and UDP are supported. */
    method Start(key: Key, rules: seq<Rule>, ghost all: set<Key>) returns (runtime: Option<Runtime>)
      requires Safe(parse, all) && running <= all && key in all && TraceSafe()
      modifies this`running, this`nextID, this`trace
      ensures TraceSafe() && old(trace) <= trace && nextID >= old(nextID)
      ensures runtime.None? ==> running == old(running)
      ensures runtime.Some? ==> running == old(running) + {key} && runtime.value.rules == rules && runtime.value.id >= old(nextID)
      ensures runtime.Some? ==> trace == old(trace) + [running]
      ensures runtime.Some? ==> runtime.value.id < nextID
    {
      var granted: bool := *;
      if !granted || key.protocol !in {TCP, UDP} { return None; }
      runtime := Some(Runtime(nextID, rules));
      nextID := nextID + 1;
      running := running + {key};
      SafeSubset(parse, running, all);
      trace := trace + [running];
    }

    method Stop(key: Key, ghost all: set<Key>)
      requires Safe(parse, all) && running <= all && TraceSafe()
      modifies this`running, this`trace
      ensures TraceSafe() && old(trace) <= trace
      ensures running == old(running) - {key}
    {
      running := running - {key};
      SafeSubset(parse, running, all);
      trace := trace + [running];
    }

    method StopAll(keys: set<Key>, ghost all: set<Key>)
      requires Safe(parse, all) && running <= all && TraceSafe()
      modifies this`running, this`trace
      ensures TraceSafe() && old(trace) <= trace
      ensures running == old(running) - keys
    {
      hide Safe;
      var rest := keys;
      while rest != {}
        invariant TraceSafe() && old(trace) <= trace && rest <= keys
        invariant running == old(running) - (keys - rest)
        decreases rest
      {
        var key :| key in rest;
        Stop(key, all);
        rest := rest - {key};
      }
    }

    /** Stop the running listeners that are absent from the new configuration but stand in its way. */
    method StopOverlappingAbsentListeners(grouped: map<Key, seq<Rule>>) returns (stopped: seq<Stopped>)
      requires Valid()
      modifies this`listeners, this`running, this`trace
      ensures TraceSafe() && old(trace) <= trace && running == listeners.Keys
      ensures Survivors(parse, grouped, old(listeners), listeners)
      ensures Lists(parse, grouped, old(listeners), stopped)
    {
      hide Safe, Overlap;
      stopped := [];
      var rest := listeners.Keys;
      ghost var all := running;
      while rest != {}
        invariant TraceSafe() && old(trace) <= trace && running == listeners.Keys && rest <= old(listeners).Keys
        invariant forall key :: key in listeners <==> key in old(listeners) && (key in rest || !Doomed(parse, grouped, key))
        invariant forall key :: key in listeners ==> listeners[key] == old(listeners)[key]
        invariant forall i :: 0 <= i < |stopped| ==>
          stopped[i].key in old(listeners) && Doomed(parse, grouped, stopped[i].key)
          && stopped[i].rules == old(listeners)[stopped[i].key].rules
        invariant forall key :: key in old(listeners) && key !in rest && Doomed(parse, grouped, key) ==>
          exists i :: 0 <= i < |stopped| && stopped[i].key == key
        decreases rest
      {
        var key :| key in rest;
        var inTheWay := OverlapsAnyListener(key, grouped);
        ghost var earlier := stopped;
        if key !in grouped && inTheWay {
          stopped := stopped + [Stopped(key, listeners[key].rules)];
          assert stopped[|earlier|].key == key;
          listeners := listeners - {key};
          Stop(key, all);
        }
        rest := rest - {key};
        forall k | k in old(listeners) && k !in rest && k != key && Doomed(parse, grouped, k)
          ensures exists i :: 0 <= i < |stopped| && stopped[i].key == k
        {
          var i :| 0 <= i < |earlier| && earlier[i].key == k;
          assert stopped[i].key == k;
        }
      }
    }

    method OverlapsAnyListener(key: Key, grouped: map<Key, seq<Rule>>) returns (found: bool)
      ensures found <==> exists other :: other in grouped && Overlap(parse, key, other)
    {
      hide Overlap;
      var rest := grouped.Keys;
      while rest != {}
        invariant rest <= grouped.Keys
        invariant forall other :: other in grouped && other !in rest ==> !Overlap(parse, key, other)
        decreases rest
      {
        var other :| other in rest;
        if Overlap(parse, key, other) { return true; }
        rest := rest - {other};
      }
      return false;
    }

    method ValidateNoOverlappingListeners(grouped: map<Key, seq<Rule>>) returns (ok: bool)
      ensures ok <==> Safe(parse, grouped.Keys)
    {
      var rest := grouped.Keys;
      while rest != {}
        invariant rest <= grouped.Keys
        invariant forall a, b :: a in grouped && b in grouped && a != b && (a !in rest || b !in rest) ==> !Overlap(parse, a, b)
        decreases rest
      {
        var key :| key in rest;
        rest := rest - {key};
        var others := rest;
        while others != {}
          invariant others <= rest
          invariant forall other :: other in rest && other !in others ==> !Overlap(parse, key, other)
          decreases others
        {
          var other :| other in others;
          if Overlap(parse, key, other) { return false; }
          others := others - {other};
        }
        forall other | other in rest
          ensures !Overlap(parse, other, key)
        {
          OverlapSymmetric(parse, key, other);
        }
        hide Overlap;
      }
      return true;
    }

    /** Bind again what the first phase stopped, giving up at the first refusal. */
    method RestoreStoppedListeners(stopped: seq<Stopped>, ghost all: map<Key, Runtime>) returns (failed: Option<Key>)
      requires running == listeners.Keys && TraceSafe() && Safe(parse, all.Keys)
      requires listeners.Keys <= all.Keys && SameRules(listeners, all)
      requires forall i :: 0 <= i < |stopped| ==> stopped[i].key in all && stopped[i].rules == all[stopped[i].key].rules
      modifies this
      ensures TraceSafe() && old(trace) <= trace && running == listeners.Keys && listeners.Keys <= all.Keys
      ensures SameRules(listeners, all)
      ensures forall key :: key in old(listeners) ==> key in listeners && listeners[key] == old(listeners)[key]
      ensures failed.None? ==> forall i :: 0 <= i < |stopped| ==> stopped[i].key in listeners
    {
      hide Safe;
      for i := 0 to |stopped|
        invariant TraceSafe() && old(trace) <= trace && running == listeners.Keys && listeners.Keys <= all.Keys
        invariant SameRules(listeners, all)
        invariant forall key :: key in old(listeners) ==> key in listeners && listeners[key] == old(listeners)[key]
        invariant forall k :: 0 <= k < i ==> stopped[k].key in listeners
      {
        if stopped[i].key !in listeners {
          var runtime := Start(stopped[i].key, stopped[i].rules, all.Keys);
          if runtime.None? { return Some(stopped[i].key); }
          listeners := listeners[stopped[i].key := runtime.value];
        }
      }
      return None;
    }

    /** Bind the listeners that are not running yet; on a refusal undo the ones just bound. */
    method StartMissing(grouped: map<Key, seq<Rule>>) returns (failed: Option<Key>, next: map<Key, Runtime>)
      requires running == listeners.Keys && TraceSafe() && Safe(parse, listeners.Keys + grouped.Keys)
      modifies this`running, this`nextID, this`trace
      ensures TraceSafe() && old(trace) <= trace
      ensures failed.Some? ==> failed.value in grouped && failed.value !in listeners && running == old(running)
      ensures failed.None? ==> running == old(running) + grouped.Keys && next.Keys == grouped.Keys
      ensures failed.None? ==> forall key :: key in next && key in listeners ==> next[key] == listeners[key]
    {
      hide Safe;
      ghost var all := listeners.Keys + grouped.Keys;
      next := map[];
      var started: set<Key> := {};
      var rest := grouped.Keys;
      while rest != {}
        invariant TraceSafe() && old(trace) <= trace && rest <= grouped.Keys
        invariant next.Keys == grouped.Keys - rest
        invariant running == listeners.Keys + next.Keys && started == next.Keys - listeners.Keys
        invariant forall key :: key in next && key in listeners ==> next[key] == listeners[key]
        decreases rest
      {
        var key :| key in rest;
        rest := rest - {key};
        if key in listeners {
          next := next[key := listeners[key]];
        } else {
          var runtime := Start(key, grouped[key], all);
          if runtime.None? {
            StopAll(started, all);
            return Some(key), map[];
          }
          next := next[key := runtime.value];
          started := started + {key};
        }
      }
      return None, next;
    }

    method Apply(rules: seq<Rule>) returns (outcome: Outcome)
      requires Valid()
      modifies this
      ensures TraceSafe() && old(trace) <= trace && Valid()
      ensures outcome == Applied ==> forall key :: key in listeners <==> Serving(rules, key) != []
      ensures outcome == Applied ==> forall key :: key in listeners ==> listeners[key].rules == Serving(rules, key)
      ensures outcome == Applied ==> forall key :: key in listeners && key in old(listeners) ==> listeners[key].id == old(listeners)[key].id
      ensures outcome == Rejected ==> listeners == old(listeners) && trace == old(trace)
      ensures outcome == Rejected <==> Malformed(rules) || !Safe(parse, Occupied(rules))
      ensures outcome.BindFailed? ==> listeners.Keys == old(listeners).Keys && outcome.key !in old(listeners)
      ensures outcome.RestoreFailed? ==> listeners.Keys <= old(listeners).Keys
      ensures outcome.BindFailed? || outcome.RestoreFailed? ==> SameRules(old(listeners), listeners)
      ensures outcome.BindFailed? || outcome.RestoreFailed? ==>
                forall key :: key in old(listeners) && Undisturbed(parse, rules, key) ==> key in listeners && listeners[key] == old(listeners)[key]
    {
      hide Safe, Overlap, Direct, Serving, TraceSafe;
      var groups := GroupRulesByListener(rules);
      if groups.None? { return Rejected; }
      var grouped := groups.value;
      GroupedKeys(grouped, rules);
      var ok := ValidateNoOverlappingListeners(grouped);
      if !ok { return Rejected; }
      ghost var before := listeners;
      var stopped := StopOverlappingAbsentListeners(grouped);
      SurvivorsFit(parse, grouped, before, listeners);
      assert forall key :: key in before && Undisturbed(parse, rules, key) ==> key in listeners;
      hide Doomed, Undisturbed, Occupied;
      var failed, next := StartMissing(grouped);
      if failed.Some? {
        var lost := RestoreStoppedListeners(stopped, before);
        SafeSubset(parse, running, before.Keys);
        return if lost.Some? then RestoreFailed(lost.value) else BindFailed(failed.value);
      }
      ghost var all := listeners.Keys + grouped.Keys;
      var removed := listeners.Keys - next.Keys;
      listeners := map key | key in grouped :: next[key].(rules := grouped[key]);
      StopAll(removed, all);
      assert running == grouped.Keys;
      return Applied;
    }
  }

  /** The new configuration wants this very listener, or nothing that competes with it. */
  ghost predicate Undisturbed(parse: Parser, rules: seq<Rule>, key: Key) {
    key in Occupied(rules) || forall other :: other in Occupied(rules) ==> !Overlap(parse, key, other)
  }

  ghost predicate Malformed(rules: seq<Rule>) {
    exists i :: 0 <= i < |rules| && rules[i].enabled && !Direct(rules[i])
  }

  /** The listener keys a configuration asks for. */
  ghost function Occupied(rules: seq<Rule>): set<Key> {
    set rule, protocol | rule in rules && rule.enabled && protocol in Protocols(rule.protocol) :: Key(rule.listenIP, protocol, rule.port)
  }

  lemma {:induction false} ServingNonEmpty(rules: seq<Rule>, key: Key)
    ensures Serving(rules, key) != [] <==> exists rule :: rule in rules && Serves(rule, key)
  {
    hide Serves;
    if rules != [] {
      var front, last := rules[..|rules| - 1], rules[|rules| - 1];
      assert rules == front + [last];
      ServingNonEmpty(front, key);
    }
  }

  lemma GroupedKeys(grouped: map<Key, seq<Rule>>, rules: seq<Rule>)
    requires GroupsExactly(grouped, rules)
    ensures grouped.Keys == Occupied(rules)
  {
    hide Serving, Protocols;
    forall key
      ensures key in grouped <==> key in Occupied(rules)
    {
      ServingNonEmpty(rules, key);
    }
  }

  /** Any sequence of configurations: no two overlapping listeners are ever bound at the same time. */
  method ApplyAll(parse: Parser, configurations: seq<seq<Rule>>) returns (supervisor: Supervisor, outcomes: seq<Outcome>)
    ensures supervisor.Valid() && |outcomes| == |configurations|
    ensures forall i :: 0 <= i < |supervisor.trace| ==> Safe(parse, supervisor.trace[i])
    ensures outcomes != [] && outcomes[|outcomes| - 1] == Applied ==>
              forall key :: key in supervisor.listeners <==> Serving(configurations[|configurations| - 1], key) != []
  {
    hide Safe, Serving;
    supervisor := new Supervisor(parse);
    outcomes := [];
    for i := 0 to |configurations|
      invariant supervisor.Valid() && |outcomes| == i && supervisor.parse == parse
      invariant i > 0 && outcomes[i - 1] == Applied ==>
        forall key :: key in supervisor.listeners <==> Serving(configurations[i - 1], key) != []
    {
      var outcome := supervisor.Apply(configurations[i]);
      outcomes := outcomes + [outcome];
    }
  }
}
