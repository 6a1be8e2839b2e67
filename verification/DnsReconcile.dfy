/**
 Reconciling a provider's record set with the desired values: existing records are
 kept, repurposed in whatever order Go's map iteration gives, deleted or complemented.
 */
module DnsReconcile {
  import opened Text

  /** A TTL of 0 means the provider did not report one. */
  datatype Entry = Entry(content: string, ttl: int, proxied: bool)

  datatype Input = Input(secret: string, zone: string, name: string, recordType: string, values: seq<string>, ttl: int, proxied: bool)

  datatype Outcome = Applied | InvalidInput | TooManyValues

  predicate SettingsMatch(entry: Entry, ttl: int, proxied: bool) {
    (entry.ttl == 0 || entry.ttl == ttl) && entry.proxied == proxied
  }

  function EffectiveTTL(input: Input): int {
    if input.proxied then 1 else if input.ttl <= 0 then 60 else input.ttl
  }

  predicate Blank(input: Input) {
    TrimSpace(input.secret) == "" || TrimSpace(input.zone) == "" || TrimSpace(input.name) == "" || TrimSpace(input.recordType) == ""
  }

  predicate Distinct<T(==)>(values: seq<T>) {
    forall i, j :: 0 <= i < j < |values| ==> values[i] != values[j]
  }

  /** The trimmed, non-empty values of a list. */
  ghost predicate Wanted(values: seq<string>, v: string) {
    v != "" && exists i :: 0 <= i < |values| && TrimSpace(values[i]) == v
  }

  method NormalizeStringSet(values: seq<string>) returns (normalized: seq<string>)
    ensures Distinct(normalized)
    ensures forall v :: v in normalized <==> Wanted(values, v)
  {
    hide TrimSpace;
    normalized := [];
    var seen: set<string> := {};
    for i := 0 to |values|
      invariant Distinct(normalized)
      invariant forall v :: v in seen <==> v in normalized
      invariant forall v :: v in normalized <==> Wanted(values[..i], v)
    {
      var value := TrimSpace(values[i]);
      WantedStep(values, i);
      if value != "" && value !in seen {
        seen := seen + {value};
        normalized := normalized + [value];
      }
    }
    assert values[..|values|] == values;
  }

  lemma WantedStep(values: seq<string>, i: nat)
    requires i < |values|
    ensures forall v :: Wanted(values[..i + 1], v) <==> Wanted(values[..i], v) || (v != "" && v == TrimSpace(values[i]))
  {
    hide TrimSpace;
    var longer, shorter := values[..i + 1], values[..i];
    forall v
      ensures Wanted(longer, v) <==> Wanted(shorter, v) || (v != "" && v == TrimSpace(values[i]))
    {
      if Wanted(shorter, v) {
        var k :| 0 <= k < |shorter| && TrimSpace(shorter[k]) == v;
        assert longer[k] == shorter[k];
      }
      if Wanted(longer, v) {
        var k :| 0 <= k < |longer| && TrimSpace(longer[k]) == v;
        assert k < i ==> shorter[k] == longer[k];
      }
      assert longer[i] == values[i];
    }
  }

  /**
   The provider holds each desired value exactly once and nothing else, each proxied as asked and
   with that TTL, or with one the provider does not report.
   */
  ghost predicate Converged(records: map<nat, Entry>, desired: set<string>, ttl: int, proxied: bool) {
    && (forall id :: id in records ==> records[id].content in desired && records[id].proxied == proxied)
    && (forall id :: id in records ==> records[id].ttl == ttl || records[id].ttl == 0)
    && (forall a, b :: a in records && b in records && records[a].content == records[b].content ==> a == b)
    && (forall v :: v in desired ==> exists id :: id in records && records[id].content == v)
  }

  class Provider {
    var records: map<nat, Entry>
    var nextID: nat
    var mutations: nat

    ghost predicate Valid()
      reads this
    {
      forall id :: id in records ==> id < nextID
    }

    constructor (records: map<nat, Entry>, nextID: nat)
      requires forall id :: id in records ==> id < nextID
      ensures Valid() && this.records == records && mutations == 0
    {
      this.records, this.nextID, mutations := records, nextID, 0;
    }

    method Update(id: nat, entry: Entry)
      requires Valid() && id in records
      modifies this
      ensures Valid() && nextID == old(nextID) && mutations == old(mutations) + 1
      ensures records == old(records)[id := entry]
    {
      records := records[id := entry];
      mutations := mutations + 1;
    }

    method Delete(id: nat)
      requires Valid()
      modifies this
      ensures Valid() && nextID == old(nextID) && mutations == old(mutations) + 1
      ensures records == old(records) - {id}
    {
      records := records - {id};
      mutations := mutations + 1;
    }

    method Create(entry: Entry) returns (id: nat)
      requires Valid()
      modifies this
      ensures Valid() && mutations == old(mutations) + 1
      ensures id !in old(records) && records == old(records)[id := entry]
    {
      id := nextID;
      records := records[id := entry];
      nextID := nextID + 1;
      mutations := mutations + 1;
    }

    /** Keep, repurpose or delete one existing record. */
    method ReconcileOne(id: nat, remaining: set<string>, ttl: int, proxied: bool,
                        ghost todo: set<nat>, ghost desired: set<string>, ghost owner: map<string, nat>)
      returns (remaining': set<string>, ghost owner': map<string, nat>)
      requires Valid() && id in todo
      requires Tracks(records, owner, todo, desired, remaining, ttl, proxied)
      modifies this
      ensures Valid()
      ensures Tracks(records, owner', todo - {id}, desired, remaining', ttl, proxied)
      ensures forall other :: other in todo && other != id ==> other in records && records[other] == old(records)[other]
      ensures old(records)[id].content in remaining ==> remaining' == remaining - {old(records)[id].content}
      ensures old(records)[id].content in remaining && SettingsMatch(old(records)[id], ttl, proxied) ==>
                records == old(records) && mutations == old(mutations)
    {
      hide Tracks, SettingsMatch;
      TracksTodo(records, owner, todo, desired, remaining, ttl, proxied);
      var content := records[id].content;
      if content in remaining {
        remaining' := remaining - {content};
        owner' := owner[content := id];
        KeepTracks(records, owner, todo, desired, remaining, ttl, proxied, id, content);
        if !SettingsMatch(records[id], ttl, proxied) {
          Update(id, Entry(content, ttl, proxied));
        }
      } else if remaining == {} {
        remaining', owner' := remaining, owner;
        DeleteTracks(records, owner, todo, desired, remaining, ttl, proxied, id);
        Delete(id);
      } else {
        var value :| value in remaining;
        KeepTracks(records, owner, todo, desired, remaining, ttl, proxied, id, value);
        Update(id, Entry(value, ttl, proxied));
        remaining' := remaining - {value};
        owner' := owner[value := id];
      }
    }

    /** The existing records one after the other, in the provider's listing order, which is any. */
    method ReconcileExisting(desired: set<string>, ttl: int, proxied: bool) returns (remaining: set<string>)
      requires Valid()
      modifies this
      ensures Valid() && remaining <= desired
      ensures Converged(records, desired - remaining, ttl, proxied)
      ensures Converged(old(records), desired, ttl, proxied) ==>
                remaining == {} && records == old(records) && mutations == old(mutations)
    {
      hide SettingsMatch;
      var todo := records.Keys;
      remaining := desired;
      ghost var settled := Converged(records, desired, ttl, proxied);
      ghost var owner: map<string, nat> := map[];
      StartTracks(records, desired, ttl, proxied);
      hide Tracks, Converged;
      if settled { SettledStart(records, desired, ttl, proxied); }
      while todo != {}
        invariant Valid() && todo <= old(records).Keys
        invariant Tracks(records, owner, todo, desired, remaining, ttl, proxied)
        invariant settled ==> records == old(records) && mutations == old(mutations)
        invariant settled ==> Settled(old(records), todo, remaining, ttl, proxied)
        decreases todo
      {
        var id :| id in todo;
        if settled { SettledStep(old(records), todo, remaining, ttl, proxied, id); }
        remaining, owner := ReconcileOne(id, remaining, ttl, proxied, todo, desired, owner);
        todo := todo - {id};
      }
      TracksDone(records, owner, desired, remaining, ttl, proxied);
      if settled { SettledDone(old(records), remaining, ttl, proxied); }
    }

    method ApplyRecord(input: Input) returns (outcome: Outcome, desired: set<string>)
      requires Valid()
      modifies this
      ensures Valid()
      ensures forall v :: v in desired <==> v != "" && exists i :: 0 <= i < |input.values| && TrimSpace(input.values[i]) == v
      ensures outcome == InvalidInput <==>
                "" in {TrimSpace(input.secret), TrimSpace(input.zone), TrimSpace(input.name), TrimSpace(input.recordType)}
      ensures outcome == TooManyValues <==> !Blank(input) && Upper(TrimSpace(input.recordType)) == "CNAME" && |desired| > 1
      ensures outcome != Applied ==> records == old(records) && mutations == old(mutations)
      ensures outcome == Applied && input.proxied ==> Converged(records, desired, 1, true)
      ensures outcome == Applied && !input.proxied && input.ttl > 0 ==> Converged(records, desired, input.ttl, false)
      ensures outcome == Applied && !input.proxied && input.ttl <= 0 ==> Converged(records, desired, 60, false)
      ensures outcome == Applied && Converged(old(records), desired, EffectiveTTL(input), input.proxied) ==>
                records == old(records) && mutations == old(mutations)
    {
      hide TrimSpace, Converged, Distinct, Upper;
      var wanted := NormalizeStringSet(input.values);
      desired := set v | v in wanted;
      forall v
        ensures v in desired <==> v != "" && exists i :: 0 <= i < |input.values| && TrimSpace(input.values[i]) == v
      {
        assert v in desired <==> Wanted(input.values, v);
      }
      hide Wanted;
      SeveralValues(wanted, desired);
      if Blank(input) { return InvalidInput, desired; }
      if |wanted| > 1 && Upper(TrimSpace(input.recordType)) == "CNAME" { return TooManyValues, desired; }
      outcome := Applied;
      var ttl := EffectiveTTL(input);
      ghost var settled := Converged(records, desired, ttl, input.proxied);
      var remaining := ReconcileExisting(desired, ttl, input.proxied);
      while remaining != {}
        invariant Valid() && remaining <= desired
        invariant Converged(records, desired - remaining, ttl, input.proxied)
        invariant settled ==> remaining == {} && records == old(records) && mutations == old(mutations)
        decreases remaining
      {
        var value :| value in remaining;
        ghost var before := records;
        var id := Create(Entry(value, ttl, input.proxied));
        CreateConverges(before, desired - remaining, ttl, input.proxied, id, value);
        assert desired - (remaining - {value}) == desired - remaining + {value};
        remaining := remaining - {value};
      }
      assert desired - remaining == desired;
    }
  }

  /**
   Records already handled hold exactly the values no longer remaining, one record each;
   those still to do are untouched.
   */
  ghost predicate Tracks(records: map<nat, Entry>, owner: map<string, nat>, todo: set<nat>, desired: set<string>,
                         remaining: set<string>, ttl: int, proxied: bool) {
    && owner.Keys == desired - remaining && remaining <= desired && todo <= records.Keys
    && (forall v :: v in owner ==> owner[v] in records && owner[v] !in todo)
    && (forall v :: v in owner ==> records[owner[v]].content == v)
    && (forall id :: id in records && id !in todo ==>
          records[id].content in owner && owner[records[id].content] == id && SettingsMatch(records[id], ttl, proxied))
  }

  lemma TracksTodo(records: map<nat, Entry>, owner: map<string, nat>, todo: set<nat>, desired: set<string>,
                   remaining: set<string>, ttl: int, proxied: bool)
    requires Tracks(records, owner, todo, desired, remaining, ttl, proxied)
    ensures todo <= records.Keys && remaining <= desired
  {
  }

  lemma StartTracks(records: map<nat, Entry>, desired: set<string>, ttl: int, proxied: bool)
    ensures Tracks(records, map[], records.Keys, desired, desired, ttl, proxied)
  {
  }

  lemma KeepTracks(records: map<nat, Entry>, owner: map<string, nat>, todo: set<nat>, desired: set<string>,
                   remaining: set<string>, ttl: int, proxied: bool, id: nat, value: string)
    requires Tracks(records, owner, todo, desired, remaining, ttl, proxied)
    requires id in todo && id in records && value in remaining
    ensures Tracks(records[id := Entry(value, ttl, proxied)], owner[value := id], todo - {id}, desired, remaining - {value}, ttl, proxied)
    ensures records[id].content == value && SettingsMatch(records[id], ttl, proxied) ==>
              Tracks(records, owner[value := id], todo - {id}, desired, remaining - {value}, ttl, proxied)
  {
  }

  lemma DeleteTracks(records: map<nat, Entry>, owner: map<string, nat>, todo: set<nat>, desired: set<string>,
                     remaining: set<string>, ttl: int, proxied: bool, id: nat)
    requires Tracks(records, owner, todo, desired, remaining, ttl, proxied) && id in todo
    ensures Tracks(records - {id}, owner, todo - {id}, desired, remaining, ttl, proxied)
  {
  }

  lemma TracksDone(records: map<nat, Entry>, owner: map<string, nat>, desired: set<string>,
                   remaining: set<string>, ttl: int, proxied: bool)
    requires Tracks(records, owner, {}, desired, remaining, ttl, proxied)
    ensures remaining <= desired && Converged(records, desired - remaining, ttl, proxied)
  {
    forall v | v in desired - remaining
      ensures exists id :: id in records && records[id].content == v
    {
      assert v in owner && owner[v] in records;
    }
  }

  lemma CreateConverges(records: map<nat, Entry>, held: set<string>, ttl: int, proxied: bool, id: nat, value: string)
    requires Converged(records, held, ttl, proxied) && id !in records && value !in held
    ensures Converged(records[id := Entry(value, ttl, proxied)], held + {value}, ttl, proxied)
  {
    var after := records[id := Entry(value, ttl, proxied)];
    forall v | v in held + {value}
      ensures exists other :: other in after && after[other].content == v
    {
      if v == value {
        assert after[id].content == v;
      } else {
        var other :| other in records && records[other].content == v;
        assert after[other].content == v;
      }
    }
  }

  /** What is left to do of a converged record set is converged on what is left to place. */
  ghost predicate Settled(records: map<nat, Entry>, todo: set<nat>, remaining: set<string>, ttl: int, proxied: bool) {
    Converged(Restrict(records, todo), remaining, ttl, proxied)
  }

  ghost function Restrict(records: map<nat, Entry>, todo: set<nat>): map<nat, Entry> {
    map id | id in records && id in todo :: records[id]
  }

  lemma SettledStart(records: map<nat, Entry>, desired: set<string>, ttl: int, proxied: bool)
    requires Converged(records, desired, ttl, proxied)
    ensures Settled(records, records.Keys, desired, ttl, proxied)
  {
    assert Restrict(records, records.Keys) == records;
  }

  lemma SettledStep(records: map<nat, Entry>, todo: set<nat>, remaining: set<string>, ttl: int, proxied: bool, id: nat)
    requires Settled(records, todo, remaining, ttl, proxied) && id in todo && todo <= records.Keys
    ensures records[id].content in remaining && SettingsMatch(records[id], ttl, proxied)
    ensures Settled(records, todo - {id}, remaining - {records[id].content}, ttl, proxied)
  {
    var left := Restrict(records, todo);
    var after := Restrict(records, todo - {id});
    assert left[id] == records[id];
    forall v | v in remaining - {records[id].content}
      ensures exists other :: other in after && after[other].content == v
    {
      var other :| other in left && left[other].content == v;
      assert other != id && after[other].content == v;
    }
    forall a, b | a in after && b in after && after[a].content == after[b].content
      ensures a == b
    {
      assert left[a].content == left[b].content;
    }
    forall k | k in after
      ensures after[k].content in remaining - {records[id].content} && SettingsMatch(after[k], ttl, proxied)
    {
      assert left[k] == after[k];
    }
  }

  lemma SettledDone(records: map<nat, Entry>, remaining: set<string>, ttl: int, proxied: bool)
    requires Settled(records, {}, remaining, ttl, proxied)
    ensures remaining == {}
  {
  }

  /** Record types are ASCII. */
  function Upper(s: string): (r: string)
    ensures |r| == |s| && forall i :: 0 <= i < |s| ==> r[i] == if 'a' <= s[i] <= 'z' then s[i] - 'a' + 'A' else s[i]
  {
    seq(|s|, i requires 0 <= i < |s| => if 'a' <= s[i] <= 'z' then s[i] - 'a' + 'A' else s[i])
  }

  lemma SeveralValues(values: seq<string>, members: set<string>)
    requires Distinct(values) && members == (set v | v in values)
    ensures |values| > 1 <==> |members| > 1
  {
    if |values| > 1 {
      assert values[0] in members && values[1] in members;
      assert members == {values[0]} + (members - {values[0]});
      assert values[1] in members - {values[0]};
    } else if |values| == 1 {
      assert members == {values[0]};
    }
  }

  /** Whatever the provider held, one successful run settles it: the second issues no call. */
  method ApplyTwice(provider: Provider, input: Input) returns (outcome: Outcome, settledAt: nat)
    requires provider.Valid()
    modifies provider
    ensures outcome == Applied ==> provider.mutations == settledAt
  {
    hide Converged, Wanted, Blank, TrimSpace, Upper;
    var desired: set<string>;
    outcome, desired := provider.ApplyRecord(input);
    settledAt := provider.mutations;
    ghost var first := desired;
    if outcome == Applied {
      outcome, desired := provider.ApplyRecord(input);
      assert forall v :: v in desired <==> v in first;
      assert desired == first;
    }
  }
}
