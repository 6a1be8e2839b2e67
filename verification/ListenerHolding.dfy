/**
 What a process may conclude from having acquired its locks. They stay on disk and no two
 processes hold competing listeners, as long as no release removes a file another process
 relies on and no failed re-acquisition has removed a lock the process still relies on.
 Either is enough to lose both.
 */
module ListenerHolding {
  import opened Text
  import opened Listeners
  import opened ListenerLocks
  import D = Deployment

  ghost predicate OwnLock(s: State, p: Proc, path: string) {
    path in s.files && s.files[path].Lock? && s.files[path].owner == p
  }

  ghost predicate Has(site: Site, s: State, p: Proc, key: Key) {
    site.path(key) in s.files && s.files[site.path(key)] == Lock(p, key)
  }

  ghost predicate HasAll(site: Site, s: State, p: Proc, keys: set<Key>) {
    forall k :: k in keys ==> Has(site, s, p, k)
  }

  ghost predicate HasNone(site: Site, s: State, p: Proc, keys: set<Key>) {
    forall k :: k in keys ==> !Has(site, s, p, k)
  }

  /** Different listeners have different lock files. */
  ghost predicate DistinctPaths(site: Site, keys: set<Key>) {
    forall k, l :: k in keys && l in keys && site.path(k) == site.path(l) ==> k == l
  }

  /** What one live process has on disk: its acquired locks except, exactly, those it dropped. */
  ghost predicate Keeps(site: Site, s: State, p: Proc)
    requires p in s.live
  {
    var local := s.live[p];
    && local.dropped <= local.acquired
    && HasAll(site, s, p, local.acquired - local.dropped) && HasNone(site, s, p, local.dropped)
    && (local.removing.Some? ==>
          && (local.phase.Idle? || local.phase.Unwinding?)
          && (local.phase.Idle? ==> forall k :: k in local.acquired ==> site.path(k) != local.removing.value))
    && (local.phase.Checking? || local.phase.Writing? || local.phase.Filling? ==> DistinctPaths(site, local.phase.keys))
    && (local.phase.Writing? ==> local.phase.todo <= local.phase.keys && HasAll(site, s, p, local.phase.keys - local.phase.todo))
    && (local.phase.Filling? ==>
          && local.phase.key in local.phase.todo && local.phase.todo <= local.phase.keys
          && site.path(local.phase.key) in s.files && s.files[site.path(local.phase.key)].Blank?
          && HasAll(site, s, p, local.phase.keys - local.phase.todo))
  }

  ghost predicate AllKeep(site: Site, s: State) {
    forall p :: p in s.live ==> Keeps(site, s, p)
  }

  // ---- the conditions on a run

  /** The lock files of one plan differ. */
  ghost predicate SeparatePlan(site: Site, e: Event) {
    e.Begin? ==> DistinctPaths(site, e.keys)
  }

  /** `q` relies on the file: it is one of its acquired locks, or one it is just writing. */
  ghost predicate Relies(site: Site, s: State, q: Proc, path: string)
    requires q in s.live
  {
    var local := s.live[q];
    || (exists k :: k in local.acquired - local.dropped && site.path(k) == path)
    || (local.phase.Writing? && exists k :: k in local.phase.keys - local.phase.todo && site.path(k) == path)
    || (local.phase.Filling? && exists k :: k in local.phase.keys - local.phase.todo && site.path(k) == path)
    || (local.phase.Filling? && site.path(local.phase.key) == path)
  }

  /** A release removes no file that another live process relies on at that moment. */
  ghost predicate HarmlessRemoval(site: Site, s: State, e: Event) {
    e.RemoveForRelease? && e.removed && e.p in s.live && s.live[e.p].removing.Some? ==>
      forall q :: q in s.live && q != e.p ==> !Relies(site, s, q, s.live[e.p].removing.value)
  }

  /** An acquisition that fails has not removed a lock of the previous one, or has written it again. */
  ghost predicate HarmlessFailure(s: State, e: Event) {
    e.Unlock? && e.p in s.live ==> s.live[e.p].dropped == {}
  }

  /** No step of the run removes what another process relies on, and every plan has separate files. */
  ghost predicate Considerate(site: Site, s: State, events: seq<Event>)
    requires Runnable(site, s, events)
    decreases |events|
  {
    events == [] ||
    (&& Considerate(site, s, events[..|events| - 1])
     && var before, last := Run(site, s, events[..|events| - 1]), events[|events| - 1];
        SeparatePlan(site, last) && HarmlessRemoval(site, before, last))
  }

  ghost predicate HarmlessFailures(site: Site, s: State, events: seq<Event>)
    requires Runnable(site, s, events)
    decreases |events|
  {
    events == [] ||
    (HarmlessFailures(site, s, events[..|events| - 1]) && HarmlessFailure(Run(site, s, events[..|events| - 1]), events[|events| - 1]))
  }

  // ---- a step of one process leaves the files of the others alone

  /** The files that `q` relies on are as they were, and it got no new ones. */
  ghost predicate Untouched(s: State, t: State, q: Proc) {
    && (forall path :: OwnLock(s, q, path) ==> path in t.files && t.files[path] == s.files[path])
    && (forall path :: OwnLock(t, q, path) ==> path in s.files && s.files[path] == t.files[path])
    && (s.holder == Some(q) ==> forall path :: path in s.files && s.files[path].Blank? ==> path in t.files && t.files[path].Blank?)
  }

  lemma OthersKeep(site: Site, s: State, t: State, q: Proc)
    requires OneHolder(s) && q in s.live && q in t.live && t.live[q] == s.live[q] && Keeps(site, s, q) && Untouched(s, t, q)
    ensures Keeps(site, t, q)
  {
    forall k | Has(site, s, q, k)
      ensures Has(site, t, q, k)
    {
      assert OwnLock(s, q, site.path(k));
    }
    forall k | Has(site, t, q, k)
      ensures Has(site, s, q, k)
    {
      assert OwnLock(t, q, site.path(k));
    }
  }

  /** At most the file at `path` changes, and not to a lock of `q`. */
  ghost predicate ChangesAt(s: State, t: State, path: string, q: Proc) {
    && (forall other :: other != path ==> (other in s.files <==> other in t.files) && (other in s.files ==> t.files[other] == s.files[other]))
    && (OwnLock(t, q, path) ==> t.files == s.files)
  }

  lemma OneFile(s: State, t: State, path: string, q: Proc)
    requires ChangesAt(s, t, path, q) && !OwnLock(s, q, path)
    requires s.holder == Some(q) ==> path in s.files && s.files[path].Lock?
    ensures Untouched(s, t, q)
  {
  }

  lemma SameFiles(s: State, t: State, q: Proc)
    requires t.files == s.files
    ensures Untouched(s, t, q)
  {
  }

  lemma FrameExamine(site: Site, s: State, e: Event, q: Proc)
    requires Inv(site, s) && Enabled(site, s, e) && e.Examine? && q in s.live && q != e.p
    ensures Untouched(s, Next(site, s, e), q)
  {
    hide Touches, D.DataplaneOverlap, Clear, Exclusive, Untouched;
    var t := Next(site, s, e);
    assert s.holder == Some(e.p);
    if OwnLock(s, q, e.path) {
      AliveIsLive(s, q);
      SameFiles(s, t, q);
    } else {
      OneFile(s, t, e.path, q);
    }
  }

  lemma FrameOccupied(site: Site, s: State, e: Event, q: Proc)
    requires Inv(site, s) && Enabled(site, s, e) && e.Occupied? && q in s.live && q != e.p
    ensures Untouched(s, Next(site, s, e), q)
  {
    hide Touches, D.DataplaneOverlap, Clear, Exclusive, Untouched;
    var t, path := Next(site, s, e), site.path(e.key);
    assert s.holder == Some(e.p);
    if OwnLock(s, q, path) {
      AliveIsLive(s, q);
      SameFiles(s, t, q);
    } else {
      OneFile(s, t, path, q);
    }
  }

  lemma FrameOthers(site: Site, s: State, e: Event, q: Proc)
    requires Inv(site, s) && AllKeep(site, s) && Enabled(site, s, e) && q in s.live && q != e.p
    requires !e.Examine? && !e.Occupied? && !e.RemoveForRelease?
    ensures Untouched(s, Next(site, s, e), q)
  {
    hide Touches, D.DataplaneOverlap, Clear, Exclusive, Releasable, Identities, HasAll, HasNone;
    var t := Next(site, s, e);
    assert e.p in s.live ==> Keeps(site, s, e.p);
    match e
    case Create(p, key) => {
      assert s.holder == Some(p);
      assert ChangesAt(s, t, site.path(key), q);
    }
    case Fill(p, written) => {
      assert s.holder == Some(p);
      assert ChangesAt(s, t, site.path(s.live[p].phase.key), q);
    }
    case _ => {}
  }

  lemma Frame(site: Site, s: State, e: Event, q: Proc)
    requires Inv(site, s) && AllKeep(site, s) && Enabled(site, s, e) && !e.RemoveForRelease? && q in s.live && q != e.p
    ensures Untouched(s, Next(site, s, e), q) && q in Next(site, s, e).live && Next(site, s, e).live[q] == s.live[q]
  {
    hide Inv, AllKeep, Untouched, CheckEntry, CheckOccupant, Releasable;
    if e.Examine? {
      FrameExamine(site, s, e, q);
    } else if e.Occupied? {
      FrameOccupied(site, s, e, q);
    } else {
      FrameOthers(site, s, e, q);
    }
  }

  /** A release leaves another process with what it relies on if and only if it relies on another file. */
  lemma RemovalKeepsIff(site: Site, s: State, p: Proc, q: Proc)
    requires p in s.live && s.live[p].removing.Some? && q in s.live && q != p && Keeps(site, s, q)
    ensures var t := Next(site, s, RemoveForRelease(p, true));
            q in t.live && (Keeps(site, t, q) <==> !Relies(site, s, q, s.live[p].removing.value))
  {
    var t, path := Next(site, s, RemoveForRelease(p, true)), s.live[p].removing.value;
    forall k
      ensures Has(site, t, q, k) <==> Has(site, s, q, k) && site.path(k) != path
    {
    }
  }

  lemma RemovalKeepsOthers(site: Site, s: State, e: Event, q: Proc)
    requires Enabled(site, s, e) && e.RemoveForRelease? && HarmlessRemoval(site, s, e) && q in s.live && q != e.p && Keeps(site, s, q)
    ensures q in Next(site, s, e).live && Keeps(site, Next(site, s, e), q)
  {
    if e.removed {
      hide Keeps, Relies;
      RemovalKeepsIff(site, s, e.p, q);
    } else {
      assert forall k :: Has(site, Next(site, s, e), q, k) <==> Has(site, s, q, k);
    }
  }

  // ---- and keeps its own books

  /** Removing a file: its listener moves from kept to dropped. */
  lemma DropKeeps(site: Site, s: State, p: Proc, path: string, removed: bool)
    requires p in s.live && Keeps(site, s, p) && s.live[p].removing.None?
    requires s.live[p].phase.Writing? ==> forall k :: k in s.live[p].phase.keys - s.live[p].phase.todo ==> site.path(k) != path
    requires !s.live[p].phase.Filling?
    ensures Keeps(site, Drop(site, s, p, path, removed), p)
  {
    if removed {
      var t := Drop(site, s, p, path, removed);
      forall k
        ensures Has(site, t, p, k) <==> Has(site, s, p, k) && site.path(k) != path
      {
      }
    }
  }

  /** Bookkeeping that touches no file and forgets no lock. */
  lemma PhaseKeeps(site: Site, s: State, p: Proc, phase: Phase)
    requires p in s.live && Keeps(site, s, p) && s.live[p].removing.None?
    requires phase.Checking? || phase.Writing? ==> DistinctPaths(site, phase.keys)
    requires phase.Writing? ==> phase.todo <= phase.keys && HasAll(site, s, p, phase.keys - phase.todo)
    requires !phase.Filling?
    ensures Keeps(site, To(s, p, phase), p)
  {
    var t := To(s, p, phase);
    assert forall k :: Has(site, t, p, k) <==> Has(site, s, p, k);
  }

  lemma OwnExamine(site: Site, s: State, e: Event)
    requires AllKeep(site, s) && Enabled(site, s, e) && e.Examine?
    ensures Keeps(site, Next(site, s, e), e.p)
  {
    hide CheckEntry, Drop, HasAll, HasNone;
    var p, phase := e.p, s.live[e.p].phase;
    assert Keeps(site, s, p);
    var next := phase.(unread := phase.unread - {e.path});
    hide Keeps;
    PhaseKeeps(site, s, p, next);
    PhaseKeeps(site, s, p, Unwinding({}));
    DropKeeps(site, To(s, p, next), p, e.path, e.removed);
  }

  lemma OwnOccupied(site: Site, s: State, e: Event)
    requires AllKeep(site, s) && Enabled(site, s, e) && e.Occupied?
    ensures Keeps(site, Next(site, s, e), e.p)
  {
    hide CheckOccupant, Drop, HasAll, HasNone;
    var p, phase := e.p, s.live[e.p].phase;
    assert Keeps(site, s, p);
    PhaseKeeps(site, s, p, Unwinding(Written(phase)));
    forall k | k in phase.keys - phase.todo
      ensures site.path(k) != site.path(e.key)
    {
      assert k != e.key;
    }
    DropKeeps(site, s, p, site.path(e.key), e.removed);
  }

  lemma OwnCreate(site: Site, s: State, e: Event)
    requires AllKeep(site, s) && Enabled(site, s, e) && e.Create?
    ensures Keeps(site, Next(site, s, e), e.p)
  {
    var t := Next(site, s, e);
    assert Keeps(site, s, e.p);
    assert forall k :: Has(site, t, e.p, k) <==> Has(site, s, e.p, k);
  }

  lemma OwnFill(site: Site, s: State, e: Event)
    requires AllKeep(site, s) && Enabled(site, s, e) && e.Fill?
    ensures Keeps(site, Next(site, s, e), e.p)
  {
    var p, phase, t := e.p, s.live[e.p].phase, Next(site, s, e);
    assert Keeps(site, s, p);
    assert !Has(site, s, p, phase.key);
    if e.written {
      forall k
        ensures Has(site, t, p, k) <==> k == phase.key || Has(site, s, p, k)
      {
      }
    } else {
      UnfilledIsGone(site, s, p);
    }
  }

  lemma UnfilledIsGone(site: Site, s: State, p: Proc)
    requires p in s.live && Keeps(site, s, p) && s.live[p].phase.Filling? && s.live[p].removing.None?
    ensures var phase := s.live[p].phase;
            Keeps(site, Drop(site, To(s, p, Unwinding(Written(phase))), p, site.path(phase.key), true), p)
  {
    var phase := s.live[p].phase;
    var path := site.path(phase.key);
    var t := Drop(site, To(s, p, Unwinding(Written(phase))), p, path, true);
    forall k
      ensures Has(site, t, p, k) <==> Has(site, s, p, k)
    {
    }
    forall k | k in At(site, s.live[p].acquired, path)
      ensures k in s.live[p].dropped
    {
      assert !Has(site, s, p, k);
    }
  }

  lemma OwnRead(site: Site, s: State, e: Event)
    requires AllKeep(site, s) && Enabled(site, s, e) && e.ReadForRelease?
    ensures Keeps(site, Next(site, s, e), e.p)
  {
    hide Releasable;
    var t := Next(site, s, e);
    assert Keeps(site, s, e.p);
    assert forall k :: Has(site, t, e.p, k) <==> Has(site, s, e.p, k);
  }

  lemma OwnRemove(site: Site, s: State, e: Event)
    requires AllKeep(site, s) && Enabled(site, s, e) && e.RemoveForRelease?
    ensures Keeps(site, Next(site, s, e), e.p)
  {
    hide Drop;
    var p := e.p;
    assert Keeps(site, s, p);
    var t := s.(live := s.live[p := s.live[p].(removing := None)]);
    assert forall k :: Has(site, t, p, k) <==> Has(site, s, p, k);
    assert Keeps(site, t, p);
    hide Keeps;
    DropKeeps(site, t, p, s.live[p].removing.value, e.removed);
  }

  lemma OwnPhase(site: Site, s: State, e: Event)
    requires AllKeep(site, s) && Enabled(site, s, e) && SeparatePlan(site, e)
    requires e.Start? || e.Crash? || e.Begin? || e.StartWriting? || e.GiveUp? || e.Finish? || e.Unlock?
    ensures e.p in Next(site, s, e).live ==> Keeps(site, Next(site, s, e), e.p)
  {
    hide Touches;
    var t := Next(site, s, e);
    assert e.p in s.live ==> Keeps(site, s, e.p);
    assert forall k :: Has(site, t, e.p, k) <==> Has(site, s, e.p, k);
  }

  lemma OwnStep(site: Site, s: State, e: Event)
    requires AllKeep(site, s) && Enabled(site, s, e) && SeparatePlan(site, e)
    ensures e.p in Next(site, s, e).live ==> Keeps(site, Next(site, s, e), e.p)
  {
    hide AllKeep, Enabled, Next, Keeps, SeparatePlan;
    match e
    case Examine(_, _, _, _) => { OwnExamine(site, s, e); }
    case Create(_, _) => { OwnCreate(site, s, e); }
    case Occupied(_, _, _, _) => { OwnOccupied(site, s, e); }
    case Fill(_, _) => { OwnFill(site, s, e); }
    case ReadForRelease(_, _) => { OwnRead(site, s, e); }
    case RemoveForRelease(_, _) => { OwnRemove(site, s, e); }
    case _ => { OwnPhase(site, s, e); }
  }

  lemma StepKeeps(site: Site, s: State, e: Event)
    requires Inv(site, s) && AllKeep(site, s) && Enabled(site, s, e) && SeparatePlan(site, e) && HarmlessRemoval(site, s, e)
    ensures AllKeep(site, Next(site, s, e))
  {
    hide Enabled, Next, Keeps, SeparatePlan, HarmlessRemoval, Untouched;
    OwnStep(site, s, e);
    var t := Next(site, s, e);
    forall q | q in t.live && q != e.p
      ensures Keeps(site, t, q)
    {
      NoNewcomers(site, s, e, q);
      if e.RemoveForRelease? {
        RemovalKeepsOthers(site, s, e, q);
      } else {
        Frame(site, s, e, q);
        OthersKeep(site, s, t, q);
      }
    }
  }

  lemma NoNewcomers(site: Site, s: State, e: Event, q: Proc)
    requires Enabled(site, s, e) && q in Next(site, s, e).live && q != e.p
    ensures q in s.live
  {
    hide CheckEntry, CheckOccupant, Releasable;
  }

  // ---- processes stay apart

  /** Nobody outside an acquisition has dropped a lock it relies on. */
  ghost predicate NoneAdrift(s: State) {
    forall p :: p in s.live && s.live[p].phase.Idle? ==> s.live[p].dropped == {}
  }

  /** Listeners of two different live processes do not compete. */
  ghost predicate HoldersApart(site: Site, s: State) {
    forall p, q, k, l :: p in s.live && q in s.live && p != q && k in s.live[p].acquired && l in s.live[q].acquired ==>
      !D.DataplaneOverlap(site.parse, k, l)
  }

  lemma StepKeepsNoneAdrift(site: Site, s: State, e: Event)
    requires NoneAdrift(s) && AllKeep(site, s) && Enabled(site, s, e) && HarmlessFailure(s, e)
    ensures NoneAdrift(Next(site, s, e))
  {
    hide CheckEntry, CheckOccupant, Releasable, Touches;
    var t := Next(site, s, e);
    forall q | q in t.live && t.live[q].phase.Idle?
      ensures t.live[q].dropped == {}
    {
      if q == e.p { OwnAdrift(site, s, e); }
    }
  }

  lemma OwnAdrift(site: Site, s: State, e: Event)
    requires NoneAdrift(s) && AllKeep(site, s) && Enabled(site, s, e) && HarmlessFailure(s, e) && e.p in Next(site, s, e).live
    ensures Next(site, s, e).live[e.p].phase.Idle? ==> Next(site, s, e).live[e.p].dropped == {}
  {
    hide CheckEntry, CheckOccupant, Releasable, Touches, HasAll, HasNone;
    if e.RemoveForRelease? && s.live[e.p].phase.Idle? {
      assert Keeps(site, s, e.p);
      assert At(site, s.live[e.p].acquired, s.live[e.p].removing.value) == {};
    }
  }

  /** Except for `Finish`, no step adds to what a process has acquired. */
  lemma AcquiredShrinks(site: Site, s: State, e: Event, q: Proc)
    requires Enabled(site, s, e) && q in Next(site, s, e).live && !(e.Finish? && e.p == q)
    ensures e.Start? && e.p == q ==> Next(site, s, e).live[q].acquired == {}
    ensures !(e.Start? && e.p == q) ==> q in s.live && Next(site, s, e).live[q].acquired <= s.live[q].acquired
  {
    hide CheckEntry, CheckOccupant, Releasable, Touches;
  }

  lemma OverlapTouches(site: Site, l: Key, k: Key, keys: set<Key>)
    requires k in keys
    ensures D.DataplaneOverlap(site.parse, l, k) ==> Touches(site, l, keys)
  {
    hide D.DataplaneOverlap;
  }

  /** A finished acquisition meets no listener of another process: its lock would have been in the way. */
  lemma FinishApart(site: Site, s: State, p: Proc, q: Proc, k: Key, l: Key)
    requires Inv(site, s) && AllKeep(site, s) && NoneAdrift(s) && Enabled(site, s, Finish(p))
    requires q in s.live && q != p && k in s.live[p].phase.keys && l in s.live[q].acquired
    ensures !D.DataplaneOverlap(site.parse, k, l) && !D.DataplaneOverlap(site.parse, l, k)
  {
    hide D.DataplaneOverlap, Identities, Exclusive;
    assert Checked(site, s, p) && Keeps(site, s, q) && s.live[q].phase.Idle?;
    assert Has(site, s, q, l);
    OverlapSymmetric(site.parse, k, l);
    OverlapTouches(site, l, k, s.live[p].phase.keys);
  }

  lemma StepKeepsApart(site: Site, s: State, e: Event)
    requires Inv(site, s) && AllKeep(site, s) && NoneAdrift(s) && HoldersApart(site, s) && Enabled(site, s, e)
    ensures HoldersApart(site, Next(site, s, e))
  {
    hide Inv, AllKeep, NoneAdrift, Enabled, Next, D.DataplaneOverlap;
    var t := Next(site, s, e);
    forall p, q, k, l | p in t.live && q in t.live && p != q && k in t.live[p].acquired && l in t.live[q].acquired
      ensures !D.DataplaneOverlap(site.parse, k, l)
    {
      if e.Finish? && e.p == p {
        AcquiredShrinks(site, s, e, q);
        FinishedKeys(site, s, p);
        FinishApart(site, s, p, q, k, l);
      } else if e.Finish? && e.p == q {
        AcquiredShrinks(site, s, e, p);
        FinishedKeys(site, s, q);
        FinishApart(site, s, q, p, l, k);
      } else {
        AcquiredShrinks(site, s, e, p);
        AcquiredShrinks(site, s, e, q);
      }
    }
  }

  lemma FinishedKeys(site: Site, s: State, p: Proc)
    requires Enabled(site, s, Finish(p))
    ensures p in s.live && s.live[p].phase.Writing? && Next(site, s, Finish(p)).live[p].acquired == s.live[p].phase.keys
  {
  }

  ghost predicate Held(site: Site, s: State) {
    Inv(site, s) && AllKeep(site, s) && NoneAdrift(s) && HoldersApart(site, s)
  }

  lemma {:induction false} RunHolds(site: Site, s: State, events: seq<Event>)
    requires Initial(s) && Runnable(site, s, events) && Considerate(site, s, events) && HarmlessFailures(site, s, events)
    ensures Held(site, Run(site, s, events))
    decreases |events|
  {
    hide Inv, Enabled, Next, AllKeep, SeparatePlan, HarmlessRemoval, HarmlessFailure, NoneAdrift, HoldersApart;
    if events == [] {
      StartsInv(site, s);
      NobodyHolds(site, s);
    } else {
      var front, last := events[..|events| - 1], events[|events| - 1];
      RunHolds(site, s, front);
      var before := Run(site, s, front);
      StepKeepsInv(site, before, last);
      StepKeeps(site, before, last);
      StepKeepsNoneAdrift(site, before, last);
      StepKeepsApart(site, before, last);
    }
  }

  lemma NobodyHolds(site: Site, s: State)
    requires Initial(s)
    ensures AllKeep(site, s) && NoneAdrift(s) && HoldersApart(site, s)
  {
  }

  /**
   Over every run whose releases remove nothing another process relies on and whose failed
   acquisitions dropped nothing: the listeners two live processes have acquired never compete,
   also while either acquires anew, and outside an acquisition each is recorded on disk.
   */
  lemma AcquiredLocksAreExclusive(site: Site, s: State, events: seq<Event>, p: Proc, q: Proc, k: Key, l: Key)
    requires Initial(s) && Runnable(site, s, events) && Considerate(site, s, events) && HarmlessFailures(site, s, events)
    requires var t := Run(site, s, events);
             p in t.live && q in t.live && k in t.live[p].acquired && l in t.live[q].acquired
    ensures Run(site, s, events).live[p].phase.Idle? ==> Has(site, Run(site, s, events), p, k)
    ensures D.DataplaneOverlap(site.parse, k, l) ==> p == q
  {
    hide Enabled, Next, Run, Runnable, Considerate, HarmlessFailures, D.DataplaneOverlap, Inv;
    RunHolds(site, s, events);
    assert Keeps(site, Run(site, s, events), p);
  }

  /** A failed acquisition leaves the process with all its locks if and only if it dropped none. */
  lemma FailureHarmlessIff(site: Site, s: State, p: Proc)
    requires AllKeep(site, s) && Enabled(site, s, Unlock(p))
    ensures HasAll(site, Next(site, s, Unlock(p)), p, s.live[p].acquired) <==> HarmlessFailure(s, Unlock(p))
  {
    var t := Next(site, s, Unlock(p));
    assert Keeps(site, s, p);
    assert forall k :: Has(site, t, p, k) <==> Has(site, s, p, k);
    if s.live[p].dropped != {} {
      var k :| k in s.live[p].dropped;
      assert !Has(site, t, p, k) && k in s.live[p].acquired;
    } else {
      assert s.live[p].acquired - s.live[p].dropped == s.live[p].acquired;
    }
  }

  // ---- releasing only own locks is considerate

  /** The release takes a lock of the releasing process itself, not a leftover of a dead one. */
  ghost predicate OwnRelease(s: State, e: Event) {
    e.ReadForRelease? ==> OwnLock(s, e.p, e.path)
  }

  ghost predicate OwnReleases(site: Site, s: State, events: seq<Event>)
    requires Runnable(site, s, events)
    decreases |events|
  {
    events == [] ||
    (&& OwnReleases(site, s, events[..|events| - 1])
     && var before, last := Run(site, s, events[..|events| - 1]), events[|events| - 1];
        SeparatePlan(site, last) && OwnRelease(before, last))
  }

  ghost predicate RemovingOwn(s: State) {
    forall p :: p in s.live && s.live[p].removing.Some? ==> OwnLock(s, p, s.live[p].removing.value)
  }

  lemma OwnRemovalIsHarmless(site: Site, s: State, e: Event)
    requires AllKeep(site, s) && RemovingOwn(s)
    ensures HarmlessRemoval(site, s, e)
  {
    if e.RemoveForRelease? && e.p in s.live && s.live[e.p].removing.Some? {
      forall q | q in s.live && q != e.p
        ensures !Relies(site, s, q, s.live[e.p].removing.value)
      {
        assert Keeps(site, s, q);
      }
    }
  }

  lemma StepKeepsRemovingOwn(site: Site, s: State, e: Event)
    requires Inv(site, s) && AllKeep(site, s) && RemovingOwn(s) && Enabled(site, s, e) && OwnRelease(s, e)
    ensures RemovingOwn(Next(site, s, e))
  {
    hide Inv, AllKeep, CheckEntry, CheckOccupant, Releasable;
    var t := Next(site, s, e);
    forall q | q in t.live && t.live[q].removing.Some?
      ensures OwnLock(t, q, t.live[q].removing.value)
    {
      if q != e.p {
        NoNewcomers(site, s, e, q);
        if !e.RemoveForRelease? { Frame(site, s, e, q); }
      }
    }
  }

  lemma {:induction false} OwnReleasesAreConsiderate(site: Site, s: State, events: seq<Event>)
    requires Initial(s) && Runnable(site, s, events) && OwnReleases(site, s, events)
    ensures Considerate(site, s, events)
    ensures Inv(site, Run(site, s, events)) && AllKeep(site, Run(site, s, events)) && RemovingOwn(Run(site, s, events))
    decreases |events|
  {
    hide Inv, Enabled, Next, AllKeep, SeparatePlan, HarmlessRemoval, OwnRelease, RemovingOwn;
    if events == [] {
      StartsInv(site, s);
      NobodyHolds(site, s);
      NobodyRemoves(s);
    } else {
      var front, last := events[..|events| - 1], events[|events| - 1];
      OwnReleasesAreConsiderate(site, s, front);
      var before := Run(site, s, front);
      OwnRemovalIsHarmless(site, before, last);
      StepKeepsInv(site, before, last);
      StepKeeps(site, before, last);
      StepKeepsRemovingOwn(site, before, last);
    }
  }

  lemma NobodyRemoves(s: State)
    requires Initial(s)
    ensures RemovingOwn(s)
  {
  }

  // ---- one release of a dead process's lock is enough to break it

  /** Not part of a release, and not a plan whose files collide. */
  ghost predicate Plain(site: Site, e: Event) {
    !e.ReadForRelease? && !e.RemoveForRelease? && SeparatePlan(site, e)
  }

  ghost predicate NoRelease(site: Site, events: seq<Event>) {
    forall i :: 0 <= i < |events| ==> Plain(site, events[i])
  }

  lemma {:induction false} NoReleaseIsConsiderate(site: Site, s: State, events: seq<Event>)
    requires Runnable(site, s, events) && NoRelease(site, events)
    ensures Considerate(site, s, events)
    decreases |events|
  {
    hide Enabled, Next, Run, SeparatePlan;
    if events != [] {
      assert Plain(site, events[|events| - 1]);
      NoReleaseIsConsiderate(site, s, events[..|events| - 1]);
    }
  }

  lemma Do(site: Site, s: State, events: seq<Event>, e: Event) returns (longer: seq<Event>)
    requires Runnable(site, s, events) && Enabled(site, Run(site, s, events), e)
    ensures Runnable(site, s, longer) && Run(site, s, longer) == Next(site, Run(site, s, events), e)
    ensures NoRelease(site, events) && Plain(site, e) ==> NoRelease(site, longer)
  {
    hide Enabled, Next;
    longer := events + [e];
    assert longer[..|longer| - 1] == events;
  }

  ghost function Acquired(site: Site, s: State, p: Proc, k: Key): State {
    s.(live := s.live[p := Local(Idle, None, {k}, {})], files := s.files[site.path(k) := Lock(p, k)])
  }

  /** Creating the file, writing it and unlocking, once the directory has been checked. */
  lemma WriteOne(site: Site, s: State, events: seq<Event>, p: Proc, k: Key) returns (longer: seq<Event>)
    requires Runnable(site, s, events)
    requires var t := Run(site, s, events);
             site.path(k) !in t.files && p in t.live && t.live[p].phase == Checking({k}, {}) && t.live[p].removing == None
    ensures Runnable(site, s, longer)
    ensures Run(site, s, longer) == Acquired(site, Run(site, s, events), p, k).(holder := None)
    ensures NoRelease(site, events) ==> NoRelease(site, longer)
  {
    hide NoRelease, Run, Runnable;
    longer := Do(site, s, events, StartWriting(p));
    longer := Do(site, s, longer, Create(p, k));
    longer := Do(site, s, longer, Fill(p, true));
    assert {k} - {k} == {};
    longer := Do(site, s, longer, Finish(p));
  }

  lemma AcquireFree(site: Site, s: State, events: seq<Event>, p: Proc, k: Key) returns (longer: seq<Event>)
    requires Runnable(site, s, events)
    requires var t := Run(site, s, events);
             t.files == map[] && t.holder == None && p in t.live && t.live[p] == Local(Idle, None, {}, {})
    ensures Runnable(site, s, longer) && Run(site, s, longer) == Acquired(site, Run(site, s, events), p, k)
    ensures NoRelease(site, events) ==> NoRelease(site, longer)
  {
    hide NoRelease, Run, Runnable;
    longer := Do(site, s, events, Begin(p, {k}));
    assert Run(site, s, events).files.Keys == {};
    longer := WriteOne(site, s, longer, p, k);
  }

  lemma AcquireOverDead(site: Site, s: State, events: seq<Event>, p: Proc, k: Key, dead: Proc) returns (longer: seq<Event>)
    requires Runnable(site, s, events)
    requires var t := Run(site, s, events);
             t.files == map[site.path(k) := Lock(dead, k)] && t.holder == None && p in t.live && t.live[p] == Local(Idle, None, {}, {})
             && !Alive(t, dead)
    ensures Runnable(site, s, longer) && Run(site, s, longer) == Acquired(site, Run(site, s, events), p, k)
  {
    hide NoRelease, Run, Runnable, Touches;
    longer := Do(site, s, events, Begin(p, {k}));
    var t := Run(site, s, longer);
    TouchesItself(site, k);
    StillDead(Run(site, s, events), t, dead);
    longer := Do(site, s, longer, Examine(p, site.path(k), false, true));
    assert Run(site, s, longer).files == map[];
    assert t.files.Keys - {site.path(k)} == {};
    assert map[][site.path(k) := Lock(p, k)] == t.files[site.path(k) := Lock(p, k)];
    longer := WriteOne(site, s, longer, p, k);
  }

  lemma StillDead(s: State, t: State, dead: Proc)
    requires !Alive(s, dead) && t.live.Keys == s.live.Keys
    ensures !Alive(t, dead)
  {
    assert forall q :: q in t.live <==> q in s.live.Keys;
  }

  lemma NothingAt(site: Site, path: string)
    ensures At(site, {}, path) == {}
  {
  }

  lemma TouchesItself(site: Site, k: Key)
    ensures Touches(site, k, {k})
  {
    D.OverlapsItself(site.parse, k);
  }

  const Fresh: Local := Local(Idle, None, {}, {})

  ghost predicate Apart(d: Proc, a: Proc, b: Proc, c: Proc) {
    && a.instance == d.instance != "" && b.instance != "" && c.instance != ""
    && d.pid != a.pid && d.pid != b.pid && d.pid != c.pid && a.pid != b.pid && a.pid != c.pid && b.pid != c.pid
  }

  /** A process acquires the listener and dies. */
  lemma LeaveBehind(site: Site, s: State, k: Key, d: Proc) returns (events: seq<Event>)
    requires Initial(s) && d.instance != ""
    ensures Runnable(site, s, events)
    ensures Run(site, s, events) == State(map[], {d}, None, map[site.path(k) := Lock(d, k)])
  {
    hide Run, Runnable, Touches;
    RunNothing(site, s);
    events := Do(site, s, [], Start(d));
    assert Run(site, s, events) == State(map[d := Fresh], {d}, None, map[]);
    events := AcquireFree(site, s, events, d, k);
    var t := Run(site, s, events);
    assert t == State(map[d := Local(Idle, None, {k}, {})], {d}, None, map[site.path(k) := Lock(d, k)]);
    events := Do(site, s, events, Crash(d));
    assert t.live - {d} == map[];
  }

  /** Three other processes start, and one reads the leftover lock for release. */
  lemma ReadLeftover(site: Site, s: State, k: Key, d: Proc, a: Proc, b: Proc, c: Proc) returns (events: seq<Event>)
    requires Initial(s) && Apart(d, a, b, c)
    ensures Runnable(site, s, events)
    ensures Run(site, s, events) ==
              State(map[a := Fresh.(removing := Some(site.path(k))), b := Fresh, c := Fresh], {d, a, b, c}, None, map[site.path(k) := Lock(d, k)])
  {
    hide Run, Runnable, Touches;
    var file := map[site.path(k) := Lock(d, k)];
    events := LeaveBehind(site, s, k, d);
    events := Do(site, s, events, Start(a));
    assert Run(site, s, events) == State(map[a := Fresh], {d, a}, None, file);
    events := Do(site, s, events, Start(b));
    assert Run(site, s, events) == State(map[a := Fresh, b := Fresh], {d, a, b}, None, file);
    events := Do(site, s, events, Start(c));
    assert Run(site, s, events) == State(map[a := Fresh, b := Fresh, c := Fresh], {d, a, b, c}, None, file);
    events := Do(site, s, events, ReadForRelease(a, site.path(k)));
    NothingAt(site, site.path(k));
    assert Releasing(site, Fresh, site.path(k)) == Fresh.(removing := Some(site.path(k)));
  }

  /**
   `a` reads the leftover of the dead `d`; before it removes the file, `b` takes the listener
   over. The removal then deletes `b`'s lock, and `c` acquires the listener `b` still holds.
   */
  lemma StaleReleaseBreaksExclusion(site: Site, s: State, k: Key, d: Proc, a: Proc, b: Proc, c: Proc) returns (events: seq<Event>)
    requires Initial(s) && Apart(d, a, b, c)
    ensures Runnable(site, s, events)
    ensures var t := Run(site, s, events);
            b in t.live && c in t.live && b != c && k in t.live[b].acquired && k in t.live[c].acquired
  {
    hide Run, Runnable, Touches;
    events := ReadLeftover(site, s, k, d, a, b, c);
    var reading := Fresh.(removing := Some(site.path(k)));
    assert !Alive(Run(site, s, events), d);
    events := AcquireOverDead(site, s, events, b, k, d);
    var holding := Local(Idle, None, {k}, {});
    assert Run(site, s, events) ==
      State(map[a := reading, b := holding, c := Fresh], {d, a, b, c}, None, map[site.path(k) := Lock(b, k)]);
    events := RemoveByName(site, s, events, k, d, a, b, c);
    events := AcquireFree(site, s, events, c, k);
  }

  /** The release removes by name, whoever has the file by now. */
  lemma RemoveByName(site: Site, s: State, events: seq<Event>, k: Key, d: Proc, a: Proc, b: Proc, c: Proc) returns (longer: seq<Event>)
    requires Apart(d, a, b, c) && Runnable(site, s, events)
    requires Run(site, s, events) ==
               State(map[a := Fresh.(removing := Some(site.path(k))), b := Local(Idle, None, {k}, {}), c := Fresh],
                     {d, a, b, c}, None, map[site.path(k) := Lock(b, k)])
    ensures Runnable(site, s, longer)
    ensures Run(site, s, longer) == State(map[a := Fresh, b := Local(Idle, None, {k}, {}), c := Fresh], {d, a, b, c}, None, map[])
  {
    hide Run, Runnable, Touches;
    NothingAt(site, site.path(k));
    longer := Do(site, s, events, RemoveForRelease(a, true));
    assert Run(site, s, longer).files == map[] && Run(site, s, longer).live[a] == Fresh;
  }

  lemma RunNothing(site: Site, s: State)
    ensures Runnable(site, s, []) && Run(site, s, []) == s
  {
  }

  // ---- and so is one failed re-acquisition

  /** The process serving `k` plans `k` and `m`, drops its own lock, and is refused at `m`, which another holds. */
  lemma FailedReacquisition(site: Site, s: State, events: seq<Event>, p: Proc, q: Proc, k: Key, m: Key) returns (longer: seq<Event>)
    requires Runnable(site, s, events) && site.path(k) != site.path(m) && q.instance != "" && p.pid != q.pid
    requires var t := Run(site, s, events);
             && t.holder == None && p in t.live && q in t.live
             && t.live[p] == Local(Idle, None, {k}, {}) && t.files == map[site.path(k) := Lock(p, k), site.path(m) := Lock(q, m)]
    ensures Runnable(site, s, longer)
    ensures var t := Run(site, s, events);
            Run(site, s, longer) ==
              t.(live := t.live[p := Local(Idle, None, {k}, {k})], files := map[site.path(m) := Lock(q, m)])
    ensures NoRelease(site, events) ==> NoRelease(site, longer)
  {
    hide NoRelease, Run, Runnable, Touches, CheckEntry;
    var keys, pm := {k, m}, site.path(m);
    longer := DropOwn(site, s, events, p, k, keys);
    TouchesAmong(site, m, keys);
    var t := Run(site, s, longer);
    assert Run(site, s, events).files - {site.path(k)} == map[pm := Lock(q, m)];
    LiveIsRefused(site, t, p, keys, pm, q);
    longer := Do(site, s, longer, Examine(p, pm, false, true));
    longer := Do(site, s, longer, Unlock(p));
  }

  /** Beginning an acquisition that includes an acquired listener and removing its lock. */
  lemma DropOwn(site: Site, s: State, events: seq<Event>, p: Proc, k: Key, keys: set<Key>) returns (longer: seq<Event>)
    requires Runnable(site, s, events) && k in keys && DistinctPaths(site, keys)
    requires var t := Run(site, s, events);
             t.holder == None && p in t.live && t.live[p] == Local(Idle, None, {k}, {}) && Has(site, t, p, k)
    ensures Runnable(site, s, longer)
    ensures var t, pk := Run(site, s, events), site.path(k);
            Run(site, s, longer) ==
              t.(live := t.live[p := Local(Checking(keys, t.files.Keys - {pk}), None, {k}, {k})], holder := Some(p), files := t.files - {pk})
    ensures NoRelease(site, events) ==> NoRelease(site, longer)
  {
    hide NoRelease, Run, Runnable, Touches, CheckEntry, DistinctPaths;
    longer := Do(site, s, events, Begin(p, keys));
    TouchesAmong(site, k, keys);
    OwnIsRemoved(site, Run(site, s, longer), p, keys, k);
    OnlyAt(site, k);
    longer := Do(site, s, longer, Examine(p, site.path(k), false, true));
    var t, u := Run(site, s, events), Run(site, s, longer);
    assert u.live[p] == Local(Checking(keys, t.files.Keys - {site.path(k)}), None, {k}, {k});
    assert u.live == t.live[p := u.live[p]];
  }

  lemma OwnIsRemoved(site: Site, s: State, p: Proc, keys: set<Key>, k: Key)
    requires Has(site, s, p, k) && Touches(site, k, keys)
    ensures CheckEntry(site, s, p, keys, site.path(k), false) == Remove
  {
    hide Touches;
  }

  lemma LiveIsRefused(site: Site, s: State, p: Proc, keys: set<Key>, path: string, q: Proc)
    requires OwnLock(s, q, path) && q in s.live && q.pid != p.pid && q.instance != "" && Touches(site, s.files[path].key, keys)
    ensures CheckEntry(site, s, p, keys, path, false) == Refuse
  {
    hide Touches;
  }

  lemma OnlyAt(site: Site, k: Key)
    ensures At(site, {k}, site.path(k)) == {k}
  {
  }

  lemma TouchesAmong(site: Site, k: Key, keys: set<Key>)
    requires k in keys
    ensures Touches(site, k, keys)
  {
    D.OverlapsItself(site.parse, k);
  }

  /** Acquiring one listener next to another process's lock that does not compete. */
  lemma AcquireBeside(site: Site, s: State, events: seq<Event>, p: Proc, k: Key, m: Key, q: Proc) returns (longer: seq<Event>)
    requires Runnable(site, s, events) && site.path(k) != site.path(m) && !D.DataplaneOverlap(site.parse, m, k)
    requires var t := Run(site, s, events);
             t.files == map[site.path(m) := Lock(q, m)] && t.holder == None && p in t.live && t.live[p] == Fresh
    ensures Runnable(site, s, longer)
    ensures var t := Run(site, s, events);
            Run(site, s, longer) ==
              t.(live := t.live[p := Local(Idle, None, {k}, {})], files := map[site.path(m) := Lock(q, m), site.path(k) := Lock(p, k)])
    ensures NoRelease(site, events) ==> NoRelease(site, longer)
  {
    hide NoRelease, Run, Runnable, D.DataplaneOverlap, CheckEntry, Acquired;
    var pm := site.path(m);
    var t := Run(site, s, events);
    assert DistinctPaths(site, {k});
    longer := Do(site, s, events, Begin(p, {k}));
    OtherIsSkipped(site, Run(site, s, longer), p, k, m, q);
    longer := Do(site, s, longer, Examine(p, pm, false, true));
    assert t.files.Keys - {pm} == {};
    var checked := Run(site, s, longer);
    longer := WriteOne(site, s, longer, p, k);
    AcquiredBeside(site, t, checked, p, k, m, q);
  }

  lemma AcquiredBeside(site: Site, t: State, checked: State, p: Proc, k: Key, m: Key, q: Proc)
    requires t.files == map[site.path(m) := Lock(q, m)] && t.holder == None && p in t.live && site.path(k) != site.path(m)
    requires checked == To(t, p, Checking({k}, {})).(holder := Some(p))
    ensures Acquired(site, checked, p, k).(holder := None) ==
              t.(live := t.live[p := Local(Idle, None, {k}, {})], files := map[site.path(m) := Lock(q, m), site.path(k) := Lock(p, k)])
  {
  }

  lemma OtherIsSkipped(site: Site, s: State, p: Proc, k: Key, m: Key, q: Proc)
    requires s.files == map[site.path(m) := Lock(q, m)] && !D.DataplaneOverlap(site.parse, m, k)
    ensures CheckEntry(site, s, p, {k}, site.path(m), false) == Skip
  {
    hide D.DataplaneOverlap;
    assert !Touches(site, m, {k});
  }

  /**
   No release at all: `p` serves `k` and loses its lock to its own failed acquisition of `k` and
   `m`; then `r` acquires `k` as well.
   */
  lemma FailedReacquisitionBreaksExclusion(site: Site, s: State, k: Key, m: Key, p: Proc, q: Proc, r: Proc) returns (events: seq<Event>)
    requires Initial(s) && site.path(k) != site.path(m) && !D.DataplaneOverlap(site.parse, k, m)
    requires p.instance != "" && q.instance != "" && r.instance != "" && p.pid != q.pid && p.pid != r.pid && q.pid != r.pid
    ensures Runnable(site, s, events) && Considerate(site, s, events)
    ensures var t := Run(site, s, events);
            p in t.live && r in t.live && p != r && k in t.live[p].acquired && k in t.live[r].acquired
  {
    hide NoRelease, Run, Runnable, Touches, Considerate;
    events := ThreeStart(site, s, p, q, r);
    events := AcquireFree(site, s, events, p, k);
    var holding := Local(Idle, None, {k}, {});
    OverlapSymmetric(site.parse, k, m);
    events := AcquireBeside(site, s, events, q, m, k, p);
    assert Run(site, s, events).live == map[p := holding, q := Local(Idle, None, {m}, {}), r := Fresh];
    events := FailedReacquisition(site, s, events, p, q, k, m);
    events := AcquireBeside(site, s, events, r, k, m, q);
    NoReleaseIsConsiderate(site, s, events);
  }

  lemma ThreeStart(site: Site, s: State, p: Proc, q: Proc, r: Proc) returns (events: seq<Event>)
    requires Initial(s) && p.instance != "" && q.instance != "" && r.instance != "" && p.pid != q.pid && p.pid != r.pid && q.pid != r.pid
    ensures Runnable(site, s, events)
    ensures Run(site, s, events) == State(map[p := Fresh, q := Fresh, r := Fresh], {p, q, r}, None, map[])
    ensures NoRelease(site, events)
  {
    hide Run, Runnable;
    RunNothing(site, s);
    assert NoRelease(site, []);
    hide NoRelease;
    events := Do(site, s, [], Start(p));
    assert Run(site, s, events) == State(map[p := Fresh], {p}, None, map[]);
    events := Do(site, s, events, Start(q));
    assert Run(site, s, events) == State(map[p := Fresh, q := Fresh], {p, q}, None, map[]);
    events := Do(site, s, events, Start(r));
  }
}
