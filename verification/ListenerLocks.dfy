/**
 Listener lock files shared by the agents of one machine. Acquiring checks the directory
 and writes the files under an flock; releasing reads a file and then removes it without
 one; processes come and go, and process IDs are reused.
 */
module ListenerLocks {
  import opened Text
  import opened Listeners
  import D = Deployment

  /** A process: its ID, its start time, and the Prism instance it runs. */
  datatype Proc = Proc(pid: int, start: string, instance: string)

  /** A file just created is blank; a written one names its owner and the listener. */
  datatype File = Blank | Lock(owner: Proc, key: Key)

  datatype Phase =
    | Idle
    | Checking(keys: set<Key>, unread: set<string>)
    | Writing(keys: set<Key>, todo: set<Key>)
    | Filling(keys: set<Key>, todo: set<Key>, key: Key)
    | Unwinding(written: set<Key>)

  /**
   `removing` is a file read for release and about to be removed. `acquired` are the listeners
   of the last successful acquisition, which the process serves; `dropped` those of them whose
   files it has itself removed since, while acquiring anew, and not written again.
   */
  datatype Local = Local(phase: Phase, removing: Option<string>, acquired: set<Key>, dropped: set<Key>)

  datatype State = State(live: map<Proc, Local>, used: set<Proc>, holder: Option<Proc>, files: map<string, File>)

  /** How addresses parse and where a listener's lock file is. */
  datatype Site = Site(parse: Parser, path: Key -> string)

  datatype Event =
    | Start(p: Proc)
    | Crash(p: Proc)
    | Begin(p: Proc, keys: set<Key>)
    | Examine(p: Proc, path: string, guarded: bool, removed: bool)
    | StartWriting(p: Proc)
    | Create(p: Proc, key: Key)
    | Occupied(p: Proc, key: Key, guarded: bool, removed: bool)
    | Fill(p: Proc, written: bool)
    | GiveUp(p: Proc)
    | Finish(p: Proc)
    | Unlock(p: Proc)
    | ReadForRelease(p: Proc, path: string)
    | RemoveForRelease(p: Proc, removed: bool)

  // ---- what a process can tell about a lock

  /** A process with the recorded ID runs and started when recorded. */
  ghost predicate Alive(s: State, owner: Proc) {
    exists q :: q in s.live && q.pid == owner.pid && q.start == owner.start
  }

  ghost predicate OwnOrStale(s: State, p: Proc, owner: Proc) {
    owner.pid == p.pid || !Alive(s, owner)
  }

  ghost predicate Releasable(s: State, p: Proc, file: File) {
    file.Lock? && file.owner.instance == p.instance && OwnOrStale(s, p, file.owner)
  }

  ghost predicate Touches(site: Site, key: Key, keys: set<Key>) {
    exists other :: other in keys && D.DataplaneOverlap(site.parse, key, other)
  }

  datatype Decision = Skip | Remove | Refuse

  /** One directory entry during the check; `guarded` says its nftables state may still be in place. */
  ghost function CheckEntry(site: Site, s: State, p: Proc, keys: set<Key>, path: string, guarded: bool): Decision {
    if path !in s.files || s.files[path].Blank? || !Touches(site, s.files[path].key, keys) then Skip
    else
      var owner := s.files[path].owner;
      if Releasable(s, p, s.files[path]) then Remove
      else if owner.instance != "" && Alive(s, owner) then Refuse
      else if guarded && owner.instance != p.instance then Refuse
      else Remove
  }

  /** A file in the way of an exclusive create. */
  ghost function CheckOccupant(s: State, p: Proc, file: File, guarded: bool): Decision {
    if file.Blank? then Remove
    else
      var owner := file.owner;
      if owner.instance != "" && Alive(s, owner) && (owner.instance != p.instance || owner.pid != p.pid) then Refuse
      else if guarded && owner.instance != p.instance then Refuse
      else if (owner.instance == p.instance && owner.pid == p.pid) || !Alive(s, owner) then Remove
      else Refuse
  }

  // ---- steps

  ghost predicate Ready(s: State, p: Proc) {
    p in s.live && s.live[p].removing.None?
  }

  /** Outside an acquisition any lock, when one fails the locks it has written so far. */
  ghost predicate MayRelease(site: Site, phase: Phase, path: string) {
    phase.Idle? || (phase.Unwinding? && exists k :: k in phase.written && site.path(k) == path)
  }

  ghost predicate Enabled(site: Site, s: State, e: Event) {
    match e
    case Start(p) => p.instance != "" && (forall q :: q in s.used ==> q.pid != p.pid || q.start != p.start) && (forall q :: q in s.live ==> q.pid != p.pid)
    case Crash(p) => p in s.live
    case Begin(p, keys) => Ready(s, p) && s.live[p].phase.Idle? && s.holder.None?
    case Examine(p, path, _, _) => Ready(s, p) && s.live[p].phase.Checking? && path in s.live[p].phase.unread
    case StartWriting(p) => Ready(s, p) && s.live[p].phase.Checking? && s.live[p].phase.unread == {}
    case Create(p, key) => Ready(s, p) && s.live[p].phase.Writing? && key in s.live[p].phase.todo && site.path(key) !in s.files
    case Occupied(p, key, _, _) => Ready(s, p) && s.live[p].phase.Writing? && key in s.live[p].phase.todo && site.path(key) in s.files
    case Fill(p, _) => Ready(s, p) && s.live[p].phase.Filling?
    case GiveUp(p) => Ready(s, p) && s.live[p].phase.Writing?
    case Finish(p) => Ready(s, p) && s.live[p].phase.Writing? && s.live[p].phase.todo == {}
    case Unlock(p) => Ready(s, p) && s.live[p].phase.Unwinding?
    case ReadForRelease(p, path) =>
      Ready(s, p) && MayRelease(site, s.live[p].phase, path) && path in s.files && Releasable(s, p, s.files[path])
    case RemoveForRelease(p, _) => p in s.live && s.live[p].removing.Some?
  }

  ghost function To(s: State, p: Proc, phase: Phase): State
    requires p in s.live
  {
    s.(live := s.live[p := s.live[p].(phase := phase)])
  }

  ghost function At(site: Site, keys: set<Key>, path: string): set<Key> {
    set k | k in keys && site.path(k) == path
  }

  /** The process removes a file, unless the removal fails. */
  ghost function Drop(site: Site, s: State, p: Proc, path: string, removed: bool): State
    requires p in s.live
  {
    if !removed then s
    else
      s.(files := s.files - {path},
         live := s.live[p := s.live[p].(dropped := s.live[p].dropped + At(site, s.live[p].acquired, path))])
  }

  /** What a failed acquisition has written. */
  function Written(phase: Phase): set<Key> {
    match phase
    case Writing(keys, todo) => keys - todo
    case Filling(keys, todo, _) => keys - todo
    case _ => {}
  }

  ghost function Next(site: Site, s: State, e: Event): State
    requires Enabled(site, s, e)
  {
    match e
    case Start(p) => s.(live := s.live[p := Local(Idle, None, {}, {})], used := s.used + {p})
    case Crash(p) => s.(live := s.live - {p}, holder := if s.holder == Some(p) then None else s.holder)
    case Begin(p, keys) => To(s, p, Checking(keys, s.files.Keys)).(holder := Some(p))
    case Examine(p, path, guarded, removed) =>
      var phase := s.live[p].phase;
      (match CheckEntry(site, s, p, phase.keys, path, guarded)
       case Skip => To(s, p, phase.(unread := phase.unread - {path}))
       case Remove => Drop(site, To(s, p, phase.(unread := phase.unread - {path})), p, path, removed)
       case Refuse => To(s, p, Unwinding({})))
    case StartWriting(p) => To(s, p, Writing(s.live[p].phase.keys, s.live[p].phase.keys))
    case Create(p, key) =>
      To(s, p, Filling(s.live[p].phase.keys, s.live[p].phase.todo, key)).(files := s.files[site.path(key) := Blank])
    case Occupied(p, key, guarded, removed) =>
      (match CheckOccupant(s, p, s.files[site.path(key)], guarded)
       case Remove => Drop(site, s, p, site.path(key), removed)
       case _ => To(s, p, Unwinding(Written(s.live[p].phase))))
    case Fill(p, written) =>
      var phase := s.live[p].phase;
      var path := site.path(phase.key);
      if !written then Drop(site, To(s, p, Unwinding(Written(phase))), p, path, true)
      else if path !in s.files then To(s, p, Writing(phase.keys, phase.todo - {phase.key}))
      else
        var local := s.live[p].(phase := Writing(phase.keys, phase.todo - {phase.key}), dropped := s.live[p].dropped - {phase.key});
        s.(live := s.live[p := local], files := s.files[path := Lock(p, phase.key)])
    case GiveUp(p) => To(s, p, Unwinding(Written(s.live[p].phase)))
    case Finish(p) => s.(live := s.live[p := Local(Idle, None, s.live[p].phase.keys, {})], holder := None)
    case Unlock(p) => To(s, p, Idle).(holder := None)
    case ReadForRelease(p, path) => s.(live := s.live[p := Releasing(site, s.live[p], path)])
    case RemoveForRelease(p, removed) =>
      var path := s.live[p].removing.value;
      Drop(site, s.(live := s.live[p := s.live[p].(removing := None)]), p, path, removed)
  }

  /** Outside an acquisition, releasing a lock gives its listener up. */
  ghost function Releasing(site: Site, local: Local, path: string): Local {
    if local.phase.Idle? then
      var kept := local.acquired - At(site, local.acquired, path);
      local.(removing := Some(path), acquired := kept, dropped := local.dropped * kept)
    else local.(removing := Some(path))
  }

  ghost predicate Runnable(site: Site, s: State, events: seq<Event>)
    decreases |events|, 0
  {
    events == [] ||
    (Runnable(site, s, events[..|events| - 1]) && Enabled(site, Run(site, s, events[..|events| - 1]), events[|events| - 1]))
  }

  ghost function Run(site: Site, s: State, events: seq<Event>): State
    requires Runnable(site, s, events)
    decreases |events|, 1
  {
    if events == [] then s else Next(site, Run(site, s, events[..|events| - 1]), events[|events| - 1])
  }

  // ---- the invariant

  /** Identities are unique, and every recorded owner was a process once. */
  ghost predicate Identities(s: State) {
    && s.live.Keys <= s.used
    && (forall a, b :: a in s.used && b in s.used && a.pid == b.pid && a.start == b.start ==> a == b)
    && (forall a, b :: a in s.live && b in s.live && a.pid == b.pid ==> a == b)
    && (forall a :: a in s.used ==> a.instance != "")
    && (forall path :: path in s.files && s.files[path].Lock? ==> s.files[path].owner in s.used)
  }

  ghost predicate OneHolder(s: State) {
    && (s.holder.Some? ==> s.holder.value in s.live)
    && (forall p :: p in s.live && !s.live[p].phase.Idle? ==> s.holder == Some(p))
  }

  /** Outside `except`, nothing that competes with `keys` belongs to another live process. */
  ghost predicate Clear(site: Site, s: State, p: Proc, keys: set<Key>, except: set<string>) {
    forall path :: path in s.files && path !in except && s.files[path].Lock? && Touches(site, s.files[path].key, keys) ==>
      s.files[path].owner == p || s.files[path].owner !in s.live
  }

  ghost predicate Checked(site: Site, s: State, p: Proc)
    requires p in s.live
  {
    match s.live[p].phase
    case Idle => true
    case Unwinding(_) => true
    case Checking(keys, unread) => Clear(site, s, p, keys, unread)
    case Writing(keys, todo) => todo <= keys && Clear(site, s, p, keys, {})
    case Filling(keys, todo, key) => todo <= keys && key in keys && Clear(site, s, p, keys, {})
  }

  /** A lock file recorded by a live process. */
  ghost predicate HeldBy(s: State, path: string) {
    path in s.files && s.files[path].Lock? && s.files[path].owner in s.live
  }

  /** Lock files of different live processes never compete. */
  ghost predicate Exclusive(site: Site, s: State) {
    forall a, b :: HeldBy(s, a) && HeldBy(s, b) && D.DataplaneOverlap(site.parse, s.files[a].key, s.files[b].key) ==>
      s.files[a].owner == s.files[b].owner
  }

  ghost predicate Inv(site: Site, s: State) {
    Identities(s) && OneHolder(s) && Exclusive(site, s) && forall p :: p in s.live ==> Checked(site, s, p)
  }

  ghost predicate Initial(s: State) {
    s.live == map[] && s.used == {} && s.holder == None && s.files == map[]
  }

  lemma AliveIsLive(s: State, owner: Proc)
    requires Identities(s) && owner in s.used
    ensures Alive(s, owner) <==> owner in s.live
  {
  }

  lemma OverlapSymmetric(parse: Parser, k: Key, l: Key)
    ensures D.DataplaneOverlap(parse, k, l) <==> D.DataplaneOverlap(parse, l, k)
  {
    hide TrimBrackets, D.NormalizeListenIP;
  }

  /** Whatever the check removes or lets stand belongs to the checking process or to a dead one. */
  lemma CheckedEntry(site: Site, s: State, p: Proc, keys: set<Key>, path: string, guarded: bool)
    requires Identities(s) && p in s.live && path in s.files && s.files[path].Lock? && Touches(site, s.files[path].key, keys)
    requires CheckEntry(site, s, p, keys, path, guarded) != Refuse
    ensures s.files[path].owner == p || s.files[path].owner !in s.live
  {
    hide Touches;
    AliveIsLive(s, s.files[path].owner);
  }

  // ---- every step keeps it

  lemma FewerFiles(site: Site, s: State, t: State)
    requires Inv(site, s) && t.live == s.live && t.used == s.used && t.holder == s.holder
    requires forall path :: path in t.files ==> path in s.files && t.files[path] == s.files[path]
    ensures Inv(site, t)
  {
    hide Touches, D.DataplaneOverlap;
    forall p | p in t.live
      ensures Checked(site, t, p)
    {
      assert Checked(site, s, p);
    }
  }

  lemma ProcessSteps(site: Site, s: State, e: Event)
    requires Inv(site, s) && Enabled(site, s, e) && (e.Start? || e.Crash?)
    ensures Inv(site, Next(site, s, e))
  {
    hide Touches, D.DataplaneOverlap;
    var t := Next(site, s, e);
    forall p | p in t.live
      ensures Checked(site, t, p)
    {
      if p in s.live { assert Checked(site, s, p); }
    }
  }

  /** A process moves to another phase; files, processes and identities stay. */
  lemma PhaseStep(site: Site, s: State, p: Proc, local: Local, holder: Option<Proc>)
    requires Inv(site, s) && p in s.live
    requires holder == (if local.phase.Idle? then None else Some(p)) && (s.holder == Some(p) || s.holder.None?)
    requires Checked(site, s.(live := s.live[p := local]), p)
    ensures Inv(site, s.(live := s.live[p := local], holder := holder))
  {
    hide Touches, D.DataplaneOverlap;
    var t := s.(live := s.live[p := local], holder := holder);
    assert t.live.Keys == s.live.Keys;
    forall q | q in t.live
      ensures Checked(site, t, q)
    {
      if q != p { assert Checked(site, s, q); }
    }
  }

  /** Removing a file is bookkeeping and one file less. */
  lemma DropKeepsInv(site: Site, s: State, p: Proc, path: string, removed: bool)
    requires Inv(site, s) && p in s.live
    ensures Inv(site, Drop(site, s, p, path, removed))
  {
    hide Inv, At;
    if removed {
      var local := s.live[p].(dropped := s.live[p].dropped + At(site, s.live[p].acquired, path));
      LocalStep(site, s, p, local);
      FewerFiles(site, s.(live := s.live[p := local]), Drop(site, s, p, path, removed));
    }
  }

  lemma ExamineStep(site: Site, s: State, e: Event)
    requires Inv(site, s) && Enabled(site, s, e) && e.Examine?
    ensures Inv(site, Next(site, s, e))
  {
    hide Touches, D.DataplaneOverlap, CheckEntry, Identities, Exclusive;
    var p, phase := e.p, s.live[e.p].phase;
    var decision := CheckEntry(site, s, p, phase.keys, e.path, e.guarded);
    assert Checked(site, s, p);
    if decision == Refuse {
      PhaseStep(site, s, p, s.live[p].(phase := Unwinding({})), s.holder);
    } else {
      var local := s.live[p].(phase := phase.(unread := phase.unread - {e.path}));
      var t := s.(live := s.live[p := local]);
      if e.path in s.files && s.files[e.path].Lock? && Touches(site, s.files[e.path].key, phase.keys) {
        CheckedEntry(site, s, p, phase.keys, e.path, e.guarded);
      }
      assert Clear(site, t, p, phase.keys, phase.unread - {e.path});
      PhaseStep(site, s, p, local, s.holder);
      hide Inv;
      DropKeepsInv(site, t, p, e.path, e.removed);
    }
  }

  lemma OccupiedStep(site: Site, s: State, e: Event)
    requires Inv(site, s) && Enabled(site, s, e) && e.Occupied?
    ensures Inv(site, Next(site, s, e))
  {
    hide Touches, D.DataplaneOverlap, CheckOccupant, Identities, Exclusive;
    var p := e.p;
    if CheckOccupant(s, p, s.files[site.path(e.key)], e.guarded) == Remove {
      hide Inv;
      DropKeepsInv(site, s, p, site.path(e.key), e.removed);
    } else {
      PhaseStep(site, s, p, s.live[p].(phase := Unwinding(Written(s.live[p].phase))), s.holder);
    }
  }

  /** Starting, moving on and finishing an acquisition. */
  lemma PhaseSteps(site: Site, s: State, e: Event)
    requires Inv(site, s) && Enabled(site, s, e)
    requires e.Begin? || e.StartWriting? || e.GiveUp? || e.Finish? || e.Unlock? || e.ReadForRelease?
    ensures Inv(site, Next(site, s, e))
  {
    hide Touches, D.DataplaneOverlap, Releasable, Identities, Exclusive;
    var p := e.p;
    assert Checked(site, s, p);
    match e
    case Begin(_, keys) => {
      assert forall path :: path in s.files ==> path in s.files.Keys;
      PhaseStep(site, s, p, s.live[p].(phase := Checking(keys, s.files.Keys)), Some(p));
    }
    case StartWriting(_) => {
      var keys := s.live[p].phase.keys;
      assert Clear(site, s.(live := s.live[p := s.live[p].(phase := Writing(keys, keys))]), p, keys, {});
      PhaseStep(site, s, p, s.live[p].(phase := Writing(keys, keys)), s.holder);
    }
    case GiveUp(_) => { PhaseStep(site, s, p, s.live[p].(phase := Unwinding(Written(s.live[p].phase))), s.holder); }
    case Finish(_) => { PhaseStep(site, s, p, Local(Idle, None, s.live[p].phase.keys, {}), None); }
    case Unlock(_) => { PhaseStep(site, s, p, s.live[p].(phase := Idle), None); }
    case ReadForRelease(_, path) => {
      LocalStep(site, s, p, Releasing(site, s.live[p], path));
    }
  }

  /** Bookkeeping that leaves the phase alone. */
  lemma LocalStep(site: Site, s: State, p: Proc, local: Local)
    requires Inv(site, s) && p in s.live && local.phase == s.live[p].phase
    ensures Inv(site, s.(live := s.live[p := local]))
  {
    hide Touches, D.DataplaneOverlap;
    var t := s.(live := s.live[p := local]);
    assert t.live.Keys == s.live.Keys;
    forall q | q in t.live
      ensures Checked(site, t, q)
    {
      assert Checked(site, s, q);
    }
  }

  lemma RemoveStep(site: Site, s: State, e: Event)
    requires Inv(site, s) && Enabled(site, s, e) && e.RemoveForRelease?
    ensures Inv(site, Next(site, s, e))
  {
    hide Inv, Drop;
    var local := s.live[e.p].(removing := None);
    LocalStep(site, s, e.p, local);
    DropKeepsInv(site, s.(live := s.live[e.p := local]), e.p, s.live[e.p].removing.value, e.removed);
  }

  /** A blank file claims nothing. */
  lemma CreateStep(site: Site, s: State, e: Event)
    requires Inv(site, s) && Enabled(site, s, e) && e.Create?
    ensures Inv(site, Next(site, s, e))
  {
    hide Touches, D.DataplaneOverlap;
    var t := Next(site, s, e);
    assert t.live.Keys == s.live.Keys;
    forall q | q in t.live
      ensures Checked(site, t, q)
    {
      assert Checked(site, s, q);
    }
  }

  /** The new lock competes only with the writer's own or a dead process's files. */
  lemma WriteLock(site: Site, s: State, p: Proc, path: string, keys: set<Key>, key: Key)
    requires Identities(s) && Exclusive(site, s) && p in s.live && key in keys && Clear(site, s, p, keys, {})
    ensures var t := s.(files := s.files[path := Lock(p, key)]);
            Identities(t) && Exclusive(site, t) && Clear(site, t, p, keys, {})
  {
    hide D.DataplaneOverlap;
    var t := s.(files := s.files[path := Lock(p, key)]);
    forall a, b | HeldBy(t, a) && HeldBy(t, b) && D.DataplaneOverlap(site.parse, t.files[a].key, t.files[b].key)
      ensures t.files[a].owner == t.files[b].owner
    {
      if a == path && b != path {
        OverlapSymmetric(site.parse, t.files[a].key, t.files[b].key);
        assert Touches(site, t.files[b].key, keys);
      } else if a != path && b == path {
        assert Touches(site, t.files[a].key, keys);
      } else if a != path {
        assert HeldBy(s, a) && HeldBy(s, b);
      }
    }
  }

  lemma FillStep(site: Site, s: State, e: Event)
    requires Inv(site, s) && Enabled(site, s, e) && e.Fill?
    ensures Inv(site, Next(site, s, e))
  {
    hide Touches, D.DataplaneOverlap, Identities, Exclusive;
    var p, phase := e.p, s.live[e.p].phase;
    var path := site.path(phase.key);
    assert Checked(site, s, p);
    if !e.written {
      var local := s.live[p].(phase := Unwinding(Written(phase)));
      PhaseStep(site, s, p, local, s.holder);
      hide Inv;
      DropKeepsInv(site, s.(live := s.live[p := local]), p, path, true);
    } else {
      var dropped := if path in s.files then s.live[p].dropped - {phase.key} else s.live[p].dropped;
      var local := s.live[p].(phase := Writing(phase.keys, phase.todo - {phase.key}), dropped := dropped);
      var t := s.(live := s.live[p := local]);
      assert Clear(site, t, p, phase.keys, {});
      PhaseStep(site, s, p, local, s.holder);
      if path in s.files {
        WriteLock(site, t, p, path, phase.keys, phase.key);
        OthersIdle(site, t, p, Next(site, s, e));
      }
    }
  }

  /** While one process holds the flock, the others have nothing to keep clear. */
  lemma OthersIdle(site: Site, s: State, p: Proc, t: State)
    requires OneHolder(s) && p in s.live && s.holder == Some(p) && t.live == s.live && t.holder == s.holder
    ensures OneHolder(t) && forall q :: q in t.live && q != p ==> Checked(site, t, q)
  {
    forall q | q in t.live && q != p
      ensures Checked(site, t, q)
    {
      assert s.live[q].phase.Idle?;
    }
  }

  lemma StepKeepsInv(site: Site, s: State, e: Event)
    requires Inv(site, s) && Enabled(site, s, e)
    ensures Inv(site, Next(site, s, e))
  {
    hide Inv, Enabled, Next;
    match e
    case Start(_) => { ProcessSteps(site, s, e); }
    case Crash(_) => { ProcessSteps(site, s, e); }
    case Examine(_, _, _, _) => { ExamineStep(site, s, e); }
    case Create(_, _) => { CreateStep(site, s, e); }
    case Occupied(_, _, _, _) => { OccupiedStep(site, s, e); }
    case Fill(_, _) => { FillStep(site, s, e); }
    case RemoveForRelease(_, _) => { RemoveStep(site, s, e); }
    case _ => { PhaseSteps(site, s, e); }
  }

  lemma {:induction false} RunKeepsInv(site: Site, s: State, events: seq<Event>)
    requires Inv(site, s) && Runnable(site, s, events)
    ensures Inv(site, Run(site, s, events))
    decreases |events|
  {
    hide Inv, Enabled, Next;
    if events != [] {
      RunKeepsInv(site, s, events[..|events| - 1]);
      StepKeepsInv(site, Run(site, s, events[..|events| - 1]), events[|events| - 1]);
    }
  }

  /**
   Mutual exclusion: after any interleaving of acquisitions, releases, crashes and restarts of
   any number of processes, lock files of two different live processes never compete.
   */
  lemma LockFilesNeverCompete(site: Site, s: State, events: seq<Event>)
    requires Initial(s) && Runnable(site, s, events)
    ensures Exclusive(site, Run(site, s, events))
  {
    hide Enabled, Next, Run, Runnable, Exclusive;
    StartsInv(site, s);
    RunKeepsInv(site, s, events);
  }

  lemma StartsInv(site: Site, s: State)
    requires Initial(s)
    ensures Inv(site, s)
  {
  }

  // ---- what the two checks decide

  /** The directory check refuses exactly at a competing lock of another live process, and otherwise clears what competes. */
  lemma EntryDecision(site: Site, s: State, p: Proc, keys: set<Key>, path: string)
    requires Identities(s) && p in s.live
    ensures var decision := CheckEntry(site, s, p, keys, path, false);
            var competing := path in s.files && s.files[path].Lock? && Touches(site, s.files[path].key, keys);
            && (decision == Skip <==> !competing)
            && (decision == Refuse <==> competing && s.files[path].owner in s.live && s.files[path].owner != p)
  {
    hide Touches;
    if path in s.files && s.files[path].Lock? { AliveIsLive(s, s.files[path].owner); }
  }

  /** A file in the way of a create is removed unless another live process owns it. */
  lemma OccupantDecision(s: State, p: Proc, path: string)
    requires Identities(s) && p in s.live && path in s.files
    ensures CheckOccupant(s, p, s.files[path], false) ==
              if s.files[path].Lock? && s.files[path].owner in s.live && s.files[path].owner != p then Refuse else Remove
  {
    if s.files[path].Lock? { AliveIsLive(s, s.files[path].owner); }
  }

  /** The nftables guard protects foreign locks only. */
  lemma GuardProtectsForeign(site: Site, s: State, p: Proc, keys: set<Key>, path: string)
    requires Identities(s) && p in s.live && path in s.files && s.files[path].Lock? && Touches(site, s.files[path].key, keys)
    ensures CheckEntry(site, s, p, keys, path, true) == Remove <==> Releasable(s, p, s.files[path]) || (s.files[path].owner !in s.live && s.files[path].owner.instance == p.instance)
  {
    hide Touches;
    AliveIsLive(s, s.files[path].owner);
  }
}
