/** Concurrent model installation (worker/internal/upscale/manager.go): a registry under one lock, a mutex per
    name created on demand under another, and a double-checked install.

    A step is one stretch of one goroutine's `Install` between two lock operations, in any order.  Mutexes have
    identities of their own: that two installs of one name meet at the same mutex is proved, not assumed. */
module ModelManager {
  import opened Optional

  type Name = string
  type Tid = nat
  type MutexId = nat

  /** A registered model and the goroutine whose artifact it came from (None: built in or preinstalled). */
  datatype Model = Model(name: Name, origin: Option<Tid>)

  datatype Pc =
    | Checking(name: Name)                     // before the first registry check
    | Fetching(name: Name)                     // about to call perNameMu
    | Waiting(name: Name, mutex: MutexId)      // about to lock the name's mutex
    | Rechecking(name: Name, mutex: MutexId)   // holds it
    | Extracting(name: Name, mutex: MutexId)   // holds it, reads, verifies and extracts
    | Registering(name: Name, mutex: MutexId)  // holds it, weights on disk
    | Leaving(name: Name, mutex: MutexId)      // holds it, about to unlock and return nil
    | Done(name: Name, ok: bool)

  datatype State = State(models: map<Name, Model>, inFlight: map<Name, MutexId>, created: nat,
                         held: map<MutexId, Tid>, threads: map<Tid, Pc>, registered: seq<Name>)

  predicate Refused(name: Name) {
    name == "" || name == "mock" || '/' in name || '\\' in name
    || exists i | 0 <= i < |name| - 1 :: name[i] == '.' && name[i + 1] == '.'
  }

  /** Refused are the empty name, the built-in one, and what could leave the models directory. */
  lemma RefusedIff(name: Name)
    ensures Refused(name) <==> name == "" || name == "mock" || '/' in name || '\\' in name
                               || exists front: string, back: string :: name == front + ".." + back
  {
    if i :| 0 <= i < |name| - 1 && name[i] == '.' && name[i + 1] == '.' {
      assert name == name[..i] + ".." + name[i + 2..];
    }
    if front: string, back: string :| name == front + ".." + back {
      assert name[|front|] == '.' && name[|front| + 1] == '.';
    }
  }

  datatype Step =
    | Call(t: Tid, name: Name)
    | FastCheck(t: Tid)
    | PerNameMu(t: Tid)
    | Lock(t: Tid)
    | Recheck(t: Tid)
    | Extract(t: Tid, good: bool)
    | Register(t: Tid)
    | Leave(t: Tid)

  predicate At(s: State, t: Tid) { t in s.threads }

  predicate Enabled(s: State, step: Step) {
    match step
    case Call(t, _) => t !in s.threads
    case FastCheck(t) => At(s, t) && s.threads[t].Checking?
    case PerNameMu(t) => At(s, t) && s.threads[t].Fetching?
    case Lock(t) => At(s, t) && s.threads[t].Waiting? && s.threads[t].mutex !in s.held
    case Recheck(t) => At(s, t) && s.threads[t].Rechecking?
    case Extract(t, _) => At(s, t) && s.threads[t].Extracting?
    case Register(t) => At(s, t) && s.threads[t].Registering?
    case Leave(t) => At(s, t) && s.threads[t].Leaving?
  }

  function Move(s: State, t: Tid, pc: Pc): State { s.(threads := s.threads[t := pc]) }

  function Unlock(s: State, mutex: MutexId): State { s.(held := s.held - {mutex}) }

  function Apply(s: State, step: Step): State
    requires Enabled(s, step)
  {
    match step
    case Call(t, name) => Move(s, t, if Refused(name) then Done(name, false) else Checking(name))
    case FastCheck(t) =>
      var name := s.threads[t].name;
      Move(s, t, if name in s.models then Done(name, true) else Fetching(name))
    case PerNameMu(t) =>
      var name := s.threads[t].name;
      if name in s.inFlight then Move(s, t, Waiting(name, s.inFlight[name]))
      else Move(s.(inFlight := s.inFlight[name := s.created], created := s.created + 1), t, Waiting(name, s.created))
    case Lock(t) =>
      var Waiting(name, mutex) := s.threads[t];
      Move(s.(held := s.held[mutex := t]), t, Rechecking(name, mutex))
    case Recheck(t) =>
      var Rechecking(name, mutex) := s.threads[t];
      Move(s, t, if name in s.models then Leaving(name, mutex) else Extracting(name, mutex))
    case Extract(t, good) =>
      var Extracting(name, mutex) := s.threads[t];
      if good then Move(s, t, Registering(name, mutex)) else Move(Unlock(s, mutex), t, Done(name, false))
    case Register(t) =>
      var Registering(name, mutex) := s.threads[t];
      Move(s.(models := s.models[name := Model(name, Some(t))], registered := s.registered + [name]), t, Leaving(name, mutex))
    case Leave(t) =>
      var Leaving(name, mutex) := s.threads[t];
      Move(Unlock(s, mutex), t, Done(name, true))
  }

  // ----- the invariant -----

  /** Past the name's mutex. */
  predicate Inside(pc: Pc) { pc.Rechecking? || pc.Extracting? || pc.Registering? || pc.Leaving? }

  predicate HasMutex(pc: Pc) { pc.Waiting? || Inside(pc) }

  ghost predicate MutexesAgree(s: State) {
    && (forall n :: n in s.inFlight ==> s.inFlight[n] < s.created)
    && (forall n, m :: n in s.inFlight && m in s.inFlight && s.inFlight[n] == s.inFlight[m] ==> n == m)
    && (forall t :: t in s.threads && HasMutex(s.threads[t]) ==>
          s.threads[t].name in s.inFlight && s.threads[t].mutex == s.inFlight[s.threads[t].name])
  }

  ghost predicate HoldersAgree(s: State) {
    && (forall t :: t in s.threads && Inside(s.threads[t]) ==>
          s.threads[t].mutex in s.held && s.held[s.threads[t].mutex] == t)
    && (forall m :: m in s.held ==> s.held[m] in s.threads && Inside(s.threads[s.held[m]]) && s.threads[s.held[m]].mutex == m)
  }

  ghost predicate RegistryAgrees(s: State) {
    && (forall t :: t in s.threads && (s.threads[t].Extracting? || s.threads[t].Registering?) ==> s.threads[t].name !in s.models)
    && (forall t :: t in s.threads && (s.threads[t].Leaving? || (s.threads[t].Done? && s.threads[t].ok)) ==> s.threads[t].name in s.models)
    && (forall i :: 0 <= i < |s.registered| ==> s.registered[i] in s.models)
    && (forall i, j :: 0 <= i < j < |s.registered| ==> s.registered[i] != s.registered[j])
    && (forall n :: n in s.models ==> s.models[n].name == n)
    && "mock" in s.models
  }

  ghost predicate Inv(s: State) { MutexesAgree(s) && HoldersAgree(s) && RegistryAgrees(s) }

  /** Fresh manager: the mock and whatever preinstalled models have their weights. */
  ghost predicate Initial(s: State) {
    && s.inFlight == map[] && s.created == 0 && s.held == map[] && s.threads == map[] && s.registered == []
    && "mock" in s.models && forall n :: n in s.models ==> s.models[n] == Model(n, None)
  }

  lemma InitialInv(s: State)
    requires Initial(s)
    ensures Inv(s)
  {
  }

  /** Only one goroutine at a time is past the mutex of a name. */
  lemma OneInside(s: State, t: Tid, u: Tid)
    requires Inv(s) && At(s, t) && At(s, u) && Inside(s.threads[t]) && Inside(s.threads[u])
    requires s.threads[t].name == s.threads[u].name
    ensures t == u
  {
  }

  /** A goroutine that keeps its name and mutex, or gives the mutex up, changes nothing about the mutexes. */
  lemma MoveKeepsMutexes(s: State, s': State, t: Tid)
    requires MutexesAgree(s) && s'.inFlight == s.inFlight && s'.created == s.created
    requires forall u :: u in s'.threads && u != t ==> u in s.threads && s'.threads[u] == s.threads[u]
    requires t in s'.threads && HasMutex(s'.threads[t]) ==>
               t in s.threads && HasMutex(s.threads[t])
               && s'.threads[t].name == s.threads[t].name && s'.threads[t].mutex == s.threads[t].mutex
    ensures MutexesAgree(s')
  {
  }

  lemma StepKeepsMutexes(s: State, step: Step)
    requires MutexesAgree(s) && Enabled(s, step)
    ensures MutexesAgree(Apply(s, step))
  {
    if step.PerNameMu? {
      GetOrCreateKeepsMutexes(s, step.t);
    } else {
      hide MutexesAgree;
      MoveKeepsMutexes(s, Apply(s, step), step.t);
    }
  }

  /** The get-or-create of a name's mutex, under installMu. */
  lemma GetOrCreateKeepsMutexes(s: State, t: Tid)
    requires MutexesAgree(s) && Enabled(s, PerNameMu(t))
    ensures MutexesAgree(Apply(s, PerNameMu(t)))
  {
    var s' := Apply(s, PerNameMu(t));
    assert forall n :: n in s.inFlight ==> s'.inFlight[n] == s.inFlight[n];
    assert forall u :: u != t && u in s'.threads ==> u in s.threads && s'.threads[u] == s.threads[u];
  }

  lemma MoveKeepsHolders(s: State, s': State, t: Tid)
    requires HoldersAgree(s) && s'.held == s.held && s.threads.Keys <= s'.threads.Keys
    requires forall u :: u in s'.threads && u != t ==> u in s.threads && s'.threads[u] == s.threads[u]
    requires t in s'.threads && ((t in s.threads && Inside(s.threads[t])) || Inside(s'.threads[t])) ==>
               t in s.threads && Inside(s.threads[t]) && Inside(s'.threads[t]) && s'.threads[t].mutex == s.threads[t].mutex
    ensures HoldersAgree(s')
  {
  }

  lemma StepKeepsHolders(s: State, step: Step)
    requires Inv(s) && Enabled(s, step)
    ensures HoldersAgree(Apply(s, step))
  {
    hide MutexesAgree, RegistryAgrees, HoldersAgree;
    if step.Lock? || step.Leave? || (step.Extract? && !step.good) {
      LockingKeepsHolders(s, step);
    } else {
      MoveKeepsHolders(s, Apply(s, step), step.t);
    }
  }

  lemma LockingKeepsHolders(s: State, step: Step)
    requires HoldersAgree(s) && Enabled(s, step) && (step.Lock? || step.Leave? || (step.Extract? && !step.good))
    ensures HoldersAgree(Apply(s, step))
  {
    var s' := Apply(s, step);
    assert forall t :: t != step.t && t in s'.threads ==> t in s.threads && s'.threads[t] == s.threads[t];
  }

  lemma StepKeepsRegistry(s: State, step: Step)
    requires Inv(s) && Enabled(s, step)
    ensures RegistryAgrees(Apply(s, step))
  {
    if step.Register? {
      forall u | At(s, u) && u != step.t && Inside(s.threads[u]) ensures s.threads[u].name != s.threads[step.t].name {
        if s.threads[u].name == s.threads[step.t].name { OneInside(s, u, step.t); }
      }
      RegisterKeepsRegistry(s, step.t);
    } else {
      hide MutexesAgree, HoldersAgree;
    }
  }

  lemma RegisterKeepsRegistry(s: State, t: Tid)
    requires RegistryAgrees(s) && Enabled(s, Register(t))
    requires forall u :: At(s, u) && u != t && Inside(s.threads[u]) ==> s.threads[u].name != s.threads[t].name
    ensures RegistryAgrees(Apply(s, Register(t)))
  {
  }

  lemma StepKeeps(s: State, step: Step)
    requires Inv(s) && Enabled(s, step)
    ensures Inv(Apply(s, step))
  {
    hide MutexesAgree, HoldersAgree, RegistryAgrees;
    StepKeepsMutexes(s, step);
    StepKeepsHolders(s, step);
    StepKeepsRegistry(s, step);
  }

  /** Registrations are never replaced or removed. */
  ghost predicate Extends(s: State, s': State) {
    && (forall n :: n in s.models ==> n in s'.models && s'.models[n] == s.models[n])
    && (forall t :: t in s.threads && s.threads[t].Done? ==> t in s'.threads && s'.threads[t] == s.threads[t])
  }

  lemma StepExtends(s: State, step: Step)
    requires Inv(s) && Enabled(s, step)
    ensures Extends(s, Apply(s, step))
  {
  }

  // ----- runs -----

  ghost predicate IsRun(s: State, steps: seq<Step>)
    decreases |steps|
  {
    steps == [] || (Enabled(s, steps[0]) && IsRun(Apply(s, steps[0]), steps[1..]))
  }

  ghost function After(s: State, steps: seq<Step>): State
    requires IsRun(s, steps)
    decreases |steps|
  {
    if steps == [] then s else After(Apply(s, steps[0]), steps[1..])
  }

  /** In every interleaving the invariant holds throughout and the registry only grows. */
  lemma {:induction false} RunKeeps(s: State, steps: seq<Step>)
    requires Inv(s) && IsRun(s, steps)
    ensures Inv(After(s, steps)) && Extends(s, After(s, steps))
    decreases |steps|
  {
    hide Enabled, Apply, Inv;
    if steps != [] {
      StepKeeps(s, steps[0]);
      StepExtends(s, steps[0]);
      RunKeeps(Apply(s, steps[0]), steps[1..]);
    }
  }

  function Get(s: State, name: Name): Option<Model> { if name in s.models then Some(s.models[name]) else None }

  /** Once some Install of a name has returned nil, every later Get of it finds the same model. */
  lemma InstalledStays(s: State, steps: seq<Step>, t: Tid)
    requires Inv(s) && IsRun(s, steps) && At(s, t) && s.threads[t].Done? && s.threads[t].ok
    ensures Get(s, s.threads[t].name).Some? && Get(After(s, steps), s.threads[t].name) == Get(s, s.threads[t].name)
  {
    RunKeeps(s, steps);
  }

  function Count(names: seq<Name>, name: Name): nat {
    if names == [] then 0 else (if names[0] == name then 1 else 0) + Count(names[1..], name)
  }

  lemma {:induction false} DistinctCount(names: seq<Name>, name: Name)
    requires forall i, j :: 0 <= i < j < |names| ==> names[i] != names[j]
    ensures Count(names, name) == if name in names then 1 else 0
    decreases |names|
  {
    if names != [] {
      DistinctCount(names[1..], name);
      assert name in names <==> name == names[0] || name in names[1..];
    }
  }

  /** In every interleaving from a fresh manager, extract-and-register succeeds at most once per name, and
      never for a name that was there from the start. */
  lemma RegistersOnce(s: State, steps: seq<Step>, name: Name)
    requires Initial(s) && IsRun(s, steps)
    ensures var end := After(s, steps);
            Count(end.registered, name) <= 1 && (name in s.models ==> Get(end, name) == Get(s, name))
  {
    InitialInv(s);
    RunKeeps(s, steps);
    DistinctCount(After(s, steps).registered, name);
  }

  /** The run leads from `s` to `s'`. */
  ghost predicate Leads(s: State, run: seq<Step>, s': State) { IsRun(s, run) && After(s, run) == s' }

  lemma {:induction false} LeadsOn(s: State, run: seq<Step>, more: seq<Step>)
    requires IsRun(s, run) && IsRun(After(s, run), more)
    ensures Leads(s, run + more, After(After(s, run), more))
    decreases |run|
  {
    hide Apply, Enabled;
    if run == [] {
      assert run + more == more;
    } else {
      LeadsOn(Apply(s, run[0]), run[1..], more);
      assert (run + more)[1..] == run[1..] + more;
    }
  }

  lemma OneStep(s: State, step: Step)
    requires Enabled(s, step)
    ensures Leads(s, [step], Apply(s, step))
  {
    assert [step][1..] == [];
  }

  // ----- the manager itself -----

  /** What a goroutine's own steps carry: the name it called with and what its artifact is worth. */
  predicate OfCall(step: Step, t: Tid, name: Name, good: bool) {
    step.t == t ==> (step.Call? ==> step.name == name) && (step.Extract? ==> step.good == good)
  }

  ghost predicate Took(s: State, run: seq<Step>, s': State, t: Tid, name: Name, good: bool) {
    Leads(s, run, s') && forall step :: step in run ==> OfCall(step, t, name, good)
  }

  lemma NothingTook(s: State, t: Tid, name: Name, good: bool)
    ensures Took(s, [], s, t, name, good)
  {
  }

  lemma TookStep(s: State, run: seq<Step>, s': State, step: Step, t: Tid, name: Name, good: bool)
    requires Took(s, run, s', t, name, good) && Enabled(s', step) && OfCall(step, t, name, good)
    ensures Took(s, run + [step], Apply(s', step), t, name, good)
  {
    hide Apply, Enabled, OfCall;
    OneStep(s', step);
    LeadsOn(s, run, [step]);
  }

  lemma TookOthers(s: State, run: seq<Step>, s': State, more: seq<Step>, s'': State, t: Tid, name: Name, good: bool)
    requires Took(s, run, s', t, name, good) && Leads(s', more, s'') && forall step :: step in more ==> step.t != t
    ensures Took(s, run + more, s'', t, name, good)
  {
    hide Apply, Enabled;
    LeadsOn(s, run, more);
  }

  lemma TookKeeps(s: State, run: seq<Step>, s': State, t: Tid, name: Name, good: bool)
    requires Inv(s) && Took(s, run, s', t, name, good)
    ensures Inv(s') && Extends(s, s')
    ensures t in s'.threads && s'.threads[t].Done? && s'.threads[t].ok ==> Get(s', s'.threads[t].name).Some?
  {
    RunKeeps(s, run);
  }

  class Manager {
    var models: map<Name, Model>
    var inFlight: map<Name, MutexId>
    var created: nat
    var held: map<MutexId, Tid>  // the mutexes that are locked
    var threads: map<Tid, Pc>    // where the goroutines in Install are
    var registered: seq<Name>

    function World(): State
      reads this
    {
      State(models, inFlight, created, held, threads, registered)
    }

    /** `preinstalled` are the trimmed names; `weights(n)` says whether both weight files of one are there
        (always, when no directory is set). */
    constructor (preinstalled: seq<Name>, weights: Name -> bool)
      ensures Initial(World())
      ensures forall n :: n in models <==> n == "mock" || (n in preinstalled && n != "" && weights(n))
    {
      var found := map["mock" := Model("mock", None)];
      for i := 0 to |preinstalled|
        invariant forall n :: n in found <==> n == "mock" || (n in preinstalled[..i] && n != "" && weights(n))
        invariant forall n :: n in found ==> found[n] == Model(n, None)
      {
        var name := preinstalled[i];
        assert forall n :: n in preinstalled[..i + 1] <==> n in preinstalled[..i] || n == name;
        if name != "" && name != "mock" && weights(name) {
          found := found[name := Model(name, None)];
        }
      }
      assert preinstalled[..|preinstalled|] == preinstalled;
      models, inFlight, created, held, threads, registered := found, map[], 0, map[], map[], [];
    }

    /** One step of some goroutine. */
    method Perform(step: Step)
      requires Enabled(World(), step)
      modifies this
      ensures World() == Apply(old(World()), step)
    {
      var s := Apply(World(), step);
      models, inFlight, created, held, threads, registered := s.models, s.inFlight, s.created, s.held, s.threads, s.registered;
    }

    /** The other goroutines run: of the steps wished for, those that can be taken when their turn comes. */
    method Others(wish: seq<Step>, t: Tid) returns (ghost run: seq<Step>)
      modifies this
      ensures Leads(old(World()), run, World()) && forall step :: step in run ==> step.t != t
      ensures wish == [] ==> run == []
      ensures if t in old(threads) then t in threads && threads[t] == old(threads[t]) else t !in threads
    {
      run := [];
      for i := 0 to |wish|
        invariant Leads(old(World()), run, World()) && forall step :: step in run ==> step.t != t
        invariant wish == [] ==> run == []
        invariant if t in old(threads) then t in threads && threads[t] == old(threads[t]) else t !in threads
      {
        if wish[i].t != t && Enabled(World(), wish[i]) {
          OneStep(World(), wish[i]);
          LeadsOn(old(World()), run, [wish[i]]);
          run := run + [wish[i]];
          Perform(wish[i]);
        }
      }
    }

    method PerNameMutex(name: Name, t: Tid) returns (mutex: MutexId)
      requires t in threads && threads[t] == Fetching(name)
      modifies this`inFlight, this`created, this`threads
      ensures World() == Apply(old(World()), PerNameMu(t)) && t in threads && threads[t] == Waiting(name, mutex)
    {
      if name in inFlight {
        mutex := inFlight[name];
      } else {
        mutex := created;
        inFlight := inFlight[name := mutex];
        created := created + 1;
      }
      threads := threads[t := Waiting(name, mutex)];
    }

    method Enter(name: Name, t: Tid) returns (refused: bool)
      requires t !in threads
      modifies this`threads
      ensures World() == Apply(old(World()), Call(t, name)) && refused == Refused(name)
      ensures t in threads && threads[t] == if refused then Done(name, false) else Checking(name)
    {
      refused := Refused(name);
      threads := threads[t := if refused then Done(name, false) else Checking(name)];
    }

    /** The registry check, before the name's mutex and again under it. */
    method Exists(t: Tid) returns (found: bool)
      requires t in threads && (threads[t].Checking? || threads[t].Rechecking?)
      modifies this`threads
      ensures World() == Apply(old(World()), if old(threads[t]).Checking? then FastCheck(t) else Recheck(t))
      ensures found == (old(threads[t]).name in models)
      ensures t in threads && threads[t] ==
                match old(threads[t])
                case Checking(name) => if found then Done(name, true) else Fetching(name)
                case Rechecking(name, mutex) => if found then Leaving(name, mutex) else Extracting(name, mutex)
    {
      var pc := threads[t];
      found := pc.name in models;
      threads := threads[t :=
        match pc
        case Checking(name) => if found then Done(name, true) else Fetching(name)
        case Rechecking(name, mutex) => if found then Leaving(name, mutex) else Extracting(name, mutex)];
    }

    method TryLock(t: Tid) returns (locked: bool)
      requires t in threads && threads[t].Waiting?
      modifies this`held, this`threads
      ensures locked == (old(threads[t]).mutex !in old(held))
      ensures World() == if locked then Apply(old(World()), Lock(t)) else old(World())
      ensures t in threads && (locked ==> threads[t] == Rechecking(old(threads[t]).name, old(threads[t]).mutex))
    {
      var Waiting(name, mutex) := threads[t];
      locked := mutex !in held;
      if locked {
        held := held[mutex := t];
        threads := threads[t := Rechecking(name, mutex)];
      }
    }

    /** Reads, verifies and extracts the artifact; gives the mutex up when that fails. */
    method Unpack(t: Tid, good: bool)
      requires t in threads && threads[t].Extracting?
      modifies this`held, this`threads
      ensures World() == Apply(old(World()), Extract(t, good))
      ensures t in threads && threads[t] == var was := old(threads[t]);
                if good then Registering(was.name, was.mutex) else Done(was.name, false)
    {
      var Extracting(name, mutex) := threads[t];
      if good {
        threads := threads[t := Registering(name, mutex)];
      } else {
        held := held - {mutex};
        threads := threads[t := Done(name, false)];
      }
    }

    method Add(t: Tid)
      requires t in threads && threads[t].Registering?
      modifies this`models, this`registered, this`threads
      ensures World() == Apply(old(World()), Register(t))
      ensures t in threads && var Registering(name, mutex) := old(threads[t]);
                threads[t] == Leaving(name, mutex) && models == old(models)[name := Model(name, Some(t))]
    {
      var Registering(name, mutex) := threads[t];
      models := models[name := Model(name, Some(t))];
      registered := registered + [name];
      threads := threads[t := Leaving(name, mutex)];
    }

    method Return(t: Tid)
      requires t in threads && threads[t].Leaving?
      modifies this`held, this`threads
      ensures World() == Apply(old(World()), Leave(t))
      ensures t in threads && threads[t] == Done(old(threads[t]).name, true)
    {
      var Leaving(name, mutex) := threads[t];
      held := held - {mutex};
      threads := threads[t := Done(name, true)];
    }

    /** The others run on until this call takes its next step. */
    method Yield(wish: seq<Step>, next: Step, t: Tid, name: Name, good: bool, ghost s: State, ghost run: seq<Step>)
      returns (ghost longer: seq<Step>)
      requires Took(s, run, World(), t, name, good) && next.t == t && OfCall(next, t, name, good)
      modifies this
      ensures Took(s, longer, World(), t, name, good)
      ensures Enabled(World(), next) ==> Took(s, longer + [next], Apply(World(), next), t, name, good)
      ensures if t in old(threads) then t in threads && threads[t] == old(threads[t]) else t !in threads
      ensures wish == [] ==> World() == old(World())
    {
      hide Apply, Enabled, OfCall;
      ghost var at := World();
      ghost var more := Others(wish, t);
      TookOthers(s, run, at, more, World(), t, name, good);
      longer := run + more;
      if Enabled(World(), next) {
        TookStep(s, longer, World(), next, t, name, good);
      }
    }

    /** One call among others: before its own `k`-th step the other goroutines do what `others(k)` says. It returns,
        or is left waiting for a mutex that none of them gives back. Either way everybody's steps together are a run
        of the machine; whoever returns nil can then Get the model. `good` says whether a directory is set and the
        artifact reads, matches its checksum and unpacks to both weight files. */
    method Install(name: Name, good: bool, t: Tid, others: nat -> seq<Step>) returns (result: Option<bool>, ghost run: seq<Step>)
      requires Inv(World()) && t !in threads
      modifies this
      ensures Took(old(World()), run, World(), t, name, good) && Inv(World()) && Extends(old(World()), World())
      ensures t in threads && threads[t].name == name
      ensures if result.Some? then threads[t] == Done(name, result.value) else threads[t].Waiting? && threads[t].mutex in held
      ensures (name == "" || name == "mock" || '/' in name || '\\' in name
               || exists front: string, back: string :: name == front + ".." + back) ==> result == Some(false)
      ensures result == Some(false) && good ==>
                name == "" || name == "mock" || '/' in name || '\\' in name
                || exists front: string, back: string :: name == front + ".." + back
      ensures Refused(name) ==> result == Some(false)
      ensures result == Some(true) ==> Get(World(), name).Some?
      ensures result == Some(false) && !Refused(name) ==> !good && name !in old(models)
      ensures (forall k :: others(k) == []) && old(held) == map[] ==>
                && result == Some(!Refused(name) && (name in old(models) || good))
                && models == if result.value && name !in old(models) then old(models)[name := Model(name, Some(t))] else old(models)
    {
      hide Inv, Extends, Leads, Refused, Took, Apply;
      RefusedIff(name);
      ghost var s := World();
      NothingTook(s, t, name, good);
      run := Yield(others(0), Call(t, name), t, name, good, s, []);
      var refused := Enter(name, t);
      run := run + [Call(t, name)];
      if refused {
        result := Some(false);
      } else {
        result, run := Proceed(name, good, t, others, s, run);
      }
      TookKeeps(s, run, World(), t, name, good);
    }

    /** From the first registry check on. */
    method Proceed(name: Name, good: bool, t: Tid, others: nat -> seq<Step>, ghost s: State, ghost before: seq<Step>)
      returns (result: Option<bool>, ghost run: seq<Step>)
      requires Inv(s) && Took(s, before, World(), t, name, good) && t in threads && threads[t] == Checking(name)
      modifies this
      ensures Took(s, run, World(), t, name, good)
      ensures t in threads && threads[t].name == name
      ensures if result.Some? then threads[t] == Done(name, result.value) else threads[t].Waiting? && threads[t].mutex in held
      ensures result == Some(false) ==> !good && name !in s.models
      ensures (forall k :: others(k) == []) && old(held) == map[] ==>
                && result == Some(name in old(models) || good)
                && models == if result.value && name !in old(models) then old(models)[name := Model(name, Some(t))] else old(models)
    {
      hide Inv, Took, Apply;
      run := Yield(others(1), FastCheck(t), t, name, good, s, before);
      TookKeeps(s, run, World(), t, name, good);
      var found := Exists(t);
      run := run + [FastCheck(t)];
      if found {
        return Some(true), run;
      }
      var locked;
      locked, run := Acquire(name, good, t, others, s, run);
      if !locked {
        return None, run;
      }
      result, run := Finish(name, good, t, others, s, run);
    }

    /** The name's mutex: found or made, then locked if nobody has it. */
    method Acquire(name: Name, good: bool, t: Tid, others: nat -> seq<Step>, ghost s: State, ghost before: seq<Step>)
      returns (locked: bool, ghost run: seq<Step>)
      requires Took(s, before, World(), t, name, good) && t in threads && threads[t] == Fetching(name)
      modifies this
      ensures Took(s, run, World(), t, name, good) && t in threads && threads[t].name == name
      ensures if locked then threads[t].Rechecking? else threads[t].Waiting? && threads[t].mutex in held
      ensures (forall k :: others(k) == []) && old(held) == map[] ==> locked && models == old(models)
    {
      hide Took, Apply;
      run := Yield(others(2), PerNameMu(t), t, name, good, s, before);
      var mutex := PerNameMutex(name, t);
      run := run + [PerNameMu(t)];
      run := Yield(others(3), Lock(t), t, name, good, s, run);
      locked := TryLock(t);
      if locked {
        run := run + [Lock(t)];
      }
    }

    /** Under the name's mutex. */
    method Finish(name: Name, good: bool, t: Tid, others: nat -> seq<Step>, ghost s: State, ghost before: seq<Step>)
      returns (result: Option<bool>, ghost run: seq<Step>)
      requires Took(s, before, World(), t, name, good) && t in threads && threads[t].Rechecking? && threads[t].name == name
      modifies this
      ensures Took(s, run, World(), t, name, good) && result.Some?
      ensures t in threads && threads[t] == Done(name, result.value)
      ensures !result.value ==> !good
      ensures (forall k :: others(k) == []) ==>
                && result.value == (name in old(models) || good)
                && models == if result.value && name !in old(models) then old(models)[name := Model(name, Some(t))] else old(models)
    {
      hide Took, Apply;
      run := Yield(others(4), Recheck(t), t, name, good, s, before);
      var found := Exists(t);
      run := run + [Recheck(t)];
      if !found {
        run := Yield(others(5), Extract(t, good), t, name, good, s, run);
        Unpack(t, good);
        run := run + [Extract(t, good)];
        if !good {
          return Some(false), run;
        }
        run := Yield(others(6), Register(t), t, name, good, s, run);
        Add(t);
        run := run + [Register(t)];
      }
      run := Yield(others(7), Leave(t), t, name, good, s, run);
      Return(t);
      run := run + [Leave(t)];
      result := Some(true);
    }
  }
}
