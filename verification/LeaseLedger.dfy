/** The lease ledger: every leased profile has exactly one holder, over every run and every interleaving.

    A holder is a registered owning session or a coroutine.  Each action takes a lease, frees one, or moves
    one between holders.  Five actions can break the ledger; `Safe` is the exact condition for each. */
module LeaseLedger {
  import opened Optional
  import opened BrowserPool

  datatype Holder = AtSession(sid: Sid) | AtTask(t: Tid)

  function ObjectLease(s: Pool, r: Ref): Option<Pid> {
    if r in s.objects && s.objects[r].ownsProfile then Some(s.objects[r].profile) else None
  }

  function TaskLease(s: Pool, task: Task): Option<Pid> {
    match task
    case Work(_, stage) => (match stage
                            case ClosingDead(popped) => if popped.Some? then ObjectLease(s, popped.value) else None
                            case Holding(p) => Some(p)
                            case CleaningUp(p, _) => Some(p)
                            case _ => None)
    case Closing(r) => ObjectLease(s, r)
    case Reaping(_, _, popped) => if popped.Some? then ObjectLease(s, popped.value) else None
    case Migrating(_, _, _) => None
    case Retiring(r) => ObjectLease(s, r)
  }

  function LeaseOf(s: Pool, h: Holder): Option<Pid> {
    match h
    case AtSession(sid) => if sid in s.sessions then ObjectLease(s, s.sessions[sid]) else None
    case AtTask(t) => if t in s.tasks then TaskLease(s, s.tasks[t]) else None
  }

  predicate IsLeased(s: Pool, p: Pid) { p < |s.profiles| && s.profiles[p].leased }

  ghost predicate Held(s: Pool, p: Pid) { exists h :: LeaseOf(s, h) == Some(p) }

  ghost predicate Ledger(s: Pool) {
    && (forall h, p :: LeaseOf(s, h) == Some(p) ==> IsLeased(s, p))
    && (forall h1, h2 :: LeaseOf(s, h1).Some? && LeaseOf(s, h1) == LeaseOf(s, h2) ==> h1 == h2)
    && (forall p: Pid :: IsLeased(s, p) ==> Held(s, p))
  }

  // ----- the four ways an action can touch the ledger -----

  ghost predicate SameHoldings(s: Pool, s': Pool, except: set<Holder>) {
    forall h :: h !in except ==> LeaseOf(s', h) == LeaseOf(s, h)
  }

  ghost predicate SameFlags(s: Pool, s': Pool) { forall p: Pid :: IsLeased(s', p) == IsLeased(s, p) }

  ghost predicate FlagsExcept(s: Pool, s': Pool, p: Pid) {
    forall q: Pid :: q != p ==> IsLeased(s', q) == IsLeased(s, q)
  }

  lemma HeldBy(s: Pool, h: Holder, p: Pid)
    requires LeaseOf(s, h) == Some(p)
    ensures Held(s, p)
  {
  }

  lemma LedgerKept(s: Pool, s': Pool)
    requires Ledger(s) && SameHoldings(s, s', {}) && SameFlags(s, s')
    ensures Ledger(s')
  {
    forall p: Pid | IsLeased(s', p) ensures Held(s', p) {
      assert Held(s, p);
      var h :| LeaseOf(s, h) == Some(p);
      HeldBy(s', h, p);
    }
  }

  lemma LedgerTaken(s: Pool, s': Pool, h: Holder, p: Pid)
    requires Ledger(s) && SameHoldings(s, s', {h}) && FlagsExcept(s, s', p)
    requires LeaseOf(s, h) == None && LeaseOf(s', h) == Some(p) && !IsLeased(s, p) && IsLeased(s', p)
    ensures Ledger(s')
  {
    forall q: Pid | IsLeased(s', q) ensures Held(s', q) {
      if q == p {
        HeldBy(s', h, p);
      } else {
        assert Held(s, q);
        var g :| LeaseOf(s, g) == Some(q);
        HeldBy(s', g, q);
      }
    }
  }

  lemma LedgerFreed(s: Pool, s': Pool, h: Holder, p: Pid)
    requires Ledger(s) && SameHoldings(s, s', {h}) && FlagsExcept(s, s', p)
    requires LeaseOf(s, h) == Some(p) && LeaseOf(s', h) == None && !IsLeased(s', p)
    ensures Ledger(s')
  {
    forall q: Pid | IsLeased(s', q) ensures Held(s', q) {
      assert Held(s, q);
      var g :| LeaseOf(s, g) == Some(q);
      HeldBy(s', g, q);
    }
  }

  /** Handing what `giver` holds over to `taker` keeps the ledger exactly when both leases agree. */
  lemma LedgerHandedOver(s: Pool, s': Pool, giver: Holder, taker: Holder)
    requires Ledger(s) && SameHoldings(s, s', {giver, taker}) && SameFlags(s, s') && giver != taker
    requires LeaseOf(s', giver) == None && LeaseOf(s, taker) == None
    ensures Ledger(s') <==> LeaseOf(s, giver) == LeaseOf(s', taker)
  {
    var was, now := LeaseOf(s, giver), LeaseOf(s', taker);
    if was == now {
      forall q: Pid | IsLeased(s', q) ensures Held(s', q) {
        assert Held(s, q);
        var g :| LeaseOf(s, g) == Some(q);
        HeldBy(s', if g == giver then taker else g, q);
      }
    } else if was.Some? {
      NobodyElseHolds(s, s', giver, taker, was.value);
    } else if IsLeased(s, now.value) {
      assert Held(s, now.value);
      var g :| LeaseOf(s, g) == now;
      assert LeaseOf(s', g) == now && g != taker;
    }
  }

  lemma NobodyElseHolds(s: Pool, s': Pool, giver: Holder, taker: Holder, p: Pid)
    requires Ledger(s) && SameHoldings(s, s', {giver, taker}) && SameFlags(s, s')
    requires LeaseOf(s, giver) == Some(p) && LeaseOf(s', giver) == None && LeaseOf(s', taker) != Some(p)
    ensures IsLeased(s', p) && !Held(s', p)
  {
    forall g ensures LeaseOf(s', g) != Some(p) {
      if g != giver && g != taker {
        assert LeaseOf(s', g) == LeaseOf(s, g);
      }
    }
  }

  /** Forgetting a holder without a release keeps the ledger exactly when it held nothing. */
  lemma LedgerForgotten(s: Pool, s': Pool, h: Holder)
    requires Ledger(s) && SameHoldings(s, s', {h}) && SameFlags(s, s') && LeaseOf(s', h) == None
    ensures Ledger(s') <==> LeaseOf(s, h) == None
  {
    if LeaseOf(s, h) == None {
      LedgerKept(s, s');
    } else {
      NobodyElseHolds(s, s', h, h, LeaseOf(s, h).value);
    }
  }

  // ----- the invariant -----

  predicate SameLock(a: Task, b: Task) { Inside(a) && Inside(b) && Target(a.job) == Target(b.job) }

  predicate Building(task: Task) { Inside(task) && !task.stage.Probing? }

  /** At most one coroutine is past the lock of a key, and until it opens its session no owner sits there. */
  ghost predicate Locked(s: Pool) {
    && (forall t, u :: t in s.tasks && u in s.tasks && SameLock(s.tasks[t], s.tasks[u]) ==> t == u)
    && (forall t :: t in s.tasks && Building(s.tasks[t]) ==> LeaseOf(s, AtSession(Target(s.tasks[t].job).value)) == None)
  }

  /** Only a migration in progress marks a registered session as draining. */
  ghost predicate DrainingTracked(s: Pool) {
    forall sid :: Registered(s, sid) && At(s, sid).draining ==> MigrationOf(s, s.sessions[sid])
  }

  ghost predicate MigrationOf(s: Pool, v: Ref) {
    exists t :: t in s.tasks && s.tasks[t].Migrating? && s.tasks[t].victim == v
  }

  ghost predicate Accounted(s: Pool) { Sound(s) && Locked(s) && Ledger(s) && s.secondReleases == 0 }

  ghost predicate Inv(s: Pool) { Accounted(s) && DrainingTracked(s) }

  /** The exact condition under which an action keeps the ledger.  It is vacuous except in five places: a
      snapshot entry the reaper reaches late, a migration that commits without looking again, a close or
      retirement that never gets to its release, a request cancelled where no handler releases, and an answer that raises
      after its session was registered. */
  predicate Safe(s: Pool, a: Action)
    requires Sound(s) && Enabled(s, a)
  {
    match a
    case ReapNext(t) =>
      var (sid, r) := s.tasks[t].rest[0];
      Sweepable(s, r, s.tasks[t].now) ==> LeaseOf(s, AtSession(sid)) == ObjectLease(s, r)
    case MigrateCommit(t, _, _, _) => LeaseOf(s, AtSession(s.tasks[t].sid)) == ObjectLease(s, s.tasks[t].victim)
    case Forgo(t) => TaskLease(s, s.tasks[t]) == None
    case Abandon(t) => TaskLease(s, s.tasks[t]) == None
    case Open(_, _, _, answered) => answered
    case _ => true
  }

  // ----- each stretch of code, against the invariant -----

  lemma TaskSound(s: Pool, t: Tid, task: Task)
    requires Sound(s) && TaskFits(s, task)
    ensures Sound(SetTask(s, t, task))
  {
  }

  lemma EndSound(s: Pool, t: Tid)
    requires Sound(s)
    ensures Sound(EndTask(s, t))
  {
  }

  lemma ReleaseSound(s: Pool, p: Pid, ok: bool)
    requires Sound(s) && p < |s.profiles|
    ensures Sound(Release(s, p, ok))
    ensures forall task :: TaskFits(s, task) ==> TaskFits(Release(s, p, ok), task)
  {
  }

  lemma PopSound(s: Pool, sid: Sid)
    requires Sound(s)
    ensures Sound(Pop(s, sid))
    ensures forall task :: TaskFits(s, task) ==> TaskFits(Pop(s, sid), task)
  {
  }

  lemma ObjectSound(s: Pool, r: Ref, o: Session)
    requires Sound(s) && o.profile < |s.profiles| && (r in s.objects ==> s.objects[r].sid == o.sid)
    ensures Sound(SetObject(s, r, o))
    ensures forall task :: TaskFits(s, task) ==> TaskFits(SetObject(s, r, o), task)
  {
  }

  lemma RegisterSound(s: Pool, sid: Sid, r: Ref)
    requires Sound(s) && r in s.objects && s.objects[r].sid == sid
    ensures Sound(s.(sessions := s.sessions[sid := r]))
    ensures forall task :: TaskFits(s, task) ==> TaskFits(s.(sessions := s.sessions[sid := r]), task)
  {
  }

  /** `task` may take the place of `t`'s task as far as the locks are concerned. */
  ghost predicate KeepsLocks(s: Pool, t: Tid, task: Task) {
    && (Inside(task) ==> (t in s.tasks && SameLock(s.tasks[t], task)) || LockFree(s, Target(task.job).value))
    && (Building(task) ==> LeaseOf(s, AtSession(Target(task.job).value)) == None)
  }

  lemma LockedStage(s: Pool, s': Pool, t: Tid, task: Task)
    requires Locked(s) && KeepsLocks(s, t, task)
    requires s'.tasks == s.tasks[t := task]
    requires forall sid :: LeaseOf(s, AtSession(sid)) == None ==> LeaseOf(s', AtSession(sid)) == None
    ensures Locked(s')
  {
    forall u, v | u in s'.tasks && v in s'.tasks && u != v ensures !SameLock(s'.tasks[u], s'.tasks[v]) {
      var w := if u == t then v else u;
      assert w in s.tasks && (t in s.tasks ==> !SameLock(s.tasks[t], s.tasks[w]));
    }
    forall u | u in s'.tasks && Building(s'.tasks[u])
      ensures LeaseOf(s', AtSession(Target(s'.tasks[u].job).value)) == None
    {
      assert u != t ==> Building(s.tasks[u]);
    }
  }

  lemma LockedEnd(s: Pool, s': Pool, t: Tid)
    requires Locked(s) && s'.tasks == s.tasks - {t}
    requires forall u :: u in s'.tasks && Building(s'.tasks[u]) ==>
                         LeaseOf(s', AtSession(Target(s'.tasks[u].job).value)) == None
    ensures Locked(s')
  {
    forall u, v | u in s'.tasks && v in s'.tasks && SameLock(s'.tasks[u], s'.tasks[v]) ensures u == v {
      assert SameLock(s.tasks[u], s.tasks[v]);
    }
  }

  /** Draining marks stay tracked when marks and migrations only change together. */
  lemma DrainingKept(s: Pool, s': Pool)
    requires DrainingTracked(s)
    requires forall sid :: Registered(s', sid) && At(s', sid).draining
                           ==> Registered(s, sid) && At(s, sid).draining && s'.sessions[sid] == s.sessions[sid]
    requires forall t :: t in s.tasks && s.tasks[t].Migrating? ==> t in s'.tasks && s'.tasks[t] == s.tasks[t]
    ensures DrainingTracked(s')
  {
    forall sid | Registered(s', sid) && At(s', sid).draining ensures MigrationOf(s', s'.sessions[sid]) {
      assert MigrationOf(s, s.sessions[sid]);
      var t :| t in s.tasks && s.tasks[t].Migrating? && s.tasks[t].victim == s.sessions[sid];
      assert t in s'.tasks && s'.tasks[t] == s.tasks[t];
    }
  }

  lemma StageAccounted(s: Pool, t: Tid, task: Task)
    requires Accounted(s) && TaskFits(s, task) && TaskLease(s, task) == LeaseOf(s, AtTask(t)) && KeepsLocks(s, t, task)
    ensures Accounted(SetTask(s, t, task))
  {
    var s' := SetTask(s, t, task);
    TaskSound(s, t, task);
    LockedStage(s, s', t, task);
    StageHoldings(s, t, task);
    LedgerKept(s, s');
  }

  /** A coroutine moves to a stage that holds what it held before. */
  lemma StageKeeps(s: Pool, t: Tid, task: Task)
    requires Inv(s) && TaskFits(s, task) && TaskLease(s, task) == LeaseOf(s, AtTask(t)) && KeepsLocks(s, t, task)
    requires t in s.tasks ==> !s.tasks[t].Migrating?
    ensures Inv(SetTask(s, t, task))
  {
    StageAccounted(s, t, task);
    DrainingKept(s, SetTask(s, t, task));
  }

  lemma StageHoldings(s: Pool, t: Tid, task: Task)
    ensures SameHoldings(s, SetTask(s, t, task), {AtTask(t)})
    ensures LeaseOf(SetTask(s, t, task), AtTask(t)) == TaskLease(s, task)
  {
    forall h | h != AtTask(t) ensures LeaseOf(SetTask(s, t, task), h) == LeaseOf(s, h) {
      assert h.AtTask? ==> h.t != t;
    }
  }

  lemma EndAccounted(s: Pool, t: Tid)
    requires Accounted(s) && LeaseOf(s, AtTask(t)) == None
    ensures Accounted(EndTask(s, t))
  {
    var s' := EndTask(s, t);
    EndSound(s, t);
    LockedEnd(s, s', t);
    EndHoldings(s, t);
    LedgerKept(s, s');
  }

  lemma EndKeeps(s: Pool, t: Tid)
    requires Inv(s) && LeaseOf(s, AtTask(t)) == None
    requires t in s.tasks ==> !s.tasks[t].Migrating?
    ensures Inv(EndTask(s, t))
  {
    EndAccounted(s, t);
    DrainingKept(s, EndTask(s, t));
  }

  lemma EndHoldings(s: Pool, t: Tid)
    ensures SameHoldings(s, EndTask(s, t), {AtTask(t)})
    ensures LeaseOf(EndTask(s, t), AtTask(t)) == None
  {
    forall h | h != AtTask(t) ensures LeaseOf(EndTask(s, t), h) == LeaseOf(s, h) {
      assert h.AtTask? ==> h.t != t;
    }
  }

  lemma FlagHoldings(s: Pool, profiles: seq<Profile>)
    ensures SameHoldings(s, s.(profiles := profiles), {})
  {
    var s' := s.(profiles := profiles);
    forall h ensures LeaseOf(s', h) == LeaseOf(s, h) {
    }
  }

  lemma AcquireKeeps(s: Pool, t: Tid, job: Job, p: Pid)
    requires Inv(s) && t in s.tasks && s.tasks[t] == Work(job, Seeking)
    requires p < |s.profiles| && !s.profiles[p].leased
    ensures Inv(Leased(s, t, job, p))
  {
    var flagged := s.(profiles := s.profiles[p := s.profiles[p].(leased := true)]);
    var s' := Leased(s, t, job, p);
    assert Sound(flagged);
    TaskSound(flagged, t, Work(job, Holding(p)));
    LockedStage(s, s', t, Work(job, Holding(p)));
    DrainingKept(s, s');
    FlagHoldings(s, flagged.profiles);
    StageHoldings(flagged, t, Work(job, Holding(p)));
    LedgerTaken(s, s', AtTask(t), p);
  }

  /** A coroutine releases the profile it holds and goes on with `next`. */
  lemma ReleaseKeeps(s: Pool, t: Tid, p: Pid, ok: bool, next: Task)
    requires Inv(s) && t in s.tasks && LeaseOf(s, AtTask(t)) == Some(p) && p < |s.profiles|
    requires TaskFits(s, next) && TaskLease(s, next) == None && KeepsLocks(s, t, next)
    ensures IsLeased(s, p) && Inv(SetTask(Release(s, p, ok), t, next))
  {
    var freed := Release(s, p, ok);
    var s' := SetTask(freed, t, next);
    ReleaseSound(s, p, ok);
    TaskSound(freed, t, next);
    ReleaseHoldings(s, p, ok);
    LockedStage(s, s', t, next);
    DrainingKept(s, s');
    StageHoldings(freed, t, next);
    LedgerFreed(s, s', AtTask(t), p);
  }

  lemma ReleaseEnds(s: Pool, t: Tid, p: Pid, ok: bool)
    requires Inv(s) && t in s.tasks && LeaseOf(s, AtTask(t)) == Some(p) && p < |s.profiles|
    ensures IsLeased(s, p) && Inv(EndTask(Release(s, p, ok), t))
  {
    var freed := Release(s, p, ok);
    var s' := EndTask(freed, t);
    ReleaseSound(s, p, ok);
    EndSound(freed, t);
    ReleaseHoldings(s, p, ok);
    EndHoldings(freed, t);
    LockedEnd(s, s', t);
    DrainingKept(s, s');
    LedgerFreed(s, s', AtTask(t), p);
  }

  lemma ReleaseHoldings(s: Pool, p: Pid, ok: bool)
    requires p < |s.profiles|
    ensures SameHoldings(s, Release(s, p, ok), {}) && FlagsExcept(s, Release(s, p, ok), p)
    ensures forall task :: TaskLease(Release(s, p, ok), task) == TaskLease(s, task)
  {
    var s' := Release(s, p, ok);
    forall h ensures LeaseOf(s', h) == LeaseOf(s, h) {
    }
  }

  lemma OpenKeeps(s: Pool, t: Tid, ref: Ref, o: Session)
    requires Inv(s) && Enabled(s, Open(t, ref, o, true))
    ensures Inv(Opened(s, t, ref, o, true))
    ensures LeaseOf(s, AtTask(t)).Some? && LeaseOf(Opened(s, t, ref, o, true), AtSession(o.sid)) == LeaseOf(s, AtTask(t))
  {
    var added, listed := SetObject(s, ref, o), Listed(s, ref, o);
    var s' := Opened(s, t, ref, o, true);
    ObjectSound(s, ref, o);
    RegisterSound(added, o.sid, ref);
    EndSound(listed, t);
    assert s' == EndTask(listed, t);
    OpenHoldings(s, t, ref, o);
    LedgerHandedOver(s, s', AtTask(t), AtSession(o.sid));
    OpenLocks(s, t, ref, o);
    DrainingKept(s, s');
  }

  lemma OpenLocks(s: Pool, t: Tid, ref: Ref, o: Session)
    requires Sound(s) && Locked(s) && Enabled(s, Open(t, ref, o, true))
    requires SameHoldings(s, Opened(s, t, ref, o, true), {AtTask(t), AtSession(o.sid)})
    ensures Locked(Opened(s, t, ref, o, true))
  {
    var s' := Opened(s, t, ref, o, true);
    forall u | u in s'.tasks && Building(s'.tasks[u])
      ensures LeaseOf(s', AtSession(Target(s'.tasks[u].job).value)) == None
    {
      assert Building(s.tasks[u]);
      assert !SameLock(s.tasks[u], s.tasks[t]);
    }
    LockedEnd(s, s', t);
  }

  lemma OpenHoldings(s: Pool, t: Tid, ref: Ref, o: Session)
    requires Sound(s) && Locked(s) && Enabled(s, Open(t, ref, o, true))
    ensures var s' := Opened(s, t, ref, o, true);
            SameHoldings(s, s', {AtTask(t), AtSession(o.sid)})
            && LeaseOf(s, AtSession(o.sid)) == None && LeaseOf(s', AtTask(t)) == None
            && LeaseOf(s', AtSession(o.sid)) == LeaseOf(s, AtTask(t)) == Some(o.profile)
  {
    var s' := Opened(s, t, ref, o, true);
    forall h | h != AtTask(t) && h != AtSession(o.sid) ensures LeaseOf(s', h) == LeaseOf(s, h) {
      assert h.AtTask? ==> h.t != t;
      assert h.AtTask? && h.t in s.tasks ==> TaskFits(s, s.tasks[h.t]);
      assert h.AtSession? && h.sid in s.sessions ==> Registered(s, h.sid);
    }
  }

  /** Registered but not answered: the session and the coroutine now hold the same profile. */
  lemma UnansweredBreaks(s: Pool, t: Tid, ref: Ref, o: Session)
    requires Sound(s) && Enabled(s, Open(t, ref, o, false))
    ensures !Ledger(Opened(s, t, ref, o, false))
  {
    var s' := Opened(s, t, ref, o, false);
    assert LeaseOf(s', AtTask(t)) == LeaseOf(s', AtSession(o.sid)) == Some(o.profile);
  }

  lemma EvictKeeps(s: Pool, sid: Sid)
    requires Inv(s) && Registered(s, sid)
    ensures Inv(Evicted(s, sid))
  {
    var popped := Pop(s, sid);
    var s' := Evicted(s, sid);
    PopSound(s, sid);
    PopHoldings(s, sid);
    DrainingKept(s, s');
    if At(s, sid).ownsProfile {
      var p := At(s, sid).profile;
      ReleaseSound(popped, p, true);
      ReleaseHoldings(popped, p, true);
      LedgerFreed(s, s', AtSession(sid), p);
    } else {
      LedgerKept(s, s');
    }
  }

  lemma PopHoldings(s: Pool, sid: Sid)
    ensures SameHoldings(s, Pop(s, sid), {AtSession(sid)}) && LeaseOf(Pop(s, sid), AtSession(sid)) == None
    ensures forall task :: TaskLease(Pop(s, sid), task) == TaskLease(s, task)
  {
    var s' := Pop(s, sid);
    forall h | h != AtSession(sid) ensures LeaseOf(s', h) == LeaseOf(s, h) {
      assert h.AtSession? ==> h.sid != sid;
    }
  }

  /** A session leaves the registry while coroutine `t` takes over releasing `r`. */
  lemma PopHandsOver(s: Pool, t: Tid, sid: Sid, lease: Option<Pid>, task: Task)
    requires Inv(s) && TaskFits(s, task) && TaskLease(s, task) == lease
    requires LeaseOf(s, AtTask(t)) == None
    requires t in s.tasks ==> !s.tasks[t].Migrating?
    requires Inside(task) ==> t in s.tasks && SameLock(s.tasks[t], task) && Target(task.job).value == sid
    ensures var s' := SetTask(Pop(s, sid), t, task);
            Sound(s') && (Ledger(s') <==> LeaseOf(s, AtSession(sid)) == lease)
            && (Ledger(s') ==> Inv(s'))
  {
    var popped := Pop(s, sid);
    var s' := SetTask(popped, t, task);
    PopSound(s, sid);
    TaskSound(popped, t, task);
    PopHoldings(s, sid);
    StageHoldings(popped, t, task);
    LedgerHandedOver(s, s', AtSession(sid), AtTask(t));
    LockedPop(s, sid);
    LockedStage(popped, s', t, task);
    DrainingKept(s, s');
  }

  lemma LockedPop(s: Pool, sid: Sid)
    requires Locked(s)
    ensures Locked(Pop(s, sid))
  {
    PopHoldings(s, sid);
  }

  // ----- migration -----

  /** Updates that leave identity, profile and ownership alone do not touch the ledger. */
  lemma UpdateHoldings(s: Pool, r: Ref, o: Session)
    requires r in s.objects && o.profile == s.objects[r].profile && o.ownsProfile == s.objects[r].ownsProfile
    ensures SameHoldings(s, SetObject(s, r, o), {})
    ensures forall task :: TaskLease(SetObject(s, r, o), task) == TaskLease(s, task)
  {
    var s' := SetObject(s, r, o);
    forall q ensures ObjectLease(s', q) == ObjectLease(s, q) {
    }
    forall task ensures TaskLease(s', task) == TaskLease(s, task) {
    }
    forall h ensures LeaseOf(s', h) == LeaseOf(s, h) {
    }
  }

  lemma LockedUpdate(s: Pool, s': Pool)
    requires Locked(s) && s'.tasks == s.tasks && SameHoldings(s, s', {})
    ensures Locked(s')
  {
  }

  lemma UpdateAccounted(s: Pool, r: Ref, o: Session)
    requires Accounted(s) && r in s.objects
    requires o.sid == s.objects[r].sid && o.profile == s.objects[r].profile && o.ownsProfile == s.objects[r].ownsProfile
    ensures Accounted(SetObject(s, r, o))
  {
    var s' := SetObject(s, r, o);
    ObjectSound(s, r, o);
    UpdateHoldings(s, r, o);
    LedgerKept(s, s');
    LockedUpdate(s, s');
  }

  lemma TouchKeeps(s: Pool, r: Ref, inUse: nat, expiresAt: real, lastPersist: real)
    requires Inv(s) && r in s.objects
    ensures Inv(SetObject(s, r, s.objects[r].(inUse := inUse, expiresAt := expiresAt, lastPersist := lastPersist)))
  {
    var o := s.objects[r].(inUse := inUse, expiresAt := expiresAt, lastPersist := lastPersist);
    UpdateAccounted(s, r, o);
    DrainingKept(s, SetObject(s, r, o));
  }

  lemma MigrateStartKeeps(s: Pool, t: Tid, sid: Sid, survivor: Sid)
    requires Inv(s) && Enabled(s, MigrateStart(t, sid, survivor))
    ensures Inv(MigrationStarted(s, t, sid, s.sessions[sid], s.sessions[survivor]))
  {
    hide Ledger, Locked, DrainingTracked, HasRider, TaskFits;
    var v, h := s.sessions[sid], s.sessions[survivor];
    var marked := SetObject(s, v, s.objects[v].(draining := true));
    UpdateAccounted(s, v, marked.objects[v]);
    var shielded := SetObject(marked, h, marked.objects[h].(inUse := marked.objects[h].inUse + 1));
    UpdateAccounted(marked, h, shielded.objects[h]);
    StageAccounted(shielded, t, Migrating(sid, v, h));
    DrainingStarted(s, t, sid, survivor);
  }

  lemma DrainingStarted(s: Pool, t: Tid, sid: Sid, survivor: Sid)
    requires DrainingTracked(s) && t !in s.tasks && Registered(s, sid) && Registered(s, survivor)
    ensures DrainingTracked(MigrationStarted(s, t, sid, s.sessions[sid], s.sessions[survivor]))
  {
    var v := s.sessions[sid];
    var s' := MigrationStarted(s, t, sid, v, s.sessions[survivor]);
    forall x | Registered(s', x) && At(s', x).draining ensures MigrationOf(s', s'.sessions[x]) {
      if s'.sessions[x] == v {
        assert s'.tasks[t].victim == v;
      } else {
        assert MigrationOf(s, s.sessions[x]);
        var u :| u in s.tasks && s.tasks[u].Migrating? && s.tasks[u].victim == s.sessions[x];
        assert s'.tasks[u] == s.tasks[u];
      }
    }
  }

  lemma MigrateFailKeeps(s: Pool, t: Tid)
    requires Inv(s) && t in s.tasks && s.tasks[t].Migrating?
    ensures TaskFits(s, s.tasks[t]) && Inv(MigrationFailed(s, t, s.tasks[t].victim, s.tasks[t].survivor))
  {
    hide Ledger, Locked, DrainingTracked;
    var Migrating(sid, v, h) := s.tasks[t];
    var u := Unshielded(s, h);
    UpdateAccounted(s, h, u.objects[h]);
    var cleared := SetObject(u, v, u.objects[v].(draining := false));
    UpdateAccounted(u, v, cleared.objects[v]);
    var s' := EndTask(cleared, t);
    EndAccounted(cleared, t);
    DrainingFailed(s, t);
  }

  lemma DrainingFailed(s: Pool, t: Tid)
    requires Sound(s) && DrainingTracked(s) && t in s.tasks && s.tasks[t].Migrating?
    ensures TaskFits(s, s.tasks[t]) && DrainingTracked(MigrationFailed(s, t, s.tasks[t].victim, s.tasks[t].survivor))
  {
    var s' := MigrationFailed(s, t, s.tasks[t].victim, s.tasks[t].survivor);
    forall x | Registered(s', x) && At(s', x).draining ensures MigrationOf(s', s'.sessions[x]) {
      assert MigrationOf(s, s.sessions[x]);
      var w :| w in s.tasks && s.tasks[w].Migrating? && s.tasks[w].victim == s.sessions[x];
      assert w != t && s'.tasks[w] == s.tasks[w];
    }
  }

  /** The commit swaps the registry entry; the victim's lease goes to the coroutine that retires it. */
  lemma MigrateCommitExact(s: Pool, t: Tid, ref: Ref, expiresAt: real, persistedAt: real)
    requires Inv(s) && Enabled(s, MigrateCommit(t, ref, expiresAt, persistedAt)) && TaskFits(s, s.tasks[t])
    ensures var task := s.tasks[t];
            var moved := Moved(s.objects[task.victim], s.objects[task.survivor], expiresAt, persistedAt);
            var s' := MigrationCommitted(s, t, task.sid, task.victim, task.survivor, ref, moved);
            Sound(s') && (Ledger(s') ==> Inv(s'))
            && (Ledger(s') <==> LeaseOf(s, AtSession(task.sid)) == ObjectLease(s, task.victim))
  {
    hide Ledger, Locked, DrainingTracked, Sound, SameHoldings, HasRider;
    var Migrating(sid, v, h) := s.tasks[t];
    TasksFit(s);
    var moved := Moved(s.objects[v], s.objects[h], expiresAt, persistedAt);
    var u := Unshielded(s, h);
    ObjectSound(s, h, u.objects[h]);
    UpdateHoldings(s, h, u.objects[h]);
    var added := SetObject(u, ref, moved);
    ObjectSound(u, ref, moved);
    var listed := added.(sessions := s.sessions[sid := ref]);
    RegisterSound(added, sid, ref);
    var s' := SetTask(listed, t, Retiring(v));
    TaskSound(listed, t, Retiring(v));
    CommitHoldings(u, t, sid, v, ref, moved);
    LedgerHandedOver(s, s', AtSession(sid), AtTask(t));
    LockedStage(s, s', t, Retiring(v));
    DrainingCommitted(s, t, ref, moved);
  }

  lemma DrainingCommitted(s: Pool, t: Tid, ref: Ref, moved: Session)
    requires Sound(s) && DrainingTracked(s) && t in s.tasks && s.tasks[t].Migrating? && TaskFits(s, s.tasks[t])
    requires ref !in s.objects && !moved.draining
    ensures DrainingTracked(MigrationCommitted(s, t, s.tasks[t].sid, s.tasks[t].victim, s.tasks[t].survivor, ref, moved))
  {
    var Migrating(sid, v, h) := s.tasks[t];
    var s' := MigrationCommitted(s, t, sid, v, h, ref, moved);
    forall x | Registered(s', x) && At(s', x).draining ensures MigrationOf(s', s'.sessions[x]) {
      assert x != sid && MigrationOf(s, s.sessions[x]);
      var w :| w in s.tasks && s.tasks[w].Migrating? && s.tasks[w].victim == s.sessions[x];
      assert Registered(s, x) && At(s, x).sid == x;
      assert w != t && s'.tasks[w] == s.tasks[w];
    }
  }

  lemma CommitHoldings(u: Pool, t: Tid, sid: Sid, v: Ref, ref: Ref, moved: Session)
    requires Sound(u) && ref !in u.objects && v in u.objects && !moved.ownsProfile
    ensures var s' := SetTask(SetObject(u, ref, moved).(sessions := u.sessions[sid := ref]), t, Retiring(v));
            SameHoldings(u, s', {AtSession(sid), AtTask(t)})
            && LeaseOf(s', AtSession(sid)) == None && LeaseOf(s', AtTask(t)) == ObjectLease(u, v)
  {
    var s' := SetTask(SetObject(u, ref, moved).(sessions := u.sessions[sid := ref]), t, Retiring(v));
    forall h | h != AtTask(t) && h != AtSession(sid) ensures LeaseOf(s', h) == LeaseOf(u, h) {
      assert h.AtTask? ==> h.t != t;
      assert h.AtTask? && h.t in u.tasks ==> TaskFits(u, u.tasks[h.t]);
      assert h.AtSession? && h.sid in u.sessions ==> Registered(u, h.sid);
    }
  }

  // ----- every action -----

  lemma EnterKeeps(s: Pool, t: Tid, job: Job)
    requires Inv(s) && t in s.tasks && s.tasks[t] == Work(job, Queued)
    requires Target(job).Some? && LockFree(s, Target(job).value)
    ensures Inv(Entered(s, t, job))
  {
    var key := Target(job).value;
    if key !in s.sessions {
      StageKeeps(s, t, Work(job, Seeking));
    } else if job.WarmJob? {
      assert Registered(s, key);
      StageKeeps(s, t, Work(job, Probing(s.sessions[key])));
    } else {
      EndKeeps(s, t);
    }
  }

  lemma PoppedDeadKeeps(s: Pool, t: Tid, job: Job, existing: Ref)
    requires Inv(s) && t in s.tasks && s.tasks[t] == Work(job, Probing(existing)) && Target(job).Some?
    ensures Inv(PoppedDead(s, t, job))
  {
    var key := Target(job).value;
    assert key in s.sessions ==> Registered(s, key);
    var popped := if key in s.sessions then Some(s.sessions[key]) else None;
    PopHandsOver(s, t, key, LeaseOf(s, AtSession(key)), Work(job, ClosingDead(popped)));
  }

  lemma ClosedDeadKeeps(s: Pool, t: Tid, job: Job, popped: Option<Ref>)
    requires Inv(s) && t in s.tasks && s.tasks[t] == Work(job, ClosingDead(popped))
    requires TaskFits(s, s.tasks[t])
    ensures popped.Some? ==> s.objects[popped.value].profile < |s.profiles|
    ensures Inv(ClosedDead(s, t, job, popped))
  {
    assert Target(job).Some? ==> Building(s.tasks[t]);
    if LeaseOf(s, AtTask(t)).Some? {
      ReleaseKeeps(s, t, s.objects[popped.value].profile, true, Work(job, Seeking));
    } else {
      StageKeeps(s, t, Work(job, Seeking));
    }
  }

  lemma FailKeeps(s: Pool, t: Tid, job: Job, p: Pid, again: bool)
    requires Inv(s) && t in s.tasks && s.tasks[t] == Work(job, Holding(p)) && p < |s.profiles|
    ensures Inv(SetTask(s, t, Work(job, CleaningUp(p, again))))
  {
    assert Target(job).Some? ==> Building(s.tasks[t]);
    StageKeeps(s, t, Work(job, CleaningUp(p, again)));
  }

  lemma ReturnedKeeps(s: Pool, t: Tid, job: Job, p: Pid, again: bool)
    requires Inv(s) && t in s.tasks && s.tasks[t] == Work(job, CleaningUp(p, again)) && p < |s.profiles|
    ensures IsLeased(s, p) && Inv(Returned(s, t, job, p, again))
  {
    if again && job.ResolveJob? && job.left > 0 {
      ReleaseKeeps(s, t, p, false, Work(ResolveJob(job.left - 1), Seeking));
    } else {
      ReleaseEnds(s, t, p, false);
    }
  }

  /** Closing, retiring and the reaper end the same way: release what the popped object owned. */
  lemma CloseKeeps(s: Pool, t: Tid, r: Ref)
    requires Inv(s) && t in s.tasks && r in s.objects && !s.tasks[t].Migrating?
    requires LeaseOf(s, AtTask(t)) == ObjectLease(s, r)
    ensures s.objects[r].profile < |s.profiles| && Inv(EndTask(ReleaseIfOwned(s, r), t))
  {
    if s.objects[r].ownsProfile {
      ReleaseEnds(s, t, s.objects[r].profile, true);
    } else {
      EndKeeps(s, t);
    }
  }

  lemma ReapReleaseKeeps(s: Pool, t: Tid, r: Ref, next: Task)
    requires Inv(s) && t in s.tasks && s.tasks[t].Reaping? && s.tasks[t].popped == Some(r) && r in s.objects
    requires next == s.tasks[t].(popped := None)
    ensures s.objects[r].profile < |s.profiles| && Inv(SetTask(ReleaseIfOwned(s, r), t, next))
  {
    if s.objects[r].ownsProfile {
      ReleaseKeeps(s, t, s.objects[r].profile, true, next);
    } else {
      StageKeeps(s, t, next);
    }
  }

  lemma HealthKeeps(s: Pool, p: Pid, profile: Profile)
    requires Inv(s) && p < |s.profiles| && profile.leased == s.profiles[p].leased
    ensures Inv(s.(profiles := s.profiles[p := profile]))
  {
    var s' := s.(profiles := s.profiles[p := profile]);
    FlagHoldings(s, s'.profiles);
    LedgerKept(s, s');
    LockedUpdate(s, s');
    DrainingKept(s, s');
  }

  lemma ReapStartKeeps(s: Pool, t: Tid, now: real, items: seq<(Sid, Ref)>)
    requires Inv(s) && t !in s.tasks && IsItems(s, items)
    ensures Inv(SetTask(s, t, Reaping(now, items, None)))
  {
    forall i | 0 <= i < |items| ensures items[i].1 in s.objects && s.objects[items[i].1].sid == items[i].0 {
      assert Registered(s, items[i].0);
    }
    StageKeeps(s, t, Reaping(now, items, None));
  }

  /** One entry of the reaper's snapshot: exact, because the entry may be stale by now. */
  lemma ReapEntryExact(s: Pool, t: Tid, now: real, rest: seq<(Sid, Ref)>)
    requires Inv(s) && t in s.tasks && s.tasks[t] == Reaping(now, rest, None) && rest != [] && rest[0].1 in s.objects
    ensures var (sid, r) := rest[0];
            var s' := ReapEntry(s, t, sid, r);
            (Ledger(s') <==> (Sweepable(s, r, now) ==> LeaseOf(s, AtSession(sid)) == ObjectLease(s, r)))
            && (Ledger(s') ==> Inv(s'))
  {
    var (sid, r) := rest[0];
    assert TaskFits(s, s.tasks[t]);
    if Sweepable(s, r, now) {
      PopHandsOver(s, t, sid, ObjectLease(s, r), Reaping(now, rest[1..], Some(r)));
    } else {
      StageKeeps(s, t, Reaping(now, rest[1..], None));
    }
  }

  /** A close or a retirement that never gets to its release: the session may not own its profile then. */
  lemma ForgetExact(s: Pool, t: Tid)
    requires Inv(s) && t in s.tasks && (s.tasks[t].Closing? || s.tasks[t].Retiring?)
    ensures var s' := EndTask(s, t);
            (Ledger(s') <==> TaskLease(s, s.tasks[t]) == None) && (Ledger(s') ==> Inv(s'))
  {
    EndHoldings(s, t);
    LedgerForgotten(s, EndTask(s, t), AtTask(t));
    if TaskLease(s, s.tasks[t]) == None {
      EndKeeps(s, t);
    }
  }

  /** The session store raises behind a registry pop: the entry is gone and nobody is going to release. */
  lemma DroppedIsForgone(s: Pool, t: Tid, sid: Sid)
    requires Inv(s) && t !in s.tasks && Registered(s, sid)
    ensures Enabled(s, ClosePop(t, sid)) && Sound(Apply(s, ClosePop(t, sid))) && Enabled(Apply(s, ClosePop(t, sid)), Forgo(t))
    ensures Apply(Apply(s, ClosePop(t, sid)), Forgo(t)) == Pop(s, sid)
    ensures Ledger(Pop(s, sid)) <==> !At(s, sid).ownsProfile
  {
    hide Ledger, Locked, DrainingTracked, ApplyRequest, ApplyMigration, HasRider;
    var closing := Apply(s, ClosePop(t, sid));
    StepExact(s, ClosePop(t, sid));
    assert closing == SetTask(Pop(s, sid), t, Closing(s.sessions[sid]));
    StepExact(closing, Forgo(t));
    assert EndTask(closing, t) == Pop(s, sid);
  }

  /** A request cancelled where no handler releases: it may not hold anything then. */
  lemma AbandonExact(s: Pool, t: Tid)
    requires Inv(s) && t in s.tasks && s.tasks[t].Work?
    ensures var s' := EndTask(s, t);
            (Ledger(s') <==> TaskLease(s, s.tasks[t]) == None) && (Ledger(s') ==> Inv(s'))
  {
    EndHoldings(s, t);
    LedgerForgotten(s, EndTask(s, t), AtTask(t));
    if TaskLease(s, s.tasks[t]) == None {
      EndKeeps(s, t);
    }
  }

  lemma StepLocks(s: Pool, a: Action)
    requires Inv(s) && Enabled(s, a) && (a.Start? || a.Enter? || a.ProbeAlive? || a.ProbeDead? || a.CloseDeadDone?)
    ensures Ledger(Apply(s, a)) <==> Safe(s, a)
    ensures Safe(s, a) ==> Inv(Apply(s, a))
  {
    hide Ledger, Locked, DrainingTracked, ApplyRemoval, ApplyMigration;
    match a
    case Start(t, job) => StageKeeps(s, t, Work(job, if job.ResolveJob? then Seeking else Queued));
    case Enter(t) => EnterKeeps(s, t, s.tasks[t].job);
    case ProbeAlive(t) => EndKeeps(s, t);
    case ProbeDead(t) => PoppedDeadKeeps(s, t, s.tasks[t].job, s.tasks[t].stage.existing);
    case CloseDeadDone(t) => ClosedDeadKeeps(s, t, s.tasks[t].job, s.tasks[t].stage.popped);
    case _ =>
  }

  lemma StepLease(s: Pool, a: Action)
    requires Inv(s) && Enabled(s, a) && (a.Acquire? || a.GiveUp? || a.Fail? || a.ReturnLease? || a.Open? || a.Abandon?)
    ensures Ledger(Apply(s, a)) <==> Safe(s, a)
    ensures Safe(s, a) ==> Inv(Apply(s, a))
  {
    hide Ledger, Locked, DrainingTracked, ApplyRemoval, ApplyMigration;
    match a
    case Acquire(t, p) => AcquireKeeps(s, t, s.tasks[t].job, p);
    case GiveUp(t) => EndKeeps(s, t);
    case Fail(t, again) => FailKeeps(s, t, s.tasks[t].job, s.tasks[t].stage.profile, again);
    case ReturnLease(t) => ReturnedKeeps(s, t, s.tasks[t].job, s.tasks[t].stage.held, s.tasks[t].stage.again);
    case Open(t, ref, o, answered) =>
      if answered { OpenKeeps(s, t, ref, o); } else { UnansweredBreaks(s, t, ref, o); }
    case Abandon(t) => AbandonExact(s, t);
    case _ =>
  }

  lemma StepClose(s: Pool, a: Action)
    requires Inv(s) && Enabled(s, a) && (a.ClosePop? || a.CloseDone? || a.Forgo? || a.RetireDone?)
    ensures Ledger(Apply(s, a)) <==> Safe(s, a)
    ensures Safe(s, a) ==> Inv(Apply(s, a))
  {
    hide Ledger, Locked, DrainingTracked, ApplyRequest;
    match a
    case ClosePop(t, sid) => PopHandsOver(s, t, sid, LeaseOf(s, AtSession(sid)), Closing(s.sessions[sid]));
    case CloseDone(t) => CloseKeeps(s, t, s.tasks[t].ref);
    case Forgo(t) => ForgetExact(s, t);
    case RetireDone(t) => CloseKeeps(s, t, s.tasks[t].retired);
    case _ =>
  }

  lemma StepEvict(s: Pool, a: Action)
    requires Inv(s) && Enabled(s, a) && (a.SweepExpired? || a.EvictLru? || a.ForceKill? || a.Touch? || a.Health?)
    ensures Ledger(Apply(s, a)) <==> Safe(s, a)
    ensures Safe(s, a) ==> Inv(Apply(s, a))
  {
    hide Ledger, Locked, DrainingTracked, ApplyRequest;
    match a
    case SweepExpired(sid, _) => EvictKeeps(s, sid);
    case EvictLru(sid) => EvictKeeps(s, sid);
    case ForceKill(sid, _) => EvictKeeps(s, sid);
    case Touch(ref, inUse, expiresAt, lastPersist) => TouchKeeps(s, ref, inUse, expiresAt, lastPersist);
    case Health(p, status, launched, fails, uses) =>
      HealthKeeps(s, p, s.profiles[p].(status := status, launched := launched, consecutiveFail := fails, uses := uses));
    case _ =>
  }

  lemma StepReap(s: Pool, a: Action)
    requires Inv(s) && Enabled(s, a) && (a.ReapStart? || a.ReapNext? || a.ReapRelease? || a.ReapEnd?)
    ensures Ledger(Apply(s, a)) <==> Safe(s, a)
    ensures Safe(s, a) ==> Inv(Apply(s, a))
  {
    hide Ledger, Locked, DrainingTracked, ApplyRequest, ApplyMigration;
    match a
    case ReapStart(t, now, items) => ReapStartKeeps(s, t, now, items);
    case ReapNext(t) => ReapEntryExact(s, t, s.tasks[t].now, s.tasks[t].rest);
    case ReapRelease(t) => ReapReleaseKeeps(s, t, s.tasks[t].popped.value, s.tasks[t].(popped := None));
    case ReapEnd(t) => EndKeeps(s, t);
    case _ =>
  }

  lemma StepMigrate(s: Pool, a: Action)
    requires Inv(s) && Enabled(s, a) && (a.MigrateStart? || a.MigrateFail? || a.MigrateCommit?)
    ensures Ledger(Apply(s, a)) <==> Safe(s, a)
    ensures Safe(s, a) ==> Inv(Apply(s, a))
  {
    hide Ledger, Locked, DrainingTracked, ApplyRequest, ApplyRemoval;
    match a
    case MigrateStart(t, sid, survivor) => MigrateStartKeeps(s, t, sid, survivor);
    case MigrateFail(t) => MigrateFailKeeps(s, t);
    case MigrateCommit(t, ref, expiresAt, persistedAt) => MigrateCommitExact(s, t, ref, expiresAt, persistedAt);
    case _ =>
  }

  /** From every state that meets the invariant, every enabled action keeps the ledger exactly when it is
      safe, and then it keeps the whole invariant. */
  lemma StepExact(s: Pool, a: Action)
    requires Inv(s) && Enabled(s, a)
    ensures Ledger(Apply(s, a)) <==> Safe(s, a)
    ensures Safe(s, a) ==> Inv(Apply(s, a))
  {
    hide *;
    match a
    case Start(_, _) | Enter(_) | ProbeAlive(_) | ProbeDead(_) | CloseDeadDone(_) => StepLocks(s, a);
    case Acquire(_, _) | GiveUp(_) | Fail(_, _) | ReturnLease(_) | Open(_, _, _, _) | Abandon(_) => StepLease(s, a);
    case ClosePop(_, _) | CloseDone(_) | Forgo(_) | RetireDone(_) => StepClose(s, a);
    case SweepExpired(_, _) | EvictLru(_) | ForceKill(_, _) | Touch(_, _, _, _) | Health(_, _, _, _, _) => StepEvict(s, a);
    case ReapStart(_, _, _) | ReapNext(_) | ReapRelease(_) | ReapEnd(_) => StepReap(s, a);
    case MigrateStart(_, _, _) | MigrateFail(_) | MigrateCommit(_, _, _, _) => StepMigrate(s, a);
  }

  // ----- pointers stay good, whether or not the action is safe -----

  lemma OpenSound(s: Pool, t: Tid, ref: Ref, o: Session, answered: bool)
    requires Sound(s) && Enabled(s, Open(t, ref, o, answered))
    ensures Sound(Opened(s, t, ref, o, answered))
  {
    hide LockFree, FreshSid;
    if answered {
      ObjectSound(s, ref, o);
      RegisterSound(SetObject(s, ref, o), o.sid, ref);
      EndSound(Listed(s, ref, o), t);
    } else {
      UnansweredSound(s, t, ref, o);
    }
  }

  lemma RequestSound(s: Pool, a: Action)
    requires Sound(s) && Enabled(s, a) && OfRequest(a)
    ensures Sound(Apply(s, a))
  {
    hide Sound, LockFree, FreshSid, ApplyMigration, ApplyRemoval, HasRider;
    TasksFit(s);
    match a
    case Start(t, job) => TaskSound(s, t, Work(job, if job.ResolveJob? then Seeking else Queued));
    case Enter(t) => EnteredSound(s, t, s.tasks[t].job);
    case ProbeDead(t) => PoppedDeadSound(s, t, s.tasks[t].job);
    case CloseDeadDone(t) =>
      var job, popped := s.tasks[t].job, s.tasks[t].stage.popped;
      if popped.Some? && s.objects[popped.value].ownsProfile {
        ReleaseSound(s, s.objects[popped.value].profile, true);
        TaskSound(Release(s, s.objects[popped.value].profile, true), t, Work(job, Seeking));
      } else {
        TaskSound(s, t, Work(job, Seeking));
      }
    case Acquire(t, p) => LeasedSound(s, t, s.tasks[t].job, p);
    case Fail(t, again) => TaskSound(s, t, Work(s.tasks[t].job, CleaningUp(s.tasks[t].stage.profile, again)));
    case ReturnLease(t) =>
      var p := s.tasks[t].stage.held;
      ReleaseSound(s, p, false);
      EndSound(Release(s, p, false), t);
      if s.tasks[t].stage.again && s.tasks[t].job.left > 0 {
        TaskSound(Release(s, p, false), t, Work(ResolveJob(s.tasks[t].job.left - 1), Seeking));
      }
    case Open(t, ref, o, answered) => OpenSound(s, t, ref, o, answered);
    case ProbeAlive(t) => EndSound(s, t);
    case GiveUp(t) => EndSound(s, t);
    case Abandon(t) => EndSound(s, t);
    case _ =>
  }

  lemma TasksFit(s: Pool)
    requires Sound(s)
    ensures forall t :: t in s.tasks ==> TaskFits(s, s.tasks[t])
    ensures forall r :: r in s.objects ==> s.objects[r].profile < |s.profiles|
  {
  }

  lemma HeldExists(s: Pool, t: Tid)
    requires Sound(s) && t in s.tasks && s.tasks[t].Work? && s.tasks[t].stage.CleaningUp?
    ensures s.tasks[t].stage.held < |s.profiles|
  {
    assert TaskFits(s, s.tasks[t]);
  }

  lemma EnteredSound(s: Pool, t: Tid, job: Job)
    requires Sound(s) && Target(job).Some?
    ensures Sound(Entered(s, t, job))
  {
    var key := Target(job).value;
    if key !in s.sessions {
      TaskSound(s, t, Work(job, Seeking));
    } else {
      assert Registered(s, key);
      TaskSound(s, t, Work(job, Probing(s.sessions[key])));
      EndSound(s, t);
    }
  }

  lemma PoppedDeadSound(s: Pool, t: Tid, job: Job)
    requires Sound(s) && Target(job).Some?
    ensures Sound(PoppedDead(s, t, job))
  {
    var key := Target(job).value;
    assert key in s.sessions ==> Registered(s, key);
    PopSound(s, key);
    TaskSound(Pop(s, key), t, Work(job, ClosingDead(if key in s.sessions then Some(s.sessions[key]) else None)));
  }

  lemma LeasedSound(s: Pool, t: Tid, job: Job, p: Pid)
    requires Sound(s) && p < |s.profiles|
    ensures Sound(Leased(s, t, job, p))
  {
  }

  lemma ReleaseOwnedSound(s: Pool, r: Ref)
    requires Sound(s) && r in s.objects
    ensures s.objects[r].profile < |s.profiles| && Sound(ReleaseIfOwned(s, r))
    ensures forall task :: TaskFits(s, task) ==> TaskFits(ReleaseIfOwned(s, r), task)
  {
    ReleaseSound(s, s.objects[r].profile, true);
  }

  lemma EvictedSound(s: Pool, sid: Sid)
    requires Sound(s) && Registered(s, sid)
    ensures Sound(Evicted(s, sid))
  {
    PopSound(s, sid);
    ReleaseOwnedSound(Pop(s, sid), s.sessions[sid]);
  }

  lemma RemovalSound(s: Pool, a: Action)
    requires Sound(s) && Enabled(s, a) && !OfRequest(a) && !OfMigration(a)
    ensures Sound(Apply(s, a))
  {
    hide Sound, ApplyRequest, ApplyMigration, HasRider, LruCandidate, Killable;
    TasksFit(s);
    match a
    case ClosePop(t, sid) =>
      PopSound(s, sid);
      TaskSound(Pop(s, sid), t, Closing(s.sessions[sid]));
    case CloseDone(t) =>
      ReleaseOwnedSound(s, s.tasks[t].ref);
      EndSound(ReleaseIfOwned(s, s.tasks[t].ref), t);
    case Forgo(t) => EndSound(s, t);
    case ReapEnd(t) => EndSound(s, t);
    case SweepExpired(sid, _) => EvictedSound(s, sid);
    case EvictLru(sid) => RegisteredCandidate(s, sid); EvictedSound(s, sid);
    case ForceKill(sid, now) => RegisteredKillable(s, sid, now); EvictedSound(s, sid);
    case ReapStart(t, now, items) =>
      ItemsFit(s, items);
      TaskSound(s, t, Reaping(now, items, None));
    case ReapNext(t) => ReapEntrySound(s, t);
    case ReapRelease(t) =>
      var r, next := s.tasks[t].popped.value, Reaping(s.tasks[t].now, s.tasks[t].rest, None);
      ReleaseOwnedSound(s, r);
      TaskSound(ReleaseIfOwned(s, r), t, next);
    case _ =>
  }

  lemma RegisteredCandidate(s: Pool, sid: Sid)
    requires LruCandidate(s, sid)
    ensures Registered(s, sid)
  {
  }

  lemma RegisteredKillable(s: Pool, sid: Sid, now: real)
    requires Killable(s, sid, now)
    ensures Registered(s, sid)
  {
  }

  lemma ItemsFit(s: Pool, items: seq<(Sid, Ref)>)
    requires Sound(s) && IsItems(s, items)
    ensures TaskFits(s, Reaping(0.0, items, None))
  {
    forall i | 0 <= i < |items| ensures items[i].1 in s.objects && s.objects[items[i].1].sid == items[i].0 {
      assert Registered(s, items[i].0);
    }
  }

  lemma ReapEntrySound(s: Pool, t: Tid)
    requires Sound(s) && Enabled(s, ReapNext(t)) && s.tasks[t].rest[0].1 in s.objects
    ensures Sound(ReapEntry(s, t, s.tasks[t].rest[0].0, s.tasks[t].rest[0].1))
  {
    hide HasRider;
    var Reaping(now, rest, _) := s.tasks[t];
    assert TaskFits(s, s.tasks[t]);
    PopSound(s, rest[0].0);
    TaskSound(Pop(s, rest[0].0), t, Reaping(now, rest[1..], Some(rest[0].1)));
    TaskSound(s, t, Reaping(now, rest[1..], None));
  }

  lemma MigrationSound(s: Pool, a: Action)
    requires Sound(s) && Enabled(s, a) && OfMigration(a)
    ensures Sound(Apply(s, a))
  {
    hide ApplyRequest, ApplyRemoval, HasRider, LruCandidate, Killable, Sound;
    TasksFit(s);
    match a
    case MigrateStart(t, sid, survivor) => MigrationStartedSound(s, t, sid, survivor);
    case MigrateFail(t) =>
      var v, h := s.tasks[t].victim, s.tasks[t].survivor;
      var u := Unshielded(s, h);
      ObjectSound(s, h, u.objects[h]);
      var cleared := SetObject(u, v, u.objects[v].(draining := false));
      ObjectSound(u, v, cleared.objects[v]);
      EndSound(cleared, t);
    case MigrateCommit(t, ref, expiresAt, persistedAt) =>
      var Migrating(sid, v, h) := s.tasks[t];
      var moved := Moved(s.objects[v], s.objects[h], expiresAt, persistedAt);
      var u := Unshielded(s, h);
      ObjectSound(s, h, u.objects[h]);
      var added := SetObject(u, ref, moved);
      ObjectSound(u, ref, moved);
      RegisterSound(added, sid, ref);
      TaskSound(added.(sessions := s.sessions[sid := ref]), t, Retiring(v));
    case RetireDone(t) =>
      ReleaseOwnedSound(s, s.tasks[t].retired);
      EndSound(ReleaseIfOwned(s, s.tasks[t].retired), t);
    case Touch(ref, inUse, expiresAt, lastPersist) =>
      ObjectSound(s, ref, s.objects[ref].(inUse := inUse, expiresAt := expiresAt, lastPersist := lastPersist));
    case Health(p, status, launched, fails, uses) =>
      ProfileSound(s, p, s.profiles[p].(status := status, launched := launched, consecutiveFail := fails, uses := uses));
    case _ =>
  }

  lemma ProfileSound(s: Pool, p: Pid, profile: Profile)
    requires Sound(s) && p < |s.profiles|
    ensures Sound(s.(profiles := s.profiles[p := profile]))
  {
  }

  lemma MigrationStartedSound(s: Pool, t: Tid, sid: Sid, survivor: Sid)
    requires Sound(s) && Registered(s, sid) && Registered(s, survivor)
    ensures Sound(MigrationStarted(s, t, sid, s.sessions[sid], s.sessions[survivor]))
  {
    var v, h := s.sessions[sid], s.sessions[survivor];
    var marked := SetObject(s, v, s.objects[v].(draining := true));
    ObjectSound(s, v, marked.objects[v]);
    var shielded := SetObject(marked, h, marked.objects[h].(inUse := marked.objects[h].inUse + 1));
    ObjectSound(marked, h, shielded.objects[h]);
    TaskSound(shielded, t, Migrating(sid, v, h));
  }

  /** No action, safe or not, leaves the registry or a coroutine with a pointer to nothing: that every state of
      a run is sound restricts no run. */
  lemma StepSound(s: Pool, a: Action)
    requires Sound(s) && Enabled(s, a)
    ensures Sound(Apply(s, a))
  {
    hide *;
    if OfRequest(a) { RequestSound(s, a); }
    else if OfMigration(a) { MigrationSound(s, a); }
    else { RemovalSound(s, a); }
  }

  lemma ApplySplits(s: Pool, a: Action)
    requires Sound(s) && Enabled(s, a)
    ensures OfRequest(a) ==> Apply(s, a) == ApplyRequest(s, a)
    ensures OfMigration(a) ==> Apply(s, a) == ApplyMigration(s, a)
    ensures !OfRequest(a) && !OfMigration(a) ==> Apply(s, a) == ApplyRemoval(s, a)
  {
    hide Sound, Enabled, ApplyRequest, ApplyMigration, ApplyRemoval;
  }

  // ----- whole runs -----

  ghost predicate SafeRun(s: Pool, actions: seq<Action>)
    requires IsRun(s, actions)
    decreases |actions|
  {
    actions == [] || (Safe(s, actions[0]) && SafeRun(Apply(s, actions[0]), actions[1..]))
  }

  ghost predicate LedgerThroughout(s: Pool, actions: seq<Action>)
    requires IsRun(s, actions)
    decreases |actions|
  {
    Ledger(s) && (actions == [] || LedgerThroughout(Apply(s, actions[0]), actions[1..]))
  }

  lemma InitialInv(s: Pool)
    requires Initial(s)
    ensures Inv(s)
  {
    forall h ensures LeaseOf(s, h) == None {
    }
  }

  /** Over every run the ledger holds in every state exactly when every step is safe; then no release ever
      finds its profile already free, and no registered session is draining without a migration in progress. */
  lemma {:induction false} RunExact(s: Pool, actions: seq<Action>)
    requires Inv(s) && IsRun(s, actions)
    ensures LedgerThroughout(s, actions) <==> SafeRun(s, actions)
    ensures SafeRun(s, actions) ==> Inv(After(s, actions))
    decreases |actions|
  {
    hide Sound, Locked, DrainingTracked, Ledger, Enabled, Apply, Safe;
    if actions != [] {
      var next := Apply(s, actions[0]);
      StepExact(s, actions[0]);
      if Safe(s, actions[0]) {
        RunExact(next, actions[1..]);
      }
    }
  }

  // ----- what a request ends up holding -----

  lemma EndsHow(s: Pool, a: Action, t: Tid)
    requires Sound(s) && Enabled(s, a) && t in s.tasks && s.tasks[t].Work? && t !in Apply(s, a).tasks
    ensures (a.Open? && a.t == t && a.answered) || (a.Abandon? && a.t == t)
            || (a.ReturnLease? && a.t == t && !(s.tasks[t].stage.again && s.tasks[t].job.left > 0))
            || (Apply(s, a) == EndTask(s, t) && TaskLease(s, s.tasks[t]) == None)
  {
    hide Sound, TaskFits, HasRider, LockFree, FreshSid, ApplyMigration, ApplyRemoval;
    if a.Enter? || a.ProbeAlive? || a.GiveUp? || a.Open? || a.ReturnLease? || a.Abandon? {
      assert a.t == t;
    } else {
      EndsNoOther(s, a, t);
    }
  }

  lemma EndsNoOther(s: Pool, a: Action, t: Tid)
    requires Sound(s) && Enabled(s, a) && t in s.tasks && s.tasks[t].Work?
    requires !(a.Enter? || a.ProbeAlive? || a.GiveUp? || a.Open? || a.ReturnLease? || a.Abandon?)
    ensures t in Apply(s, a).tasks
  {
    hide Sound, TaskFits, HasRider, IsItems, LockFree, LruCandidate, FreshSid;
    if OfRequest(a) {
      hide ApplyMigration, ApplyRemoval;
    } else if OfMigration(a) {
      hide ApplyRequest, ApplyRemoval;
    } else {
      hide ApplyRequest, ApplyMigration;
    }
  }

  /** How a request ends, from any state of a safe run.  Answering: its one lease is its session's, no flag is
      touched.  Cancelled where no handler releases: no flag is touched, and what it held has no holder left.
      However else: exactly the profile it held, if any, is free again. */
  lemma RequestEnds(s: Pool, a: Action, t: Tid)
    requires Inv(s) && Enabled(s, a) && t in s.tasks && s.tasks[t].Work? && t !in Apply(s, a).tasks
    ensures var s' := Apply(s, a);
            if a.Open? then LeaseOf(s, AtTask(t)).Some? && SameFlags(s, s')
                            && LeaseOf(s', AtSession(a.session.sid)) == LeaseOf(s, AtTask(t))
            else if a.Abandon? then SameFlags(s, s') && forall p: Pid :: LeaseOf(s, AtTask(t)) == Some(p) ==> !Held(s', p)
            else forall p: Pid :: IsLeased(s', p) <==> IsLeased(s, p) && LeaseOf(s, AtTask(t)) != Some(p)
  {
    hide Ledger, Locked, DrainingTracked;
    EndsHow(s, a, t);
    if a.Open? {
      OpenKeeps(s, t, a.ref, a.session);
    } else if a.Abandon? {
      EndHoldings(s, t);
      if LeaseOf(s, AtTask(t)).Some? {
        NobodyElseHolds(s, Apply(s, a), AtTask(t), AtTask(t), LeaseOf(s, AtTask(t)).value);
      }
    } else if a.ReturnLease? {
      ReturnedKeeps(s, t, s.tasks[t].job, s.tasks[t].stage.held, s.tasks[t].stage.again);
    }
  }

  /** An answer that raises after its session was registered: the handler's release frees the profile while
      the session that owns it stays registered ... */
  lemma UnansweredStrands(s: Pool, t: Tid, ref: Ref, o: Session)
    requires Inv(s) && Enabled(s, Open(t, ref, o, false))
    ensures var unanswered := Apply(s, Open(t, ref, o, false));
            && Sound(unanswered) && Enabled(unanswered, ReturnLease(t))
            && var returned := Apply(unanswered, ReturnLease(t));
               && Sound(returned) && Registered(returned, o.sid) && At(returned, o.sid) == o
               && !IsLeased(returned, o.profile) && returned.secondReleases == 0
               && (forall p: Pid :: HasRider(returned, p) ==> HasRider(s, p))
  {
    hide Locked, DrainingTracked, LockFree, FreshSid, HasRider;
    assert LeaseOf(s, AtTask(t)) == Some(o.profile);
    assert IsLeased(s, o.profile);
    hide Ledger, LeaseOf;
    UnansweredSound(s, t, ref, o);
    var unanswered := Opened(s, t, ref, o, false);
    UnansweredReturns(unanswered, t, o.profile);
    NoNewRider(s, Apply(unanswered, ReturnLease(t)), ref, o);
  }

  /** ... and the sweep that later removes that session releases a profile that is not its own any more. */
  lemma StrandedReleasesAgain(s: Pool, sid: Sid, now: real)
    requires Sound(s) && Registered(s, sid) && Expired(At(s, sid), now) && !HasRider(s, At(s, sid).profile)
    requires At(s, sid).ownsProfile && !IsLeased(s, At(s, sid).profile)
    ensures Enabled(s, SweepExpired(sid, now))
    ensures Apply(s, SweepExpired(sid, now)).secondReleases == s.secondReleases + 1
  {
    hide ApplyRequest, ApplyMigration;
  }

  lemma NoNewRider(s: Pool, s': Pool, ref: Ref, o: Session)
    requires s'.sessions == s.sessions[o.sid := ref] && s'.objects == s.objects[ref := o]
    requires Sound(s) && ref !in s.objects && o.ownsProfile
    ensures forall p: Pid :: HasRider(s', p) ==> HasRider(s, p)
  {
    forall p: Pid | HasRider(s', p) ensures HasRider(s, p) {
      var sid :| sid in s'.sessions.Keys && Registered(s', sid) && !At(s', sid).ownsProfile && At(s', sid).profile == p;
      assert Registered(s, sid) && At(s, sid) == At(s', sid);
    }
  }

  lemma UnansweredSound(s: Pool, t: Tid, ref: Ref, o: Session)
    requires Sound(s) && Enabled(s, Open(t, ref, o, false))
    ensures Sound(Opened(s, t, ref, o, false))
  {
    hide LockFree, FreshSid;
    var job := s.tasks[t].job;
    ObjectSound(s, ref, o);
    RegisterSound(SetObject(s, ref, o), o.sid, ref);
    TaskSound(Listed(s, ref, o), t, Work(job, CleaningUp(o.profile, job.ResolveJob?)));
  }

  lemma UnansweredReturns(s: Pool, t: Tid, p: Pid)
    requires Sound(s) && t in s.tasks && s.tasks[t].Work? && s.tasks[t].stage.CleaningUp? && s.tasks[t].stage.held == p
    requires s.tasks[t].stage.again ==> s.tasks[t].job.ResolveJob?
    requires s.secondReleases == 0 && IsLeased(s, p)
    ensures Enabled(s, ReturnLease(t))
    ensures var s' := Apply(s, ReturnLease(t));
            Sound(s') && s'.sessions == s.sessions && s'.objects == s.objects && !IsLeased(s', p) && s'.secondReleases == 0
            && |s'.profiles| == |s.profiles|
  {
    ReleaseSound(s, p, false);
    var job, again := s.tasks[t].job, s.tasks[t].stage.again;
    if again && job.left > 0 {
      TaskSound(Release(s, p, false), t, Work(ResolveJob(job.left - 1), Seeking));
    } else {
      EndSound(Release(s, p, false), t);
    }
  }

  function OwnsTry(s: Pool, t: Tid): int {
    if t in s.tasks && s.tasks[t].Work? && (s.tasks[t].stage.Holding? || s.tasks[t].stage.CleaningUp?) then 1 else 0
  }

  /** Leases taken minus leases returned by coroutine `t`. */
  function NetLeases(actions: seq<Action>, t: Tid): int {
    if actions == [] then 0
    else (match actions[0]
          case Acquire(u, _) => if u == t then 1 else 0
          case ReturnLease(u) => if u == t then -1 else 0
          case _ => 0) + NetLeases(actions[1..], t)
  }

  /** The sessions it registered and answered for. */
  function SessionsAnswered(actions: seq<Action>, t: Tid): int {
    if actions == [] then 0
    else (if actions[0].Open? && actions[0].t == t && actions[0].answered then 1 else 0) + SessionsAnswered(actions[1..], t)
  }

  /** The attempts it was cancelled in where no handler releases. */
  ghost function TriesAbandoned(s: Pool, actions: seq<Action>, t: Tid): int
    requires IsRun(s, actions)
    decreases |actions|
  {
    if actions == [] then 0
    else (if actions[0].Abandon? && actions[0].t == t then OwnsTry(s, t) else 0)
         + TriesAbandoned(Apply(s, actions[0]), actions[1..], t)
  }

  /** Over every run, with retries, challenges, crashes, cancellations and answers that raise: the leases a
      request still keeps are those of the sessions it answered for, of the attempts it was cancelled in
      without a handler, and of the attempt it is working on.  A session registered without an answer keeps none. */
  lemma {:induction false} RequestBalance(s: Pool, actions: seq<Action>, t: Tid)
    requires IsRun(s, actions)
    ensures NetLeases(actions, t) == SessionsAnswered(actions, t) + TriesAbandoned(s, actions, t)
                                     + OwnsTry(After(s, actions), t) - OwnsTry(s, t)
    decreases |actions|
  {
    hide Sound, Enabled, Apply;
    if actions != [] {
      StepBalance(s, actions[0], t);
      RequestBalance(Apply(s, actions[0]), actions[1..], t);
    }
  }

  lemma StepBalance(s: Pool, a: Action, t: Tid)
    requires Sound(s) && Enabled(s, a)
    ensures NetLeases([a], t) == SessionsAnswered([a], t) + (if a.Abandon? && a.t == t then OwnsTry(s, t) else 0)
                                 + OwnsTry(Apply(s, a), t) - OwnsTry(s, t)
  {
    hide Sound, TaskFits, HasRider, IsItems, LockFree, LruCandidate;
    if OfRequest(a) {
      hide ApplyMigration, ApplyRemoval;
    } else {
      OtherBalance(s, a, t);
    }
  }

  lemma OtherBalance(s: Pool, a: Action, t: Tid)
    requires Sound(s) && Enabled(s, a) && !OfRequest(a)
    ensures OwnsTry(Apply(s, a), t) == OwnsTry(s, t)
  {
    hide Sound, TaskFits, HasRider, IsItems, LockFree, LruCandidate, ApplyRequest;
  }
}
