/** Two runs of the pool machine that break the ledger.  In the first the reaper reaches a snapshot entry that
    another request has swept meanwhile, and releases a profile that is no longer that session's to release.  In
    the second building the answer raises after the session was registered, and the handler releases its profile. */
module LedgerHazards {
  import opened Optional
  import opened BrowserPool
  import opened LeaseLedger

  function Slot(leased: bool, uses: nat): Profile { Profile(leased, uses, Healthy, false, 0) }

  /** A stream nobody fetches: its deadline is 10. */
  function Idle(n: nat, p: Pid): Session { Session(Hex(n), p, 10.0, 0, "", true, false, 0.0, "m", "p") }

  function Building(p: Pid): Task { Work(ResolveJob(0), Holding(p)) }

  const SEEKING := Work(ResolveJob(0), Seeking)

  const A := Idle(0, 0)
  const B := Idle(1, 1)

  /** Coroutine 1 resolves both streams; 2 is the reaper; 3 and 4 are later requests. */
  const SCHEDULE: seq<Action> := [
    Start(1, ResolveJob(0)), Acquire(1, 0), Open(1, 0, A, true),
    Start(1, ResolveJob(0)), Acquire(1, 1), Open(1, 1, B, true),
    ReapStart(2, 20.0, [(Hex(0), 0), (Hex(1), 1)]), ReapNext(2),
    SweepExpired(Hex(1), 20.0), Start(3, ResolveJob(0)), Acquire(3, 1),
    ReapRelease(2), ReapNext(2), ReapRelease(2),
    Start(4, ResolveJob(0)), Acquire(4, 1)
  ]

  function State(k: nat): Pool {
    var free, busy := Slot(false, 0), Slot(true, 0);
    var one := map[0 := A];
    var two := map[0 := A, 1 := B];
    var listed := map[Hex(0) := 0, Hex(1) := 1];
    match k
    case 0 => Pool([free, free], map[], map[], map[], 0)
    case 1 => Pool([free, free], map[], map[], map[1 := SEEKING], 0)
    case 2 => Pool([busy, free], map[], map[], map[1 := Building(0)], 0)
    case 3 => Pool([busy, free], one, map[Hex(0) := 0], map[], 0)
    case 4 => Pool([busy, free], one, map[Hex(0) := 0], map[1 := SEEKING], 0)
    case 5 => Pool([busy, busy], one, map[Hex(0) := 0], map[1 := Building(1)], 0)
    case 6 => Pool([busy, busy], two, listed, map[], 0)
    case 7 => Pool([busy, busy], two, listed, map[2 := Reaping(20.0, [(Hex(0), 0), (Hex(1), 1)], None)], 0)
    case 8 => Pool([busy, busy], two, map[Hex(1) := 1], map[2 := Reaping(20.0, [(Hex(1), 1)], Some(0))], 0)
    case 9 => Pool([busy, Slot(false, 1)], two, map[], map[2 := Reaping(20.0, [(Hex(1), 1)], Some(0))], 0)
    case 10 => Pool([busy, Slot(false, 1)], two, map[], map[2 := Reaping(20.0, [(Hex(1), 1)], Some(0)), 3 := SEEKING], 0)
    case 11 => Pool([busy, Slot(true, 1)], two, map[], map[2 := Reaping(20.0, [(Hex(1), 1)], Some(0)), 3 := Building(1)], 0)
    case 12 => Pool([Slot(false, 1), Slot(true, 1)], two, map[], map[2 := Reaping(20.0, [(Hex(1), 1)], None), 3 := Building(1)], 0)
    case 13 => Pool([Slot(false, 1), Slot(true, 1)], two, map[], map[2 := Reaping(20.0, [], Some(1)), 3 := Building(1)], 0)
    case 14 => Pool([Slot(false, 1), Slot(false, 2)], two, map[], map[2 := Reaping(20.0, [], None), 3 := Building(1)], 0)
    case 15 =>
      Pool([Slot(false, 1), Slot(false, 2)], two, map[], map[2 := Reaping(20.0, [], None), 3 := Building(1), 4 := SEEKING], 0)
    case _ =>
      Pool([Slot(false, 1), Slot(true, 2)], two, map[], map[2 := Reaping(20.0, [], None), 3 := Building(1), 4 := Building(1)], 0)
  }

  ghost predicate Leads(s: Pool, a: Action, s': Pool) { Sound(s) && Enabled(s, a) && Apply(s, a) == s' }

  ghost predicate Link(k: nat)
    requires k < |SCHEDULE|
  {
    Leads(State(k), SCHEDULE[k], State(k + 1))
  }

  /** States that lead to one another form a run. */
  lemma {:induction false} RunsAlong(state: nat -> Pool, schedule: seq<Action>, k: nat)
    requires k <= |schedule| && forall j: nat :: j < |schedule| ==> Leads(state(j), schedule[j], state(j + 1))
    ensures IsRun(state(k), schedule[k..]) && After(state(k), schedule[k..]) == state(|schedule|)
    decreases |schedule| - k
  {
    hide Sound, Enabled, Apply;
    if k < |schedule| {
      assert Leads(state(k), schedule[k], state(k + 1));
      RunsAlong(state, schedule, k + 1);
      assert schedule[k..][1..] == schedule[k + 1..] && schedule[k..][0] == schedule[k];
    }
  }

  lemma NoRider(s: Pool)
    requires forall sid :: Registered(s, sid) ==> At(s, sid).ownsProfile
    ensures forall p: Pid :: !HasRider(s, p)
  {
  }

  lemma Link0() ensures Link(0) {
    hide ApplyRemoval, ApplyMigration;
  }

  lemma Link1() ensures Link(1) {
    hide ApplyRemoval, ApplyMigration;
  }

  lemma Link2() ensures Link(2) {
    hide ApplyRemoval, ApplyMigration;
  }

  lemma Link3() ensures Link(3) {
    hide ApplyRemoval, ApplyMigration;
  }

  lemma Link4() ensures Link(4) {
    hide ApplyRemoval, ApplyMigration;
  }

  lemma Link5() ensures Link(5) {
    hide ApplyRemoval, ApplyMigration;
  }

  lemma Link6() ensures Link(6) {
    hide ApplyRequest, ApplyMigration;
  }

  lemma FirstEntry()
    ensures Sound(State(7)) && ReapEntry(State(7), 2, Hex(0), 0) == State(8)
  {
    var s := State(7);
    NoRider(s);
    assert s.tasks[2].rest[1..] == [(Hex(1), 1)];
    assert Pop(s, Hex(0)).sessions == map[Hex(1) := 1];
  }

  lemma Link7() ensures Link(7) {
    hide ApplyRequest, ApplyMigration;
    hide Sound, ReapEntry;
    FirstEntry();
  }

  lemma Link8() ensures Link(8) {
    hide ApplyRequest, ApplyMigration;
    NoRider(State(8));
  }

  lemma Link9() ensures Link(9) {
    hide ApplyRemoval, ApplyMigration;
  }

  lemma Link10() ensures Link(10) {
    hide ApplyRemoval, ApplyMigration;
  }

  lemma Shared()
    ensures Sound(State(11)) && Sound(State(13))
  {
    hide HasRider;
  }

  lemma Link11() ensures Link(11) {
    hide ApplyRequest, ApplyMigration, HasRider, Sound;
    Shared();
  }

  lemma StaleEntry()
    ensures Sound(State(12)) && ReapEntry(State(12), 2, Hex(1), 1) == State(13)
  {
    var s := State(12);
    NoRider(s);
    assert s.tasks[2].rest[1..] == [];
    assert Pop(s, Hex(1)).sessions == map[];
  }

  lemma Link12() ensures Link(12) {
    hide ApplyRequest, ApplyMigration;
    hide Sound, ReapEntry;
    StaleEntry();
  }

  lemma Link13() ensures Link(13) {
    hide ApplyRequest, ApplyMigration, HasRider, Sound;
    Shared();
  }

  lemma Link14() ensures Link(14) {
    hide ApplyRemoval, ApplyMigration;
  }

  lemma Link15() ensures Link(15) {
    hide ApplyRemoval, ApplyMigration;
  }

  lemma EveryLink(k: nat)
    requires k < |SCHEDULE|
    ensures Link(k)
  {
    hide Link;
    Link0(); Link1(); Link2(); Link3(); Link4(); Link5(); Link6(); Link7();
    Link8(); Link9(); Link10(); Link11(); Link12(); Link13(); Link14(); Link15();
  }

  /** From an empty pool of two profiles, sixteen steps end with two requests inside
      their try blocks on the same profile. */
  lemma StaleReapHandsOneProfileToTwo()
    ensures Initial(State(0)) && IsRun(State(0), SCHEDULE)
    ensures var end := After(State(0), SCHEDULE);
            LeaseOf(end, AtTask(3)) == Some(1) && LeaseOf(end, AtTask(4)) == Some(1) && !Ledger(end)
  {
    forall j: nat | j < |SCHEDULE| ensures Leads(State(j), SCHEDULE[j], State(j + 1)) {
      hide *;
      EveryLink(j);
      assert Link(j);
    }
    assert Initial(State(0)) && LeaseOf(State(16), AtTask(3)) == LeaseOf(State(16), AtTask(4)) == Some(1);
    hide State, Leads;
    RunsAlong(State, SCHEDULE, 0);
    assert SCHEDULE[0..] == SCHEDULE;
  }

  // ----- an answer that raises -----

  /** Coroutine 1 registers stream A and fails to answer; 2 and 3 are later requests. */
  const RAISING: seq<Action> := [
    Start(1, ResolveJob(0)), Acquire(1, 0), Open(1, 0, A, false),
    Health(0, Crashed, false, 1, 0), ReturnLease(1), Health(0, Healthy, true, 0, 0),
    Start(2, ResolveJob(0)), Acquire(2, 0), SweepExpired(Hex(0), 20.0),
    Start(3, ResolveJob(0)), Acquire(3, 0)
  ]

  function Raised(k: nat): Pool {
    var some, listed := map[0 := A], map[Hex(0) := 0];
    var cleaning := Work(ResolveJob(0), CleaningUp(0, true));
    match k
    case 0 => Pool([Slot(false, 0)], map[], map[], map[], 0)
    case 1 => Pool([Slot(false, 0)], map[], map[], map[1 := SEEKING], 0)
    case 2 => Pool([Slot(true, 0)], map[], map[], map[1 := Building(0)], 0)
    case 3 => Pool([Slot(true, 0)], some, listed, map[1 := cleaning], 0)
    case 4 => Pool([Profile(true, 0, Crashed, false, 1)], some, listed, map[1 := cleaning], 0)
    case 5 => Pool([Profile(false, 0, Crashed, false, 1)], some, listed, map[], 0)
    case 6 => Pool([Profile(false, 0, Healthy, true, 0)], some, listed, map[], 0)
    case 7 => Pool([Profile(false, 0, Healthy, true, 0)], some, listed, map[2 := SEEKING], 0)
    case 8 => Pool([Profile(true, 0, Healthy, true, 0)], some, listed, map[2 := Building(0)], 0)
    case 9 => Pool([Profile(false, 1, Healthy, true, 0)], some, map[], map[2 := Building(0)], 0)
    case 10 => Pool([Profile(false, 1, Healthy, true, 0)], some, map[], map[2 := Building(0), 3 := SEEKING], 0)
    case _ => Pool([Profile(true, 1, Healthy, true, 0)], some, map[], map[2 := Building(0), 3 := Building(0)], 0)
  }

  lemma RaisedFirst(k: nat)
    requires k in {0, 1}
    ensures Leads(Raised(k), RAISING[k], Raised(k + 1))
  {
    hide ApplyRemoval, ApplyMigration;
  }

  lemma RaisedOpen(k: nat)
    requires k in {2, 4}
    ensures Leads(Raised(k), RAISING[k], Raised(k + 1))
  {
    hide ApplyRemoval, ApplyMigration;
  }

  lemma RaisedLater(k: nat)
    requires k in {6, 7, 9, 10}
    ensures Leads(Raised(k), RAISING[k], Raised(k + 1))
  {
    hide ApplyRemoval, ApplyMigration;
  }

  lemma RaisedHealth(k: nat)
    requires k == 3 || k == 5
    ensures Leads(Raised(k), RAISING[k], Raised(k + 1))
  {
    hide ApplyRequest, ApplyRemoval;
  }

  lemma RaisedSweep()
    ensures Leads(Raised(8), RAISING[8], Raised(9))
  {
    hide ApplyRequest, ApplyMigration;
    NoRider(Raised(8));
    assert Pop(Raised(8), Hex(0)).sessions == map[];
  }

  /** From an empty pool of one profile, eleven steps end with two requests inside their try blocks on it. */
  lemma RaisedAnswerHandsOneProfileToTwo()
    ensures Initial(Raised(0)) && IsRun(Raised(0), RAISING)
    ensures var end := After(Raised(0), RAISING);
            LeaseOf(end, AtTask(2)) == Some(0) && LeaseOf(end, AtTask(3)) == Some(0) && !Ledger(end)
  {
    forall j: nat | j < |RAISING| ensures Leads(Raised(j), RAISING[j], Raised(j + 1)) {
      hide Leads, Raised;
      if j == 8 { RaisedSweep(); }
      else if j == 3 || j == 5 { RaisedHealth(j); }
      else if j < 2 { RaisedFirst(j); }
      else if j < 5 { RaisedOpen(j); }
      else { RaisedLater(j); }
    }
    RunsAlong(Raised, RAISING, 0);
    assert RAISING[0..] == RAISING;
    assert LeaseOf(Raised(11), AtTask(2)) == LeaseOf(Raised(11), AtTask(3)) == Some(0);
  }
}
