/** Ticks of the scale-down that go wrong, from pools the engine can be in: each is reached by a run of the pool
    machine in which every deadline and activity mark is what the engine writes. */
module ScaleDownCases {
  import opened Optional
  import opened BrowserPool
  import opened LeaseLedger
  import opened TtlSweep
  import opened SessionClock
  import opened ScaleDown

  const SLOT := Profile(true, 0, Healthy, false, 0)

  /** A stream last marked as active at `x`, its deadline computed as early as the slack allows. */
  function Stale(c: Config, n: nat, x: real): Session {
    Session(Hex(n), n, x + c.clock.ttl - c.clock.slack, 0, "user", true, false, x, "m", "p")
  }

  function Live(c: Config, n: nat, y: real): Session { Session(Hex(n), n, y + c.clock.ttl, 0, "user", true, false, y, "m", "p") }

  /** Three streams of users, the third the freshest; no browser is running any more. */
  function Three(c: Config, x: real, y: real): Pool {
    Pool([SLOT, SLOT, SLOT], map[0 := Stale(c, 0, x), 1 := Stale(c, 1, x), 2 := Live(c, 2, y)],
         map[Hex(0) := 0, Hex(1) := 1, Hex(2) := 2], map[], 0)
  }

  function Begun(profiles: nat): Pool { Pool(seq(profiles, _ => SLOT.(leased := false)), map[], map[], map[], 0) }

  lemma BegunReached(c: Config, profiles: nat, at: real)
    requires c.clock.ttl <= at
    ensures Quiet(Begun(profiles)) && Reached(c.clock, Moment(Begun(profiles), at))
  {
    assert ReachedIn(0, c.clock, Moment(Begun(profiles), at));
  }

  lemma ThreeReached(c: Config, x: real, y: real)
    requires Fits(c.clock) && c.clock.ttl <= x <= y
    ensures Quiet(Three(c, x, y)) && Reached(c.clock, Moment(Three(c, x, y), y))
  {
    hide Reached, Quiet;
    var s0 := Begun(3);
    BegunReached(c, 3, x);
    var s1 := Rehydrated(s0, 0, 0, Stale(c, 0, x));
    RehydrateReaches(c.clock, Moment(s0, x), 0, 0, Stale(c, 0, x), x);
    var s2 := Rehydrated(s1, 1, 1, Stale(c, 1, x));
    RehydrateReaches(c.clock, Moment(s1, x), 1, 1, Stale(c, 1, x), x);
    RehydrateReaches(c.clock, Moment(s2, x), 2, 2, Live(c, 2, y), y);
    var s3 := Rehydrated(s2, 2, 2, Live(c, 2, y));
    assert s3.profiles == [SLOT, SLOT, SLOT];
    assert s3 == Three(c, x, y);
  }

  lemma ThreeSessions(c: Config, x: real, y: real)
    ensures var s := Three(c, x, y);
            && Sound(s) && s.sessions.Keys == {Hex(0), Hex(1), Hex(2)} && |s.sessions| == 3
            && (forall sid :: Registered(s, sid) <==> sid in {Hex(0), Hex(1), Hex(2)})
            && At(s, Hex(0)) == Stale(c, 0, x) && At(s, Hex(1)) == Stale(c, 1, x) && At(s, Hex(2)) == Live(c, 2, y)
            && forall p: Pid :: !HasRider(s, p)
  {
    var s := Three(c, x, y);
    assert s.sessions.Keys == {Hex(0), Hex(1), Hex(2)};
    assert forall sid :: Registered(s, sid) ==> At(s, sid).ownsProfile;
  }

  /** Everybody counts as a user's, or nobody does any more. */
  predicate AllAlike(c: Config, x: real, y: real, now: real, users: bool) {
    IsUser(Stale(c, 0, x), now) == IsUser(Stale(c, 1, x), now) == IsUser(Live(c, 2, y), now) == users
  }

  lemma ThreePicked(c: Config, x: real, y: real, now: real)
    requires Fits(c.clock) && x <= y && AllAlike(c, x, y, now, true)
    ensures Picked(Three(c, x, y), Some(Hex(0)), now)
    ensures forall sid :: Registered(Three(c, x, y), sid) ==> UserCandidate(Three(c, x, y), sid, now)
  {
    ThreeSessions(c, x, y);
    hide Sound, HasRider, IsUser, Three;
  }

  lemma ThreePreferred(c: Config, x: real, y: real, now: real, users: bool)
    requires Fits(c.clock) && x <= y && AllAlike(c, x, y, now, users)
    ensures Preferred(Three(c, x, y), Hex(0), Hex(2), now) && Registered(Three(c, x, y), Hex(0))
  {
    ThreeSessions(c, x, y);
    hide Sound, HasRider, IsUser, Three;
  }

  // ----- a launch under the soft budget, with a short ttl -----

  /** When the stale streams' deadlines pass within the tick, unless they did before. */
  function Pinch(c: Config, x: real): real {
    if c.clock.slack + c.lag <= c.clock.ttl then x + c.clock.ttl - c.clock.slack - c.lag else x
  }

  /** Two streams at the end of their deadline and still in the user window. */
  function Busy(c: Config): Pool { Three(c, c.clock.ttl, Now(c)) }

  function Now(c: Config): real { Pinch(c, c.clock.ttl) }

  function Pressed(c: Config, outcome: Outcome): Tick {
    Tick(2, Now(c), Now(c), Some(Hex(0)), outcome, 0, Admission(true, c.softBudget, Now(c) + c.lag, [Hex(0), Hex(1), Hex(2)], None))
  }

  predicate Plausible(c: Config) { Fits(c.clock) && 0.0 <= c.lag && c.softBudget < c.hardBudget }

  function Arrival(c: Config): Outcome { Arrived(Hex(2), 3, Now(c) + c.lag + c.clock.ttl, Now(c) + c.lag) }

  lemma BusyTimes(c: Config)
    requires Plausible(c) && !Ample(c)
    ensures c.clock.ttl <= Now(c) && AllAlike(c, c.clock.ttl, Now(c), Now(c), true)
    ensures Expired(Stale(c, 0, c.clock.ttl), Now(c) + c.lag) && Expired(Stale(c, 1, c.clock.ttl), Now(c) + c.lag)
  {
  }

  lemma BusyTick(c: Config, outcome: Outcome)
    requires Plausible(c) && !Ample(c) && (outcome == Unreachable(Hex(2)) || outcome == Arrival(c))
    ensures var s, k := Busy(c), Pressed(c, outcome);
            && Possible(s, k, c) && Resolved(s, k) && Migrates(s, k) && Under(s, k, c, Soft)
            && IsUser(At(s, Hex(0)), k.checkedAt) && IsUser(At(s, Hex(1)), k.checkedAt) && At(s, Hex(0)).ownsProfile
  {
    var x, s, k := c.clock.ttl, Busy(c), Pressed(c, outcome);
    BusyTimes(c);
    ThreeSessions(c, x, Now(c));
    ThreePicked(c, x, Now(c), Now(c));
    ThreePreferred(c, x, Now(c), Now(c), true);
    BusyListed(c, outcome);
    assert s.objects.Keys == {0, 1, 2} && s.tasks == map[] && !s.profiles[2].launched;
    hide Sound, HasRider, Picked, Preferred, IsUser, Three, Now, Started, Reclaims, Lists, NoRepeats;
  }

  lemma BusyListed(c: Config, outcome: Outcome)
    ensures var order := Pressed(c, outcome).admission.order;
            && Lists(Busy(c), order) && NoRepeats(order) && Hex(0) in order && Hex(1) in order
  {
    var order := Pressed(c, outcome).admission.order;
    ThreeSessions(c, c.clock.ttl, Now(c));
    hide Three, Now, Sound, HasRider;
    assert order[0] == Hex(0) && order[1] == Hex(1) && order[2] == Hex(2);
  }

  lemma BusyDue(c: Config, outcome: Outcome)
    requires Plausible(c) && !Ample(c) && (outcome == Unreachable(Hex(2)) || outcome == Arrival(c))
    ensures var s, k := Busy(c), Pressed(c, outcome); Moving(s, k) && forall sid :: SoftDue(s, k, sid) <==> sid in {Hex(0), Hex(1)}
  {
    var s := Busy(c);
    BusyTick(c, outcome);
    BusyTimes(c);
    ThreeSessions(c, c.clock.ttl, Now(c));
    BusyListed(c, outcome);
    assert forall x, p: Pid :: !Rides(s, x, p);
    hide Sound, HasRider, Possible, Three, Now, Before, Expired, Under;
  }

  /** A launch that sweeps two sessions for a migration that then fails. */
  lemma TwoSwept(s: Pool, k: Tick, c: Config, x: Sid, y: Sid)
    requires Possible(s, k, c) && Migrates(s, k) && Under(s, k, c, Soft) && k.outcome.Unreachable? && x != y
    requires forall sid :: SoftDue(s, k, sid) <==> sid in {x, y}
    ensures Gone(s, k, c) == {x, y} && |AfterTick(s, k, c).sessions| == |s.sessions| - 2
  {
    hide Possible, Under, SoftDue, Gone, Taken, AfterTick, IsUser, Sound, HasRider, KillFloor;
    TakenByGuards(s, k, c);
    TickFloor(s, k, c);
    FailedGone(s, k, c);
    assert Taken(s, k, c) == {x, y};
  }

  lemma FailedGone(s: Pool, k: Tick, c: Config)
    requires Resolved(s, k) && Migrates(s, k) && k.outcome.Unreachable?
    ensures Gone(s, k, c) == Taken(s, k, c)
  {
    hide Taken, HasRider;
  }

  /** The soft sweep of the tick's own launch takes two streams of users at once, and the pool falls below the
      threshold. */
  lemma LaunchSweepsUsers(c: Config)
    requires Plausible(c) && !Ample(c)
    ensures var s, k := Busy(c), Pressed(c, Unreachable(Hex(2)));
            && Reached(c.clock, Moment(s, k.pickedAt)) && Possible(s, k, c) && Resolved(s, k) && KillFloor(k.target) == 2
            && IsUser(At(s, Hex(0)), k.checkedAt) && IsUser(At(s, Hex(1)), k.checkedAt)
            && Gone(s, k, c) == {Hex(0), Hex(1)} && |AfterTick(s, k, c).sessions| == 1
  {
    var k := Pressed(c, Unreachable(Hex(2)));
    BusyTimes(c);
    ThreeReached(c, c.clock.ttl, Now(c));
    ThreeSessions(c, c.clock.ttl, Now(c));
    BusyTick(c, k.outcome);
    BusyDue(c, k.outcome);
    hide AfterTick, Gone, Three, Now, HasRider, Sound, SoftDue, Under, Possible, Reached, IsUser, Migrates;
    TwoSwept(Busy(c), k, c, Hex(0), Hex(1));
  }

  /** And when the migration then arrives, the retirement is about to release the victim's profile again. */
  lemma LaunchStrandsVictim(c: Config)
    requires Plausible(c) && !Ample(c)
    ensures var s, k := Busy(c), Pressed(c, Arrival(c));
            && Reached(c.clock, Moment(s, k.pickedAt)) && Inv(s) && Possible(s, k, c) && Resolved(s, k)
            && Strands(s, k, c) && !Ledger(AfterTick(s, k, c))
  {
    var k := Pressed(c, Arrival(c));
    BusyTimes(c);
    ThreeReached(c, c.clock.ttl, Now(c));
    ThreeLedger(c, c.clock.ttl, Now(c));
    BusyTick(c, k.outcome);
    BusyDue(c, k.outcome);
    hide AfterTick, Inv, Ledger, Three, Now, HasRider, Sound, SoftDue, Under, Possible, Reached;
    TickLedger(Busy(c), k, c);
  }

  lemma ThreeLease(c: Config, x: real, y: real, h: Holder)
    ensures LeaseOf(Three(c, x, y), h) == if h.AtSession? && h.sid.Hex? && h.sid.n < 3 then Some(h.sid.n) else None
  {
  }

  lemma ThreeLedger(c: Config, x: real, y: real)
    ensures Inv(Three(c, x, y))
  {
    var s := Three(c, x, y);
    ThreeSessions(c, x, y);
    forall h ensures LeaseOf(s, h) == if h.AtSession? && h.sid.Hex? && h.sid.n < 3 then Some(h.sid.n) else None {
      ThreeLease(c, x, y, h);
    }
    hide LeaseOf, Sound;
    forall p: Pid | IsLeased(s, p) ensures Held(s, p) {
      assert LeaseOf(s, AtSession(Hex(p))) == Some(p);
    }
    assert Ledger(s);
    hide Ledger, IsLeased;
  }

  /** Exactly when a tick can break the lease ledger of a pool the engine can be in. */
  lemma StrandingIff(c: Config)
    requires Plausible(c)
    ensures (exists m: Moment, k: Tick :: Reached(c.clock, m) && m.at <= k.pickedAt && Inv(m.pool) && Possible(m.pool, k, c)
                            && Resolved(m.pool, k) && !Ledger(AfterTick(m.pool, k, c)))
            <==> !Ample(c)
  {
    hide AfterTick, Inv, Ledger, Possible, Reached, Strands;
    if Ample(c) {
      forall m: Moment, k: Tick | Reached(c.clock, m) && Inv(m.pool) && Possible(m.pool, k, c) && Resolved(m.pool, k)
        ensures Ledger(AfterTick(m.pool, k, c))
      {
        ReachedBounds(c.clock, m);
        AmpleStrandsNothing(m.pool, k, c);
        TickLedger(m.pool, k, c);
      }
    } else {
      LaunchStrandsVictim(c);
      var m, k := Moment(Busy(c), Now(c)), Pressed(c, Arrival(c));
      assert Reached(c.clock, m) && Possible(m.pool, k, c);
    }
  }

  /** Exactly when a tick's own launch can sweep a stream that counts as a user's. */
  lemma SweptUsersIff(c: Config)
    requires Plausible(c)
    ensures (exists m: Moment, k: Tick, sid: Sid ::
               Reached(c.clock, m) && m.at <= k.pickedAt && Possible(m.pool, k, c) && Migrates(m.pool, k)
               && Under(m.pool, k, c, Soft) && SoftDue(m.pool, k, sid) && Registered(m.pool, sid)
               && IsUser(At(m.pool, sid), k.checkedAt))
            <==> !Ample(c)
  {
    hide Possible, Reached, SoftDue, Under, IsUser, Sound;
    if Ample(c) {
      forall m: Moment, k: Tick, sid: Sid |
        Reached(c.clock, m) && Possible(m.pool, k, c) && Migrates(m.pool, k) && Registered(m.pool, sid)
        && IsUser(At(m.pool, sid), k.checkedAt)
        ensures !SoftDue(m.pool, k, sid)
      {
        ReachedBounds(c.clock, m);
        UserNotSoftDue(m.pool, k, c, sid);
      }
    } else {
      var outcome := Unreachable(Hex(2));
      LaunchSweepsUsers(c);
      BusyTick(c, outcome);
      BusyDue(c, outcome);
      var m, k := Moment(Busy(c), Now(c)), Pressed(c, outcome);
      ThreeSessions(c, c.clock.ttl, Now(c));
      assert Reached(c.clock, m) && SoftDue(m.pool, k, Hex(0));
    }
  }

  // ----- the clock is read twice -----

  /** Three streams marked at the same moment, a tick whose readings straddle the end of the user window. */
  function Lapsing(c: Config): Pool { Three(c, c.clock.ttl, c.clock.ttl) }

  function Straddling(c: Config): Tick {
    var lapse := c.clock.ttl + USER_WINDOW;
    var low := if c.softBudget < c.hardBudget then c.softBudget - 1 else c.hardBudget - 1;
    Tick(1, if c.lag < 1.0 then lapse - c.lag else lapse - 1.0, lapse, Some(Hex(0)), Unreachable(Hex(2)), 0,
         Admission(true, low, lapse, [], None))
  }

  lemma LapsePossible(c: Config)
    requires Fits(c.clock) && 0.0 < c.lag
    ensures var s, k := Lapsing(c), Straddling(c);
            && c.clock.ttl <= k.pickedAt && Possible(s, k, c) && Resolved(s, k) && Acts(s, k)
            && UserCandidate(s, Hex(0), k.pickedAt) && !IsUser(At(s, Hex(0)), k.checkedAt) && !HasRider(s, At(s, Hex(0)).profile)
  {
    var x, s, k := c.clock.ttl, Lapsing(c), Straddling(c);
    ThreeSessions(c, x, x);
    assert AllAlike(c, x, x, k.pickedAt, true) && AllAlike(c, x, x, k.checkedAt, false);
    ThreePicked(c, x, x, k.pickedAt);
    ThreePreferred(c, x, x, k.checkedAt, false);
    assert s.tasks == map[];
    hide Sound, HasRider, Picked, Preferred, Three, Started, Reclaims;
  }

  /** A stream that is a user's when the victim is picked may lapse before it is classified, and is killed. */
  lemma LapsedUserIsKilled(c: Config)
    requires Fits(c.clock) && 0.0 < c.lag
    ensures var s, k := Lapsing(c), Straddling(c);
            && Reached(c.clock, Moment(s, k.pickedAt)) && Possible(s, k, c) && UserCandidate(s, Hex(0), k.pickedAt)
            && Resolved(s, k) && Hex(0) !in AfterTick(s, k, c).sessions
  {
    var s, k := Lapsing(c), Straddling(c);
    LapsePossible(c);
    ThreeReached(c, c.clock.ttl, c.clock.ttl);
    Waits(c.clock, Moment(s, c.clock.ttl), k.pickedAt);
    hide AfterTick, Possible, HasRider, UserCandidate, Sound, Reached, Three, Straddling;
    TickKeeps(s, k, c);
    assert Gone(s, k, c) == {Hex(0)};
  }

  // ----- a launch under the soft budget, with an ample ttl -----

  /** When the riders' deadlines pass; a ttl before, everything began. */
  function Later(c: Config): real { 2.0 * c.clock.ttl }

  function Owner(c: Config, n: nat, p: Pid, at: real): Session {
    Session(Hex(n), p, at + c.clock.ttl, 0, "user", true, false, at, "m", "p")
  }

  /** A rider on browser 1 that nobody has watched since the beginning. */
  function Rider(c: Config, n: nat): Session { Owner(c, n, 1, c.clock.ttl).(ownsProfile := false) }

  function Left(c: Config, n: nat): Session { Owner(c, n, 2, c.clock.ttl).(draining := true) }

  /** Two live streams of users, and two idle riders on the second one's browser, which has been torn down. */
  function Ridden(c: Config): Pool {
    Pool([SLOT, SLOT, Profile(false, 2, Healthy, false, 0)],
         map[0 := Owner(c, 0, 0, Later(c)), 1 := Owner(c, 1, 1, Later(c)), 2 := Left(c, 2), 3 := Left(c, 3),
             4 := Rider(c, 2), 5 := Rider(c, 3)],
         map[Hex(0) := 0, Hex(1) := 1, Hex(2) := 4, Hex(3) := 5], map[], 0)
  }

  /** A stream of the third browser moves to the first session's. */
  lemma RiderReached(c: Config, s: Pool, n: nat, ref: Ref, moved: Ref)
    requires Fits(c.clock) && Reached(c.clock, Moment(s, c.clock.ttl)) && Quiet(s)
    requires |s.profiles| == 3 && !s.profiles[2].leased && s.profiles[2].status == Healthy
    requires Registered(s, Hex(1)) && At(s, Hex(1)) == Owner(c, 1, 1, c.clock.ttl)
    requires Hex(n) !in s.sessions && ref !in s.objects && moved !in s.objects && ref != moved
    ensures var s' := s.(profiles := s.profiles[2 := s.profiles[2].(uses := s.profiles[2].uses + 1)],
                         objects := s.objects[ref := Left(c, n)][moved := Rider(c, n)],
                         sessions := s.sessions[Hex(n) := moved]);
            Quiet(s') && Reached(c.clock, Moment(s', c.clock.ttl))
  {
    hide Reached, Quiet;
    var at := c.clock.ttl;
    RehydrateReaches(c.clock, Moment(s, at), 2, ref, Owner(c, n, 2, at), at);
    var mid := Rehydrated(s, 2, ref, Owner(c, n, 2, at));
    assert Registered(mid, Hex(n)) && Registered(mid, Hex(1)) && Hex(n) != Hex(1);
    MoveReaches(c.clock, Moment(mid, at), Hex(n), Hex(1), moved, at + at, at);
    assert mid.profiles[2].leased;
    var s' := MovedTo(mid, Hex(n), Hex(1), moved, at + at, at);
    assert s'.objects == s.objects[ref := Left(c, n)][moved := Rider(c, n)];
    assert s'.sessions == s.sessions[Hex(n) := moved];
    assert s'.profiles == s.profiles[2 := s.profiles[2].(uses := s.profiles[2].uses + 1)];
  }

  /** The pool with its riders, before the second stream starts. */
  function Settled(c: Config): Pool {
    Pool([SLOT.(leased := false), SLOT, Profile(false, 2, Healthy, false, 0)],
         map[1 := Owner(c, 1, 1, c.clock.ttl), 2 := Left(c, 2), 3 := Left(c, 3), 4 := Rider(c, 2), 5 := Rider(c, 3)],
         map[Hex(1) := 1, Hex(2) := 4, Hex(3) := 5], map[], 0)
  }

  function Alone(c: Config): Pool {
    Pool([SLOT.(leased := false), SLOT, SLOT.(leased := false)], map[1 := Owner(c, 1, 1, c.clock.ttl)], map[Hex(1) := 1], map[], 0)
  }

  lemma AloneReached(c: Config)
    requires Fits(c.clock)
    ensures Quiet(Alone(c)) && Reached(c.clock, Moment(Alone(c), c.clock.ttl))
  {
    hide Reached, Quiet;
    var at := c.clock.ttl;
    BegunReached(c, 3, at);
    RehydrateReaches(c.clock, Moment(Begun(3), at), 1, 1, Owner(c, 1, 1, at), at);
    var s := Rehydrated(Begun(3), 1, 1, Owner(c, 1, 1, at));
    assert s.profiles == Alone(c).profiles;
    assert s == Alone(c);
  }

  lemma SettledReached(c: Config)
    requires Fits(c.clock)
    ensures Quiet(Settled(c)) && Reached(c.clock, Moment(Settled(c), c.clock.ttl))
  {
    hide Reached, Quiet;
    AloneReached(c);
    var s1 := Alone(c);
    RiderReached(c, s1, 2, 2, 4);
    var s2 := s1.(profiles := s1.profiles[2 := s1.profiles[2].(uses := 1)],
                  objects := s1.objects[2 := Left(c, 2)][4 := Rider(c, 2)], sessions := s1.sessions[Hex(2) := 4]);
    RiderReached(c, s2, 3, 3, 5);
    var s3 := s2.(profiles := s2.profiles[2 := s2.profiles[2].(uses := 2)],
                  objects := s2.objects[3 := Left(c, 3)][5 := Rider(c, 3)], sessions := s2.sessions[Hex(3) := 5]);
    assert s3.profiles == Settled(c).profiles;
    assert s3.objects == Settled(c).objects;
    assert s3 == Settled(c);
  }

  function Watched(c: Config): Pool {
    Settled(c).(objects := Settled(c).objects[1 := Owner(c, 1, 1, Later(c))])
  }

  lemma WatchedReached(c: Config)
    requires Fits(c.clock)
    ensures Quiet(Watched(c)) && Reached(c.clock, Moment(Watched(c), Later(c)))
  {
    hide Reached, Quiet;
    SettledReached(c);
    TouchReaches(c.clock, Moment(Settled(c), c.clock.ttl), 1, Later(c));
  }

  lemma RiddenReached(c: Config)
    requires Fits(c.clock)
    ensures Quiet(Ridden(c)) && Reached(c.clock, Moment(Ridden(c), Later(c)))
  {
    hide Reached, Quiet;
    WatchedReached(c);
    var o := Owner(c, 0, 0, Later(c));
    RehydrateReaches(c.clock, Moment(Watched(c), Later(c)), 0, 0, o, Later(c));
    RiddenWhole(c, Rehydrated(Watched(c), 0, 0, o));
  }

  lemma RiddenWhole(c: Config, s: Pool)
    requires s == Rehydrated(Watched(c), 0, 0, Owner(c, 0, 0, Later(c)))
    ensures s == Ridden(c)
  {
    SixObjects(Owner(c, 1, 1, c.clock.ttl), Owner(c, 0, 0, Later(c)), Owner(c, 1, 1, Later(c)), Left(c, 2), Left(c, 3), Rider(c, 2), Rider(c, 3));
    hide Owner, Left, Rider, Later;
    assert s.profiles == Ridden(c).profiles;
    assert s.sessions == Ridden(c).sessions;
  }

  lemma SixObjects<T>(before: T, a: T, b: T, d: T, e: T, f: T, g: T)
    ensures map[1 := before, 2 := d, 3 := e, 4 := f, 5 := g][1 := b][0 := a] == map[0 := a, 1 := b, 2 := d, 3 := e, 4 := f, 5 := g]
  {
  }

  function Crowded(c: Config): Tick {
    var now := Later(c);
    Tick(3, now, now, Some(Hex(0)), Unreachable(Hex(1)), 0,
         Admission(true, c.softBudget, now + c.lag, [Hex(2), Hex(3), Hex(0), Hex(1)], None))
  }

  lemma RiddenSessions(c: Config)
    ensures var s := Ridden(c);
            && Sound(s) && s.sessions.Keys == {Hex(0), Hex(1), Hex(2), Hex(3)} && |s.sessions| == 4
            && (forall sid :: Registered(s, sid) <==> sid in {Hex(0), Hex(1), Hex(2), Hex(3)})
            && At(s, Hex(0)) == Owner(c, 0, 0, Later(c)) && At(s, Hex(1)) == Owner(c, 1, 1, Later(c))
            && At(s, Hex(2)) == Rider(c, 2) && At(s, Hex(3)) == Rider(c, 3)
  {
    var s := Ridden(c);
    assert s.sessions.Keys == {Hex(0), Hex(1), Hex(2), Hex(3)};
  }

  lemma RiddenPicked(c: Config)
    requires Plausible(c) && Ample(c)
    ensures var s, now := Ridden(c), Later(c);
            && Picked(s, Some(Hex(0)), now) && Preferred(s, Hex(0), Hex(1), now) && Registered(s, Hex(0))
            && IsUser(At(s, Hex(0)), now) && !IsUser(At(s, Hex(2)), now) && !IsUser(At(s, Hex(3)), now)
  {
    var s, now := Ridden(c), Later(c);
    RiddenSessions(c);
    assert HasRider(s, 1) by { assert Hex(2) in s.sessions.Keys; }
    hide Sound, HasRider, Ridden;
  }

  lemma RiddenTick(c: Config)
    requires Plausible(c) && Ample(c)
    ensures var s, k := Ridden(c), Crowded(c); Possible(s, k, c) && Resolved(s, k) && Migrates(s, k) && Under(s, k, c, Soft)
  {
    var s, k := Ridden(c), Crowded(c);
    RiddenSessions(c);
    RiddenPicked(c);
    CrowdListed(c);
    assert s.tasks == map[] && !s.profiles[1].launched;
    hide Sound, HasRider, Picked, Preferred, IsUser, Ridden, Started, Reclaims, Lists, NoRepeats, Before;
  }

  lemma RiddenDue(c: Config)
    requires Plausible(c) && Ample(c)
    ensures var s, k := Ridden(c), Crowded(c); Moving(s, k) && forall sid :: SoftDue(s, k, sid) <==> sid in {Hex(2), Hex(3)}
  {
    RiddenTick(c);
    RiddenSessions(c);
    CrowdListed(c);
    hide Sound, HasRider, Possible, Picked, Preferred, IsUser, Ridden, Before, Under;
  }

  lemma CrowdListed(c: Config)
    ensures var order := Crowded(c).admission.order;
            && Lists(Ridden(c), order) && NoRepeats(order) && Hex(2) in order && Hex(3) in order
  {
    var order := Crowded(c).admission.order;
    RiddenSessions(c);
    hide Ridden, Later, Sound, HasRider;
    assert order[0] == Hex(2) && order[1] == Hex(3) && order[2] == Hex(0) && order[3] == Hex(1);
  }

  /** What an ample ttl leaves open: idle riders of one browser, swept together by a launch inside the tick, take the
      pool below its threshold; users' streams are not among them. */
  lemma LaunchSweepsRiders(c: Config)
    requires Plausible(c) && Ample(c)
    ensures var s, k := Ridden(c), Crowded(c);
            && Reached(c.clock, Moment(s, k.pickedAt)) && Possible(s, k, c) && Resolved(s, k) && KillFloor(k.target) == 3
            && |s.sessions| == 4 && Gone(s, k, c) == {Hex(2), Hex(3)} && |AfterTick(s, k, c).sessions| == 2
            && !IsUser(At(s, Hex(2)), k.checkedAt) && !IsUser(At(s, Hex(3)), k.checkedAt)
  {
    RiddenReached(c);
    RiddenSessions(c);
    RiddenPicked(c);
    RiddenTick(c);
    RiddenDue(c);
    hide AfterTick, Gone, Ridden, Later, HasRider, Sound, SoftDue, Under, Possible, Reached, IsUser, Migrates;
    TwoSwept(Ridden(c), Crowded(c), c, Hex(2), Hex(3));
  }
}
