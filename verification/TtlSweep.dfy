/** The TTL sweep (services/stealth-scraper/app/engine.py, `_evict_expired`) as a function of the dictionary's
    iteration order, and as a run of the pool machine's own steps. */
module TtlSweep {
  import opened Optional
  import opened BrowserPool
  import opened LeaseLedger

  /** `order` is the dictionary's iteration order, whatever it is, with or without keys removed since. */
  ghost predicate Lists(s: Pool, order: seq<Sid>) { forall sid :: sid in s.sessions ==> sid in order }

  /** `_evict_expired` over the entries in dictionary order. */
  ghost function Sweep(s: Pool, order: seq<Sid>, now: real): (r: Pool)
    requires Sound(s)
    ensures Sound(r) && r.objects == s.objects && r.tasks == s.tasks && r.sessions.Keys <= s.sessions.Keys
    ensures |r.profiles| == |s.profiles| && forall sid :: sid in r.sessions ==> r.sessions[sid] == s.sessions[sid]
    decreases |order|
  {
    if order == [] then s
    else if Registered(s, order[0]) && Sweepable(s, s.sessions[order[0]], now) then
      EvictedSound(s, order[0]);
      Sweep(Evicted(s, order[0]), order[1..], now)
    else Sweep(s, order[1..], now)
  }

  lemma PrependRun(s: Pool, a: Action, rest: seq<Action>)
    requires Sound(s) && Enabled(s, a) && IsRun(Apply(s, a), rest)
    ensures IsRun(s, [a] + rest) && After(s, [a] + rest) == After(Apply(s, a), rest)
  {
    hide Apply, Enabled;
    assert ([a] + rest)[1..] == rest;
  }

  lemma SweepOne(s: Pool, sid: Sid, now: real)
    requires Sound(s) && Registered(s, sid) && Sweepable(s, s.sessions[sid], now)
    ensures Enabled(s, SweepExpired(sid, now)) && Apply(s, SweepExpired(sid, now)) == Evicted(s, sid)
    ensures Sound(Evicted(s, sid))
  {
    EvictedSound(s, sid);
  }

  lemma SweepUnfold(s: Pool, order: seq<Sid>, now: real)
    requires Sound(s) && order != []
    ensures Registered(s, order[0]) && Sweepable(s, s.sessions[order[0]], now) ==>
              Sound(Evicted(s, order[0])) && Sweep(s, order, now) == Sweep(Evicted(s, order[0]), order[1..], now)
    ensures !(Registered(s, order[0]) && Sweepable(s, s.sessions[order[0]], now)) ==>
              Sweep(s, order, now) == Sweep(s, order[1..], now)
  {
    if Registered(s, order[0]) {
      EvictedSound(s, order[0]);
    }
  }

  /** A sweep is a run of the pool machine. */
  lemma {:induction false} SweepIsRun(s: Pool, order: seq<Sid>, now: real) returns (run: seq<Action>)
    requires Sound(s)
    ensures IsRun(s, run) && After(s, run) == Sweep(s, order, now)
    ensures forall i :: 0 <= i < |run| ==> run[i].SweepExpired? && run[i].now == now
    decreases |order|
  {
    if order == [] {
      return [];
    }
    hide Sound, Apply, Enabled, Sweep, Sweepable, Evicted;
    SweepUnfold(s, order, now);
    if Registered(s, order[0]) && Sweepable(s, s.sessions[order[0]], now) {
      SweepOne(s, order[0], now);
      var rest := SweepIsRun(Evicted(s, order[0]), order[1..], now);
      PrependRun(s, SweepExpired(order[0], now), rest);
      run := [SweepExpired(order[0], now)] + rest;
    } else {
      run := SweepIsRun(s, order[1..], now);
    }
  }

  /** One pass leaves no expired rider, and no expired session but owners. */
  lemma {:induction false} SweepLeavesOwners(s: Pool, order: seq<Sid>, now: real, sid: Sid)
    requires Sound(s) && sid in order
    ensures var r := Sweep(s, order, now);
            Registered(r, sid) && Expired(At(r, sid), now) ==> At(r, sid).ownsProfile
    decreases |order|
  {
    if Registered(s, order[0]) && Sweepable(s, s.sessions[order[0]], now) {
      EvictedSound(s, order[0]);
      if sid != order[0] {
        SweepLeavesOwners(Evicted(s, order[0]), order[1..], now, sid);
      }
    } else if sid != order[0] {
      SweepLeavesOwners(s, order[1..], now, sid);
    }
  }

  ghost predicate RidersLive(s: Pool, now: real) {
    forall sid :: Registered(s, sid) && !At(s, sid).ownsProfile ==> !Expired(At(s, sid), now)
  }

  /** Once no expired rider is left, a pass takes exactly the expired sessions that host nobody. */
  lemma {:induction false} SweepSettles(s: Pool, order: seq<Sid>, now: real, sid: Sid)
    requires Sound(s) && RidersLive(s, now) && Registered(s, sid)
    ensures var r := Sweep(s, order, now);
            RidersLive(r, now) && HasRider(r, At(s, sid).profile) == HasRider(s, At(s, sid).profile)
            && (sid !in r.sessions <==> sid in order && Expired(At(s, sid), now) && !HasRider(s, At(s, sid).profile))
    decreases |order|
  {
    if order != [] {
      var first := order[0];
      if Registered(s, first) && Sweepable(s, s.sessions[first], now) {
        EvictedSound(s, first);
        OwnerLeaves(s, first, At(s, sid).profile);
        var rest := Evicted(s, first);
        if sid != first {
          SweepSettles(rest, order[1..], now, sid);
        } else {
          SweepKeepsRiders(rest, order[1..], now, At(s, sid).profile);
        }
      } else {
        SweepSettles(s, order[1..], now, sid);
      }
    }
  }

  lemma OwnerLeaves(s: Pool, sid: Sid, p: Pid)
    requires Sound(s) && Registered(s, sid) && At(s, sid).ownsProfile
    ensures Evicted(s, sid).objects == s.objects && Evicted(s, sid).sessions == s.sessions - {sid}
    ensures HasRider(Evicted(s, sid), p) == HasRider(s, p)
  {
    var r := Evicted(s, sid);
    if HasRider(s, p) {
      var x :| x in s.sessions.Keys && Registered(s, x) && !At(s, x).ownsProfile && At(s, x).profile == p;
      assert x in r.sessions.Keys && Registered(r, x) && At(r, x) == At(s, x);
    }
    if HasRider(r, p) {
      var x :| x in r.sessions.Keys && Registered(r, x) && !At(r, x).ownsProfile && At(r, x).profile == p;
      assert x in s.sessions.Keys && Registered(s, x) && At(r, x) == At(s, x);
    }
  }

  lemma {:induction false} SweepKeepsRiders(s: Pool, order: seq<Sid>, now: real, p: Pid)
    requires Sound(s) && RidersLive(s, now)
    ensures RidersLive(Sweep(s, order, now), now) && HasRider(Sweep(s, order, now), p) == HasRider(s, p)
    decreases |order|
  {
    if order != [] {
      if Registered(s, order[0]) && Sweepable(s, s.sessions[order[0]], now) {
        EvictedSound(s, order[0]);
        OwnerLeaves(s, order[0], p);
        SweepKeepsRiders(Evicted(s, order[0]), order[1..], now, p);
      } else {
        SweepKeepsRiders(s, order[1..], now, p);
      }
    }
  }

  /** Two passes at the same moment settle the registry: what is still expired hosts a live rider. */
  lemma SweepTwice(s: Pool, order: seq<Sid>, order2: seq<Sid>, now: real, sid: Sid)
    requires Sound(s) && (forall x :: x in s.sessions ==> x in order && x in order2)
    ensures var r := Sweep(Sweep(s, order, now), order2, now);
            RidersLive(r, now) && (Registered(r, sid) && Expired(At(r, sid), now) ==> HasRider(r, At(r, sid).profile))
  {
    var once := Sweep(s, order, now);
    forall x | Registered(once, x) && !At(once, x).ownsProfile ensures !Expired(At(once, x), now) {
      SweepLeavesOwners(s, order, now, x);
    }
    SweepKeepsRiders(once, order2, now, 0);
    if Registered(once, sid) {
      SweepSettles(once, order2, now, sid);
    }
  }

  /** Whatever the order, a pass takes expired idle sessions only. */
  lemma {:induction false} SweepTakesExpired(s: Pool, order: seq<Sid>, now: real, sid: Sid)
    requires Sound(s) && Registered(s, sid) && sid !in Sweep(s, order, now).sessions
    ensures Expired(At(s, sid), now)
    decreases |order|
  {
    if order != [] {
      if Registered(s, order[0]) && Sweepable(s, s.sessions[order[0]], now) {
        EvictedSound(s, order[0]);
        if sid != order[0] {
          SweepTakesExpired(Evicted(s, order[0]), order[1..], now, sid);
        }
      } else {
        SweepTakesExpired(s, order[1..], now, sid);
      }
    }
  }

  /** Over the fields: a session with time left or a fetch in flight stays; a host stays while a rider of its browser
      does; an expired idle session goes unless it owns its browser and a rider is registered on it. */
  lemma SweepInFields(s: Pool, order: seq<Sid>, now: real)
    requires Sound(s) && Lists(s, order)
    ensures var left := Sweep(s, order, now).sessions;
            && (forall sid :: sid in s.sessions && sid !in left ==>
                  s.objects[s.sessions[sid]].expiresAt <= now && s.objects[s.sessions[sid]].inUse == 0)
            && (forall sid, r :: sid in s.sessions && r in left ==>
                  var o, rider := s.objects[s.sessions[sid]], s.objects[s.sessions[r]];
                  o.ownsProfile && !rider.ownsProfile && rider.profile == o.profile ==> sid in left)
            && (forall sid :: sid in s.sessions ==>
                  var o := s.objects[s.sessions[sid]];
                  o.expiresAt <= now && o.inUse == 0
                  && (o.ownsProfile ==> forall r :: r in s.sessions ==>
                        s.objects[s.sessions[r]].ownsProfile || s.objects[s.sessions[r]].profile != o.profile) ==>
                    sid !in left)
  {
    hide Sweep, Sweepable, HasRider;
    var left := Sweep(s, order, now).sessions;
    forall sid | sid in s.sessions ensures Registered(s, sid) {
      RegisteredEntry(s, sid);
    }
    forall sid | sid in s.sessions && sid !in left ensures Expired(At(s, sid), now) {
      SweepTakesExpired(s, order, now, sid);
    }
    forall sid, r | sid in s.sessions && s.objects[s.sessions[sid]].ownsProfile
                    && r in left && !s.objects[s.sessions[r]].ownsProfile
                    && s.objects[s.sessions[r]].profile == s.objects[s.sessions[sid]].profile ensures sid in left
    {
      RiddenStays(s, order, now, sid, r);
    }
    forall sid | sid in s.sessions && Expired(At(s, sid), now)
                 && (At(s, sid).ownsProfile ==>
                       forall r :: r in s.sessions ==> At(s, r).ownsProfile || At(s, r).profile != At(s, sid).profile)
      ensures sid !in left
    {
      FreeGoes(s, order, now, sid);
    }
  }

  lemma RegisteredEntry(s: Pool, sid: Sid)
    requires Sound(s) && sid in s.sessions
    ensures Registered(s, sid)
  {
  }

  lemma {:induction false} RiddenStays(s: Pool, order: seq<Sid>, now: real, sid: Sid, rider: Sid)
    requires Sound(s) && Registered(s, sid) && At(s, sid).ownsProfile && Registered(s, rider)
    requires !At(s, rider).ownsProfile && At(s, rider).profile == At(s, sid).profile && rider in Sweep(s, order, now).sessions
    ensures sid in Sweep(s, order, now).sessions
    decreases |order|
  {
    if order != [] {
      if Registered(s, order[0]) && Sweepable(s, s.sessions[order[0]], now) {
        EvictedSound(s, order[0]);
        assert HasRider(s, At(s, sid).profile);
        RiddenStays(Evicted(s, order[0]), order[1..], now, sid, rider);
      } else {
        RiddenStays(s, order[1..], now, sid, rider);
      }
    }
  }

  lemma {:induction false} FreeGoes(s: Pool, order: seq<Sid>, now: real, sid: Sid)
    requires Sound(s) && Registered(s, sid) && sid in order && Expired(At(s, sid), now)
    requires At(s, sid).ownsProfile ==>
               forall r :: Registered(s, r) ==> At(s, r).ownsProfile || At(s, r).profile != At(s, sid).profile
    ensures sid !in Sweep(s, order, now).sessions
    decreases |order|
  {
    if Registered(s, order[0]) && Sweepable(s, s.sessions[order[0]], now) {
      EvictedSound(s, order[0]);
      var s' := Evicted(s, order[0]);
      if sid != order[0] {
        assert forall r :: Registered(s', r) ==> Registered(s, r) && At(s', r) == At(s, r);
        FreeGoes(s', order[1..], now, sid);
      }
    } else {
      FreeGoes(s, order[1..], now, sid);
    }
  }

  /** A pass takes something exactly when some session is due as it starts. */
  lemma {:induction false} SweepIdle(s: Pool, order: seq<Sid>, now: real)
    requires Sound(s) && Lists(s, order)
    ensures Sweep(s, order, now).sessions.Keys == s.sessions.Keys <==>
            forall sid :: Registered(s, sid) ==> !Sweepable(s, s.sessions[sid], now)
    ensures Sweep(s, order, now).sessions.Keys == s.sessions.Keys ==> Sweep(s, order, now) == s
  {
    if sid :| Registered(s, sid) && Sweepable(s, s.sessions[sid], now) {
      FirstDue(s, order, now, sid);
    } else {
      NothingDue(s, order, now);
    }
  }

  lemma {:induction false} NothingDue(s: Pool, order: seq<Sid>, now: real)
    requires Sound(s) && forall sid :: Registered(s, sid) ==> !Sweepable(s, s.sessions[sid], now)
    ensures Sweep(s, order, now) == s
    decreases |order|
  {
    hide Sweepable;
    if order != [] {
      NothingDue(s, order[1..], now);
    }
  }

  lemma {:induction false} FirstDue(s: Pool, order: seq<Sid>, now: real, sid: Sid)
    requires Sound(s) && sid in order && Registered(s, sid) && Sweepable(s, s.sessions[sid], now)
    ensures exists x :: x in s.sessions && x !in Sweep(s, order, now).sessions
    decreases |order|
  {
    hide Sweepable;
    SweepUnfold(s, order, now);
    if Registered(s, order[0]) && Sweepable(s, s.sessions[order[0]], now) {
      assert order[0] !in Evicted(s, order[0]).sessions;
    } else {
      FirstDue(s, order[1..], now, sid);
    }
  }

  // ----- exactly what a pass takes -----

  predicate NoRepeats(order: seq<Sid>) { forall i, j :: 0 <= i < j < |order| ==> order[i] != order[j] }

  ghost predicate Before(order: seq<Sid>, x: Sid, y: Sid) {
    exists i, j :: 0 <= i < j < |order| && order[i] == x && order[j] == y
  }

  predicate Rides(s: Pool, x: Sid, p: Pid) { Registered(s, x) && !At(s, x).ownsProfile && At(s, x).profile == p }

  /** Expired and idle, and whoever rides its browser is too and comes first in the dictionary. */
  ghost predicate Due(s: Pool, order: seq<Sid>, now: real, sid: Sid) {
    && Registered(s, sid) && sid in order && Expired(At(s, sid), now)
    && (At(s, sid).ownsProfile ==>
          forall x :: Rides(s, x, At(s, sid).profile) ==> Expired(At(s, x), now) && Before(order, x, sid))
  }

  /** A pass takes exactly the sessions that are due as it starts: a host goes in the same pass as its riders only
      if it stands behind all of them. */
  lemma {:induction false} SweepTakesExactly(s: Pool, order: seq<Sid>, now: real, sid: Sid)
    requires Sound(s) && NoRepeats(order) && Registered(s, sid)
    ensures sid !in Sweep(s, order, now).sessions <==> Due(s, order, now, sid)
    decreases |order|
  {
    hide Sweepable, Evicted, Sound, Before, Sweep, Due;
    if order == [] {
      EmptySweep(s, now, sid);
    } else if order[0] == sid {
      FirstExactly(s, order, now);
    } else {
      SweepUnfold(s, order, now);
      TailBefore(order, sid);
      if Registered(s, order[0]) && Sweepable(s, s.sessions[order[0]], now) {
        DueBehindTaken(s, order, now, sid);
        SweepTakesExactly(Evicted(s, order[0]), order[1..], now, sid);
      } else {
        DueBehindKept(s, order, now, sid);
        SweepTakesExactly(s, order[1..], now, sid);
      }
    }
  }

  lemma DueBehindTaken(s: Pool, order: seq<Sid>, now: real, sid: Sid)
    requires Sound(s) && NoRepeats(order) && order != [] && order[0] != sid && Registered(s, sid)
    requires Registered(s, order[0]) && Sweepable(s, s.sessions[order[0]], now)
    ensures Sound(Evicted(s, order[0])) && Registered(Evicted(s, order[0]), sid)
    ensures Due(s, order, now, sid) <==> Due(Evicted(s, order[0]), order[1..], now, sid)
  {
    hide HasRider, Before, Sound;
    var first := order[0];
    TasksFit(s);
    EvictedSound(s, first);
    TailBefore(order, sid);
    var s' := Evicted(s, first);
    assert s'.sessions == s.sessions - {first} && s'.objects == s.objects;
    assert forall x :: Rides(s', x, At(s, sid).profile) <==> Rides(s, x, At(s, sid).profile) && x != first;
    hide Evicted;
  }

  lemma DueBehindKept(s: Pool, order: seq<Sid>, now: real, sid: Sid)
    requires Sound(s) && NoRepeats(order) && order != [] && order[0] != sid && Registered(s, sid)
    requires !(Registered(s, order[0]) && Sweepable(s, s.sessions[order[0]], now))
    ensures Due(s, order, now, sid) <==> Due(s, order[1..], now, sid)
  {
    hide HasRider, Before, Sound;
    TailBefore(order, sid);
  }

  /** The entry at the front is taken exactly when it is due. */
  lemma FirstExactly(s: Pool, order: seq<Sid>, now: real)
    requires Sound(s) && NoRepeats(order) && order != [] && Registered(s, order[0])
    ensures order[0] !in Sweep(s, order, now).sessions <==> Due(s, order, now, order[0])
  {
    hide Sound, Evicted, Sweep;
    var sid := order[0];
    SweepUnfold(s, order, now);
    assert forall x :: !Before(order, x, sid);
    if Sweepable(s, s.sessions[sid], now) {
      EvictedGone(s, sid);
    } else {
      UnlistedStays(s, order[1..], now, sid);
    }
    if HasRider(s, At(s, sid).profile) {
      var x :| x in s.sessions.Keys && Registered(s, x) && !At(s, x).ownsProfile && At(s, x).profile == At(s, sid).profile;
      assert Rides(s, x, At(s, sid).profile);
    }
  }

  lemma EvictedGone(s: Pool, sid: Sid)
    requires Sound(s) && Registered(s, sid)
    ensures sid !in Evicted(s, sid).sessions
  {
  }

  lemma {:induction false} UnlistedStays(s: Pool, order: seq<Sid>, now: real, sid: Sid)
    requires Sound(s) && Registered(s, sid) && sid !in order
    ensures sid in Sweep(s, order, now).sessions
    decreases |order|
  {
    hide Sweepable;
    if order != [] {
      if Registered(s, order[0]) && Sweepable(s, s.sessions[order[0]], now) {
        EvictedSound(s, order[0]);
        UnlistedStays(Evicted(s, order[0]), order[1..], now, sid);
      } else {
        UnlistedStays(s, order[1..], now, sid);
      }
    }
  }

  lemma EmptySweep(s: Pool, now: real, sid: Sid)
    requires Sound(s) && Registered(s, sid)
    ensures sid in Sweep(s, [], now).sessions && !Due(s, [], now, sid)
  {
  }

  /** What stands behind the first entry comes after it, and otherwise in the same order as before. */
  lemma TailBefore(order: seq<Sid>, y: Sid)
    requires NoRepeats(order) && order != [] && order[0] != y
    ensures Before(order, order[0], y) <==> y in order
    ensures forall x :: x != order[0] ==> (Before(order, x, y) <==> Before(order[1..], x, y))
    ensures y in order <==> y in order[1..]
    ensures NoRepeats(order[1..]) && forall x :: !Before(order[1..], order[0], x)
  {
    var rest := order[1..];
    assert forall i :: 0 <= i < |rest| ==> rest[i] == order[i + 1];
    assert forall i :: 0 < i < |order| ==> order[i] == rest[i - 1];
  }

  /** A pass keeps the lease ledger. */
  lemma {:induction false} SweepKeepsLedger(s: Pool, order: seq<Sid>, now: real)
    requires Inv(s)
    ensures Inv(Sweep(s, order, now))
    decreases |order|
  {
    hide Ledger, Locked, DrainingTracked, Sweepable, Evicted;
    if order != [] {
      if Registered(s, order[0]) && Sweepable(s, s.sessions[order[0]], now) {
        EvictKeeps(s, order[0]);
        SweepKeepsLedger(Evicted(s, order[0]), order[1..], now);
      } else {
        SweepKeepsLedger(s, order[1..], now);
      }
    }
  }
}
