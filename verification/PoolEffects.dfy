/** What each step of the pool machine changes, said of one profile, one id or one session object at a time, over the
    fields alone (services/stealth-scraper/app/engine.py, profiles.py). */
module PoolEffects {
  import opened Optional
  import opened BrowserPool

  /** The session object whose profile a step gives back, if it owns it. */
  ghost predicate GivesBack(s: Pool, a: Action, r: Ref) {
    || ((a.SweepExpired? || a.EvictLru? || a.ForceKill?) && a.sid in s.sessions && s.sessions[a.sid] == r)
    || (a.CloseDeadDone? && a.t in s.tasks && s.tasks[a.t].Work? && s.tasks[a.t].stage.ClosingDead?
        && s.tasks[a.t].stage.popped == Some(r))
    || (a.CloseDone? && a.t in s.tasks && s.tasks[a.t] == Closing(r))
    || (a.ReapRelease? && a.t in s.tasks && s.tasks[a.t].Reaping? && s.tasks[a.t].popped == Some(r))
    || (a.RetireDone? && a.t in s.tasks && s.tasks[a.t] == Retiring(r))
  }

  /** A step frees profile `p`: an except clause that holds it, or a session given back that owns it. */
  ghost predicate Frees(s: Pool, a: Action, p: Pid) {
    || (a.ReturnLease? && a.t in s.tasks && s.tasks[a.t].Work? && s.tasks[a.t].stage.CleaningUp? && s.tasks[a.t].stage.held == p)
    || exists r :: r in s.objects && GivesBack(s, a, r) && s.objects[r].ownsProfile && s.objects[r].profile == p
  }

  lemma OneGivenBack(s: Pool, a: Action, r: Ref, q: Ref)
    requires GivesBack(s, a, r) && GivesBack(s, a, q)
    ensures r == q
  {
  }

  lemma ReleaseReads(s: Pool, r: Ref)
    requires r in s.objects && s.objects[r].profile < |s.profiles|
    ensures var o, s' := s.objects[r], ReleaseIfOwned(s, r);
            var q := s.profiles[o.profile];
            && s'.profiles == (if o.ownsProfile then s.profiles[o.profile := q.(leased := false, uses := q.uses + 1)] else s.profiles)
            && s'.secondReleases == s.secondReleases + (if o.ownsProfile && !q.leased then 1 else 0)
            && s'.sessions == s.sessions && s'.objects == s.objects && s'.tasks == s.tasks
  {
  }

  lemma ObjectInPool(s: Pool, r: Ref)
    requires Sound(s) && r in s.objects
    ensures s.objects[r].profile < |s.profiles|
  {
  }

  /** The step ends in the release of `r`, with profiles, objects and counts untouched before it. */
  ghost predicate EndsInRelease(s: Pool, a: Action, r: Ref)
    requires Sound(s) && Enabled(s, a) && r in s.objects && s.objects[r].profile < |s.profiles|
  {
    var s', t := Apply(s, a), ReleaseIfOwned(s, r);
    s'.profiles == t.profiles && s'.secondReleases == t.secondReleases
  }

  lemma EntryGivenBack(s: Pool, a: Action, r: Ref)
    requires Sound(s) && Enabled(s, a) && (a.SweepExpired? || a.EvictLru? || a.ForceKill?) && s.sessions[a.sid] == r && r in s.objects
    ensures s.objects[r].profile < |s.profiles| && EndsInRelease(s, a, r)
  {
    ObjectInPool(s, r);
    hide HasRider, Sound;
  }

  lemma CloseGivenBack(s: Pool, a: Action, r: Ref)
    requires Sound(s) && Enabled(s, a) && r in s.objects && s.objects[r].profile < |s.profiles|
    requires a.CloseDone? || a.ReapRelease?
    requires GivesBack(s, a, r)
    ensures EndsInRelease(s, a, r)
  {
    hide HasRider, Sound;
  }

  lemma TaskGivenBack(s: Pool, a: Action, r: Ref)
    requires Sound(s) && Enabled(s, a) && r in s.objects && s.objects[r].profile < |s.profiles|
    requires a.CloseDeadDone? || a.RetireDone?
    requires GivesBack(s, a, r)
    ensures EndsInRelease(s, a, r)
  {
    hide HasRider, Sound;
  }

  lemma GivenBack(s: Pool, a: Action, r: Ref)
    requires Sound(s) && Enabled(s, a) && r in s.objects && GivesBack(s, a, r)
    ensures s.objects[r].profile < |s.profiles|
    ensures var o, s' := s.objects[r], Apply(s, a);
            var q := s.profiles[o.profile];
            && s'.profiles == (if o.ownsProfile then s.profiles[o.profile := q.(leased := false, uses := q.uses + 1)] else s.profiles)
            && s'.secondReleases == s.secondReleases + (if o.ownsProfile && !q.leased then 1 else 0)
  {
    ObjectInPool(s, r);
    ReleaseReads(s, r);
    hide Apply, ReleaseIfOwned, Sound, Enabled;
    if a.CloseDone? || a.ReapRelease? {
      CloseGivenBack(s, a, r);
    } else if a.CloseDeadDone? || a.RetireDone? {
      TaskGivenBack(s, a, r);
    } else {
      EntryGivenBack(s, a, r);
    }
  }

  lemma RequestProfiles(s: Pool, a: Action)
    requires Sound(s) && Enabled(s, a) && OfRequest(a) && forall r :: r in s.objects ==> !GivesBack(s, a, r)
    ensures var s' := Apply(s, a);
            && (a.Acquire? ==> a.p < |s.profiles| && s'.profiles == s.profiles[a.p := s.profiles[a.p].(leased := true)])
            && (a.ReturnLease? ==>
                  var p := s.tasks[a.t].stage.held;
                  p < |s.profiles| && s'.profiles == s.profiles[p := s.profiles[p].(leased := false)])
            && (a.Health? ==> a.p < |s.profiles| && |s'.profiles| == |s.profiles| && s'.profiles[a.p].leased == s.profiles[a.p].leased
                              && forall q :: 0 <= q < |s.profiles| && q != a.p ==> s'.profiles[q] == s.profiles[q])
            && (!a.Acquire? && !a.ReturnLease? && !a.Health? ==> s'.profiles == s.profiles)
            && s'.secondReleases
               == s.secondReleases + if a.ReturnLease? && !s.profiles[s.tasks[a.t].stage.held].leased then 1 else 0
  {
    hide HasRider, ReleaseIfOwned;
    assert a.CloseDeadDone? ==>
             s.tasks[a.t].stage.popped.None? || GivesBack(s, a, s.tasks[a.t].stage.popped.value);
    hide Sound;
  }

  lemma QuietProfiles(s: Pool, a: Action)
    requires Sound(s) && Enabled(s, a) && (a.ClosePop? || a.Forgo? || a.ReapStart? || a.ReapNext? || a.ReapEnd?
                                           || a.MigrateStart? || a.MigrateFail? || a.MigrateCommit? || a.Touch?)
    ensures Apply(s, a).profiles == s.profiles && Apply(s, a).secondReleases == s.secondReleases
  {
    hide HasRider, Sound;
  }

  lemma NoneGivenBack(s: Pool, a: Action)
    requires Sound(s) && Enabled(s, a) && forall r :: r in s.objects ==> !GivesBack(s, a, r)
    ensures var s' := Apply(s, a);
            && (a.Acquire? ==> a.p < |s.profiles| && s'.profiles == s.profiles[a.p := s.profiles[a.p].(leased := true)])
            && (a.ReturnLease? ==>
                  var p := s.tasks[a.t].stage.held;
                  p < |s.profiles| && s'.profiles == s.profiles[p := s.profiles[p].(leased := false)])
            && (a.Health? ==> a.p < |s.profiles| && |s'.profiles| == |s.profiles| && s'.profiles[a.p].leased == s.profiles[a.p].leased
                              && forall q :: 0 <= q < |s.profiles| && q != a.p ==> s'.profiles[q] == s.profiles[q])
            && (!a.Acquire? && !a.ReturnLease? && !a.Health? ==> s'.profiles == s.profiles)
            && s'.secondReleases
               == s.secondReleases + if a.ReturnLease? && !s.profiles[s.tasks[a.t].stage.held].leased then 1 else 0
  {
    if OfRequest(a) {
      RequestProfiles(s, a);
    } else if a.Health? {
      hide HasRider, GivesBack;
    } else {
      GiversGive(s, a);
      QuietProfiles(s, a);
    }
  }

  lemma GiversGive(s: Pool, a: Action)
    requires Sound(s) && Enabled(s, a)
    requires a.SweepExpired? || a.EvictLru? || a.ForceKill? || a.CloseDone? || a.ReapRelease? || a.RetireDone?
             || a.ClosePop? || a.Forgo? || a.ReapStart? || a.ReapNext? || a.ReapEnd?
             || a.MigrateStart? || a.MigrateFail? || a.MigrateCommit? || a.Touch?
    ensures (exists r :: r in s.objects && GivesBack(s, a, r))
            || a.ClosePop? || a.Forgo? || a.ReapStart? || a.ReapNext? || a.ReapEnd?
            || a.MigrateStart? || a.MigrateFail? || a.MigrateCommit? || a.Touch?
  {
    hide Apply, HasRider;
    if a.SweepExpired? || a.EvictLru? || a.ForceKill? {
      assert GivesBack(s, a, s.sessions[a.sid]);
    } else if a.CloseDone? {
      assert GivesBack(s, a, s.tasks[a.t].ref);
    } else if a.ReapRelease? {
      assert GivesBack(s, a, s.tasks[a.t].popped.value);
    } else if a.RetireDone? {
      assert GivesBack(s, a, s.tasks[a.t].retired);
    }
  }

  lemma FreesGiven(s: Pool, a: Action, r: Ref, p: Pid)
    requires Sound(s) && Enabled(s, a) && r in s.objects && GivesBack(s, a, r)
    ensures Frees(s, a, p) <==> s.objects[r].ownsProfile && s.objects[r].profile == p
    ensures !a.ReturnLease? && !a.Acquire? && !a.Health?
  {
    if q :| q in s.objects && GivesBack(s, a, q) && s.objects[q].ownsProfile && s.objects[q].profile == p {
      OneGivenBack(s, a, r, q);
    }
  }

  /** Exactly which steps change a profile's lease, and when a release counts as a second one.  Giving a session's
      profile back counts a use; giving one back after an exception does not. */
  lemma LeaseChanges(s: Pool, a: Action, p: Pid)
    requires Sound(s) && Enabled(s, a) && p < |s.profiles|
    ensures var s' := Apply(s, a);
            && |s'.profiles| == |s.profiles|
            && s'.profiles[p].leased == (if a.Acquire? && a.p == p then true else s.profiles[p].leased && !Frees(s, a, p))
            && (s'.secondReleases == s.secondReleases
                <==> forall q: Pid :: Frees(s, a, q) && q < |s.profiles| ==> s.profiles[q].leased)
            && s.secondReleases <= s'.secondReleases <= s.secondReleases + 1
            && (!a.Health? ==>
                  && s'.profiles[p].uses == s.profiles[p].uses + (if Frees(s, a, p) && !a.ReturnLease? then 1 else 0)
                  && s'.profiles[p].status == s.profiles[p].status && s'.profiles[p].launched == s.profiles[p].launched)
  {
    if r :| r in s.objects && GivesBack(s, a, r) {
      GivenBack(s, a, r);
      forall q: Pid ensures Frees(s, a, q) <==> s.objects[r].ownsProfile && s.objects[r].profile == q {
        FreesGiven(s, a, r, q);
      }
      FreesGiven(s, a, r, p);
      hide Frees, Sound, Apply, Enabled, GivesBack;
    } else {
      NoneGivenBack(s, a);
      FreesHeld(s, a);
      HeldInPool(s, a);
      hide Frees, Sound, Apply, Enabled, GivesBack;
    }
  }

  lemma HeldInPool(s: Pool, a: Action)
    requires Sound(s) && Enabled(s, a)
    ensures a.ReturnLease? ==> s.tasks[a.t].stage.held < |s.profiles|
  {
  }

  lemma FreesHeld(s: Pool, a: Action)
    requires Sound(s) && Enabled(s, a) && forall r :: r in s.objects ==> !GivesBack(s, a, r)
    ensures forall q: Pid :: Frees(s, a, q) <==> a.ReturnLease? && s.tasks[a.t].stage.held == q
    ensures a.ReturnLease? ==> !a.Acquire? && !a.Health?
  {
    hide Apply;
  }

  // ----- the registry -----

  /** Which entry a step takes out of the registry, if it is there. */
  ghost predicate Drops(s: Pool, a: Action, sid: Sid) {
    || ((a.ClosePop? || a.SweepExpired? || a.EvictLru? || a.ForceKill?) && a.sid == sid)
    || (a.ProbeDead? && a.t in s.tasks && s.tasks[a.t].Work?
        && match s.tasks[a.t].job
           case ResolveJob(_) => false
           case WarmJob(key) => sid == Warm(key)
           case RehydrateJob(n) => sid == Hex(n))
    || (a.ReapNext? && a.t in s.tasks && s.tasks[a.t].Reaping? && s.tasks[a.t].rest != [] && s.tasks[a.t].rest[0].0 == sid
        && var r := s.tasks[a.t].rest[0].1;
           r in s.objects && s.objects[r].expiresAt <= s.tasks[a.t].now && s.objects[r].inUse == 0
           && (s.objects[r].ownsProfile ==>
                 forall x :: x in s.sessions && s.sessions[x] in s.objects ==>
                   s.objects[s.sessions[x]].ownsProfile || s.objects[s.sessions[x]].profile != s.objects[r].profile))
  }

  /** Which object a step writes under an id. */
  ghost predicate Puts(s: Pool, a: Action, sid: Sid, r: Ref) {
    || (a.Open? && a.session.sid == sid && a.ref == r)
    || (a.MigrateCommit? && a.t in s.tasks && s.tasks[a.t].Migrating? && s.tasks[a.t].sid == sid && a.ref == r)
  }

  /** Exactly how a step changes the registry. */
  lemma RegistryChanges(s: Pool, a: Action, sid: Sid)
    requires Sound(s) && Enabled(s, a)
    ensures var s' := Apply(s, a);
            && (sid in s'.sessions <==> (sid in s.sessions && !Drops(s, a, sid)) || exists r :: Puts(s, a, sid, r))
            && (sid in s'.sessions ==>
                  Puts(s, a, sid, s'.sessions[sid])
                  || (sid in s.sessions && s'.sessions[sid] == s.sessions[sid] && forall r :: !Puts(s, a, sid, r)))
  {
    if a.Open? {
      OpenPuts(s, a, sid);
      assert sid == a.session.sid ==> Puts(s, a, sid, a.ref);
    } else if a.MigrateCommit? {
      CommitPuts(s, a, sid);
      assert sid == s.tasks[a.t].sid ==> Puts(s, a, sid, a.ref);
    } else {
      RegistryDrops(s, a);
      hide Apply, Enabled, Sound;
    }
  }

  lemma OpenPuts(s: Pool, a: Action, sid: Sid)
    requires Sound(s) && Enabled(s, a) && a.Open?
    ensures Apply(s, a).sessions == s.sessions[a.session.sid := a.ref]
    ensures forall r :: Puts(s, a, sid, r) <==> sid == a.session.sid && r == a.ref
    ensures !Drops(s, a, sid)
  {
  }

  lemma CommitPuts(s: Pool, a: Action, sid: Sid)
    requires Sound(s) && Enabled(s, a) && a.MigrateCommit?
    ensures Apply(s, a).sessions == s.sessions[s.tasks[a.t].sid := a.ref]
    ensures forall r :: Puts(s, a, sid, r) <==> sid == s.tasks[a.t].sid && r == a.ref
    ensures !Drops(s, a, sid)
  {
  }

  lemma RegistryDrops(s: Pool, a: Action)
    requires Sound(s) && Enabled(s, a) && !a.Open? && !a.MigrateCommit?
    ensures forall sid :: sid in Apply(s, a).sessions <==> sid in s.sessions && !Drops(s, a, sid)
    ensures forall sid :: sid in Apply(s, a).sessions ==> Apply(s, a).sessions[sid] == s.sessions[sid]
    ensures forall sid, r :: !Puts(s, a, sid, r)
  {
    if a.ProbeDead? {
      hide HasRider, Sound;
    } else if a.ReapNext? {
      ReapDrops(s, a);
      hide HasRider, Drops;
      OnlyReaped(s, a);
    } else {
      DropsEntry(s, a);
      if a.ClosePop? || a.SweepExpired? || a.EvictLru? || a.ForceKill? {
        EntryLeaves(s, a);
      } else {
        EntriesStay(s, a);
      }
      hide Apply, Enabled, Sound;
    }
  }

  lemma OnlyReaped(s: Pool, a: Action)
    requires Sound(s) && Enabled(s, a) && a.ReapNext?
    ensures forall sid :: Drops(s, a, sid) ==> sid == s.tasks[a.t].rest[0].0
  {
    hide Apply;
  }

  lemma DropsEntry(s: Pool, a: Action)
    requires Enabled(s, a) && !a.ProbeDead? && !a.ReapNext?
    ensures forall sid :: Drops(s, a, sid) <==> (a.ClosePop? || a.SweepExpired? || a.EvictLru? || a.ForceKill?) && a.sid == sid
  {
  }

  lemma EntryLeaves(s: Pool, a: Action)
    requires Sound(s) && Enabled(s, a) && (a.ClosePop? || a.SweepExpired? || a.EvictLru? || a.ForceKill?)
    ensures Apply(s, a).sessions == s.sessions - {a.sid}
  {
    hide HasRider;
    if a.ClosePop? {
      hide Sound;
    } else {
      ObjectInPool(s, s.sessions[a.sid]);
      EvictedSessions(s, a.sid);
      hide Evicted, Sound;
    }
  }

  lemma EvictedSessions(s: Pool, sid: Sid)
    requires Registered(s, sid) && At(s, sid).profile < |s.profiles|
    ensures Evicted(s, sid).sessions == s.sessions - {sid}
  {
  }

  lemma EntriesStay(s: Pool, a: Action)
    requires Sound(s) && Enabled(s, a) && !a.Open? && !a.MigrateCommit? && !a.ProbeDead? && !a.ReapNext?
    requires !(a.ClosePop? || a.SweepExpired? || a.EvictLru? || a.ForceKill?)
    ensures Apply(s, a).sessions == s.sessions
  {
    if OfRequest(a) {
      RequestEntriesStay(s, a);
    } else {
      hide HasRider, ReapEntry, Sound, Enabled;
    }
    hide Apply;
  }

  lemma RequestEntriesStay(s: Pool, a: Action)
    requires Sound(s) && Enabled(s, a) && OfRequest(a) && !a.Open? && !a.ProbeDead?
    ensures Apply(s, a).sessions == s.sessions
  {
    hide HasRider, ReleaseIfOwned;
    if a.CloseDeadDone? && s.tasks[a.t].stage.popped.Some? {
      TaskInPool(s, a.t);
      ObjectInPool(s, s.tasks[a.t].stage.popped.value);
      ReleaseReads(s, s.tasks[a.t].stage.popped.value);
    }
    hide Sound;
  }

  lemma ReapDrops(s: Pool, a: Action)
    requires Sound(s) && Enabled(s, a) && a.ReapNext?
    ensures var (x, r) := s.tasks[a.t].rest[0];
            r in s.objects && (Sweepable(s, r, s.tasks[a.t].now) <==> Drops(s, a, x))
  {
    hide Apply;
    var (x, r) := s.tasks[a.t].rest[0];
    RiderIff(s, s.objects[r].profile);
    hide HasRider;
  }

  /** A rider shares the profile: registered, not owning it. */
  lemma RiderIff(s: Pool, p: Pid)
    ensures HasRider(s, p) <==> !(forall x :: x in s.sessions && s.sessions[x] in s.objects ==>
                                    s.objects[s.sessions[x]].ownsProfile || s.objects[s.sessions[x]].profile != p)
  {
    if x :| x in s.sessions && s.sessions[x] in s.objects
            && !s.objects[s.sessions[x]].ownsProfile && s.objects[s.sessions[x]].profile == p
    {
      assert x in s.sessions.Keys && Registered(s, x);
    }
  }

  // ----- session objects -----

  /** Of a request's steps only a registration makes a session object. */
  lemma RequestObjects(s: Pool, a: Action)
    requires Sound(s) && Enabled(s, a) && OfRequest(a)
    ensures Apply(s, a).objects == if a.Open? then s.objects[a.ref := a.session] else s.objects
  {
    hide HasRider, ReleaseIfOwned;
    if a.CloseDeadDone? && s.tasks[a.t].stage.popped.Some? {
      TaskInPool(s, a.t);
      ObjectInPool(s, s.tasks[a.t].stage.popped.value);
      ReleaseReads(s, s.tasks[a.t].stage.popped.value);
    }
    hide Sound;
  }

  lemma StartMarks(s: Pool, a: Action)
    requires Sound(s) && Enabled(s, a) && a.MigrateStart?
    ensures a.MigrateStart? ==>
              var v, h := s.sessions[a.sid], s.sessions[a.survivor];
              v != h && v in s.objects && h in s.objects
              && Apply(s, a).objects
                 == s.objects[v := s.objects[v].(draining := true)][h := s.objects[h].(inUse := s.objects[h].inUse + 1)]
  {
    Apart(s, a.sid, a.survivor);
    hide HasRider, Sound;
  }

  lemma FailUnmarks(s: Pool, a: Action)
    requires Sound(s) && Enabled(s, a) && a.MigrateFail?
    ensures a.MigrateFail? ==>
              var v, h := s.tasks[a.t].victim, s.tasks[a.t].survivor;
              v in s.objects && h in s.objects
              && var less := s.objects[h := s.objects[h].(inUse := if s.objects[h].inUse == 0 then 0 else s.objects[h].inUse - 1)];
                 Apply(s, a).objects == less[v := less[v].(draining := false)]
  {
    TaskInPool(s, a.t);
    hide HasRider, Sound;
  }

  lemma CommitMakes(s: Pool, a: Action)
    requires Sound(s) && Enabled(s, a) && a.MigrateCommit?
    ensures a.MigrateCommit? ==>
              var v, h := s.tasks[a.t].victim, s.tasks[a.t].survivor;
              v in s.objects && h in s.objects && a.ref != h
              && Apply(s, a).objects
                 == s.objects[h := s.objects[h].(inUse := if s.objects[h].inUse == 0 then 0 else s.objects[h].inUse - 1)]
                             [a.ref := Session(s.objects[v].sid, s.objects[h].profile, a.expiresAt, 0, s.objects[v].userKey,
                                               false, false, a.persistedAt, s.objects[v].masterUrl, s.objects[v].playerUrl)]
  {
    TaskInPool(s, a.t);
    hide HasRider, Sound;
  }

  lemma InPlace(s: Pool, a: Action)
    requires Sound(s) && Enabled(s, a) && (a.Touch? || a.RetireDone? || a.Health?)
    ensures a.Touch? ==>
              a.ref in s.objects
              && Apply(s, a).objects
                 == s.objects[a.ref := s.objects[a.ref].(inUse := a.inUse, expiresAt := a.expiresAt, lastPersist := a.lastPersist)]
    ensures a.RetireDone? || a.Health? ==> Apply(s, a).objects == s.objects
  {
    hide HasRider;
    if a.RetireDone? {
      TaskInPool(s, a.t);
      ObjectInPool(s, s.tasks[a.t].retired);
      ReleaseReads(s, s.tasks[a.t].retired);
    }
    hide Sound, ReleaseIfOwned, Release;
  }

  /** A migration marks its victim and shields its survivor, takes both marks back when it fails, and makes the moved
      session when it commits; a touch writes three fields. */
  lemma MigrationObjects(s: Pool, a: Action)
    requires Sound(s) && Enabled(s, a) && OfMigration(a)
    ensures a.MigrateStart? ==>
              var v, h := s.sessions[a.sid], s.sessions[a.survivor];
              v != h && v in s.objects && h in s.objects
              && Apply(s, a).objects
                 == s.objects[v := s.objects[v].(draining := true)][h := s.objects[h].(inUse := s.objects[h].inUse + 1)]
    ensures a.MigrateFail? ==>
              var v, h := s.tasks[a.t].victim, s.tasks[a.t].survivor;
              v in s.objects && h in s.objects
              && var less := s.objects[h := s.objects[h].(inUse := if s.objects[h].inUse == 0 then 0 else s.objects[h].inUse - 1)];
                 Apply(s, a).objects == less[v := less[v].(draining := false)]
    ensures a.MigrateCommit? ==>
              var v, h := s.tasks[a.t].victim, s.tasks[a.t].survivor;
              v in s.objects && h in s.objects && a.ref != h
              && Apply(s, a).objects
                 == s.objects[h := s.objects[h].(inUse := if s.objects[h].inUse == 0 then 0 else s.objects[h].inUse - 1)]
                             [a.ref := Session(s.objects[v].sid, s.objects[h].profile, a.expiresAt, 0, s.objects[v].userKey,
                                               false, false, a.persistedAt, s.objects[v].masterUrl, s.objects[v].playerUrl)]
    ensures a.Touch? ==>
              a.ref in s.objects
              && Apply(s, a).objects
                 == s.objects[a.ref := s.objects[a.ref].(inUse := a.inUse, expiresAt := a.expiresAt, lastPersist := a.lastPersist)]
    ensures a.RetireDone? || a.Health? ==> Apply(s, a).objects == s.objects
  {
    hide Apply, Enabled, Sound;
    if a.MigrateStart? {
      StartMarks(s, a);
    } else if a.MigrateFail? {
      FailUnmarks(s, a);
    } else if a.MigrateCommit? {
      CommitMakes(s, a);
    } else {
      InPlace(s, a);
    }
  }

  lemma Apart(s: Pool, x: Sid, y: Sid)
    requires Sound(s) && Registered(s, x) && Registered(s, y) && x != y
    ensures s.sessions[x] != s.sessions[y]
  {
    assert At(s, x).sid == x && At(s, y).sid == y;
  }

  lemma TaskInPool(s: Pool, t: Tid)
    requires Sound(s) && t in s.tasks
    ensures TaskFits(s, s.tasks[t])
  {
  }

  /** Closes, sweeps, evictions, kills and the reaper leave the objects as they are. */
  lemma RemovalObjects(s: Pool, a: Action)
    requires Sound(s) && Enabled(s, a) && !OfRequest(a) && !OfMigration(a)
    ensures Apply(s, a).objects == s.objects
  {
    hide HasRider;
  }

  // ----- where coroutines are -----

  /** The registry key a job works under. */
  ghost predicate KeyOf(job: Job, sid: Sid) {
    match job
    case ResolveJob(_) => false
    case WarmJob(key) => sid == Warm(key)
    case RehydrateJob(n) => sid == Hex(n)
  }

  /** Where a request's own step leaves it: nowhere when the request is over. */
  ghost predicate GoesOn(s: Pool, a: Action, job: Job, stage: Stage)
    requires Enabled(s, a) && OfRequest(a)
  {
    match a
    case Start(_, j) => job == j && stage == (if j.ResolveJob? then Seeking else Queued)
    case Enter(t) =>
      job == s.tasks[t].job
      && exists sid :: KeyOf(job, sid) && (if sid !in s.sessions then stage == Seeking
                                           else job.WarmJob? && stage == Probing(s.sessions[sid]))
    case ProbeAlive(_) => false
    case ProbeDead(t) =>
      job == s.tasks[t].job
      && exists sid :: KeyOf(job, sid) && stage == ClosingDead(if sid in s.sessions then Some(s.sessions[sid]) else None)
    case CloseDeadDone(t) => job == s.tasks[t].job && stage == Seeking
    case Acquire(t, p) => job == s.tasks[t].job && stage == Holding(p)
    case GiveUp(_) => false
    case Fail(t, again) => job == s.tasks[t].job && stage == CleaningUp(s.tasks[t].stage.profile, again)
    case ReturnLease(t) =>
      s.tasks[t].stage.again && s.tasks[t].job.ResolveJob? && s.tasks[t].job.left > 0
      && job == ResolveJob(s.tasks[t].job.left - 1) && stage == Seeking
    case Open(t, _, o, answered) => !answered && job == s.tasks[t].job && stage == CleaningUp(o.profile, job.ResolveJob?)
    case Abandon(_) => false
  }

  ghost predicate Moves(s: Pool, a: Action)
    requires Sound(s) && Enabled(s, a) && OfRequest(a)
  {
    var s' := Apply(s, a);
    && (forall t :: t != a.t ==> (t in s'.tasks <==> t in s.tasks) && (t in s.tasks ==> s'.tasks[t] == s.tasks[t]))
    && (a.t in s'.tasks ==> s'.tasks[a.t].Work? && GoesOn(s, a, s'.tasks[a.t].job, s'.tasks[a.t].stage))
    && (a.t !in s'.tasks ==> forall job, stage :: !GoesOn(s, a, job, stage))
  }

  lemma KeyedMoves(s: Pool, a: Action)
    requires Sound(s) && Enabled(s, a) && (a.Enter? || a.ProbeDead?)
    ensures Moves(s, a)
  {
    var sid := Target(s.tasks[a.t].job).value;
    assert forall x :: KeyOf(s.tasks[a.t].job, x) <==> x == sid;
    hide HasRider, Sound, Release, ReleaseIfOwned;
  }

  lemma OtherMoves(s: Pool, a: Action)
    requires Sound(s) && Enabled(s, a) && OfRequest(a) && !a.Enter? && !a.ProbeDead?
    ensures Moves(s, a)
  {
    hide HasRider, Sound, KeyOf;
  }

  /** A step of a request moves that request alone. */
  lemma RequestPlaces(s: Pool, a: Action)
    requires Sound(s) && Enabled(s, a) && OfRequest(a)
    ensures var s' := Apply(s, a);
            && (forall t :: t != a.t ==> (t in s'.tasks <==> t in s.tasks) && (t in s.tasks ==> s'.tasks[t] == s.tasks[t]))
            && (a.t in s'.tasks ==> s'.tasks[a.t].Work? && GoesOn(s, a, s'.tasks[a.t].job, s'.tasks[a.t].stage))
            && (a.t !in s'.tasks ==> forall job, stage :: !GoesOn(s, a, job, stage))
  {
    hide Apply, Enabled, Sound, GoesOn;
    if a.Enter? || a.ProbeDead? {
      KeyedMoves(s, a);
    } else {
      OtherMoves(s, a);
    }
  }

  // ----- when a step is possible -----

  /** No registered session shares the profile without owning it. */
  ghost predicate Unridden(s: Pool, p: Pid) {
    forall x :: x in s.sessions && s.sessions[x] in s.objects ==>
      s.objects[s.sessions[x]].ownsProfile || s.objects[s.sessions[x]].profile != p
  }

  /** What may be taken out of the registry: by the sweep, an expired idle session, unless it hosts a rider; for room, of
      the idle sessions that are not draining and host nobody one that expires first; by force, one that hosts nobody
      and has no user, or no fetch and no activity for three minutes. */
  lemma RemovalGuards(s: Pool, a: Action)
    requires Sound(s) && (a.SweepExpired? || a.EvictLru? || a.ForceKill?)
    ensures Enabled(s, a) ==> a.sid in s.sessions
    ensures a.sid in s.sessions ==>
              var o := s.objects[s.sessions[a.sid]];
              && (a.SweepExpired? ==>
                    (Enabled(s, a) <==> o.expiresAt <= a.now && o.inUse == 0 && (o.ownsProfile ==> Unridden(s, o.profile))))
              && (a.ForceKill? ==>
                    (Enabled(s, a) <==>
                      (o.userKey == "" || (o.inUse == 0 && a.now - o.lastPersist >= 180.0)) && Unridden(s, o.profile)))
              && (a.EvictLru? ==>
                    (Enabled(s, a) <==>
                      && o.inUse == 0 && !o.draining && Unridden(s, o.profile)
                      && forall x :: x in s.sessions && s.objects[s.sessions[x]].inUse == 0 && !s.objects[s.sessions[x]].draining
                                     && Unridden(s, s.objects[s.sessions[x]].profile) ==>
                           o.expiresAt <= s.objects[s.sessions[x]].expiresAt))
  {
    hide HasRider, TaskFits;
    forall p: Pid ensures HasRider(s, p) <==> !Unridden(s, p) {
      RiderIff(s, p);
    }
    hide Unridden;
  }

  /** A request leases a free, healthy profile; a migration starts for a session that is not draining, with its page
      recorded, towards another that owns its browser and is not draining; a reaper pass ends behind its snapshot. */
  lemma OtherGuards(s: Pool, a: Action)
    requires Sound(s)
    ensures a.Acquire? ==>
              (Enabled(s, a) <==>
                && a.t in s.tasks && s.tasks[a.t].Work? && s.tasks[a.t].stage.Seeking?
                && a.p < |s.profiles| && !s.profiles[a.p].leased && s.profiles[a.p].status.Healthy?)
    ensures a.MigrateStart? ==>
              (Enabled(s, a) <==>
                && a.t !in s.tasks && a.sid != a.survivor && a.sid in s.sessions && a.survivor in s.sessions
                && var v, h := s.objects[s.sessions[a.sid]], s.objects[s.sessions[a.survivor]];
                   !v.draining && v.playerUrl != "" && h.ownsProfile && !h.draining)
    ensures a.ReapEnd? ==> (Enabled(s, a) <==> a.t in s.tasks && exists now :: s.tasks[a.t] == Reaping(now, [], None))
  {
    hide HasRider, TaskFits;
    if a.ReapEnd? && a.t in s.tasks && s.tasks[a.t].Reaping? {
      assert s.tasks[a.t] == Reaping(s.tasks[a.t].now, s.tasks[a.t].rest, s.tasks[a.t].popped);
    }
  }
}
