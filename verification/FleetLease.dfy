/** How much the freshness lease covers: exactly the timings that fit in it, and with them that matches are distinct. */
module FleetLease {
  import opened Text
  import opened Numerals
  import opened Docker
  import opened Fleet
  import opened FleetSafety
  import opened FleetArtifacts
  import opened FleetRuns

  // ---- the config of a running match -------------------------------------------------------------

  /** In every reachable state, no scan may pick a file of a live match. */
  ghost predicate LeaseCovers(c: Setup) {
    forall s, pid | Reachable(c, s) && Enabled(c, s, Scan(pid, Pick)) :: !s.IsAlive(s.ticks[pid].Id().value)
  }

  lemma CoveredWithinLease(c: Setup)
    requires c.startDelay + c.scanAge <= LEASE
    ensures LeaseCovers(c)
  {
    hide Init, LeaseInv, LockInv, SlotInv;
    forall s, pid | Reachable(c, s) && Enabled(c, s, Scan(pid, Pick))
      ensures !s.IsAlive(s.ticks[pid].Id().value)
    {
      var s0, steps :| Init(c, s0) && Legal(c, s0, steps) && After(c, s0, steps) == s;
      InitHolds(c, s0);
      RunKeepsLease(c, s0, steps);
      PickSparesLiveMatches(c, s, pid);
    }
  }

  /** The match has appeared after the configs were listed without it; a launch may be under way. */
  function ConfigOfRunning(c: Setup, id: nat, launch: LaunchPhase): State {
    StaleListing(c, id, Configs).(starting := {}, running := {Game(id, 0, 0)}, launch := launch)
  }

  lemma StalePickOfConfig(c: Setup, id: nat, launch: LaunchPhase)
    requires SettledReachable(c, StaleListing(c, id, Configs).(launch := launch))
    requires id < SAFE_LIMIT && LaunchConfig(id) !in c.directories && c.startDelay + c.scanAge > LEASE
    ensures var s := AtHead(c, ConfigOfRunning(c, id, launch), Configs, ConfigName(id));
      SettledReachable(c, s) && Enabled(c, s, Scan(0, Pick))
  {
    hide SettledReachable, ConfigName, MatchIdOf;
    var s, g := StaleListing(c, id, Configs).(launch := launch), Game(id, 0, 0);
    SettledExtends(c, s, Appears(g));
    assert Apply(c, s, Appears(g)) == ConfigOfRunning(c, id, launch);
    ConfigIdIs(id);
    StalePickIsEnabled(c, ConfigOfRunning(c, id, launch), id, Configs, ConfigName(id));
  }

  /** When start delay and scan age exceed the lease together, a scan can pick the config of a running match. */
  lemma UncoveredBeyondLease(c: Setup, id: nat)
    requires c.pool > 0 && c.cpuCount > 0 && id < SAFE_LIMIT && LaunchConfig(id) !in c.directories
    requires c.startDelay + c.scanAge > 60000
    ensures !LeaseCovers(c)
  {
    hide SettledReachable, Reachable, Decimal, ConfigName, MatchIdOf;
    StaleListingIsReachable(c, id, Configs);
    assert StaleListing(c, id, Configs).(launch := Idle) == StaleListing(c, id, Configs);
    StalePickOfConfig(c, id, Idle);
    var s := AtHead(c, ConfigOfRunning(c, id, Idle), Configs, ConfigName(id));
    SettledIsReachable(c, s);
    ConfigIdIs(id);
    assert Game(id, 0, 0) in s.Alive();
    assert s.ticks[0].Id() == Some(id);
    assert s.IsAlive(id);
  }

  /**
   * The lease of a minute covers the stale listing exactly when the delay until a container is listed and the age of
   * a listing when it is used fit in it together.
   */
  lemma LeaseCoversIffTimingsFit(c: Setup, id: nat)
    requires c.pool > 0 && c.cpuCount > 0 && id < SAFE_LIMIT && LaunchConfig(id) !in c.directories
    ensures LeaseCovers(c) <==> c.startDelay + c.scanAge <= 60000
  {
    hide LeaseCovers;
    if c.startDelay + c.scanAge <= LEASE {
      CoveredWithinLease(c);
    } else {
      UncoveredBeyondLease(c, id);
    }
  }

  // ---- two containers for one match --------------------------------------------------------------

  predicate DistinctIds(s: State) {
    forall g, h | g in s.Alive() && h in s.Alive() && g.id == h.id :: g == h
  }

  /** In no run do two live containers serve one match. */
  ghost predicate MatchesAreDistinct(c: Setup) {
    forall s | Reachable(c, s) :: DistinctIds(s)
  }

  /** Launches do not overlap, and there is room for one container only. */
  predicate OnlyOneFits(c: Setup) {
    c.pool == 0 || c.cpuCount == 0 || (c.startDelay < c.launchWait && (c.pool < 2 || c.cpuCount < 2))
  }

  lemma OneContainerIsDistinct(c: Setup, s: State)
    requires Reachable(c, s) && OnlyOneFits(c)
    ensures DistinctIds(s)
  {
    hide Reachable;
    AllocationIsSafe(c, s);
    forall g, h | g in s.Alive() && h in s.Alive() && g.id == h.id
      ensures g == h
    {
      SubsetSize({g, h}, s.Alive());
      assert g != h ==> |{g, h}| == 2;
    }
  }

  /** The config of the running match was removed. */
  function ConfigRemoved(c: Setup, id: nat, launch: LaunchPhase): State {
    ConfigOfRunning(c, id, launch).(
      now := c.startDelay + c.scanAge, starts := map[], disk := map[],
      ticks := map[0 := Tick(Configs, Looping, {}, c.startDelay, [], "")])
  }

  lemma RemovalIsReachable(c: Setup, id: nat, launch: LaunchPhase)
    requires SettledReachable(c, StaleListing(c, id, Configs).(launch := launch))
    requires id < SAFE_LIMIT && LaunchConfig(id) !in c.directories && c.startDelay + c.scanAge > LEASE
    ensures SettledReachable(c, ConfigRemoved(c, id, launch))
  {
    hide SettledReachable, ConfigName, MatchIdOf, ObjectOf, Enabled, Apply;
    StalePickOfConfig(c, id, launch);
    var s := AtHead(c, ConfigOfRunning(c, id, launch), Configs, ConfigName(id));
    SettledExtends(c, s, Scan(0, Pick)) by { PickIsSettled(s, 0); }
    ConfigIsPicked(c, id, launch);
    var s1 := s.(starts := map[], ticks := map[0 := s.ticks[0].(stage := Removing)]);
    ConfigIsRemoved(c, s1);
    SettledExtends(c, s1, Scan(0, Remove)) by { PickIsSettled(s1, 0); }
  }

  lemma PickIsSettled(s: State, pid: nat)
    ensures SettledStep(s, Scan(pid, Pick)) && SettledStep(s, Scan(pid, Remove))
  {
  }

  lemma ConfigIsPicked(c: Setup, id: nat, launch: LaunchPhase)
    requires id < SAFE_LIMIT && c.startDelay + c.scanAge > LEASE
    requires Enabled(c, AtHead(c, ConfigOfRunning(c, id, launch), Configs, ConfigName(id)), Scan(0, Pick))
    ensures var s := AtHead(c, ConfigOfRunning(c, id, launch), Configs, ConfigName(id));
      Apply(c, s, Scan(0, Pick)) == s.(starts := map[], ticks := map[0 := s.ticks[0].(stage := Removing)])
  {
    hide ConfigName, MatchIdOf, Enabled;
    ConfigIdIs(id);
    var s := AtHead(c, ConfigOfRunning(c, id, launch), Configs, ConfigName(id));
    assert s.ticks[0].Id() == Some(id) && Pruned(s.starts, s.now, id) == map[];
  }

  /** What the removal of the only file does. */
  lemma ConfigIsRemoved(c: Setup, s: State)
    requires s.ticks.Keys == {0} && s.ticks[0].stage == Removing && |s.ticks[0].todo| == 1
    requires s.disk.Keys == {s.ticks[0].At()}
    ensures Enabled(c, s, Scan(0, Remove))
    ensures Apply(c, s, Scan(0, Remove))
         == s.(disk := map[], ticks := map[0 := s.ticks[0].(stage := Looping, todo := [])])
  {
    hide MatchIdOf;
    var t := s.ticks[0];
    assert s.disk - {t.At()} == map[] && t.todo[1..] == [];
  }

  /** The launch under way is of the same match. */
  lemma SecondStart(c: Setup, s: State, g: Game)
    requires SettledReachable(c, s) && s.launch.CpuFound? && s.launch.id == g.id && g in s.running
    requires LaunchConfig(g.id) !in s.disk && s.ticks.Keys == {0} && !s.ticks[0].Uploading() && g.startedAt != s.now
    ensures !MatchesAreDistinct(c)
  {
    hide SettledReachable, Reachable, LaunchConfig;
    SettledExtends(c, s, Start);
    var s' := Apply(c, s, Start);
    SettledIsReachable(c, s');
    assert g in s'.Alive() && Game(s.launch.id, s.launch.cpu, s.now) in s'.Alive();
    assert !DistinctIds(s');
  }

  /** With launches that overlap, the second found its slot and its CPU before the first was listed. */
  lemma OverlapBeyondLease(c: Setup, id: nat)
    requires c.pool > 0 && c.cpuCount > 0 && id < SAFE_LIMIT && LaunchConfig(id) !in c.directories
    requires c.startDelay + c.scanAge > LEASE && c.launchWait <= c.startDelay
    ensures !MatchesAreDistinct(c)
  {
    hide SettledReachable, LaunchConfig, MatchesAreDistinct;
    StaleListingIsReachable(c, id, Configs);
    var s := StaleListing(c, id, Configs);
    SettledExtends(c, s, FindSlot(id));
    var s1 := s.(launch := SlotFound(id));
    CpuZeroIsFree(c, s1);
    SettledExtends(c, s1, FindCpu(0));
    RemovalIsReachable(c, id, CpuFound(id, 0));
    SecondStart(c, ConfigRemoved(c, id, CpuFound(id, 0)), Game(id, 0, 0));
  }

  lemma CpuOneIsNext(c: Setup, s: State, g: Game)
    requires s.running == {g} && g.cpu == 0 && c.cpuCount > 1
    ensures FirstFree(c.cpuCount, CpusOf(s.running), 1)
  {
    hide Decimal;
    assert CpusOf({g}) == {Decimal(0)};
    if Decimal(0) == Decimal(1) { DecimalInjective(0, 1); }
  }

  /** With room for a second container, the match is launched again once its config is gone. */
  lemma RelaunchBeyondLease(c: Setup, id: nat)
    requires c.pool > 1 && c.cpuCount > 1 && id < SAFE_LIMIT && LaunchConfig(id) !in c.directories
    requires c.startDelay + c.scanAge > LEASE
    ensures !MatchesAreDistinct(c)
  {
    hide SettledReachable, LaunchConfig, MatchesAreDistinct, FirstFree, CpusOf;
    StaleListingIsReachable(c, id, Configs);
    assert StaleListing(c, id, Configs).(launch := Idle) == StaleListing(c, id, Configs);
    RemovalIsReachable(c, id, Idle);
    var s := ConfigRemoved(c, id, Idle);
    SettledExtends(c, s, Pass(c.launchWait));
    var s1 := s.(now := s.now + c.launchWait);
    SettledExtends(c, s1, FindSlot(id));
    var s2 := s1.(launch := SlotFound(id));
    CpuOneIsNext(c, s2, Game(id, 0, 0));
    SettledExtends(c, s2, FindCpu(1));
    SecondStart(c, s1.(launch := CpuFound(id, 1)), Game(id, 0, 0));
  }

  /** No two live containers ever serve one match exactly when the timings fit in the lease, or only one fits at all. */
  lemma MatchesAreDistinctIff(c: Setup, id: nat)
    requires id < SAFE_LIMIT && LaunchConfig(id) !in c.directories
    ensures MatchesAreDistinct(c) <==> c.startDelay + c.scanAge <= 60000 || OnlyOneFits(c)
  {
    hide Reachable;
    if c.startDelay + c.scanAge <= LEASE || OnlyOneFits(c) {
      forall s | Reachable(c, s)
        ensures DistinctIds(s)
      {
        if OnlyOneFits(c) { OneContainerIsDistinct(c, s); } else { LiveMatchesAreDistinct(c, s); }
      }
    } else if c.launchWait <= c.startDelay {
      OverlapBeyondLease(c, id);
    } else {
      RelaunchBeyondLease(c, id);
    }
  }
}
