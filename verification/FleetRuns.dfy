/** Runs built step by step, for the results that say when a property of the fleet fails. */
module FleetRuns {
  import opened Text
  import opened Numerals
  import opened Docker
  import opened Fleet
  import opened FleetArtifacts

  // ---- extending a run ---------------------------------------------------------------------------

  lemma {:induction false} LegalExtends(c: Setup, s: State, steps: seq<Step>, step: Step)
    requires Legal(c, s, steps) && Enabled(c, After(c, s, steps), step)
    ensures Legal(c, s, steps + [step])
    ensures After(c, s, steps + [step]) == Apply(c, After(c, s, steps), step)
    ensures Settled(c, s, steps) && SettledStep(After(c, s, steps), step) ==> Settled(c, s, steps + [step])
    decreases |steps|
  {
    hide Enabled, Apply, SettledStep;
    if steps == [] {
      assert (steps + [step])[1..] == [];
    } else {
      assert (steps + [step])[1..] == steps[1..] + [step];
      LegalExtends(c, Apply(c, s, steps[0]), steps[1..], step);
    }
  }

  lemma ReachableExtends(c: Setup, s: State, step: Step)
    requires Reachable(c, s) && Enabled(c, s, step)
    ensures Reachable(c, Apply(c, s, step))
  {
    hide Enabled, Apply, Legal, After, Init;
    var s0, steps :| Init(c, s0) && Legal(c, s0, steps) && After(c, s0, steps) == s;
    LegalExtends(c, s0, steps, step);
  }

  lemma SettledExtends(c: Setup, s: State, step: Step)
    requires SettledReachable(c, s) && Enabled(c, s, step) && SettledStep(s, step)
    ensures SettledReachable(c, Apply(c, s, step))
  {
    hide Enabled, Apply, Legal, After, Init, Settled, SettledStep, FilesAgree;
    var s0, steps :| Init(c, s0) && FilesAgree(s0.written) && Legal(c, s0, steps) && Settled(c, s0, steps)
                     && After(c, s0, steps) == s;
    LegalExtends(c, s0, steps, step);
  }

  lemma SettledIsReachable(c: Setup, s: State)
    requires SettledReachable(c, s)
    ensures Reachable(c, s)
  {
    hide Legal, After, Init, Settled, FilesAgree;
    var s0, steps :| Init(c, s0) && FilesAgree(s0.written) && Legal(c, s0, steps) && Settled(c, s0, steps)
                     && After(c, s0, steps) == s;
  }

  /** A settled run leads from one state to the other. */
  ghost predicate Leads(c: Setup, s: State, s': State) {
    exists steps :: Legal(c, s, steps) && Settled(c, s, steps) && After(c, s, steps) == s'
  }

  lemma LeadsNowhere(c: Setup, s: State)
    ensures Leads(c, s, s)
  {
    assert Legal(c, s, []) && Settled(c, s, []) && After(c, s, []) == s;
  }

  lemma LeadsOn(c: Setup, s: State, s': State, step: Step)
    requires Leads(c, s, s') && Enabled(c, s', step) && SettledStep(s', step)
    ensures Leads(c, s, Apply(c, s', step))
  {
    hide Enabled, Apply, Legal, After, Settled, SettledStep;
    var steps :| Legal(c, s, steps) && Settled(c, s, steps) && After(c, s, steps) == s';
    LegalExtends(c, s, steps, step);
  }

  lemma {:induction false} SettledContinues(c: Setup, s: State, steps: seq<Step>)
    requires SettledReachable(c, s) && Legal(c, s, steps) && Settled(c, s, steps)
    ensures SettledReachable(c, After(c, s, steps))
    decreases |steps|
  {
    hide SettledReachable, Enabled, Apply, SettledStep;
    if steps != [] {
      SettledExtends(c, s, steps[0]);
      SettledContinues(c, Apply(c, s, steps[0]), steps[1..]);
    }
  }

  lemma SettledLeads(c: Setup, s: State, s': State)
    requires SettledReachable(c, s) && Leads(c, s, s')
    ensures SettledReachable(c, s')
  {
    hide SettledReachable, Legal, After, Settled;
    var steps :| Legal(c, s, steps) && Settled(c, s, steps) && After(c, s, steps) == s';
    SettledContinues(c, s, steps);
  }

  lemma {:induction false} ReachableContinues(c: Setup, s: State, steps: seq<Step>)
    requires Reachable(c, s) && Legal(c, s, steps)
    ensures Reachable(c, After(c, s, steps))
    decreases |steps|
  {
    hide Reachable, Enabled, Apply;
    if steps != [] {
      ReachableExtends(c, s, steps[0]);
      ReachableContinues(c, Apply(c, s, steps[0]), steps[1..]);
    }
  }

  lemma RunBegins(c: Setup, s: State, step: Step, rest: seq<Step>)
    requires Enabled(c, s, step) && Legal(c, Apply(c, s, step), rest)
    ensures Legal(c, s, [step] + rest) && After(c, s, [step] + rest) == After(c, Apply(c, s, step), rest)
    ensures SettledStep(s, step) && Settled(c, Apply(c, s, step), rest) ==> Settled(c, s, [step] + rest)
  {
    hide Enabled, Apply, SettledStep;
    assert ([step] + rest)[1..] == rest;
  }

  // ---- many containers at once -------------------------------------------------------------------

  lemma {:induction false} AllAppear(c: Setup, o: State, s: State, games: set<Game>)
    requires Leads(c, o, s) && games <= s.starting
    ensures Leads(c, o, s.(starting := s.starting - games, running := s.running + games))
    decreases |games|
  {
    hide Leads;
    if g :| g in games {
      LeadsOn(c, o, s, Appears(g));
      var s1 := s.(starting := s.starting - {g}, running := s.running + {g});
      AllAppear(c, o, s1, games - {g});
      assert s1.starting - (games - {g}) == s.starting - games;
      assert s1.running + (games - {g}) == s.running + games;
    } else {
      assert s == s.(starting := s.starting - games, running := s.running + games);
    }
  }

  lemma {:induction false} AllStop(c: Setup, o: State, s: State, games: set<Game>)
    requires Leads(c, o, s) && games <= s.running
    ensures Leads(c, o, s.(running := s.running - games))
    decreases |games|
  {
    hide Leads;
    if g :| g in games {
      LeadsOn(c, o, s, Stops(g));
      var s1 := s.(running := s.running - {g});
      AllStop(c, o, s1, games - {g});
      assert s1.running - (games - {g}) == s.running - games;
    } else {
      assert s == s.(running := s.running - games);
    }
  }

  // ---- the steps of an upload --------------------------------------------------------------------

  lemma PickStep(c: Setup, s: State, pid: nat)
    requires Enabled(c, s, Scan(pid, Pick)) && s.ticks[pid].folder != Configs
    ensures pid in s.ticks && s.ticks[pid].stage == Looping && s.ticks[pid].todo != []
    ensures var t := s.ticks[pid];
      && t.At() in s.disk && t.Id().Some?
      && Apply(c, s, Scan(pid, Pick))
         == s.(starts := Pruned(s.starts, s.now, t.Id().value), ticks := s.ticks[pid := t.(stage := Reading)])
  {
    hide MatchIdOf, ObjectOf, IsFresh, Pruned;
  }

  lemma ReadStep(c: Setup, s: State, pid: nat, t: Tick)
    requires pid in s.ticks && s.ticks[pid] == t && t.stage == Reading && t.todo != [] && t.At() in s.disk
    ensures Enabled(c, s, Scan(pid, Read))
    ensures Apply(c, s, Scan(pid, Read)) == s.(ticks := s.ticks[pid := t.(stage := Putting, content := s.disk[t.At()])])
  {
    hide MatchIdOf, ObjectOf;
  }

  lemma PutStep(c: Setup, s: State, pid: nat, t: Tick)
    requires pid in s.ticks && s.ticks[pid] == t && t.stage == Putting && t.todo != [] && t.Id().Some?
    ensures Enabled(c, s, Scan(pid, Put))
    ensures Apply(c, s, Scan(pid, Put))
         == s.(store := s.store[ObjectOf(t.folder, t.Id().value) := t.content],
               ticks := s.ticks[pid := t.(stage := Deleting)])
  {
    hide MatchIdOf, ObjectOf;
  }

  lemma DeleteStep(c: Setup, s: State, pid: nat, t: Tick)
    requires pid in s.ticks && s.ticks[pid] == t && t.stage == Deleting && t.todo != []
    ensures Enabled(c, s, Scan(pid, Delete))
    ensures Apply(c, s, Scan(pid, Delete)) == s.(disk := s.disk - {t.At()}, ticks := s.ticks[pid := t.NextEntry()])
  {
    hide MatchIdOf, ObjectOf;
  }

  // ---- one match in an empty fleet ---------------------------------------------------------------

  const EMPTY: State := State(0, {}, {}, Idle, 0, map[], map[], map[], map[], {}, map[])

  lemma EmptyIsReachable(c: Setup)
    ensures SettledReachable(c, EMPTY)
  {
    InitIsReachable(c, EMPTY);
  }

  lemma InitIsReachable(c: Setup, s: State)
    requires Init(c, s) && FilesAgree(s.written)
    ensures SettledReachable(c, s)
  {
    hide Init, FilesAgree;
    assert Legal(c, s, []) && Settled(c, s, []) && After(c, s, []) == s;
  }

  /** One match launched in an empty fleet. */
  function JustLaunched(c: Setup, id: nat): State {
    EMPTY.(starting := {Game(id, 0, 0)}, readyAt := c.launchWait, starts := map[id := 0],
           disk := map[LaunchConfig(id) := ""])
  }

  lemma LaunchIsReachable(c: Setup, id: nat)
    requires c.pool > 0 && c.cpuCount > 0 && id < SAFE_LIMIT
    ensures SettledReachable(c, JustLaunched(c, id))
  {
    hide SettledReachable, Decimal, MatchIdOf;
    EmptyIsReachable(c);
    SettledExtends(c, EMPTY, FindSlot(id));
    var s1 := EMPTY.(launch := SlotFound(id));
    CpuZeroIsFree(c, s1);
    SettledExtends(c, s1, FindCpu(0));
    var s2 := EMPTY.(launch := CpuFound(id, 0));
    SettledExtends(c, s2, Start);
    assert Apply(c, s2, Start) == JustLaunched(c, id);
  }

  lemma CpuZeroIsFree(c: Setup, s: State)
    requires s.running == {} && c.cpuCount > 0
    ensures FirstFree(c.cpuCount, CpusOf(s.running), 0)
  {
    assert CpusOf({}) == {};
  }

  // ---- one scan ----------------------------------------------------------------------------------

  lemma EnterIsReachable(c: Setup, o: State, s: State, pid: nat, t: Tick)
    requires Leads(c, o, s) && BucketOf(t.folder) !in s.locked
    requires pid in s.ticks && s.ticks[pid] == t && t.stage == Waiting
    ensures Leads(c, o, s.(locked := s.locked + {BucketOf(t.folder)}, ticks := s.ticks[pid := t.(stage := Entered)]))
  {
    hide Leads, MatchIdOf, ObjectOf, IdsOf, Pruned, MayTouch, BucketOf;
    LeadsOn(c, o, s, Scan(pid, Enter));
  }

  lemma FailIsReachable(c: Setup, o: State, s: State, pid: nat, t: Tick)
    requires Leads(c, o, s) && pid in s.ticks && s.ticks[pid] == t && t.Critical()
    ensures Leads(c, o, s.(locked := s.locked - {BucketOf(t.folder)}, ticks := s.ticks[pid := t.NextScan()]))
  {
    hide Leads, MatchIdOf, ObjectOf, IdsOf, Pruned, MayTouch, BucketOf, Tick.NextScan;
    LeadsOn(c, o, s, Scan(pid, Fail));
  }

  lemma FailedScanIsReachable(c: Setup, o: State, s: State, pid: nat, t: Tick)
    requires Leads(c, o, s) && s.locked == {} && pid in s.ticks && s.ticks[pid] == t && t.stage == Waiting
    ensures Leads(c, o, s.(ticks := s.ticks[pid := t.NextScan()]))
  {
    hide Leads, BucketOf;
    var entered := t.(stage := Entered);
    EnterIsReachable(c, o, s, pid, t);
    var s1 := s.(locked := s.locked + {BucketOf(t.folder)}, ticks := s.ticks[pid := entered]);
    FailIsReachable(c, o, s1, pid, entered);
    assert entered.NextScan() == t.NextScan();
    assert s1.(locked := s1.locked - {BucketOf(t.folder)}, ticks := s1.ticks[pid := t.NextScan()])
        == s.(ticks := s.ticks[pid := t.NextScan()]);
  }

  function WaitingAt(folder: Folder): Tick {
    Tick(folder, Waiting, {}, 0, [], "")
  }

  /** A new tick whose earlier scans failed waits at any folder. */
  lemma WaitingIsReachable(c: Setup, o: State, s: State, pid: nat, folder: Folder)
    requires Leads(c, o, s) && s.locked == {} && pid !in s.ticks
    ensures Leads(c, o, s.(ticks := s.ticks[pid := WaitingAt(folder)]))
  {
    hide Leads;
    LeadsOn(c, o, s, TickBegins(pid));
    var s1 := s.(ticks := s.ticks[pid := WaitingAt(Replays)]);
    assert Apply(c, s, TickBegins(pid)) == s1;
    if folder != Replays {
      FailedScanIsReachable(c, o, s1, pid, WaitingAt(Replays));
      var s2 := s.(ticks := s.ticks[pid := WaitingAt(Configs)]);
      assert s1.ticks[pid := WaitingAt(Configs)] == s2.ticks;
      if folder == Logs {
        FailedScanIsReachable(c, o, s2, pid, WaitingAt(Configs));
        assert s2.ticks[pid := WaitingAt(Logs)] == s.ticks[pid := WaitingAt(Logs)];
      }
    }
  }

  /** The scan of a folder has just listed the containers, of which there are none. */
  function ListedNone(s: State, pid: nat, folder: Folder): State {
    s.(locked := {BucketOf(folder)}, ticks := s.ticks[pid := Tick(folder, Listed, {}, s.now, [], "")])
  }

  lemma ListedNoneIsReachable(c: Setup, o: State, s: State, pid: nat, folder: Folder)
    requires Leads(c, o, s) && s.locked == {} && s.running == {}
    requires pid in s.ticks && s.ticks[pid] == WaitingAt(folder)
    ensures Leads(c, o, ListedNone(s, pid, folder))
  {
    hide Leads, MatchIdOf, ObjectOf, Pruned, MayTouch;
    var t := WaitingAt(folder);
    EnterIsReachable(c, o, s, pid, t);
    var s1 := s.(locked := s.locked + {BucketOf(folder)}, ticks := s.ticks[pid := t.(stage := Entered)]);
    LeadsOn(c, o, s1, Scan(pid, List));
    assert IdsOf({}) == {};
    assert {} + {BucketOf(folder)} == {BucketOf(folder)};
    assert Apply(c, s1, Scan(pid, List)).ticks == ListedNone(s, pid, folder).ticks;
    assert Apply(c, s1, Scan(pid, List)) == ListedNone(s, pid, folder);
  }

  // ---- a stale listing ---------------------------------------------------------------------------

  /** The match launched first, when a scan has listed the containers just before it appears among them. */
  function StaleListing(c: Setup, id: nat, folder: Folder): State {
    ListedNone(JustLaunched(c, id).(now := c.startDelay), 0, folder)
  }

  lemma StaleListingIsReachable(c: Setup, id: nat, folder: Folder)
    requires c.pool > 0 && c.cpuCount > 0 && id < SAFE_LIMIT
    ensures SettledReachable(c, StaleListing(c, id, folder))
  {
    hide SettledReachable, Leads, Decimal, MatchIdOf, ConfigName;
    LaunchIsReachable(c, id);
    var s := JustLaunched(c, id);
    LeadsNowhere(c, s);
    WaitingIsReachable(c, s, s, 0, folder);
    var s1 := s.(ticks := s.ticks[0 := WaitingAt(folder)]);
    LeadsOn(c, s, s1, Pass(c.startDelay));
    var s2 := s1.(now := c.startDelay);
    ListedNoneIsReachable(c, s, s2, 0, folder);
    assert ListedNone(s2, 0, folder).ticks == StaleListing(c, id, folder).ticks;
    SettledLeads(c, s, StaleListing(c, id, folder));
  }

  /** The scan stands at a file of the match, `scanAge` after its listing. */
  function AtHead(c: Setup, s: State, folder: Folder, name: string): State {
    s.(now := c.startDelay + c.scanAge,
       ticks := map[0 := Tick(folder, Looping, {}, c.startDelay, [name], "")])
  }

  lemma AtHeadIsReachable(c: Setup, s: State, folder: Folder, name: string)
    requires SettledReachable(c, s) && s.now == c.startDelay && s.starting == {} && (folder, name) in s.disk
    requires s.ticks == map[0 := Tick(folder, Listed, {}, c.startDelay, [], "")]
    ensures SettledReachable(c, AtHead(c, s, folder, name))
  {
    hide SettledReachable, MatchIdOf, ObjectOf, Pruned, MayTouch, IdsOf;
    SettledExtends(c, s, Scan(0, ReadFolder([name])));
    var s1 := s.(ticks := map[0 := Tick(folder, Looping, {}, c.startDelay, [name], "")]);
    assert Apply(c, s, Scan(0, ReadFolder([name]))) == s1;
    SettledExtends(c, s1, Pass(c.scanAge));
    assert Apply(c, s1, Pass(c.scanAge)) == AtHead(c, s, folder, name);
  }

  /** Beyond the lease the scan's check lets it touch that file, though the match is running. */
  lemma StalePickIsEnabled(c: Setup, s: State, id: nat, folder: Folder, name: string)
    requires SettledReachable(c, s) && s.now == c.startDelay && s.starting == {} && s.starts == map[id := 0]
    requires s.ticks == map[0 := Tick(folder, Listed, {}, c.startDelay, [], "")]
    requires (folder, name) in s.disk && (folder, name) !in c.directories && MatchIdOf(name) == Some(id)
    requires c.startDelay + c.scanAge > LEASE
    ensures SettledReachable(c, AtHead(c, s, folder, name)) && Enabled(c, AtHead(c, s, folder, name), Scan(0, Pick))
  {
    hide SettledReachable, MatchIdOf;
    AtHeadIsReachable(c, s, folder, name);
    var t := AtHead(c, s, folder, name).ticks[0];
    assert t.At() == (folder, name) && t.Id() == Some(id);
  }
}
