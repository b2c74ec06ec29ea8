/** The services' own view of a listing, and the fleet's steps: the two agree on CPUs, slots and running matches. */
module FleetServices {
  import opened Text
  import opened Numerals
  import opened Docker
  import opened Fleet
  import opened FleetRuns
  import opened Replays

  /** Docker lists one container for each running game, in any order, wearing its id and its CPU. */
  ghost predicate Lists(servers: seq<GameServer>, running: set<Game>) {
    && |servers| == |running|
    && (forall g | g in running :: exists r :: r in servers && r.id == g.id && r.cpu == g.cpu)
    && (forall r | r in servers :: exists g :: g in running && g.id == r.id && g.cpu == r.cpu)
  }

  predicate HasSafeIds(servers: seq<GameServer>) {
    forall r | r in servers :: r.id < SAFE_LIMIT
  }

  // ---- slots and CPUs ----------------------------------------------------------------------------

  /** A game runs on the CPU. */
  predicate IsTaken(running: set<Game>, cpu: nat) {
    exists g :: g in running && g.cpu == cpu
  }

  lemma TakenIffCpuIsUsed(running: set<Game>, cpu: nat)
    ensures Decimal(cpu) in CpusOf(running) <==> IsTaken(running, cpu)
  {
    hide Decimal;
    if Decimal(cpu) in CpusOf(running) {
      var g :| g in running && Decimal(g.cpu) == Decimal(cpu);
      DecimalInjective(g.cpu, cpu);
    }
  }

  lemma TakenIffRunsOn(servers: seq<GameServer>, running: set<Game>, cpu: nat)
    requires Lists(servers, running)
    ensures IsTaken(running, cpu) <==> RunsOn(servers, cpu)
  {
  }

  /**
   * The fleet's launch takes a CPU exactly when no game runs on it and some game runs on every lower one, and that is
   * the CPU that `allocateCpu` picks from what docker then lists.
   */
  lemma FindCpuIsAllocation(c: Setup, s: State, servers: seq<GameServer>, cpu: nat)
    requires Lists(servers, s.running) && s.launch.SlotFound?
    ensures Enabled(c, s, FindCpu(cpu)) <==>
      cpu < c.cpuCount && !IsTaken(s.running, cpu) && forall i: nat | i < cpu :: IsTaken(s.running, i)
    ensures Enabled(c, s, FindCpu(cpu)) <==> LowestFree(c.cpuCount, Wrapped(servers), cpu)
  {
    hide Decimal, CpusOf, IsTaken, RunsOn, Lists, Wrapped, IsWornBy;
    forall i: nat
      ensures Decimal(i) in CpusOf(s.running) <==> IsTaken(s.running, i)
      ensures Decimal(i) in CpusOf(s.running) <==> IsWornBy(Wrapped(servers), Decimal(i))
    {
      TakenIffCpuIsUsed(s.running, i);
      TakenIffRunsOn(servers, s.running, i);
      WornIffRunning(servers, i);
    }
  }

  /** A launch begins exactly when `haveFreeSlot` answers yes to what docker then lists. */
  lemma FindSlotIsFreeSlot(c: Setup, s: State, servers: seq<GameServer>, id: nat)
    requires Lists(servers, s.running) && s.launch == Idle && s.readyAt <= s.now && id < SAFE_LIMIT
    ensures Enabled(c, s, FindSlot(id)) <==> |Wrapped(servers)| < c.pool
  {
    hide Lists, Wrap, Launched;
    assert |servers| == |s.running| by { ListsAsMany(servers, s.running); }
  }

  lemma ListsAsMany(servers: seq<GameServer>, running: set<Game>)
    requires Lists(servers, running)
    ensures |servers| == |running|
  {
  }

  /**
   * A launch that finds its CPU and starts: two steps of the fleet do to the files and the freshness map what
   * `startGameServer` does to its own, and add a container with the id and the CPU that it puts in the labels.
   */
  lemma LaunchIsFleetSteps(c: Setup, s: State, servers: seq<GameServer>, cpu: nat)
    requires Lists(servers, s.running) && s.launch.SlotFound?
    requires LowestFree(c.cpuCount, Wrapped(servers), cpu) && (Configs, ConfigName(s.launch.id)) !in s.disk
    ensures var id, steps := s.launch.id, [FindCpu(cpu)] + [Start];
      && Legal(c, s, steps)
      && var s' := After(c, s, steps);
         && s'.disk == s.disk[(Configs, Decimal(id) + ".json") := ""] && s'.starts == s.starts[id := s.now]
         && s'.starting == s.starting + {Game(id, cpu, s.now)} && s'.running == s.running
         && s'.launch == Idle && s'.readyAt == s.now + c.launchWait
  {
    hide Lists, LowestFree, Decimal, FirstFree, Legal, After;
    FindCpuIsAllocation(c, s, servers, cpu);
    var s1 := Apply(c, s, FindCpu(cpu));
    OneStep(c, s1, Start);
    RunBegins(c, s, FindCpu(cpu), [Start]);
  }

  // ---- the matches that a scan spares ------------------------------------------------------------

  lemma ListedIdIsWrapped(servers: seq<GameServer>, id: nat)
    requires HasSafeIds(servers)
    ensures id in RunningIds(Wrapped(servers)) <==> exists r :: r in servers && r.id == id
  {
    hide Wrap, Launched, NearestDouble, Decimal;
    var listing := Wrapped(servers);
    if id in RunningIds(listing) {
      var i :| 0 <= i < |listing| && listing[i].matchId == Some(id);
      assert servers[i] in servers;
      WrapId(servers[i]);
    }
    if r :| r in servers && r.id == id {
      var i :| 0 <= i < |servers| && servers[i] == r;
      WrapId(r);
      assert listing[i] in listing;
    }
  }

  /** The ids that a scan reads off the listing are exactly those of the running games. */
  lemma RunningIdsAreTheGames(servers: seq<GameServer>, running: set<Game>)
    requires Lists(servers, running) && HasSafeIds(servers)
    ensures RunningIds(Wrapped(servers)) == IdsOf(running)
    ensures forall id :: id in IdsOf(running) <==> exists g :: g in running && g.id == id
  {
    hide Wrapped, RunningIds, HasSafeIds;
    forall id: nat
      ensures id in RunningIds(Wrapped(servers)) <==> exists g :: g in running && g.id == id
    {
      ListedIdIsWrapped(servers, id);
    }
  }

  /** The fleet's listing step gives a scan what the scan reads off docker's listing. */
  lemma ListIsRunningIds(c: Setup, s: State, pid: nat, servers: seq<GameServer>)
    requires Lists(servers, s.running) && HasSafeIds(servers) && Enabled(c, s, Scan(pid, List))
    ensures var s' := Apply(c, s, Scan(pid, List));
      && pid in s'.ticks && s'.ticks[pid].running == RunningIds(Wrapped(servers)) && s'.ticks[pid].listedAt == s.now
      && forall id :: id in s'.ticks[pid].running <==> exists g :: g in s.running && g.id == id
  {
    hide Lists, Wrapped, RunningIds, IdsOf;
    RunningIdsAreTheGames(servers, s.running);
  }
}
