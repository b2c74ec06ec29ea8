/** "No free cpu left": how many CPUs a launch needs to find one whenever it found a slot. */
module FleetCpus {
  import opened Numerals
  import opened Docker
  import opened Fleet
  import opened FleetSafety
  import opened FleetArtifacts
  import opened FleetRuns
  import opened FleetSlots

  /** Whenever a slot was found, some CPU can be allocated. */
  ghost predicate CpusSuffice(c: Setup) {
    forall s | Reachable(c, s) && s.launch.SlotFound? :: exists cpu :: Enabled(c, s, FindCpu(cpu))
  }

  lemma {:induction false} DecimalsNeedRoom(used: set<string>, n: nat)
    requires forall i | 0 <= i < n :: Decimal(i) in used
    ensures n <= |used|
  {
    if n > 0 {
      forall i | 0 <= i < n - 1
        ensures Decimal(i) in used - {Decimal(n - 1)}
      {
        if Decimal(i) == Decimal(n - 1) { DecimalInjective(i, n - 1); }
      }
      DecimalsNeedRoom(used - {Decimal(n - 1)}, n - 1);
    }
  }

  /** Trying CPU numbers from below finds a free one before all that are in use are exhausted. */
  lemma FirstFreeExists(cpuCount: nat, used: set<string>, from: nat) returns (cpu: nat)
    requires from <= cpuCount && |used| < cpuCount
    requires forall i | 0 <= i < from :: Decimal(i) in used
    ensures FirstFree(cpuCount, used, cpu)
    decreases cpuCount - from
  {
    hide Decimal;
    DecimalsNeedRoom(used, from);
    if Decimal(from) in used {
      cpu := FirstFreeExists(cpuCount, used, from + 1);
    } else {
      cpu := from;
    }
  }

  lemma {:induction false} CpusOfSize(games: set<Game>)
    ensures |CpusOf(games)| <= |games|
  {
    hide Decimal;
    if games == {} {
      assert CpusOf(games) == {};
    } else {
      var g :| g in games;
      assert CpusOf(games) == CpusOf(games - {g}) + {Decimal(g.cpu)};
      CpusOfSize(games - {g});
    }
  }

  /** While a launch looks for a CPU, the containers are those its slot check saw, and those that were unlisted then. */
  ghost predicate RoomInv(c: Setup, s: State)
    requires c.launchWait > 0
  {
    CrowdInv(c, s) && (s.launch.SlotFound? ==> c.pool > 0 && |s.Alive()| < c.pool + Overlap(c))
  }

  lemma FindSlotKeepsRoom(c: Setup, s: State, id: nat)
    requires c.launchWait > 0 && CrowdInv(c, s) && Enabled(c, s, FindSlot(id))
    ensures c.pool > 0 && |s.Alive()| < c.pool + Overlap(c)
  {
    var young := s.starting;
    assert young <= s.Alive();
    SpreadIsSparse(young, c.launchWait, s.now - c.startDelay, s.now);
    QuotientBounds(|young|, c.launchWait, c.startDelay);
    UnionSize(s.starting, s.running);
  }

  lemma UnionSize<T>(a: set<T>, b: set<T>)
    ensures |a + b| <= |a| + |b|
  {
    assert a + b == a + (b - a);
    SubsetSize(b - a, b);
  }

  lemma StepKeepsRoom(c: Setup, s: State, step: Step)
    requires c.launchWait > 0 && RoomInv(c, s) && Enabled(c, s, step)
    ensures RoomInv(c, Apply(c, s, step))
  {
    hide CrowdInv, LaunchConfig, FirstFree, Overlap;
    StepKeepsCrowd(c, s, step);
    var s' := Apply(c, s, step);
    match step {
      case FindSlot(id) =>
        FindSlotKeepsRoom(c, s, id);
        assert s'.Alive() == s.Alive();
      case Scan(pid, a) => ScanFrame(c, s, pid, a);
      case Start =>
      case _ =>
        assert s'.Alive() <= s.Alive();
        SubsetSize(s'.Alive(), s.Alive());
    }
  }

  lemma {:induction false} RunKeepsRoom(c: Setup, s: State, steps: seq<Step>)
    requires c.launchWait > 0 && RoomInv(c, s) && Legal(c, s, steps)
    ensures RoomInv(c, After(c, s, steps))
    decreases |steps|
  {
    hide RoomInv, Enabled, Apply;
    if steps != [] {
      StepKeepsRoom(c, s, steps[0]);
      RunKeepsRoom(c, Apply(c, s, steps[0]), steps[1..]);
    }
  }

  /** With a CPU for every slot and one more for every launch that can overlap, some CPU is always free. */
  lemma EnoughCpusSuffice(c: Setup)
    requires c.launchWait > 0 && (c.pool == 0 || c.pool + c.startDelay / c.launchWait <= c.cpuCount)
    ensures CpusSuffice(c)
  {
    hide Init, Legal, After, FirstFree, CpusOf, Decimal, CrowdInv;
    forall s | Reachable(c, s) && s.launch.SlotFound?
      ensures exists cpu :: Enabled(c, s, FindCpu(cpu))
    {
      var s0, steps :| Init(c, s0) && Legal(c, s0, steps) && After(c, s0, steps) == s;
      InitIsNotCrowded(c, s0);
      assert s0.launch == Idle by { InitIsIdle(c, s0); }
      RunKeepsRoom(c, s0, steps);
      CpusOfSize(s.running);
      SubsetSize(s.running, s.Alive());
      var cpu := FirstFreeExists(c.cpuCount, CpusOf(s.running), 0);
      assert Enabled(c, s, FindCpu(cpu));
    }
  }

  lemma InitIsIdle(c: Setup, s: State)
    requires Init(c, s)
    ensures s.launch == Idle
  {
  }

  lemma AllCpusUsed(c: Setup, n: nat, s: State)
    requires Paced(c, 1, n, s)
    ensures forall cpu: nat | cpu < n :: Decimal(cpu) in CpusOf(s.running)
  {
    hide Decimal;
    forall cpu: nat | cpu < n
      ensures Decimal(cpu) in CpusOf(s.running)
    {
      assert Nth(c, 1, cpu) in s.running && Nth(c, 1, cpu).cpu == cpu;
    }
  }

  lemma LargePoolRunsOut(c: Setup)
    requires c.cpuCount < c.pool && c.cpuCount < SAFE_LIMIT
    ensures !CpusSuffice(c)
  {
    hide SettledReachable, Reachable, CpusOf, Decimal;
    var n := c.cpuCount;
    var s := PacedIsReachable(c, 1, n);
    SettledIsReachable(c, s);
    ListedSize(c, 1, n);
    ReachableExtends(c, s, FindSlot(n));
    var s1 := s.(launch := SlotFound(n));
    AllCpusUsed(c, n, s);
    forall cpu
      ensures !Enabled(c, s1, FindCpu(cpu))
    {
    }
  }

  lemma NoneIsFree(c: Setup, s: State)
    requires forall cpu: nat | cpu < c.cpuCount :: Decimal(cpu) in CpusOf(s.running)
    ensures forall cpu :: !Enabled(c, s, FindCpu(cpu))
  {
    hide Decimal, CpusOf;
  }

  // ---- running out of CPUs with launches that overlap --------------------------------------------

  /** Containers that stay: they wear the CPUs below `p`, and there are at most as many. */
  predicate IsBase(base: set<Game>, p: nat) {
    && |base| <= p && (forall g | g in base :: g.cpu < p)
    && forall cpu: nat | cpu < p :: Decimal(cpu) in CpusOf(base)
  }

  /** These containers wear the `i` CPUs from `p` on. */
  predicate Covers(games: set<Game>, p: nat, i: nat) {
    && (forall g | g in games :: p <= g.cpu < p + i)
    && forall cpu | p <= cpu < p + i :: IsWorn(games, cpu)
  }

  predicate IsWorn(games: set<Game>, cpu: int) {
    exists g :: g in games && g.cpu == cpu
  }

  /** The next launch may begin, and only the base is listed. */
  ghost predicate ReadyOver(s: State, base: set<Game>, n: nat) {
    s.launch == Idle && s.readyAt <= s.now && s.ticks == map[] && s.running == base && ConfigsBelow(s, n)
  }

  lemma CoveredCpus(base: set<Game>, p: nat, seen: set<Game>, i: nat)
    requires IsBase(base, p) && Covers(seen, p, i)
    ensures forall cpu: nat | cpu < p + i :: Decimal(cpu) in CpusOf(base + seen)
  {
    hide Decimal;
    forall cpu: nat | cpu < p + i
      ensures Decimal(cpu) in CpusOf(base + seen)
    {
      if cpu < p {
        assert CpusOf(base) <= CpusOf(base + seen);
      } else {
        assert IsWorn(seen, cpu);
        var g :| g in seen && g.cpu == cpu;
        assert g in base + seen;
      }
    }
  }

  lemma NextCpuIsFree(c: Setup, base: set<Game>, p: nat, seen: set<Game>, i: nat)
    requires IsBase(base, p) && Covers(seen, p, i) && p + i < c.cpuCount
    ensures FirstFree(c.cpuCount, CpusOf(base + seen), p + i)
  {
    hide Decimal;
    CoveredCpus(base, p, seen, i);
    forall g | g in base + seen
      ensures Decimal(g.cpu) != Decimal(p + i)
    {
      DecimalsDiffer(g.cpu, p + i);
    }
  }

  /** A launch whose slot check misses some containers, which are listed when it looks for a CPU, and then stop. */
  lemma LaunchPast(c: Setup, o: State, s: State, base: set<Game>, p: nat, n: nat, seen: set<Game>, i: nat)
    returns (s': State)
    requires Leads(c, o, s) && ReadyOver(s, base, n) && IsBase(base, p) && p < c.pool && n < SAFE_LIMIT
    requires seen <= s.starting && base !! seen && Covers(seen, p, i) && p + i < c.cpuCount
    requires c.launchWait <= c.startDelay
    requires forall g | g in s.starting - seen :: s.now + c.launchWait - g.startedAt <= c.startDelay
    ensures Leads(c, o, s') && ReadyOver(s', base, n + 1) && s'.now == s.now + c.launchWait
    ensures s'.starting == s.starting - seen + {Game(n, p + i, s.now)}
  {
    hide Leads, IsBase, Covers, LaunchConfig, FirstFree, CpusOf;
    var g := Game(n, p + i, s.now);
    RoomForOneMore(base, p);
    LeadsOn(c, o, s, FindSlot(n));
    var s1 := s.(launch := SlotFound(n));
    AllAppear(c, o, s1, seen);
    var s2 := s1.(starting := s.starting - seen, running := base + seen);
    NextCpuIsFree(c, base, p, seen, i);
    LeadsOn(c, o, s2, FindCpu(p + i));
    var s3 := s2.(launch := CpuFound(n, p + i));
    NextConfigIsFree(s, n);
    LeadsOn(c, o, s3, Start);
    var s4 := Apply(c, s3, Start);
    AllStop(c, o, s4, seen);
    var s5 := s4.(running := base + seen - seen);
    assert base + seen - seen == base;
    LeadsOn(c, o, s5, Pass(c.launchWait));
    s' := Apply(c, s5, Pass(c.launchWait));
  }

  lemma RoomForOneMore(base: set<Game>, p: nat)
    requires IsBase(base, p)
    ensures |base| <= p
  {
  }

  /** The last slot check sees only the base; then the containers that wear the other CPUs are listed. */
  lemma LastLaunchFindsNone(c: Setup, o: State, s: State, base: set<Game>, p: nat, n: nat, i: nat)
    requires SettledReachable(c, o) && Leads(c, o, s) && ReadyOver(s, base, n) && IsBase(base, p) && p < c.pool
    requires Covers(s.starting, p, i) && p + i == c.cpuCount
    ensures !CpusSuffice(c)
  {
    hide Leads, SettledReachable, Reachable, IsBase, Covers, CpusOf, Decimal;
    RoomForOneMore(base, p);
    LeadsOn(c, o, s, FindSlot(0));
    var s1 := s.(launch := SlotFound(0));
    AllAppear(c, o, s1, s.starting);
    var s2 := s1.(starting := s.starting - s.starting, running := base + s.starting);
    SettledLeads(c, o, s2);
    SettledIsReachable(c, s2);
    CoveredCpus(base, p, s.starting, i);
    NoneIsFree(c, s2);
  }

  /** The base: as many containers as slots but one, each listed before the next launch. */
  lemma BaseIsReachable(c: Setup, p: nat) returns (s: State)
    requires p < c.pool && p <= c.cpuCount && p <= SAFE_LIMIT
    ensures SettledReachable(c, s) && ReadyOver(s, s.running, p) && IsBase(s.running, p) && s.starting == {}
  {
    hide SettledReachable, CpusOf, Decimal;
    s := PacedIsReachable(c, 1, p);
    ListedSize(c, 1, p);
    AllCpusUsed(c, p, s);
  }

  lemma OneOverlapRunsOut(c: Setup, p: nat)
    requires p + 1 == c.pool == c.cpuCount < SAFE_LIMIT && c.launchWait <= c.startDelay
    ensures !CpusSuffice(c)
  {
    hide SettledReachable, Leads, IsBase, CpusSuffice, ReadyOver;
    var o := BaseIsReachable(c, p);
    var base := o.running;
    LeadsNowhere(c, o);
    var s := LaunchPast(c, o, o, base, p, p, {}, 0);
    LastLaunchFindsNone(c, o, s, base, p, p + 1, 1);
  }

  /** The CPUs are taken from above: to be given the higher, a launch must see another container on the lower. */
  lemma TwoOverlapsRunOut(c: Setup, p: nat)
    requires p + 1 == c.pool && p + 2 == c.cpuCount && p + 2 < SAFE_LIMIT && 2 * c.launchWait <= c.startDelay
    ensures !CpusSuffice(c)
  {
    hide SettledReachable, Leads, IsBase, CpusSuffice, ReadyOver;
    var o := BaseIsReachable(c, p);
    var base := o.running;
    var t, w := o.now, c.launchWait;
    LeadsNowhere(c, o);
    var low, high, last := Game(p, p, t), Game(p + 1, p + 1, t + w), Game(p + 2, p, t + 2 * w);
    BaseIsApart(base, p, {low});
    var s1 := LaunchPast(c, o, o, base, p, p, {}, 0);
    assert s1.starting == {low};
    var s2 := LaunchPast(c, o, s1, base, p, p + 1, {low}, 1);
    assert s2.starting == {high};
    var s3 := LaunchPast(c, o, s2, base, p, p + 2, {}, 0);
    assert s3.starting == {high, last};
    LastLaunchFindsNone(c, o, s3, base, p, p + 3, 2);
  }

  lemma BaseIsApart(base: set<Game>, p: nat, games: set<Game>)
    requires IsBase(base, p) && forall g | g in games :: p <= g.cpu
    ensures base !! games
  {
  }

  /** Three containers on the lowest CPU, the first of which lets a fourth have the next. */
  lemma ThreeOverlapsBegin(c: Setup, o: State, base: set<Game>, p: nat) returns (s: State)
    requires ReadyOver(o, base, p) && IsBase(base, p) && o.starting == {}
    requires p + 1 == c.pool && p + 3 == c.cpuCount && p + 6 < SAFE_LIMIT && 3 * c.launchWait <= c.startDelay
    ensures Leads(c, o, s) && ReadyOver(s, base, p + 4) && s.now == o.now + 4 * c.launchWait
    ensures s.starting == {Game(p + 1, p, o.now + c.launchWait), Game(p + 2, p, o.now + 2 * c.launchWait),
                           Game(p + 3, p + 1, o.now + 3 * c.launchWait)}
  {
    hide Leads, IsBase, ReadyOver;
    var t, w := o.now, c.launchWait;
    var a0, b0, c0 := Game(p, p, t), Game(p + 1, p, t + w), Game(p + 2, p, t + 2 * w);
    LeadsNowhere(c, o);
    BaseIsApart(base, p, {a0});
    s := LaunchPast(c, o, o, base, p, p, {}, 0);
    s := LaunchPast(c, o, s, base, p, p + 1, {}, 0);
    s := LaunchPast(c, o, s, base, p, p + 2, {}, 0);
    assert s.starting == {a0, b0, c0};
    s := LaunchPast(c, o, s, base, p, p + 3, {a0}, 1);
  }

  /** They let the next three have the three highest CPUs, from above. */
  lemma ThreeOverlapsRunOut(c: Setup, p: nat)
    requires p + 1 == c.pool && p + 3 == c.cpuCount && p + 6 < SAFE_LIMIT && 3 * c.launchWait <= c.startDelay
    ensures !CpusSuffice(c)
  {
    hide SettledReachable, Leads, IsBase, CpusSuffice, ReadyOver;
    var o := BaseIsReachable(c, p);
    var base := o.running;
    var s := ThreeOverlapsBegin(c, o, base, p);
    var t, w := s.now, c.launchWait;
    var b0, c0, b1 := Game(p + 1, p, t - 3 * w), Game(p + 2, p, t - 2 * w), Game(p + 3, p + 1, t - w);
    var top, middle, bottom := Game(p + 4, p + 2, t), Game(p + 5, p + 1, t + w), Game(p + 6, p, t + 2 * w);
    BaseIsApart(base, p, {b0, c0, b1});
    var s5 := LaunchPast(c, o, s, base, p, p + 4, {b0, b1}, 2);
    assert s5.starting == {c0, top};
    var s6 := LaunchPast(c, o, s5, base, p, p + 5, {c0}, 1);
    assert s6.starting == {top, middle};
    var s7 := LaunchPast(c, o, s6, base, p, p + 6, {}, 0);
    assert s7.starting == {top, middle, bottom};
    LastLaunchFindsNone(c, o, s7, base, p, p + 7, 3);
  }

  /**
   * When at most three launches can overlap the next, a launch that found a slot always finds a CPU iff there is a CPU
   * for every slot, and one for every launch that does overlap the next.
   */
  lemma CpusSufficeIffPoolFits(c: Setup)
    requires c.cpuCount + 3 < SAFE_LIMIT && 0 < c.launchWait && c.startDelay < 4 * c.launchWait
    ensures CpusSuffice(c) <==> c.pool == 0 || c.pool + c.startDelay / c.launchWait <= c.cpuCount
  {
    hide CpusSuffice;
    if c.pool == 0 || c.pool + c.startDelay / c.launchWait <= c.cpuCount {
      EnoughCpusSuffice(c);
    } else if c.cpuCount < c.pool {
      LargePoolRunsOut(c);
    } else {
      var more := c.cpuCount - c.pool;
      ProductsAreOrdered(more + 1, c.startDelay / c.launchWait, c.launchWait);
      assert more < 3 && (more + 1) * c.launchWait <= c.startDelay;
      if more == 0 {
        OneOverlapRunsOut(c, c.pool - 1);
      } else if more == 1 {
        TwoOverlapsRunOut(c, c.pool - 1);
      } else {
        ThreeOverlapsRunOut(c, c.pool - 1);
      }
    }
  }
}
