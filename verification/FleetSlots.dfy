/** Slots and CPUs under any timing of launches: how many containers share a CPU, and how many there are at all. */
module FleetSlots {
  import opened Numerals
  import opened Docker
  import opened Fleet
  import opened FleetSafety
  import opened FleetArtifacts
  import opened FleetRuns

  // ---- how many containers share a CPU -----------------------------------------------------------

  function OnCpu(games: set<Game>, cpu: nat): set<Game> {
    set g | g in games && g.cpu == cpu
  }

  /** The live containers on a CPU. */
  function Sharing(s: State, cpu: nat): set<Game> {
    OnCpu(s.Alive(), cpu)
  }

  /** How many launches can begin after one and before its container is listed. */
  function Overlap(c: Setup): nat
    requires c.launchWait > 0
  {
    c.startDelay / c.launchWait
  }

  /** Launches lie `wait` apart. */
  predicate SpreadOut(games: set<Game>, wait: nat) {
    forall g, h | g in games && h in games && g != h ::
      g.startedAt + wait <= h.startedAt || h.startedAt + wait <= g.startedAt
  }

  ghost predicate CrowdInv(c: Setup, s: State)
    requires c.launchWait > 0
  {
    && SpreadOut(s.Alive(), c.launchWait)
    && (forall g | g in s.Alive() :: g.cpu < c.cpuCount && g.startedAt + c.launchWait <= s.readyAt)
    && (forall g | g in s.starting :: s.now <= g.startedAt + c.startDelay)
    && (s.launch != Idle ==> s.readyAt <= s.now)
    && (s.launch.CpuFound? ==> s.launch.cpu < c.cpuCount && |Sharing(s, s.launch.cpu)| <= Overlap(c))
    && (forall cpu: nat :: |Sharing(s, cpu)| <= Overlap(c) + 1)
  }

  /** Launches that lie apart and all fall in an interval are few. */
  lemma {:induction false} SpreadIsSparse(games: set<Game>, wait: nat, low: int, high: int)
    requires SpreadOut(games, wait) && (forall g | g in games :: low <= g.startedAt && g.startedAt + wait <= high)
    requires low <= high
    ensures |games| * wait <= high - low
  {
    if games != {} {
      var last := LastOf(games);
      var others := games - {last};
      forall g | g in others
        ensures g.startedAt + wait <= last.startedAt
      {
        assert g in games && g != last;
      }
      SpreadIsSparse(others, wait, low, last.startedAt);
      assert |games| * wait == |others| * wait + wait by { OneMore(|others|, wait); }
    }
  }

  lemma OneMore(n: nat, wait: nat)
    ensures (n + 1) * wait == n * wait + wait
  {
  }

  lemma {:induction false} LastOf(games: set<Game>) returns (last: Game)
    requires games != {}
    ensures last in games && forall g | g in games :: g.startedAt <= last.startedAt
  {
    last :| last in games;
    var others := games - {last};
    if others == {} {
      assert games == {last};
    } else {
      var other := LastOf(others);
      assert games == others + {last};
      if last.startedAt < other.startedAt { last := other; }
    }
  }

  /** Steps after which no more containers are live, and none is on a CPU newly found. */
  lemma CrowdShrinks(c: Setup, s: State, s': State)
    requires c.launchWait > 0 && CrowdInv(c, s) && s'.Alive() <= s.Alive()
    requires s.now <= s'.now && s'.readyAt == s.readyAt
    requires forall g | g in s'.starting :: s'.now <= g.startedAt + c.startDelay
    requires s'.launch == s.launch || s'.launch == Idle || (s'.launch.SlotFound? && s'.readyAt <= s'.now)
    ensures CrowdInv(c, s')
  {
    hide State.Alive, Overlap;
    forall cpu: nat
      ensures |Sharing(s', cpu)| <= |Sharing(s, cpu)|
    {
      SubsetSize(Sharing(s', cpu), Sharing(s, cpu));
    }
  }

  /** The containers on a CPU found free are not listed yet, so they were launched shortly before, and apart. */
  lemma FoundCpuIsNotCrowded(c: Setup, s: State, cpu: nat)
    requires c.launchWait > 0 && CrowdInv(c, s) && Enabled(c, s, FindCpu(cpu))
    ensures |Sharing(s, cpu)| <= Overlap(c)
  {
    hide CpusOf, Decimal, Enabled;
    FoundCpuIsFree(c, s, cpu);
    var games := Sharing(s, cpu);
    assert s.launch != Idle by { FindCpuFollowsSlot(c, s, cpu); }
    assert games <= s.Alive() && games <= s.starting;
    SpreadIsSparse(games, c.launchWait, s.now - c.startDelay, s.now);
    QuotientBounds(|games|, c.launchWait, c.startDelay);
  }

  lemma FindCpuFollowsSlot(c: Setup, s: State, cpu: nat)
    requires Enabled(c, s, FindCpu(cpu))
    ensures s.launch != Idle && cpu < c.cpuCount
  {
  }

  lemma QuotientBounds(n: nat, w: nat, d: nat)
    requires w > 0 && n * w <= d
    ensures n <= d / w
  {
    assert d < (d / w + 1) * w;
    ProductsAreOrdered(d / w + 1, n, w);
  }

  lemma ProductsAreOrdered(m: nat, n: nat, w: nat)
    ensures m <= n ==> m * w <= n * w
  {
  }

  lemma StartKeepsCrowd(c: Setup, s: State)
    requires c.launchWait > 0 && CrowdInv(c, s) && Enabled(c, s, Start)
    ensures CrowdInv(c, Apply(c, s, Start))
  {
    hide Overlap, Sharing, State.Alive, Apply, Enabled;
    var s' := Apply(c, s, Start);
    var launched := StartAddsOne(c, s);
    forall cpu: nat
      ensures |Sharing(s', cpu)| <= Overlap(c) + 1
    {
      SharingWithOneMore(s, s', launched, cpu);
    }
  }

  lemma SharingWithOneMore(s: State, s': State, g: Game, cpu: nat)
    requires s'.Alive() == s.Alive() + {g}
    ensures |Sharing(s', cpu)| <= |Sharing(s, cpu)| + if cpu == g.cpu then 1 else 0
  {
    hide State.Alive;
    var before := Sharing(s, cpu);
    assert Sharing(s', cpu) == if cpu == g.cpu then before + {g} else before;
  }

  lemma FindCpuKeepsCrowd(c: Setup, s: State, cpu: nat)
    requires c.launchWait > 0 && CrowdInv(c, s) && Enabled(c, s, FindCpu(cpu))
    ensures CrowdInv(c, Apply(c, s, FindCpu(cpu)))
  {
    hide Overlap, FirstFree, CpusOf, SpreadOut;
    FoundCpuIsNotCrowded(c, s, cpu);
    FindCpuFollowsSlot(c, s, cpu);
    var s' := Apply(c, s, FindCpu(cpu));
    forall k: nat
      ensures Sharing(s', k) == Sharing(s, k)
    {
    }
  }

  lemma StepKeepsCrowd(c: Setup, s: State, step: Step)
    requires c.launchWait > 0 && CrowdInv(c, s) && Enabled(c, s, step)
    ensures CrowdInv(c, Apply(c, s, step))
  {
    hide Sharing, Overlap, SpreadOut, LaunchConfig, FirstFree;
    var s' := Apply(c, s, step);
    match step {
      case Start => StartKeepsCrowd(c, s);
      case FindCpu(cpu) => FindCpuKeepsCrowd(c, s, cpu);
      case Scan(pid, a) =>
        ScanFrame(c, s, pid, a);
        CrowdShrinks(c, s, s');
      case _ => CrowdShrinks(c, s, s');
    }
  }

  lemma {:induction false} RunKeepsCrowd(c: Setup, s: State, steps: seq<Step>)
    requires c.launchWait > 0 && CrowdInv(c, s) && Legal(c, s, steps)
    ensures CrowdInv(c, After(c, s, steps))
    decreases |steps|
  {
    hide CrowdInv, Enabled, Apply;
    if steps != [] {
      StepKeepsCrowd(c, s, steps[0]);
      RunKeepsCrowd(c, Apply(c, s, steps[0]), steps[1..]);
    }
  }

  lemma InitIsNotCrowded(c: Setup, s: State)
    requires c.launchWait > 0 && Init(c, s)
    ensures CrowdInv(c, s)
  {
    assert s.Alive() == {};
    assert forall cpu: nat :: Sharing(s, cpu) == {};
  }

  /** In every run at most one container shares a CPU for each launch that fits in the delay, and one more. */
  lemma SharingIsBounded(c: Setup, s: State)
    requires Reachable(c, s) && c.launchWait > 0
    ensures forall cpu: nat :: |Sharing(s, cpu)| <= c.startDelay / c.launchWait + 1
    ensures forall g | g in s.Alive() :: g.cpu < c.cpuCount
  {
    hide Init, Legal, After, SpreadOut, Sharing;
    var s0, steps :| Init(c, s0) && Legal(c, s0, steps) && After(c, s0, steps) == s;
    InitIsNotCrowded(c, s0);
    RunKeepsCrowd(c, s0, steps);
  }

  lemma {:induction false} CrowdSize(games: set<Game>, cpuCount: nat, share: nat)
    requires forall g | g in games :: g.cpu < cpuCount
    requires forall cpu: nat :: |OnCpu(games, cpu)| <= share
    ensures |games| <= cpuCount * share
  {
    if cpuCount == 0 {
      assert games == {};
    } else {
      var last := OnCpu(games, cpuCount - 1);
      var others := games - last;
      forall cpu: nat
        ensures |OnCpu(others, cpu)| <= share
      {
        SubsetSize(OnCpu(others, cpu), OnCpu(games, cpu));
      }
      CrowdSize(others, cpuCount - 1, share);
      assert games == others + last;
      OneMore(cpuCount - 1, share);
    }
  }

  lemma CrowdFits(c: Setup, s: State)
    requires Reachable(c, s) && c.launchWait > 0
    ensures |s.Alive()| <= c.cpuCount * (Overlap(c) + 1)
  {
    hide Reachable;
    SharingIsBounded(c, s);
    forall cpu: nat
      ensures |OnCpu(s.Alive(), cpu)| <= Overlap(c) + 1
    {
      assert OnCpu(s.Alive(), cpu) == Sharing(s, cpu);
    }
    CrowdSize(s.Alive(), c.cpuCount, Overlap(c) + 1);
  }

  // ---- launches at their quickest pace -----------------------------------------------------------

  /** The launch of match `i` when they follow one another at once, each listed just before the `k`th after it. */
  function Nth(c: Setup, k: nat, i: nat): Game
    requires k > 0
  {
    Game(i, i / k, i * c.launchWait)
  }

  function ListedByPace(c: Setup, k: nat, n: nat): set<Game>
    requires k > 0
  {
    set i: nat | i < n && i + k <= n :: Nth(c, k, i)
  }

  function UnlistedByPace(c: Setup, k: nat, n: nat): set<Game>
    requires k > 0
  {
    set i: nat | i < n && n < i + k :: Nth(c, k, i)
  }

  /** The fleet after `n` such launches, when the next may begin. */
  predicate Paced(c: Setup, k: nat, n: nat, s: State)
    requires k > 0
  {
    && s.now == n * c.launchWait == s.readyAt && s.launch == Idle && s.ticks == map[]
    && s.running == ListedByPace(c, k, n) && s.starting == UnlistedByPace(c, k, n)
  }

  /** It has the configs of those matches only. */
  ghost predicate ConfigsBelow(s: State, n: nat) {
    forall p | p in s.disk :: exists i: nat :: i < n && p == LaunchConfig(i)
  }

  lemma {:induction false} ListedSize(c: Setup, k: nat, n: nat)
    requires k > 0
    ensures |ListedByPace(c, k, n)| <= if n < k then 0 else n + 1 - k
  {
    hide Nth;
    if n < k {
      assert ListedByPace(c, k, n) == {};
    } else {
      ListedSize(c, k, n - 1);
      assert ListedByPace(c, k, n) == ListedByPace(c, k, n - 1) + {Nth(c, k, n - k)};
    }
  }

  function LaunchedUpTo(c: Setup, k: nat, n: nat): set<Game>
    requires k > 0
  {
    set i: nat | i < n :: Nth(c, k, i)
  }

  lemma {:induction false} LaunchedUpToSize(c: Setup, k: nat, n: nat)
    requires k > 0
    ensures |LaunchedUpTo(c, k, n)| == n
  {
    if n == 0 {
      assert LaunchedUpTo(c, k, n) == {};
    } else {
      LaunchedUpToSize(c, k, n - 1);
      assert LaunchedUpTo(c, k, n) == LaunchedUpTo(c, k, n - 1) + {Nth(c, k, n - 1)};
      assert Nth(c, k, n - 1) !in LaunchedUpTo(c, k, n - 1);
    }
  }

  lemma PacedSize(c: Setup, k: nat, n: nat, s: State)
    requires k > 0 && Paced(c, k, n, s)
    ensures |s.Alive()| == n
  {
    hide Nth;
    LaunchedUpToSize(c, k, n);
    assert s.Alive() == LaunchedUpTo(c, k, n);
  }

  /** Match `n` gets CPU `n / k`: all below are worn by listed containers, and none wears it. */
  lemma PacedCpuIsFree(c: Setup, k: nat, n: nat, s: State)
    requires k > 0 && Paced(c, k, n, s) && n / k < c.cpuCount
    ensures FirstFree(c.cpuCount, CpusOf(s.running), n / k)
  {
    hide Decimal;
    forall g | g in s.running
      ensures Decimal(g.cpu) != Decimal(n / k)
    {
      var i: nat :| i < n && i + k <= n && g == Nth(c, k, i);
      QuotientGrows(i, k, n);
      DecimalsDiffer(g.cpu, n / k);
    }
    forall cpu: nat | cpu < n / k
      ensures Decimal(cpu) in CpusOf(s.running)
    {
      QuotientReaches(cpu, k, n);
      assert Nth(c, k, cpu * k) in s.running;
    }
  }

  lemma DecimalsDiffer(i: nat, j: nat)
    ensures i != j ==> Decimal(i) != Decimal(j)
  {
    hide Decimal;
    if Decimal(i) == Decimal(j) { DecimalInjective(i, j); }
  }

  lemma QuotientGrows(i: nat, k: nat, n: nat)
    requires k > 0 && i + k <= n
    ensures i / k < n / k
  {
    ProductsAreOrdered(n / k, i / k, k);
  }

  lemma QuotientReaches(cpu: nat, k: nat, n: nat)
    requires k > 0 && cpu < n / k
    ensures cpu * k + k <= n && cpu * k / k == cpu
  {
    OneMore(cpu, k);
    ProductsAreOrdered(cpu + 1, n / k, k);
    QuotientIs(cpu * k, cpu, k);
  }

  lemma QuotientIs(n: nat, q: nat, k: nat)
    requires k > 0 && q * k <= n < q * k + k
    ensures n / k == q
  {
    OneMore(q, k);
    OneMore(n / k, k);
    ProductsAreOrdered(n / k + 1, q, k);
    ProductsAreOrdered(q + 1, n / k, k);
  }

  lemma ConfigsDiffer(i: nat, j: nat)
    requires LaunchConfig(i) == LaunchConfig(j)
    ensures i == j
  {
    hide Decimal;
    assert ConfigName(i)[..|ConfigName(i)| - 5] == Decimal(i) && ConfigName(j)[..|ConfigName(j)| - 5] == Decimal(j);
    DecimalInjective(i, j);
  }

  lemma NextConfigIsFree(s: State, n: nat)
    requires ConfigsBelow(s, n)
    ensures LaunchConfig(n) !in s.disk
  {
    hide LaunchConfig;
    if LaunchConfig(n) in s.disk {
      var i: nat :| i < n && LaunchConfig(n) == LaunchConfig(i);
      ConfigsDiffer(n, i);
    }
  }

  /** From the slot check to the start, with nothing in between. */
  lemma LaunchFrom(c: Setup, s: State, id: nat, cpu: nat)
    requires SettledReachable(c, s) && s.launch == Idle && s.readyAt <= s.now && |s.running| < c.pool && id < SAFE_LIMIT
    requires FirstFree(c.cpuCount, CpusOf(s.running), cpu) && LaunchConfig(id) !in s.disk && s.ticks == map[]
    ensures SettledReachable(c, s.(starting := s.starting + {Game(id, cpu, s.now)}, starts := s.starts[id := s.now],
                                   disk := s.disk[LaunchConfig(id) := ""], readyAt := s.now + c.launchWait))
  {
    hide SettledReachable, FirstFree, LaunchConfig, CpusOf;
    SettledExtends(c, s, FindSlot(id));
    var s1 := s.(launch := SlotFound(id));
    SettledExtends(c, s1, FindCpu(cpu));
    var s2 := s.(launch := CpuFound(id, cpu));
    SettledExtends(c, s2, Start);
    assert Apply(c, s2, Start) == s.(starting := s.starting + {Game(id, cpu, s.now)}, starts := s.starts[id := s.now],
                                     disk := s.disk[LaunchConfig(id) := ""], readyAt := s.now + c.launchWait);
  }

  lemma UnlistedGrows(c: Setup, k: nat, n: nat)
    requires k > 0
    ensures n + 1 < k ==>
      && UnlistedByPace(c, k, n + 1) == UnlistedByPace(c, k, n) + {Nth(c, k, n)}
      && ListedByPace(c, k, n + 1) == ListedByPace(c, k, n)
    ensures n + 1 >= k ==>
      var g := Nth(c, k, n + 1 - k);
      && g in UnlistedByPace(c, k, n) + {Nth(c, k, n)}
      && UnlistedByPace(c, k, n + 1) == UnlistedByPace(c, k, n) + {Nth(c, k, n)} - {g}
      && ListedByPace(c, k, n + 1) == ListedByPace(c, k, n) + {g}
  {
    hide Nth;
    forall i: nat, j: nat
      ensures Nth(c, k, i) == Nth(c, k, j) ==> i == j
    {
      NthIsInjective(c, k, i, j);
    }
    if n + 1 >= k {
      var last, g := Nth(c, k, n), Nth(c, k, n + 1 - k);
      assert g in UnlistedByPace(c, k, n) + {last};
    }
  }

  lemma NthIsInjective(c: Setup, k: nat, i: nat, j: nat)
    requires k > 0
    ensures Nth(c, k, i) == Nth(c, k, j) ==> i == j
  {
  }

  /** None of those not yet listed is older than the delay. */
  lemma UnlistedIsYoung(c: Setup, k: nat, n: nat)
    requires k > 0 && (k - 1) * c.launchWait <= c.startDelay
    ensures forall g | g in UnlistedByPace(c, k, n) :: n * c.launchWait - g.startedAt <= c.startDelay
  {
    forall i: nat | i < n && n < i + k
      ensures n * c.launchWait - i * c.launchWait <= c.startDelay
    {
      assert (n - i) * c.launchWait == n * c.launchWait - i * c.launchWait;
      ProductsAreOrdered(n - i, k - 1, c.launchWait);
    }
  }

  /** The container due next is listed. */
  lemma NextIsListed(c: Setup, k: nat, n: nat, s: State)
    requires k > 0 && SettledReachable(c, s)
    requires s.running == ListedByPace(c, k, n) && s.starting == UnlistedByPace(c, k, n) + {Nth(c, k, n)}
    ensures SettledReachable(c, s.(running := ListedByPace(c, k, n + 1), starting := UnlistedByPace(c, k, n + 1)))
  {
    hide SettledReachable, Nth, ListedByPace, UnlistedByPace;
    UnlistedGrows(c, k, n);
    if n + 1 < k {
      assert s == s.(running := ListedByPace(c, k, n + 1), starting := UnlistedByPace(c, k, n + 1));
    } else {
      SettledExtends(c, s, Appears(Nth(c, k, n + 1 - k)));
    }
  }

  lemma PacedContinues(c: Setup, k: nat, n: nat, s: State) returns (s': State)
    requires k > 0 && (k - 1) * c.launchWait <= c.startDelay
    requires SettledReachable(c, s) && Paced(c, k, n, s) && ConfigsBelow(s, n)
    requires n < SAFE_LIMIT && |s.running| < c.pool && n / k < c.cpuCount
    ensures SettledReachable(c, s') && Paced(c, k, n + 1, s') && ConfigsBelow(s', n + 1)
  {
    hide SettledReachable, ListedByPace, UnlistedByPace, LaunchConfig, FirstFree, CpusOf;
    PacedCpuIsFree(c, k, n, s);
    NextConfigIsFree(s, n);
    LaunchFrom(c, s, n, n / k);
    var s1 := s.(starting := s.starting + {Nth(c, k, n)}, starts := s.starts[n := s.now],
                 disk := s.disk[LaunchConfig(n) := ""], readyAt := s.now + c.launchWait);
    NextIsListed(c, k, n, s1);
    var s2 := s1.(running := ListedByPace(c, k, n + 1), starting := UnlistedByPace(c, k, n + 1));
    UnlistedIsYoung(c, k, n + 1);
    OneMore(n, c.launchWait);
    SettledExtends(c, s2, Pass(c.launchWait));
    s' := Apply(c, s2, Pass(c.launchWait));
  }

  /** Any number of launches at that pace, while there is room. */
  lemma {:induction false} PacedIsReachable(c: Setup, k: nat, n: nat) returns (s: State)
    requires k > 0 && (k - 1) * c.launchWait <= c.startDelay
    requires n <= SAFE_LIMIT && n <= c.cpuCount * k && (n == 0 || (n < c.pool + k && c.pool > 0))
    ensures SettledReachable(c, s) && Paced(c, k, n, s) && ConfigsBelow(s, n)
  {
    hide SettledReachable, ListedByPace, UnlistedByPace, LaunchConfig, Paced;
    if n == 0 {
      s := EMPTY;
      EmptyIsReachable(c);
      EmptyIsPaced(c, k);
    } else {
      var before := PacedIsReachable(c, k, n - 1);
      ListedSize(c, k, n - 1);
      RunningIsListed(c, k, n - 1, before);
      QuotientIsBelow(n - 1, c.cpuCount, k);
      s := PacedContinues(c, k, n - 1, before);
    }
  }

  lemma EmptyIsPaced(c: Setup, k: nat)
    requires k > 0
    ensures Paced(c, k, 0, EMPTY) && ConfigsBelow(EMPTY, 0)
  {
  }

  lemma RunningIsListed(c: Setup, k: nat, n: nat, s: State)
    requires k > 0 && Paced(c, k, n, s)
    ensures s.running == ListedByPace(c, k, n)
  {
  }

  lemma QuotientIsBelow(n: nat, m: nat, k: nat)
    requires k > 0 && n < m * k
    ensures n / k < m
  {
    ProductsAreOrdered(m, n / k, k);
  }

  // ---- which timings keep CPUs apart and the pool ------------------------------------------------

  /** In no run do two live containers share a CPU. */
  ghost predicate CpusApart(c: Setup) {
    forall s | Reachable(c, s) :: forall g, h | g in s.Alive() && h in s.Alive() && g.cpu == h.cpu :: g == h
  }

  /** The second launch finds the CPU of the first free, as its container is not listed yet. */
  lemma OverlapSharesCpu(c: Setup)
    requires !Serialised(c)
    ensures !CpusApart(c)
  {
    hide SettledReachable, Reachable;
    var s := PacedIsReachable(c, 2, 2);
    SettledIsReachable(c, s);
    var g, h := Nth(c, 2, 0), Nth(c, 2, 1);
    assert h in UnlistedByPace(c, 2, 2) && g in ListedByPace(c, 2, 2);
    assert g in s.Alive() && h in s.Alive() && g.cpu == h.cpu;
  }

  /** No two containers share a CPU, in any run, exactly when every container is listed before the next launch. */
  lemma CpusAreApartIffSerialised(c: Setup)
    ensures CpusApart(c) <==> Serialised(c)
  {
    hide Reachable, Serialised;
    if Serialised(c) {
      forall s | Reachable(c, s)
        ensures forall g, h | g in s.Alive() && h in s.Alive() && g.cpu == h.cpu :: g == h
      {
        AllocationIsSafe(c, s);
      }
    } else {
      OverlapSharesCpu(c);
    }
  }

  /** In no run are there more live containers than the pool. */
  ghost predicate PoolHolds(c: Setup) {
    forall s | Reachable(c, s) :: |s.Alive()| <= c.pool
  }

  /** Launches do not overlap, or the pool has room for as many containers as can crowd on the CPUs. */
  predicate PoolFits(c: Setup) {
    Serialised(c) || (c.launchWait > 0 && c.cpuCount * (Overlap(c) + 1) <= c.pool)
  }

  lemma OverlapExceedsPool(c: Setup)
    requires !PoolFits(c) && c.pool < SAFE_LIMIT
    ensures !PoolHolds(c)
  {
    hide SettledReachable, Reachable;
    var k := if c.launchWait == 0 then c.pool + 1 else Overlap(c) + 1;
    PaceFits(c, k);
    var s := PacedIsReachable(c, k, c.pool + 1);
    SettledIsReachable(c, s);
    PacedSize(c, k, c.pool + 1, s);
  }

  lemma PaceFits(c: Setup, k: nat)
    requires !PoolFits(c) && k == if c.launchWait == 0 then c.pool + 1 else Overlap(c) + 1
    ensures k > 1 && (k - 1) * c.launchWait <= c.startDelay && c.pool + 1 <= c.cpuCount * k
  {
    if c.launchWait == 0 {
      ProductsAreOrdered(1, c.cpuCount, k);
    } else {
      ProductsAreOrdered(Overlap(c) + 1, 1, c.launchWait);
    }
  }

  /**
   * The pool is never exceeded exactly when launches do not overlap, or when it has room for every CPU shared by as
   * many containers as there can be launches within the delay.
   */
  lemma PoolHoldsIffItFits(c: Setup)
    requires c.pool < SAFE_LIMIT
    ensures PoolHolds(c) <==> PoolFits(c)
  {
    hide Reachable, Serialised;
    if PoolFits(c) {
      forall s | Reachable(c, s)
        ensures |s.Alive()| <= c.pool
      {
        if Serialised(c) { AllocationIsSafe(c, s); } else { CrowdFits(c, s); }
      }
    } else {
      OverlapExceedsPool(c);
    }
  }
}
