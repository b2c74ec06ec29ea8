/** What every step of the fleet keeps, and so what holds over every run. */
module FleetSafety {
  import opened Text
  import opened Numerals
  import opened Docker
  import opened Fleet

  // ---- the lock ----------------------------------------------------------------------------------

  predicate Held(s: State, b: Bucket) {
    exists pid :: pid in s.ticks && s.ticks[pid].Holds(b)
  }

  /** A bucket is locked iff a scan of it is inside its critical section, and then only one is. */
  predicate LockInv(s: State) {
    && (forall b :: b in s.locked <==> Held(s, b))
    && (forall p, q, b | p in s.ticks && q in s.ticks && s.ticks[p].Holds(b) && s.ticks[q].Holds(b) :: p == q)
  }

  /** What a step does to the lock: one tick changes, and a bucket is locked or unlocked only by its holder. */
  lemma TickChangeKeepsLock(s: State, s': State, pid: nat, t': Tick)
    requires LockInv(s) && pid in s.ticks && s'.ticks == s.ticks[pid := t']
    requires var t := s.ticks[pid];
      || (t'.folder == t.folder && t'.Critical() == t.Critical() && s'.locked == s.locked)
      || (!t.Critical() && !t'.Critical() && s'.locked == s.locked)
      || (!t.Critical() && t'.Critical() && BucketOf(t'.folder) !in s.locked
          && s'.locked == s.locked + {BucketOf(t'.folder)})
      || (t.Critical() && !t'.Critical() && s'.locked == s.locked - {BucketOf(t.folder)})
    ensures LockInv(s')
  {
    var t := s.ticks[pid];
    forall b
      ensures b in s'.locked <==> Held(s', b)
    {
      assert b in s.locked <==> Held(s, b);
      if q :| q in s.ticks && s.ticks[q].Holds(b) {
        assert q != pid ==> q in s'.ticks && s'.ticks[q].Holds(b);
      }
      assert s'.ticks[pid] == t';
    }
  }

  lemma ScanKeepsLock(c: Setup, s: State, pid: nat, a: Action)
    requires LockInv(s) && Enabled(c, s, Scan(pid, a))
    ensures LockInv(Apply(c, s, Scan(pid, a)))
  {
    hide LockInv, MatchIdOf, MayTouch, ObjectOf;
    var s' := Apply(c, s, Scan(pid, a));
    TickChangeKeepsLock(s, s', pid, s'.ticks[pid]);
  }

  lemma NewTickKeepsLock(s: State, s': State, pid: nat, t: Tick)
    requires LockInv(s) && pid !in s.ticks && !t.Critical()
    requires s'.ticks == s.ticks[pid := t] && s'.locked == s.locked
    ensures LockInv(s')
  {
    forall b
      ensures b in s'.locked <==> Held(s', b)
    {
      assert b in s.locked <==> Held(s, b);
      if q :| q in s.ticks && s.ticks[q].Holds(b) {
        assert q in s'.ticks && s'.ticks[q].Holds(b);
      }
    }
  }

  lemma StepKeepsLock(c: Setup, s: State, step: Step)
    requires LockInv(s) && Enabled(c, s, step)
    ensures LockInv(Apply(c, s, step))
  {
    var s' := Apply(c, s, step);
    match step
    case Scan(pid, a) => ScanKeepsLock(c, s, pid, a);
    case TickBegins(pid) => NewTickKeepsLock(s, s', pid, s'.ticks[pid]);
    case _ => SameTicksKeepLock(s, s');
  }

  lemma SameTicksKeepLock(s: State, s': State)
    requires LockInv(s) && s'.ticks == s.ticks && s'.locked == s.locked
    ensures LockInv(s')
  {
    forall b
      ensures b in s'.locked <==> Held(s', b)
    {
      assert b in s.locked <==> Held(s, b);
    }
  }

  /** What no action of a scan changes. */
  lemma ScanFrame(c: Setup, s: State, pid: nat, a: Action)
    requires Enabled(c, s, Scan(pid, a))
    ensures var s' := Apply(c, s, Scan(pid, a));
      && s'.starting == s.starting && s'.running == s.running && s'.launch == s.launch && s'.now == s.now
      && s'.readyAt == s.readyAt && s'.Alive() == s.Alive() && s'.written == s.written
      && pid in s'.ticks && s'.ticks == s.ticks[pid := s'.ticks[pid]]
  {
    hide MatchIdOf, ObjectOf, MayTouch, Pruned;
  }

  // ---- uploads -----------------------------------------------------------------------------------

  /** Only logs and replays are uploaded, and only files whose name gives a match. */
  predicate UploadsArtifact(c: Setup, t: Tick) {
    t.Uploading() ==> t.folder != Configs && t.todo != [] && t.Id().Some? && t.At() !in c.directories
  }

  predicate UploadInv(c: Setup, s: State) {
    forall pid | pid in s.ticks :: UploadsArtifact(c, s.ticks[pid])
  }

  lemma ActionKeepsUpload(c: Setup, s: State, pid: nat, a: Action)
    requires Enabled(c, s, Scan(pid, a)) && UploadsArtifact(c, s.ticks[pid])
    ensures UploadsArtifact(c, Apply(c, s, Scan(pid, a)).ticks[pid])
  {
    hide MatchIdOf, ObjectOf, Pruned, IsFresh, IdsOf;
  }

  lemma StepKeepsUploads(c: Setup, s: State, step: Step)
    requires UploadInv(c, s) && Enabled(c, s, step)
    ensures UploadInv(c, Apply(c, s, step))
  {
    hide UploadsArtifact, LaunchConfig;
    match step
    case Scan(pid, a) =>
      ScanFrame(c, s, pid, a);
      ActionKeepsUpload(c, s, pid, a);
      OthersKeepUploads(c, s, Apply(c, s, step), pid);
    case TickBegins(pid) =>
      var s' := Apply(c, s, step);
      assert UploadsArtifact(c, s'.ticks[pid]) by { NewTickUploadsNothing(c, s'.ticks[pid]); }
    case _ =>
  }

  lemma OthersKeepUploads(c: Setup, s: State, s': State, pid: nat)
    requires UploadInv(c, s) && pid in s'.ticks && s'.ticks == s.ticks[pid := s'.ticks[pid]]
    requires UploadsArtifact(c, s'.ticks[pid])
    ensures UploadInv(c, s')
  {
  }

  lemma NewTickUploadsNothing(c: Setup, t: Tick)
    requires t.stage == Waiting
    ensures UploadsArtifact(c, t)
  {
  }

  lemma {:induction false} RunKeepsUploads(c: Setup, s: State, steps: seq<Step>)
    requires UploadInv(c, s) && Legal(c, s, steps)
    ensures UploadInv(c, After(c, s, steps))
    decreases |steps|
  {
    hide UploadInv, Enabled, Apply;
    if steps != [] {
      StepKeepsUploads(c, s, steps[0]);
      RunKeepsUploads(c, Apply(c, s, steps[0]), steps[1..]);
    }
  }

  // ---- slots and CPUs ----------------------------------------------------------------------------

  /** Every container is listed or gone before the next launch begins, unless nothing can be launched at all. */
  predicate Serialised(c: Setup) {
    c.startDelay < c.launchWait || c.pool == 0 || c.cpuCount == 0
  }

  /** No two live containers share a CPU, there are at most `pool` of them, and a launch under way fits in. */
  predicate SlotInv(c: Setup, s: State) {
    && (forall g, h | g in s.Alive() && h in s.Alive() && g.cpu == h.cpu :: g == h)
    && (forall g | g in s.Alive() :: g.cpu < c.cpuCount)
    && |s.Alive()| <= c.pool
    && (forall g | g in s.starting :: s.now <= g.startedAt + c.startDelay && g.startedAt + c.launchWait <= s.readyAt)
    && (s.launch != Idle ==> s.starting == {} && |s.running| < c.pool)
    && (s.launch.CpuFound? ==> s.launch.cpu < c.cpuCount && forall g | g in s.running :: g.cpu != s.launch.cpu)
  }

  lemma SubsetSize<T>(a: set<T>, b: set<T>)
    requires a <= b
    ensures |a| <= |b|
  {
    assert b == a + (b - a);
  }

  lemma SlotLost(c: Setup, s: State, s': State)
    requires SlotInv(c, s) && s'.Alive() <= s.Alive() && s'.starting <= s.starting
    requires s'.running <= s.running || s.launch == Idle
    requires s'.launch == s.launch && s'.now == s.now && s'.readyAt == s.readyAt
    ensures SlotInv(c, s')
  {
    SubsetSize(s'.Alive(), s.Alive());
    if s'.running <= s.running { SubsetSize(s'.running, s.running); }
  }

  lemma StartAddsOne(c: Setup, s: State) returns (launched: Game)
    requires Enabled(c, s, Start)
    ensures s.launch.CpuFound? && launched == Game(s.launch.id, s.launch.cpu, s.now)
    ensures var s' := Apply(c, s, Start);
      && s'.Alive() == s.Alive() + {launched} && s'.starting == s.starting + {launched}
      && s'.launch == Idle && s'.now == s.now && s'.readyAt == s.now + c.launchWait
  {
    hide LaunchConfig;
    launched := Game(s.launch.id, s.launch.cpu, s.now);
  }

  lemma StartKeepsSlots(c: Setup, s: State)
    requires SlotInv(c, s) && Enabled(c, s, Start)
    ensures SlotInv(c, Apply(c, s, Start))
  {
    hide Enabled, Apply;
    var launched := StartAddsOne(c, s);
    assert s.Alive() == s.running;
    assert Apply(c, s, Start).Alive() == s.running + {launched};
  }

  /** The CPU found is free of every listed container, because they wear their CPUs as decimal labels. */
  lemma FoundCpuIsFree(c: Setup, s: State, cpu: nat)
    requires Enabled(c, s, FindCpu(cpu))
    ensures forall g | g in s.running :: g.cpu != cpu
  {
    hide Decimal;
    forall g | g in s.running
      ensures g.cpu != cpu
    {
      assert Decimal(g.cpu) in CpusOf(s.running);
    }
  }

  lemma LaunchStepKeepsSlots(c: Setup, s: State, step: Step)
    requires SlotInv(c, s) && Enabled(c, s, step) && (step.FindSlot? || step.FindCpu? || step.GiveUp?)
    requires Serialised(c)
    ensures SlotInv(c, Apply(c, s, step))
  {
    hide Decimal, CpusOf;
    if step.FindCpu? { FoundCpuIsFree(c, s, step.cpu); }
    assert Apply(c, s, step).Alive() == s.Alive();
    if step.FindSlot? { NoneIsStarting(c, s, step.id); }
  }

  /** When the next launch begins, the container of the one before is listed or gone. */
  lemma NoneIsStarting(c: Setup, s: State, id: nat)
    requires SlotInv(c, s) && Enabled(c, s, FindSlot(id)) && Serialised(c)
    ensures s.starting == {}
  {
    assert s.starting <= s.Alive();
  }

  lemma ContainerStepKeepsSlots(c: Setup, s: State, step: Step)
    requires SlotInv(c, s) && Enabled(c, s, step) && (step.Appears? || step.DiesStarting? || step.Stops?)
    ensures SlotInv(c, Apply(c, s, step))
  {
    SlotLost(c, s, Apply(c, s, step));
  }

  lemma OtherStepKeepsSlots(c: Setup, s: State, step: Step)
    requires SlotInv(c, s) && Enabled(c, s, step) && (step.Pass? || step.Writes? || step.TickBegins? || step.Scan?)
    ensures SlotInv(c, Apply(c, s, step))
  {
    hide SlotInv;
    if step.Scan? { ScanFrame(c, s, step.pid, step.action); }
    SameContainersKeepSlots(c, s, Apply(c, s, step));
  }

  lemma SameContainersKeepSlots(c: Setup, s: State, s': State)
    requires SlotInv(c, s)
    requires s'.starting == s.starting && s'.running == s.running && s'.launch == s.launch && s'.readyAt == s.readyAt
    requires forall g | g in s.starting :: s'.now <= s.now || s'.now - g.startedAt <= c.startDelay
    ensures SlotInv(c, s')
  {
    assert s'.Alive() == s.Alive();
  }

  lemma StepKeepsSlots(c: Setup, s: State, step: Step)
    requires SlotInv(c, s) && Enabled(c, s, step) && Serialised(c)
    ensures SlotInv(c, Apply(c, s, step))
  {
    hide SlotInv;
    match step
    case Start => StartKeepsSlots(c, s);
    case FindSlot(_) => LaunchStepKeepsSlots(c, s, step);
    case FindCpu(_) => LaunchStepKeepsSlots(c, s, step);
    case GiveUp => LaunchStepKeepsSlots(c, s, step);
    case Appears(_) => ContainerStepKeepsSlots(c, s, step);
    case DiesStarting(_) => ContainerStepKeepsSlots(c, s, step);
    case Stops(_) => ContainerStepKeepsSlots(c, s, step);
    case _ => OtherStepKeepsSlots(c, s, step);
  }

  // ---- the lease ---------------------------------------------------------------------------------

  /** What is known of a live container: its config file, and its freshness entry until that expires. */
  predicate GameOk(s: State, g: Game) {
    && g.startedAt <= s.now && g.id < SAFE_LIMIT
    && LaunchConfig(g.id) in s.disk
    && if g.id in s.starts then s.starts[g.id] == g.startedAt else s.now - g.startedAt > LEASE
  }

  /** A live container that a scan's listing lacks was launched at most `startDelay` before that listing. */
  predicate ListingOk(c: Setup, s: State, t: Tick) {
    && t.listedAt <= s.now
    && forall g | g in s.Alive() :: g.id in t.running || t.listedAt <= g.startedAt + c.startDelay
  }

  /** A config file about to be removed is there, and is not the config of a live match. */
  predicate RemovalOk(s: State, t: Tick) {
    t.folder == Configs && t.todo != [] && t.At() in s.disk && forall g | g in s.Alive() :: t.At() != LaunchConfig(g.id)
  }

  predicate TickOk(c: Setup, s: State, t: Tick) {
    && (t.HasListing() ==> ListingOk(c, s, t))
    && (t.stage == Removing ==> RemovalOk(s, t))
    && UploadsArtifact(c, t)
  }

  predicate LeaseInv(c: Setup, s: State) {
    && (forall g | g in s.Alive() :: GameOk(s, g))
    && (forall g, h | g in s.Alive() && h in s.Alive() && g.id == h.id :: g == h)
    && (forall g | g in s.starting :: s.now - g.startedAt <= c.startDelay)
    && (s.launch != Idle ==> s.launch.id < SAFE_LIMIT)
    && (forall pid | pid in s.ticks :: TickOk(c, s, s.ticks[pid]))
  }

  /** The check lets no scan touch a file of a live match: the freshness lease covers the stale listing. */
  lemma PickSparesLiveMatches(c: Setup, s: State, pid: nat)
    requires LeaseInv(c, s) && c.startDelay + c.scanAge <= 60000
    requires Enabled(c, s, Scan(pid, Pick))
    ensures !s.IsAlive(s.ticks[pid].Id().value)
  {
    hide MatchIdOf, LaunchConfig;
    var t := s.ticks[pid];
    forall g | g in s.Alive()
      ensures g.id != t.Id().value
    {
      assert GameOk(s, g) && ListingOk(c, s, t);
    }
  }

  lemma ConfigIdIs(id: nat)
    requires id < SAFE_LIMIT
    ensures MatchIdOf(ConfigName(id)) == Some(id)
  {
    MatchIdSurvivesEncoding(id);
  }

  /** Changes that add no live container, keep the config files of those there are, and let no lease lapse early. */
  predicate Calmer(s: State, s': State) {
    && s'.Alive() <= s.Alive() && s'.starting <= s.starting && s'.now == s.now
    && (forall g | g in s'.Alive() :: LaunchConfig(g.id) in s.disk ==> LaunchConfig(g.id) in s'.disk)
    && (forall g | g in s'.Alive() && GameOk(s, g) ::
          if g.id in s'.starts then g.id in s.starts && s'.starts[g.id] == s.starts[g.id]
          else s.now - g.startedAt > LEASE)
    && (s'.launch != Idle ==> s'.launch.id < SAFE_LIMIT)
  }

  lemma CalmerKeepsTick(c: Setup, s: State, s': State, t: Tick)
    requires Calmer(s, s') && TickOk(c, s, t)
    requires t.stage == Removing ==> t.At() in s'.disk
    ensures TickOk(c, s', t)
  {
  }

  lemma CalmerKeepsLease(c: Setup, s: State, s': State)
    requires LeaseInv(c, s) && Calmer(s, s')
    requires forall pid | pid in s'.ticks :: TickOk(c, s', s'.ticks[pid])
    ensures LeaseInv(c, s')
  {
    forall g | g in s'.Alive()
      ensures GameOk(s', g)
    {
      assert GameOk(s, g);
    }
  }

  /** The other ticks, when one acts: only it may remove a config file, as it holds the lock of that folder. */
  lemma OtherTicksOk(c: Setup, s: State, s': State, pid: nat)
    requires LeaseInv(c, s) && LockInv(s) && Calmer(s, s') && pid in s.ticks
    requires forall q | q in s.ticks && q != pid :: q in s'.ticks && s'.ticks[q] == s.ticks[q]
    requires forall k | k in s.disk && k !in s'.disk && k.0 == Configs :: s.ticks[pid].Holds(LogBucket)
    ensures forall q | q in s.ticks && q != pid :: TickOk(c, s', s'.ticks[q])
  {
    hide MatchIdOf, ConfigName;
    forall q | q in s.ticks && q != pid
      ensures TickOk(c, s', s'.ticks[q])
    {
      var t := s.ticks[q];
      assert TickOk(c, s, t);
      if t.stage == Removing {
        assert t.Holds(LogBucket);
      }
      CalmerKeepsTick(c, s, s', t);
    }
  }

  lemma ScanKeepsLease(c: Setup, s: State, pid: nat, a: Action)
    requires LeaseInv(c, s) && LockInv(s) && c.startDelay + c.scanAge <= LEASE
    requires Enabled(c, s, Scan(pid, a))
    ensures LeaseInv(c, Apply(c, s, Scan(pid, a)))
  {
    hide LockInv, LeaseInv, Calmer, TickOk, Apply, Enabled;
    var s' := Apply(c, s, Scan(pid, a));
    ScanFrame(c, s, pid, a);
    EnabledPid(c, s, pid, a);
    LeaseKnowsTick(c, s, pid);
    ScanIsCalm(c, s, pid, a);
    ScanHoldsLockToRemove(c, s, pid, a);
    OtherTicksOk(c, s, s', pid);
    ActingTickOk(c, s, pid, a);
    assert ActorOk(c, s', pid);
    CalmerKeepsLease(c, s, s');
  }

  lemma LeaseKnowsTick(c: Setup, s: State, pid: nat)
    requires LeaseInv(c, s) && pid in s.ticks
    ensures TickOk(c, s, s.ticks[pid])
  {
  }

  lemma EnabledPid(c: Setup, s: State, pid: nat, a: Action)
    requires Enabled(c, s, Scan(pid, a))
    ensures pid in s.ticks
  {
  }

  lemma ScanHoldsLockToRemove(c: Setup, s: State, pid: nat, a: Action)
    requires LeaseInv(c, s) && Enabled(c, s, Scan(pid, a))
    ensures var s' := Apply(c, s, Scan(pid, a));
      forall k | k in s.disk && k !in s'.disk && k.0 == Configs :: s.ticks[pid].Holds(LogBucket)
  {
    hide MatchIdOf, ConfigName, ObjectOf, ListingOk;
    assert TickOk(c, s, s.ticks[pid]);
  }

  /** The config removed is not one of a live match. */
  lemma RemoveIsQuiet(c: Setup, s: State, pid: nat)
    requires Enabled(c, s, Scan(pid, Remove)) && pid in s.ticks && TickOk(c, s, s.ticks[pid])
    ensures var s' := Apply(c, s, Scan(pid, Remove));
      && s'.starts == s.starts
      && forall g | g in s.Alive() && LaunchConfig(g.id) in s.disk :: LaunchConfig(g.id) in s'.disk
  {
    hide MatchIdOf, LaunchConfig, ListingOk, State.Alive;
  }

  lemma PickIsCalm(c: Setup, s: State, pid: nat)
    requires LeaseInv(c, s) && Enabled(c, s, Scan(pid, Pick))
    ensures Calmer(s, Apply(c, s, Scan(pid, Pick)))
  {
    hide MatchIdOf, LaunchConfig, ListingOk, TickOk, MayTouch;
    ScanFrame(c, s, pid, Pick);
  }

  /** The other actions touch no config file and no freshness entry. */
  lemma OtherIsQuiet(c: Setup, s: State, pid: nat, a: Action)
    requires Enabled(c, s, Scan(pid, a)) && !a.Remove? && !a.Pick?
    requires a.Delete? ==> s.ticks[pid].folder != Configs
    ensures var s' := Apply(c, s, Scan(pid, a));
      s'.starts == s.starts && forall id: nat | LaunchConfig(id) in s.disk :: LaunchConfig(id) in s'.disk
  {
    hide MatchIdOf, ObjectOf, MayTouch, IdsOf, ConfigName;
  }

  lemma QuietIsCalm(s: State, s': State)
    requires s'.Alive() == s.Alive() && s'.starting == s.starting && s'.now == s.now && s'.launch == s.launch
    requires s'.starts == s.starts && (s.launch != Idle ==> s.launch.id < SAFE_LIMIT)
    requires forall g | g in s.Alive() && LaunchConfig(g.id) in s.disk :: LaunchConfig(g.id) in s'.disk
    ensures Calmer(s, s')
  {
    hide State.Alive, LaunchConfig;
  }

  lemma ScanIsCalm(c: Setup, s: State, pid: nat, a: Action)
    requires LeaseInv(c, s) && Enabled(c, s, Scan(pid, a)) && pid in s.ticks && TickOk(c, s, s.ticks[pid])
    ensures Calmer(s, Apply(c, s, Scan(pid, a)))
  {
    hide TickOk, Calmer, Enabled, Apply, GameOk, LaunchConfig, State.Alive;
    if a.Pick? {
      PickIsCalm(c, s, pid);
    } else {
      ScanFrame(c, s, pid, a);
      DeletesNoConfig(c, s, pid, a);
      if a.Remove? { RemoveIsQuiet(c, s, pid); } else { OtherIsQuiet(c, s, pid, a); }
      QuietIsCalm(s, Apply(c, s, Scan(pid, a)));
    }
  }

  lemma DeletesNoConfig(c: Setup, s: State, pid: nat, a: Action)
    requires Enabled(c, s, Scan(pid, a)) && pid in s.ticks && TickOk(c, s, s.ticks[pid])
    ensures a.Delete? ==> s.ticks[pid].folder != Configs
  {
    hide ListingOk, MatchIdOf, MayTouch;
  }

  /** After its action, the acting tick is as it should be. */
  predicate ActorOk(c: Setup, s: State, pid: nat) {
    pid in s.ticks && TickOk(c, s, s.ticks[pid])
  }

  /** A fresh listing lacks only containers that are starting, and none of those is older than the delay. */
  lemma ListingIsOk(c: Setup, s: State, pid: nat)
    requires LeaseInv(c, s) && Enabled(c, s, Scan(pid, List))
    ensures ActorOk(c, Apply(c, s, Scan(pid, List)), pid)
  {
    hide MatchIdOf, ConfigName;
    ScanFrame(c, s, pid, List);
    forall g | g in s.Alive()
      ensures g.id in IdsOf(s.running) || s.now <= g.startedAt + c.startDelay
    {
      assert g in s.starting || g in s.running;
    }
  }

  /** Neither does a scan pick the config of a live match. */
  lemma PickedConfigIsDead(c: Setup, s: State, pid: nat)
    requires LeaseInv(c, s) && c.startDelay + c.scanAge <= LEASE
    requires Enabled(c, s, Scan(pid, Pick))
    ensures s.ticks[pid].todo != []
    ensures forall g | g in s.Alive() :: s.ticks[pid].At() != LaunchConfig(g.id)
  {
    hide MatchIdOf, ConfigName, MayTouch, TickOk;
    PickSparesLiveMatches(c, s, pid);
    forall g | g in s.Alive()
      ensures s.ticks[pid].At() != LaunchConfig(g.id)
    {
      assert GameOk(s, g);
      ConfigIdIs(g.id);
    }
  }

  lemma PickIsOk(c: Setup, s: State, pid: nat)
    requires LeaseInv(c, s) && c.startDelay + c.scanAge <= LEASE
    requires Enabled(c, s, Scan(pid, Pick))
    ensures ActorOk(c, Apply(c, s, Scan(pid, Pick)), pid)
  {
    hide MatchIdOf, ConfigName, LaunchConfig, Pruned, IsFresh, GameOk;
    assert TickOk(c, s, s.ticks[pid]);
    ScanFrame(c, s, pid, Pick);
    PickedConfigIsDead(c, s, pid);
  }

  /** An action that ends the scan, or begins it, leaves nothing to be known of the tick. */
  lemma EndIsOk(c: Setup, s: State, pid: nat, a: Action)
    requires Enabled(c, s, Scan(pid, a)) && (a.Skip? || a.Enter? || a.Finish? || a.Fail?)
    ensures ActorOk(c, Apply(c, s, Scan(pid, a)), pid)
  {
    hide MatchIdOf, ListingOk, RemovalOk;
  }

  /** An action within the loop keeps the listing and what is known of the file. */
  lemma LoopIsOk(c: Setup, s: State, pid: nat, a: Action)
    requires Enabled(c, s, Scan(pid, a)) && TickOk(c, s, s.ticks[pid])
    requires a.ReadFolder? || a.PassOver? || a.Remove? || a.Read? || a.Put? || a.Delete? || a.DeleteFails?
    ensures ActorOk(c, Apply(c, s, Scan(pid, a)), pid)
  {
    hide MatchIdOf, ObjectOf, MayTouch, RemovalOk, State.Alive;
    ScanFrame(c, s, pid, a);
  }

  lemma ActingTickOk(c: Setup, s: State, pid: nat, a: Action)
    requires LeaseInv(c, s) && c.startDelay + c.scanAge <= LEASE
    requires Enabled(c, s, Scan(pid, a)) && pid in s.ticks && TickOk(c, s, s.ticks[pid])
    ensures ActorOk(c, Apply(c, s, Scan(pid, a)), pid)
  {
    hide LeaseInv, TickOk, ActorOk, Enabled, Apply;
    match a {
      case List => ListingIsOk(c, s, pid);
      case Pick => PickIsOk(c, s, pid);
      case ReadFolder(_) => LoopIsOk(c, s, pid, a);
      case PassOver => LoopIsOk(c, s, pid, a);
      case Remove => LoopIsOk(c, s, pid, a);
      case Read => LoopIsOk(c, s, pid, a);
      case Put => LoopIsOk(c, s, pid, a);
      case Delete => LoopIsOk(c, s, pid, a);
      case DeleteFails => LoopIsOk(c, s, pid, a);
      case _ => EndIsOk(c, s, pid, a);
    }
  }

  lemma StartKeepsLease(c: Setup, s: State)
    requires LeaseInv(c, s) && Enabled(c, s, Start)
    ensures LeaseInv(c, Apply(c, s, Start))
    ensures !s.IsAlive(s.launch.id)
  {
    hide MatchIdOf;
    var s' := Apply(c, s, Start);
    var launched := Game(s.launch.id, s.launch.cpu, s.now);
    assert s'.Alive() == s.Alive() + {launched};
    forall g | g in s.Alive()
      ensures GameOk(s', g) && g.id != launched.id
    {
      assert GameOk(s, g);
    }
    assert GameOk(s', launched);
    forall pid | pid in s.ticks
      ensures TickOk(c, s', s.ticks[pid])
    {
      assert TickOk(c, s, s.ticks[pid]);
    }
  }

  lemma PassKeepsLease(c: Setup, s: State, ms: nat)
    requires LeaseInv(c, s) && Enabled(c, s, Pass(ms))
    ensures LeaseInv(c, Apply(c, s, Pass(ms)))
  {
    hide MatchIdOf, ConfigName;
    var s' := Apply(c, s, Pass(ms));
    assert s'.Alive() == s.Alive();
    forall g | g in s.Alive()
      ensures GameOk(s', g)
    {
      assert GameOk(s, g);
    }
    forall pid | pid in s.ticks
      ensures TickOk(c, s', s.ticks[pid])
    {
      assert TickOk(c, s, s.ticks[pid]);
    }
  }

  lemma StepKeepsLease(c: Setup, s: State, step: Step)
    requires LeaseInv(c, s) && LockInv(s) && c.startDelay + c.scanAge <= LEASE
    requires Enabled(c, s, step)
    ensures LeaseInv(c, Apply(c, s, step))
  {
    hide MatchIdOf, ConfigName, LockInv, ListingOk, GameOk, RemovalOk;
    var s' := Apply(c, s, step);
    match step {
      case Pass(ms) => PassKeepsLease(c, s, ms);
      case Start => StartKeepsLease(c, s);
      case Scan(pid, a) => ScanKeepsLease(c, s, pid, a);
      case _ => QuietStepKeepsLease(c, s, step);
    }
  }

  /** Steps other than the clock, a launch and a scan. */
  predicate Quiet(step: Step) {
    !step.Pass? && !step.Start? && !step.Scan?
  }

  lemma QuietStepIsCalm(c: Setup, s: State, step: Step)
    requires LeaseInv(c, s) && Enabled(c, s, step) && Quiet(step)
    ensures var s' := Apply(c, s, step);
      && Calmer(s, s') && s.disk.Keys <= s'.disk.Keys
      && forall pid | pid in s'.ticks ::
           if pid in s.ticks then s'.ticks[pid] == s.ticks[pid] else s'.ticks[pid].stage == Waiting
  {
    hide MatchIdOf, ConfigName, TickOk;
  }

  lemma QuietStepKeepsLease(c: Setup, s: State, step: Step)
    requires LeaseInv(c, s) && Enabled(c, s, step) && Quiet(step)
    ensures LeaseInv(c, Apply(c, s, step))
  {
    hide MatchIdOf, ConfigName, Calmer, Apply, Enabled, GameOk, ListingOk, RemovalOk;
    var s' := Apply(c, s, step);
    QuietStepIsCalm(c, s, step);
    forall pid | pid in s'.ticks
      ensures TickOk(c, s', s'.ticks[pid])
    {
      if pid in s.ticks {
        assert TickOk(c, s, s.ticks[pid]);
        RemovalIsThere(s, s.ticks[pid]);
        CalmerKeepsTick(c, s, s', s.ticks[pid]);
      }
    }
    CalmerKeepsLease(c, s, s');
  }

  lemma RemovalIsThere(s: State, t: Tick)
    ensures RemovalOk(s, t) ==> t.todo != [] && t.At() in s.disk
  {
  }

  // ---- runs --------------------------------------------------------------------------------------

  lemma InitHolds(c: Setup, s: State)
    requires Init(c, s)
    ensures LockInv(s) && SlotInv(c, s) && LeaseInv(c, s)
  {
    assert s.Alive() == {};
  }

  lemma {:induction false} RunKeepsLock(c: Setup, s: State, steps: seq<Step>)
    requires LockInv(s) && Legal(c, s, steps)
    ensures LockInv(After(c, s, steps))
    decreases |steps|
  {
    hide LockInv, Enabled, Apply;
    if steps != [] {
      StepKeepsLock(c, s, steps[0]);
      RunKeepsLock(c, Apply(c, s, steps[0]), steps[1..]);
    }
  }

  lemma {:induction false} RunKeepsSlots(c: Setup, s: State, steps: seq<Step>)
    requires SlotInv(c, s) && Legal(c, s, steps) && Serialised(c)
    ensures SlotInv(c, After(c, s, steps))
    decreases |steps|
  {
    hide SlotInv, Enabled, Apply, Serialised;
    if steps != [] {
      StepKeepsSlots(c, s, steps[0]);
      RunKeepsSlots(c, Apply(c, s, steps[0]), steps[1..]);
    }
  }

  lemma {:induction false} RunKeepsLease(c: Setup, s: State, steps: seq<Step>)
    requires LockInv(s) && LeaseInv(c, s) && Legal(c, s, steps)
    requires c.startDelay + c.scanAge <= LEASE
    ensures LockInv(After(c, s, steps)) && LeaseInv(c, After(c, s, steps))
    decreases |steps|
  {
    hide LockInv, LeaseInv, Enabled, Apply;
    if steps != [] {
      StepKeepsLock(c, s, steps[0]);
      StepKeepsLease(c, s, steps[0]);
      RunKeepsLease(c, Apply(c, s, steps[0]), steps[1..]);
    }
  }

  /**
   * In every interleaving of overlapping ticks, with exceptions anywhere: a bucket is locked iff exactly one scan of
   * it is inside its critical section, so config and log scans exclude each other, and nothing stays locked.
   */
  lemma LockIsSafe(c: Setup, s: State)
    requires Reachable(c, s)
    ensures forall b :: b in s.locked <==> exists pid :: pid in s.ticks && s.ticks[pid].Holds(b)
    ensures forall p, q, b | p in s.ticks && q in s.ticks && s.ticks[p].Holds(b) && s.ticks[q].Holds(b) :: p == q
    ensures (forall pid | pid in s.ticks :: !s.ticks[pid].Critical()) ==> s.locked == {}
  {
    var s0, steps :| Init(c, s0) && Legal(c, s0, steps) && After(c, s0, steps) == s;
    InitHolds(c, s0);
    RunKeepsLock(c, s0, steps);
    forall b
      ensures b in s.locked <==> exists pid :: pid in s.ticks && s.ticks[pid].Holds(b)
    {
      assert b in s.locked <==> Held(s, b);
    }
  }

  /** When launches do not overlap, no two containers ever share a CPU, and the pool is never exceeded. */
  lemma AllocationIsSafe(c: Setup, s: State)
    requires Reachable(c, s) && Serialised(c)
    ensures forall g, h | g in s.Alive() && h in s.Alive() && g.cpu == h.cpu :: g == h
    ensures forall g | g in s.Alive() :: g.cpu < c.cpuCount
    ensures |s.Alive()| <= c.pool
  {
    var s0, steps :| Init(c, s0) && Legal(c, s0, steps) && After(c, s0, steps) == s;
    InitHolds(c, s0);
    RunKeepsSlots(c, s0, steps);
  }

  /**
   * If a container is listed soon enough after its launch, and entries are checked soon enough after the listing, no
   * two live containers serve one match, and each has its config file, which the exclusive write will not recreate.
   */
  lemma LiveMatchesAreDistinct(c: Setup, s: State)
    requires Reachable(c, s) && c.startDelay + c.scanAge <= 60000
    ensures forall g, h | g in s.Alive() && h in s.Alive() && g.id == h.id :: g == h
    ensures forall g | g in s.Alive() :: LaunchConfig(g.id) in s.disk
    ensures Enabled(c, s, Start) ==> !s.IsAlive(s.launch.id)
  {
    var s0, steps :| Init(c, s0) && Legal(c, s0, steps) && After(c, s0, steps) == s;
    InitHolds(c, s0);
    RunKeepsLease(c, s0, steps);
    forall g | g in s.Alive()
      ensures LaunchConfig(g.id) in s.disk
    {
      assert GameOk(s, g);
    }
    if Enabled(c, s, Start) { StartKeepsLease(c, s); }
  }
}
