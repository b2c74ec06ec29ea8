/** When an artifact is lost: exactly when the timings do not fit the lease, or a match is launched during an upload. */
module FleetLoss {
  import opened Text
  import opened Numerals
  import opened Docker
  import opened Fleet
  import opened FleetSafety
  import opened FleetArtifacts
  import opened FleetRuns

  /** The tick is uploading a file of this live match. */
  predicate UploadsLive(c: Setup, s: State, pid: nat, g: Game) {
    && pid in s.ticks && s.ticks[pid].Uploading() && UploadsArtifact(c, s.ticks[pid])
    && g in s.Alive() && s.ticks[pid].Id() == Some(g.id)
  }

  function AnotherContent(content: Content): (r: Content)
    ensures r != content
  {
    content + "!"
  }

  /** A match overwrites its own file, whatever a scan is doing with it. */
  lemma LiveWrite(c: Setup, s: State, pid: nat, g: Game, content: Content)
    requires UploadsLive(c, s, pid, g)
    ensures var t := s.ticks[pid];
      var w := Writes(g, t.folder, t.todo[0], content);
      && Enabled(c, s, w) && (OnlyName(s, t.At()) ==> SettledStep(s, w))
      && var s' := Apply(c, s, w);
         && s' == s.(disk := s.disk[t.At() := content], written := s.written[t.At() := content])
         && UploadsLive(c, s', pid, g) && (OnlyName(s, t.At()) ==> OnlyName(s', t.At()))
  {
    hide MatchIdOf;
  }

  /** Its content is written once more after the old one was stored, and then deleted. */
  lemma DeletingLoses(c: Setup, s: State, pid: nat, g: Game) returns (steps: seq<Step>)
    requires UploadsLive(c, s, pid, g) && s.ticks[pid].stage == Deleting
    ensures Legal(c, s, steps) && !AllKept(After(c, s, steps))
    ensures OnlyName(s, s.ticks[pid].At()) ==> Settled(c, s, steps)
  {
    hide MatchIdOf, ObjectOf, Enabled, Apply, SettledStep, OnlyName;
    var t := s.ticks[pid];
    var k, key := t.At(), ObjectOf(t.folder, g.id);
    var content := AnotherContent(if key in s.store then s.store[key] else "");
    var w, d := Writes(g, t.folder, t.todo[0], content), Scan(pid, Delete);
    LiveWrite(c, s, pid, g, content);
    var s1 := Apply(c, s, w);
    DeleteStep(c, s1, pid, t);
    var s2 := Apply(c, s1, d);
    assert SettledStep(s1, d) by { ScanIsSettled(s1, pid, Delete); }
    assert Legal(c, s2, []) && Settled(c, s2, []) && After(c, s2, []) == s2;
    RunBegins(c, s1, d, []);
    RunBegins(c, s, w, [d]);
    steps := [w] + [d];
    assert [d] + [] == [d];
    assert k in s2.written && !Kept(s2, k);
  }

  lemma ScanIsSettled(s: State, pid: nat, a: Action)
    ensures SettledStep(s, Scan(pid, a))
  {
  }

  lemma PuttingLoses(c: Setup, s: State, pid: nat, g: Game) returns (steps: seq<Step>)
    requires UploadsLive(c, s, pid, g) && s.ticks[pid].stage == Putting
    ensures Legal(c, s, steps) && !AllKept(After(c, s, steps))
    ensures OnlyName(s, s.ticks[pid].At()) ==> Settled(c, s, steps)
  {
    hide MatchIdOf, ObjectOf, Enabled, Apply, SettledStep;
    PutStep(c, s, pid, s.ticks[pid]);
    ScanIsSettled(s, pid, Put);
    var s' := Apply(c, s, Scan(pid, Put));
    var rest := DeletingLoses(c, s', pid, g);
    RunBegins(c, s, Scan(pid, Put), rest);
    steps := [Scan(pid, Put)] + rest;
  }

  lemma ReadingLoses(c: Setup, s: State, pid: nat, g: Game) returns (steps: seq<Step>)
    requires UploadsLive(c, s, pid, g) && s.ticks[pid].stage == Reading
    ensures Legal(c, s, steps) && !AllKept(After(c, s, steps))
    ensures OnlyName(s, s.ticks[pid].At()) ==> Settled(c, s, steps)
  {
    hide MatchIdOf, ObjectOf, Enabled, Apply, SettledStep;
    var w := Writes(g, s.ticks[pid].folder, s.ticks[pid].todo[0], "");
    LiveWrite(c, s, pid, g, "");
    var s1 := Apply(c, s, w);
    ReadStep(c, s1, pid, s1.ticks[pid]);
    ScanIsSettled(s1, pid, Read);
    var s2 := Apply(c, s1, Scan(pid, Read));
    var rest := PuttingLoses(c, s2, pid, g);
    RunBegins(c, s1, Scan(pid, Read), rest);
    RunBegins(c, s, w, [Scan(pid, Read)] + rest);
    steps := [w] + ([Scan(pid, Read)] + rest);
  }

  /** Once a scan uploads a file of a live match, wherever it stands, the match can lose what it writes. */
  lemma LiveUploadLoses(c: Setup, s: State, pid: nat, g: Game) returns (steps: seq<Step>)
    requires UploadsLive(c, s, pid, g)
    ensures Legal(c, s, steps) && !AllKept(After(c, s, steps))
    ensures OnlyName(s, s.ticks[pid].At()) ==> Settled(c, s, steps)
  {
    hide OnlyName, AllKept, Settled, Legal;
    if s.ticks[pid].stage == Reading {
      steps := ReadingLoses(c, s, pid, g);
    } else if s.ticks[pid].stage == Putting {
      steps := PuttingLoses(c, s, pid, g);
    } else {
      steps := DeletingLoses(c, s, pid, g);
    }
  }

  // ---- launches ----------------------------------------------------------------------------------

  /** The launch under way is of a match a file of which this tick is uploading. */
  predicate LaunchesUploaded(c: Setup, s: State, pid: nat) {
    && s.launch.CpuFound? && pid in s.ticks && s.ticks[pid].Uploading() && UploadsArtifact(c, s.ticks[pid])
    && s.ticks[pid].Id() == Some(s.launch.id)
  }

  lemma StartMakesUploadLive(c: Setup, s: State, pid: nat) returns (g: Game)
    requires Enabled(c, s, Start) && LaunchesUploaded(c, s, pid)
    ensures var s' := Apply(c, s, Start);
      s'.ticks == s.ticks && s'.written == s.written && UploadsLive(c, s', pid, g)
  {
    hide MatchIdOf, LaunchConfig;
    g := Game(s.launch.id, s.launch.cpu, s.now);
  }

  /** Whatever the timings, a launch of a match can lose the file of it that is being uploaded. */
  lemma StartDuringUploadLoses(c: Setup, s: State, pid: nat) returns (steps: seq<Step>)
    requires Enabled(c, s, Start) && LaunchesUploaded(c, s, pid)
    ensures Legal(c, Apply(c, s, Start), steps) && !AllKept(After(c, Apply(c, s, Start), steps))
    ensures OnlyName(s, s.ticks[pid].At()) ==> Settled(c, Apply(c, s, Start), steps)
  {
    hide Legal, After, Apply, Enabled, AllKept, UploadsLive, OnlyName, Settled;
    var g := StartMakesUploadLive(c, s, pid);
    var s' := Apply(c, s, Start);
    SameNames(s, s');
    steps := LiveUploadLoses(c, s', pid, g);
  }

  lemma UnsettledStartIsOfUploaded(c: Setup, s: State) returns (pid: nat)
    requires UploadInv(c, s) && Enabled(c, s, Start) && !SettledStep(s, Start)
    ensures LaunchesUploaded(c, s, pid) && OnlyName(s, s.ticks[pid].At())
  {
    hide MatchIdOf, LaunchConfig, OnlyName;
    pid :| pid in s.ticks && s.ticks[pid].Uploading() && s.ticks[pid].todo != []
           && s.ticks[pid].Id() == Some(s.launch.id) && OnlyName(s, s.ticks[pid].At());
    assert UploadsArtifact(c, s.ticks[pid]);
  }

  /** Every reachable upload is of a file of a log or replay folder, whatever the timings. */
  lemma UploadsAreOfArtifacts(c: Setup, s: State)
    requires Reachable(c, s)
    ensures UploadInv(c, s)
  {
    hide Init, Legal, After, UploadInv;
    var s0, steps :| Init(c, s0) && Legal(c, s0, steps) && After(c, s0, steps) == s;
    InitUploadsNothing(c, s0);
    RunKeepsUploads(c, s0, steps);
  }

  lemma InitUploadsNothing(c: Setup, s: State)
    requires Init(c, s)
    ensures UploadInv(c, s)
  {
  }

  /** Whatever the timings, every launch that is not settled can lose an artifact in settled steps. */
  lemma UnsettledStartLoses(c: Setup, s: State) returns (steps: seq<Step>)
    requires Reachable(c, s) && Enabled(c, s, Start) && !SettledStep(s, Start)
    ensures Legal(c, Apply(c, s, Start), steps) && Settled(c, Apply(c, s, Start), steps)
    ensures !AllKept(After(c, Apply(c, s, Start), steps))
  {
    hide Legal, After, Apply, Enabled, SettledStep, AllKept, UploadInv, LaunchesUploaded, OnlyName, Settled, Reachable;
    UploadsAreOfArtifacts(c, s);
    var pid := UnsettledStartIsOfUploaded(c, s);
    steps := StartDuringUploadLoses(c, s, pid);
  }

  // ---- timings -----------------------------------------------------------------------------------

  /** No settled run loses an artifact. */
  ghost predicate KeepsArtifacts(c: Setup) {
    forall s | SettledReachable(c, s) :: AllKept(s)
  }

  /** The match is running, has written its log, and a scan of the logs lists the containers it saw before. */
  function LogOfRunning(c: Setup, id: nat): State {
    var s := StaleListing(c, id, Logs);
    s.(starting := {}, running := {Game(id, 0, 0)},
       disk := s.disk[(Logs, LogName(id)) := ""], written := map[(Logs, LogName(id)) := ""])
  }

  lemma LogNameHasId(id: nat)
    requires id < SAFE_LIMIT
    ensures MatchIdOf(LogName(id)) == Some(id)
  {
    MatchIdSurvivesEncoding(id);
  }

  lemma LogOfRunningIsReachable(c: Setup, id: nat)
    requires c.pool > 0 && c.cpuCount > 0 && id < SAFE_LIMIT && (Logs, LogName(id)) !in c.directories
    ensures SettledReachable(c, LogOfRunning(c, id))
  {
    hide SettledReachable, MatchIdOf, LogName, LaunchConfig, BucketOf;
    var s, g := StaleListing(c, id, Logs), Game(id, 0, 0);
    StaleListingIsReachable(c, id, Logs);
    LogNameHasId(id);
    SettledExtends(c, s, Appears(g));
    var s1 := s.(starting := {}, running := {g});
    assert Apply(c, s, Appears(g)) == s1;
    assert g in s1.Alive();
    var w := Writes(g, Logs, LogName(id), "");
    SettledExtends(c, s1, w);
    assert Apply(c, s1, w) == LogOfRunning(c, id);
  }

  /** Beyond the lease a scan can upload the log of a running match, which then goes on writing it. */
  lemma BeyondLeaseLoses(c: Setup, id: nat)
    requires c.pool > 0 && c.cpuCount > 0 && id < SAFE_LIMIT && (Logs, LogName(id)) !in c.directories
    requires c.startDelay + c.scanAge > LEASE
    ensures !KeepsArtifacts(c)
  {
    hide SettledReachable, MatchIdOf, LogName, LaunchConfig, BucketOf, AllKept;
    var s, g := LogOfRunning(c, id), Game(id, 0, 0);
    LogOfRunningIsReachable(c, id);
    LogNameHasId(id);
    StalePickIsEnabled(c, s, id, Logs, LogName(id));
    var s1 := AtHead(c, s, Logs, LogName(id));
    ScanIsSettled(s1, 0, Pick);
    SettledExtends(c, s1, Scan(0, Pick));
    var s2 := Apply(c, s1, Scan(0, Pick));
    assert s2.ticks[0].At() == (Logs, LogName(id));
    assert g in s2.Alive();
    assert UploadsLive(c, s2, 0, g);
    var steps := LiveUploadLoses(c, s2, 0, g);
    SettledContinues(c, s2, steps);
  }

  /**
   * Every settled run keeps every log and replay exactly when the delay until a container is listed and the age of a
   * listing when it is used fit in the lease together.
   */
  lemma ArtifactsAreKeptIffTimingsFit(c: Setup, id: nat)
    requires c.pool > 0 && c.cpuCount > 0 && id < SAFE_LIMIT && (Logs, LogName(id)) !in c.directories
    ensures KeepsArtifacts(c) <==> c.startDelay + c.scanAge <= 60000
  {
    hide SettledReachable, AllKept, LogName;
    if c.startDelay + c.scanAge <= LEASE {
      forall s | SettledReachable(c, s)
        ensures AllKept(s)
      {
        NoArtifactIsLost(c, s);
      }
    } else {
      BeyondLeaseLoses(c, id);
    }
  }

  // ---- a relaunch during an upload ---------------------------------------------------------------

  /** An empty fleet with one log of an earlier match on disk. */
  function OneLog(id: nat): State {
    EMPTY.(disk := map[(Logs, LogName(id)) := ""], written := map[(Logs, LogName(id)) := ""])
  }

  lemma OneLogIsInit(c: Setup, id: nat)
    requires (Logs, LogName(id)) !in c.directories
    ensures Init(c, OneLog(id)) && FilesAgree(OneLog(id).written)
  {
  }

  /** The same fleet when a scan is about to read that log. */
  function LogBeingRead(id: nat): State {
    OneLog(id).(locked := {LogBucket}, ticks := map[0 := Tick(Logs, Reading, {}, 0, [LogName(id)], "")])
  }

  lemma LogBeingReadIsReachable(c: Setup, id: nat)
    requires id < SAFE_LIMIT && (Logs, LogName(id)) !in c.directories
    ensures SettledReachable(c, LogBeingRead(id))
  {
    hide SettledReachable, Leads, Init, LogName, MatchIdOf, ObjectOf;
    var s := OneLog(id);
    OneLogIsInit(c, id);
    InitIsReachable(c, s);
    LeadsNowhere(c, s);
    WaitingIsReachable(c, s, s, 0, Logs);
    ListedNoneIsReachable(c, s, s.(ticks := s.ticks[0 := WaitingAt(Logs)]), 0, Logs);
    var t := Tick(Logs, Listed, {}, 0, [], "");
    var s1 := s.(locked := {LogBucket}, ticks := map[0 := t]);
    assert ListedNone(s.(ticks := s.ticks[0 := WaitingAt(Logs)]), 0, Logs).ticks == s1.ticks;
    SettledLeads(c, s, s1);
    SettledExtends(c, s1, Scan(0, ReadFolder([LogName(id)])));
    var t2 := t.(stage := Looping, todo := [LogName(id)]);
    var s2 := s1.(ticks := map[0 := t2]);
    assert Apply(c, s1, Scan(0, ReadFolder([LogName(id)]))) == s2;
    LogNameHasId(id);
    assert t2.At() == (Logs, LogName(id)) && t2.Id() == Some(id);
    SettledExtends(c, s2, Scan(0, Pick));
    assert Apply(c, s2, Scan(0, Pick)) == LogBeingRead(id);
  }

  /** Such launches occur, whatever the timings: a match is launched again while its old log is being uploaded. */
  lemma RelaunchIsUnsettled(c: Setup, id: nat) returns (s: State)
    requires c.pool > 0 && c.cpuCount > 0 && id < SAFE_LIMIT && (Logs, LogName(id)) !in c.directories
    ensures SettledReachable(c, s) && Enabled(c, s, Start) && !SettledStep(s, Start)
  {
    hide SettledReachable, LogName, ConfigName, MatchIdOf, Decimal;
    LogBeingReadIsReachable(c, id);
    LogNameHasId(id);
    var s0 := LogBeingRead(id);
    SettledExtends(c, s0, FindSlot(id));
    var s1 := s0.(launch := SlotFound(id));
    CpuZeroIsFree(c, s1);
    SettledExtends(c, s1, FindCpu(0));
    s := s0.(launch := CpuFound(id, 0));
    assert s.ticks[0].Uploading() && s.ticks[0].Id() == Some(id);
  }

  lemma RelaunchCanLoseArtifact(c: Setup, id: nat)
    requires c.pool > 0 && c.cpuCount > 0 && id < SAFE_LIMIT && (Logs, LogName(id)) !in c.directories
    ensures exists s :: Reachable(c, s) && !AllKept(s)
  {
    hide SettledReachable, Reachable, LogName, AllKept, Enabled, Apply, SettledStep, Legal, After;
    var s := RelaunchIsUnsettled(c, id);
    SettledIsReachable(c, s);
    var steps := UnsettledStartLoses(c, s);
    ReachableExtends(c, s, Start);
    ReachableContinues(c, Apply(c, s, Start), steps);
  }
}
