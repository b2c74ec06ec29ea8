/** Settledness is exactly what keeps the artifacts: of the folders a run begins with, and of every step after that. */
module FleetSettled {
  import opened Docker
  import opened Fleet
  import opened FleetSafety
  import opened FleetArtifacts
  import opened FleetRuns
  import opened FleetLoss

  /** However the fleet goes on from here in settled steps, no artifact is lost. */
  ghost predicate KeepsAllFrom(c: Setup, s: State) {
    forall s' | Leads(c, s, s') :: AllKept(s')
  }

  lemma OkKeepsAll(c: Setup, s: State)
    requires ArtifactInv(c, s) && LockInv(s) && LeaseInv(c, s) && c.startDelay + c.scanAge <= LEASE
    ensures KeepsAllFrom(c, s)
  {
    hide LockInv, LeaseInv, Legal, Settled, After, DiskIsLast, AllKept, FilesAgree, UploadsOk;
    forall s' | Leads(c, s, s')
      ensures AllKept(s')
    {
      var steps :| Legal(c, s, steps) && Settled(c, s, steps) && After(c, s, steps) == s';
      RunKeepsArtifacts(c, s, steps);
    }
  }

  // ---- coming to rest ----------------------------------------------------------------------------

  /** Nothing runs, no scan is under way, and every freshness entry has expired. */
  predicate AtRest(s: State) {
    && s.starting == {} && s.running == {} && s.locked == {}
    && forall id | id in s.starts :: s.now - s.starts[id] > LEASE
  }

  lemma ContainersGo(c: Setup, o: State, s: State)
    requires Leads(c, o, s)
    ensures Leads(c, o, s.(starting := {}, running := {}))
  {
    hide Leads;
    AllAppear(c, o, s, s.starting);
    var s1 := s.(starting := s.starting - s.starting, running := s.running + s.starting);
    AllStop(c, o, s1, s1.running);
    assert s1.(running := s1.running - s1.running) == s.(starting := {}, running := {});
  }

  function CriticalPids(s: State): set<nat> {
    set pid | pid in s.ticks && s.ticks[pid].Critical()
  }

  lemma {:induction false} ScansFail(c: Setup, o: State, s: State) returns (s': State)
    requires Leads(c, o, s) && LockInv(s)
    ensures Leads(c, o, s') && s' == s.(locked := {}, ticks := s'.ticks)
    decreases |CriticalPids(s)|
  {
    hide Leads, LockInv;
    if pid :| pid in CriticalPids(s) {
      var t := s.ticks[pid];
      FailIsReachable(c, o, s, pid, t);
      StepKeepsLock(c, s, Scan(pid, Fail));
      var s1 := s.(locked := s.locked - {BucketOf(t.folder)}, ticks := s.ticks[pid := t.NextScan()]);
      assert Apply(c, s, Scan(pid, Fail)) == s1;
      assert CriticalPids(s1) == CriticalPids(s) - {pid};
      s' := ScansFail(c, o, s1);
    } else {
      s' := s;
      NothingCriticalNothingLocked(s);
    }
  }

  lemma NothingCriticalNothingLocked(s: State)
    requires LockInv(s) && CriticalPids(s) == {}
    ensures s.locked == {}
  {
    forall b
      ensures b !in s.locked
    {
      assert b in s.locked <==> Held(s, b);
      assert forall pid | pid in s.ticks :: pid !in CriticalPids(s);
    }
  }

  lemma {:induction false} LateEnough(starts: StartMap) returns (time: int)
    ensures forall id | id in starts :: time - starts[id] > LEASE
    decreases |starts|
  {
    if id :| id in starts {
      time := LateEnough(starts - {id});
      assert forall j | j in starts && j != id :: j in starts - {id};
      if time <= starts[id] + LEASE { time := starts[id] + LEASE + 1; }
    } else {
      time := 0;
    }
  }

  lemma FleetComesToRest(c: Setup, s: State) returns (s': State)
    requires LockInv(s)
    ensures Leads(c, s, s') && AtRest(s') && s'.disk == s.disk && s'.store == s.store && s'.written == s.written
  {
    hide Leads, LockInv;
    LeadsNowhere(c, s);
    var s1 := ScansFail(c, s, s);
    ContainersGo(c, s, s1);
    var s2 := s1.(starting := {}, running := {});
    var time := LateEnough(s2.starts);
    var ms := if time <= s2.now then 0 else time - s2.now;
    LeadsOn(c, s, s2, Pass(ms));
    s' := s2.(now := s2.now + ms);
  }

  // ---- uploading two files -----------------------------------------------------------------------

  lemma {:induction false} NatBeyond(ns: set<nat>) returns (n: nat)
    ensures forall m | m in ns :: m < n
  {
    if m :| m in ns {
      n := NatBeyond(ns - {m});
      assert forall j | j in ns && j != m :: j in ns - {m};
      if n <= m { n := m + 1; }
    } else {
      n := 0;
    }
  }

  /** The scan that this tick is at has listed these entries, and nothing stops it. */
  predicate LoopsOver(s: State, pid: nat, folder: Folder, names: seq<string>) {
    && pid in s.ticks && var t := s.ticks[pid];
       t.stage == Looping && t.folder == folder && t.running == {} && t.listedAt == s.now && t.todo == names
  }

  /** A new scan of the folder begins to go through these entries. */
  lemma ScanBegins(c: Setup, o: State, s: State, folder: Folder, names: seq<string>) returns (s': State, pid: nat)
    requires Leads(c, o, s) && AtRest(s) && forall n | n in names :: (folder, n) in s.disk
    ensures Leads(c, o, s') && LoopsOver(s', pid, folder, names)
    ensures s'.disk == s.disk && s'.store == s.store && s'.written == s.written
    ensures s'.starts == s.starts && s'.now == s.now
  {
    hide Leads, MatchIdOf, ObjectOf, Pruned, MayTouch;
    pid := NatBeyond(s.ticks.Keys);
    WaitingIsReachable(c, o, s, pid, folder);
    var s1 := s.(ticks := s.ticks[pid := WaitingAt(folder)]);
    ListedNoneIsReachable(c, o, s1, pid, folder);
    var s2 := ListedNone(s1, pid, folder);
    LeadsOn(c, o, s2, Scan(pid, ReadFolder(names)));
    s' := Apply(c, s2, Scan(pid, ReadFolder(names)));
  }

  /** The state after the file at the head was uploaded. */
  function HeadUploaded(s: State, pid: nat): State
    requires pid in s.ticks && s.ticks[pid].todo != [] && s.ticks[pid].At() in s.disk && s.ticks[pid].Id().Some?
  {
    var t := s.ticks[pid];
    s.(starts := Pruned(s.starts, s.now, t.Id().value),
       store := s.store[ObjectOf(t.folder, t.Id().value) := s.disk[t.At()]], disk := s.disk - {t.At()},
       ticks := s.ticks[pid := t.(todo := t.todo[1..], content := s.disk[t.At()])])
  }

  lemma HeadIsUploaded(c: Setup, o: State, s: State, pid: nat)
    requires Leads(c, o, s) && Enabled(c, s, Scan(pid, Pick)) && s.ticks[pid].folder != Configs
    ensures var t := s.ticks[pid];
      t.todo != [] && t.At() in s.disk && t.Id().Some? && Leads(c, o, HeadUploaded(s, pid))
  {
    hide Leads, MatchIdOf, ObjectOf, Pruned, Enabled, Apply;
    PickStep(c, s, pid);
    var t := s.ticks[pid];
    LeadsOn(c, o, s, Scan(pid, Pick)) by { ScanIsSettled(s, pid, Pick); }
    var s1 := Apply(c, s, Scan(pid, Pick));
    ReadStep(c, s1, pid, t.(stage := Reading));
    LeadsOn(c, o, s1, Scan(pid, Read)) by { ScanIsSettled(s1, pid, Read); }
    var s2 := Apply(c, s1, Scan(pid, Read));
    var t2 := t.(stage := Putting, content := s.disk[t.At()]);
    PutStep(c, s2, pid, t2);
    LeadsOn(c, o, s2, Scan(pid, Put)) by { ScanIsSettled(s2, pid, Put); }
    var s3 := Apply(c, s2, Scan(pid, Put));
    DeleteStep(c, s3, pid, t2.(stage := Deleting));
    LeadsOn(c, o, s3, Scan(pid, Delete)) by { ScanIsSettled(s3, pid, Delete); }
    assert Apply(c, s3, Scan(pid, Delete)).ticks == HeadUploaded(s, pid).ticks;
  }

  /** The scan uploads the entry at its head, when every freshness entry has expired. */
  lemma NextIsUploaded(c: Setup, o: State, s: State, pid: nat, k: Place, rest: seq<string>) returns (s': State)
    requires Leads(c, o, s) && LoopsOver(s, pid, k.0, [k.1] + rest) && k.0 != Configs
    requires k in s.disk && k !in c.directories && MatchIdOf(k.1).Some?
    requires forall id | id in s.starts :: s.now - s.starts[id] > LEASE
    ensures Leads(c, o, s') && LoopsOver(s', pid, k.0, rest)
    ensures s'.disk == s.disk - {k} && s'.written == s.written
    ensures s'.store == s.store[ObjectOf(k.0, MatchIdOf(k.1).value) := s.disk[k]]
    ensures forall id | id in s'.starts :: s'.now - s'.starts[id] > LEASE
  {
    hide Leads, MatchIdOf, ObjectOf;
    var t := s.ticks[pid];
    assert t.todo[0] == k.1 && t.At() == k && t.todo[1..] == rest;
    HeadIsUploaded(c, o, s, pid);
    s' := HeadUploaded(s, pid);
  }

  // ---- files that disagree -----------------------------------------------------------------------

  /** Of two files on disk, or one on disk and one stored, the second upload overwrites the other's content. */
  lemma SecondUploadLoses(c: Setup, s: State, first: Place, last: Place) returns (s': State)
    requires LockInv(s) && DiskIsLast(c, s) && first in s.written && last in s.written && SameMatch(first, last)
    requires s.written[first] != s.written[last] && last in s.disk
    ensures Leads(c, s, s') && !AllKept(s')
  {
    hide Leads, LockInv, MatchIdOf, ObjectOf, AtRest;
    var s1 := FleetComesToRest(c, s);
    var names := if first in s.disk then [first.1, last.1] else [last.1];
    var s2, pid := ScanBegins(c, s, s1, last.0, names);
    RestIsLate(s1);
    if first in s.disk {
      assert names == [first.1] + [last.1];
      s2 := NextIsUploaded(c, s, s2, pid, first, [last.1]);
    }
    assert [last.1] == [last.1] + [];
    s' := NextIsUploaded(c, s, s2, pid, last, []);
    assert first !in s'.disk && !Stored(s', first);
    assert !Kept(s', first);
  }

  lemma RestIsLate(s: State)
    requires AtRest(s)
    ensures forall id | id in s.starts :: s.now - s.starts[id] > LEASE
  {
  }

  lemma DisagreementLoses(c: Setup, s: State)
    requires LockInv(s) && DiskIsLast(c, s) && !FilesAgree(s.written)
    ensures !KeepsAllFrom(c, s)
  {
    hide Leads, LockInv, DiskIsLast, MatchIdOf, ObjectOf;
    var k, l :| k in s.written && l in s.written && SameMatch(k, l) && s.written[k] != s.written[l];
    if l in s.disk {
      var s' := SecondUploadLoses(c, s, k, l);
    } else if k in s.disk {
      var s' := SecondUploadLoses(c, s, l, k);
    } else {
      LeadsNowhere(c, s);
      assert !(Kept(s, k) && Kept(s, l));
    }
  }

  // ---- exactly the settled ones ------------------------------------------------------------------

  /**
   * Within the lease, every settled run that begins with these folders keeps every log and replay exactly when their
   * files of one match have one content.
   */
  lemma FoldersAreSafeIffTheyAgree(c: Setup, s: State)
    requires Init(c, s) && c.startDelay + c.scanAge <= 60000
    ensures KeepsAllFrom(c, s) <==> FilesAgree(s.written)
  {
    hide Init, LockInv, LeaseInv, KeepsAllFrom, FilesAgree, ArtifactInv, DiskIsLast;
    InitHolds(c, s);
    InitKeepsArtifacts(c, s);
    if FilesAgree(s.written) { OkKeepsAll(c, s); } else { DisagreementLoses(c, s); }
  }

  lemma UnsettledWriteLoses(c: Setup, s: State, step: Step)
    requires ArtifactInv(c, s) && LockInv(s) && Enabled(c, s, step) && step.Writes? && !SettledStep(s, step)
    ensures !KeepsAllFrom(c, Apply(c, s, step))
  {
    hide LockInv, KeepsAllFrom, FilesAgree, DiskIsLast, AllKept, UploadsOk, Enabled, Apply, SettledStep;
    var s' := Apply(c, s, step);
    WriteIs(c, s, step);
    WriteKeepsFiles(c, s, s', (step.folder, step.name), step.content);
    WriteAgreesIff(c, s, step);
    StepKeepsLock(c, s, step);
    DisagreementLoses(c, s');
  }

  /**
   * Within the lease, at any point of a settled run, a step is safe for every artifact, however the run goes on in
   * settled steps, exactly when it is settled itself.
   */
  lemma StepIsSafeIffSettled(c: Setup, s: State, step: Step)
    requires SettledReachable(c, s) && Enabled(c, s, step) && c.startDelay + c.scanAge <= 60000
    ensures KeepsAllFrom(c, Apply(c, s, step)) <==> SettledStep(s, step)
  {
    hide LockInv, LeaseInv, KeepsAllFrom, ArtifactInv, Enabled, Apply, SettledStep, SettledReachable;
    SettledStatesAreOk(c, s);
    if SettledStep(s, step) {
      StepKeepsArtifacts(c, s, step);
      StepKeepsLock(c, s, step);
      StepKeepsLease(c, s, step);
      OkKeepsAll(c, Apply(c, s, step));
    } else if step.Start? {
      SettledIsReachable(c, s);
      var steps := UnsettledStartLoses(c, s);
      RunLoses(c, Apply(c, s, step), steps);
    } else {
      UnsettledIsStartOrWrite(s, step);
      UnsettledWriteLoses(c, s, step);
    }
  }

  lemma RunLoses(c: Setup, s: State, steps: seq<Step>)
    requires Legal(c, s, steps) && Settled(c, s, steps) && !AllKept(After(c, s, steps))
    ensures !KeepsAllFrom(c, s)
  {
    hide Legal, Settled, After, AllKept;
    assert Leads(c, s, After(c, s, steps));
  }

  lemma UnsettledIsStartOrWrite(s: State, step: Step)
    requires !SettledStep(s, step)
    ensures step.Start? || step.Writes?
  {
  }
}
