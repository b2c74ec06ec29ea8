/** Logs and replays over whole runs: none is lost, and none of a live match is touched. */
module FleetArtifacts {
  import opened Text
  import opened Numerals
  import opened Docker
  import opened Fleet
  import opened FleetSafety

  /** The last content of this artifact is on disk, or stored under its match's key. */
  predicate Kept(s: State, k: Place)
    requires k in s.written
  {
    || (k in s.disk && s.disk[k] == s.written[k])
    || Stored(s, k)
  }

  predicate AllKept(s: State) {
    forall k | k in s.written :: Kept(s, k)
  }

  predicate Stored(s: State, k: Place)
    requires k in s.written
  {
    var id := MatchIdOf(k.1);
    id.Some? && ObjectOf(k.0, id.value) in s.store && s.store[ObjectOf(k.0, id.value)] == s.written[k]
  }

  /** The files of a folder that carry one match id have one content. */
  predicate FilesAgree(written: map<Place, Content>) {
    forall k, l | k in written && l in written && SameMatch(k, l) :: written[k] == written[l]
  }

  predicate SameMatch(k: Place, l: Place) {
    k.0 == l.0 && MatchIdOf(k.1).Some? && MatchIdOf(k.1) == MatchIdOf(l.1)
  }

  /** No other file of its folder carries this file's match id. */
  predicate OnlyName(s: State, k: Place) {
    forall l | l in s.written && SameMatch(k, l) :: l == k
  }

  predicate UploadOk(c: Setup, s: State, t: Tick) {
    t.Uploading() ==>
      && UploadsArtifact(c, t) && t.At() in s.written
      && (OnlyName(s, t.At()) ==> !s.IsAlive(t.Id().value))
      && (t.stage == Putting ==> t.content == s.written[t.At()])
      && (t.stage == Deleting ==> Stored(s, t.At()))
  }

  predicate UploadsOk(c: Setup, s: State) {
    forall pid | pid in s.ticks :: UploadOk(c, s, s.ticks[pid])
  }

  /** The logs and replays on disk are files, and have the content last written. */
  predicate DiskIsLast(c: Setup, s: State) {
    && (forall k | k in s.disk && k.0 != Configs :: k in s.written && s.disk[k] == s.written[k])
    && (forall k | k in s.written :: k.0 != Configs && k !in c.directories)
  }

  predicate ArtifactInv(c: Setup, s: State) {
    DiskIsLast(c, s) && AllKept(s) && FilesAgree(s.written) && UploadsOk(c, s)
  }

  /**
   * No match is launched while the one file that it has in a folder is being uploaded, and a match that has other files
   * there writes what they hold.
   */
  predicate SettledStep(s: State, step: Step) {
    match step
    case Start =>
      s.launch.CpuFound? ==>
        forall pid | pid in s.ticks && s.ticks[pid].Uploading() && s.ticks[pid].todo != []
                     && s.ticks[pid].Id() == Some(s.launch.id) :: !OnlyName(s, s.ticks[pid].At())
    case Writes(_, folder, name, content) =>
      forall k | k in s.written && SameMatch((folder, name), k) && k.1 != name :: s.written[k] == content
    case _ => true
  }

  predicate Settled(c: Setup, s: State, steps: seq<Step>)
    requires Legal(c, s, steps)
    decreases |steps|
  {
    steps == [] || (SettledStep(s, steps[0]) && Settled(c, Apply(c, s, steps[0]), steps[1..]))
  }

  lemma ObjectIsOfOneMatch(f: Folder, i: nat, g: Folder, j: nat)
    requires f != Configs && g != Configs && ObjectOf(f, i) == ObjectOf(g, j)
    ensures f == g && i == j
  {
    hide Decimal;
    var suffix := if f == Replays then ".dem.zip" else ".log";
    var name := Decimal(i) + suffix;
    assert name == Decimal(j) + suffix;
    assert name[..|name| - |suffix|] == Decimal(i) && name[..|name| - |suffix|] == Decimal(j);
    DecimalInjective(i, j);
  }

  // ---- putting and deleting ----------------------------------------------------------------------

  /** A put stores the last content under the key of its own artifact, and no other's key. */
  lemma PutKeepsStored(c: Setup, s: State, pid: nat, k: Place)
    requires Enabled(c, s, Scan(pid, Put)) && UploadOk(c, s, s.ticks[pid]) && FilesAgree(s.written)
    requires k in s.written && k.0 != Configs
    ensures var s' := Apply(c, s, Scan(pid, Put));
      && s'.written == s.written && s'.disk == s.disk
      && (Stored(s, k) || k == s.ticks[pid].At() ==> Stored(s', k))
  {
    hide MatchIdOf, ObjectOf, State.IsAlive, OnlyName;
    var t := s.ticks[pid];
    if Stored(s, k) && ObjectOf(k.0, MatchIdOf(k.1).value) == ObjectOf(t.folder, t.Id().value) {
      ObjectIsOfOneMatch(k.0, MatchIdOf(k.1).value, t.folder, t.Id().value);
      assert SameMatch(k, t.At());
    }
  }

  lemma PutKeepsUpload(c: Setup, s: State, pid: nat, q: nat)
    requires ArtifactInv(c, s) && Enabled(c, s, Scan(pid, Put)) && q in s.ticks
    ensures var s' := Apply(c, s, Scan(pid, Put));
      q in s'.ticks && UploadOk(c, s', s'.ticks[q])
  {
    hide MatchIdOf, ObjectOf, Stored, FilesAgree, AllKept, SameMatch;
    ScanFrame(c, s, pid, Put);
    assert UploadOk(c, s, s.ticks[pid]) && UploadOk(c, s, s.ticks[q]);
    if s.ticks[q].stage == Deleting || q == pid { PutKeepsStored(c, s, pid, s.ticks[q].At()); }
  }

  lemma PutKeepsArtifacts(c: Setup, s: State, pid: nat)
    requires ArtifactInv(c, s) && Enabled(c, s, Scan(pid, Put))
    ensures ArtifactInv(c, Apply(c, s, Scan(pid, Put)))
  {
    hide MatchIdOf, ObjectOf, Stored, FilesAgree, UploadOk, Enabled, Apply;
    var s' := Apply(c, s, Scan(pid, Put));
    ScanFrame(c, s, pid, Put);
    assert pid in s.ticks by { EnabledPid(c, s, pid, Put); }
    assert UploadOk(c, s, s.ticks[pid]);
    forall k | k in s.written
      ensures Kept(s', k) && s'.disk == s.disk
    {
      assert Kept(s, k);
      PutKeepsStored(c, s, pid, k);
    }
    PutKeepsDisk(c, s, pid);
    forall q | q in s'.ticks
      ensures UploadOk(c, s', s'.ticks[q])
    {
      PutKeepsUpload(c, s, pid, q);
    }
  }

  lemma PutKeepsDisk(c: Setup, s: State, pid: nat)
    requires Enabled(c, s, Scan(pid, Put))
    ensures Apply(c, s, Scan(pid, Put)).disk == s.disk
  {
    hide MatchIdOf, ObjectOf;
  }

  /** What a delete changes. */
  lemma DeleteIs(c: Setup, s: State, pid: nat)
    requires Enabled(c, s, Scan(pid, Delete))
    ensures pid in s.ticks && s.ticks[pid].stage == Deleting && s.ticks[pid].todo != []
    ensures var s' := Apply(c, s, Scan(pid, Delete));
      && s'.disk == s.disk - {s.ticks[pid].At()} && s'.store == s.store
      && pid in s'.ticks && !s'.ticks[pid].Uploading()
  {
    hide MatchIdOf, ObjectOf;
  }

  /** A file is deleted only after its last content was stored. */
  lemma DeleteKeepsArtifacts(c: Setup, s: State, pid: nat)
    requires ArtifactInv(c, s) && Enabled(c, s, Scan(pid, Delete))
    ensures ArtifactInv(c, Apply(c, s, Scan(pid, Delete)))
  {
    hide MatchIdOf, ObjectOf, FilesAgree, Enabled, Apply;
    var s' := Apply(c, s, Scan(pid, Delete));
    DeleteIs(c, s, pid);
    ScanFrame(c, s, pid, Delete);
    assert UploadOk(c, s, s.ticks[pid]);
    forall k | k in s.written
      ensures Kept(s', k)
    {
      assert Kept(s, k);
      assert Stored(s, k) ==> Stored(s', k);
    }
    OthersKeepUploadOk(c, s, s', pid);
  }

  /** What one tick does to the disk leaves the uploads of the others alone. */
  lemma OthersKeepUploadOk(c: Setup, s: State, s': State, pid: nat)
    requires UploadsOk(c, s) && pid in s'.ticks && s'.ticks == s.ticks[pid := s'.ticks[pid]]
    requires s'.written == s.written && s'.store == s.store && s'.Alive() == s.Alive()
    requires UploadOk(c, s', s'.ticks[pid])
    ensures UploadsOk(c, s')
  {
    hide UploadOk, State.Alive;
    forall q | q in s'.ticks
      ensures UploadOk(c, s', s'.ticks[q])
    {
      if q != pid { SameUploadOk(c, s, s', s'.ticks[q]); }
    }
  }

  lemma SameUploadOk(c: Setup, s: State, s': State, t: Tick)
    requires UploadOk(c, s, t) && s'.written == s.written && s'.store == s.store
    requires t.Uploading() && UploadsArtifact(c, t) && OnlyName(s, t.At()) ==>
             (s'.IsAlive(t.Id().value) ==> s.IsAlive(t.Id().value))
    ensures UploadOk(c, s', t)
  {
    hide MatchIdOf, ObjectOf, SameMatch;
  }

  // ---- the other actions of a scan ---------------------------------------------------------------

  /** Steps that leave the store, the logs and the replays alone, and whose ticks are as they should be. */
  lemma UntouchedArtifacts(c: Setup, s: State, s': State)
    requires ArtifactInv(c, s)
    requires s'.written == s.written && s'.store == s.store
    requires forall k: Place | k.0 != Configs ::
      (k in s.disk <==> k in s'.disk) && (k in s.disk ==> s'.disk[k] == s.disk[k])
    requires UploadsOk(c, s')
    ensures ArtifactInv(c, s')
  {
    hide MatchIdOf, ObjectOf, UploadsOk, FilesAgree;
    forall k | k in s'.written
      ensures Kept(s', k)
    {
      assert Kept(s, k);
    }
  }

  lemma PickKeepsUploadOk(c: Setup, s: State, pid: nat)
    requires LeaseInv(c, s) && c.startDelay + c.scanAge <= LEASE && DiskIsLast(c, s)
    requires Enabled(c, s, Scan(pid, Pick))
    ensures var s' := Apply(c, s, Scan(pid, Pick));
      pid in s'.ticks && UploadOk(c, s', s'.ticks[pid])
  {
    hide MatchIdOf, ObjectOf, LeaseInv, Stored, IsFresh, Pruned, OnlyName;
    ScanFrame(c, s, pid, Pick);
    PickSparesLiveMatches(c, s, pid);
  }

  lemma ReadKeepsUploadOk(c: Setup, s: State, pid: nat)
    requires DiskIsLast(c, s) && Enabled(c, s, Scan(pid, Read)) && UploadOk(c, s, s.ticks[pid])
    ensures var s' := Apply(c, s, Scan(pid, Read));
      pid in s'.ticks && UploadOk(c, s', s'.ticks[pid])
  {
    hide MatchIdOf, ObjectOf, Stored, OnlyName;
    ScanFrame(c, s, pid, Read);
    SameNames(s, Apply(c, s, Scan(pid, Read)));
  }

  lemma OtherActionUploadsNothing(c: Setup, s: State, pid: nat, a: Action)
    requires Enabled(c, s, Scan(pid, a)) && !a.Pick? && !a.Read? && !a.Put?
    ensures pid in Apply(c, s, Scan(pid, a)).ticks && !Apply(c, s, Scan(pid, a)).ticks[pid].Uploading()
  {
    hide MatchIdOf, ObjectOf, IdsOf, Pruned, IsFresh;
  }

  /** The acting tick, after an action that neither stores nor deletes. */
  lemma ActionKeepsUploadOk(c: Setup, s: State, pid: nat, a: Action)
    requires LeaseInv(c, s) && c.startDelay + c.scanAge <= LEASE && DiskIsLast(c, s)
    requires Enabled(c, s, Scan(pid, a)) && !a.Put? && !a.Delete?
    requires pid in s.ticks && UploadOk(c, s, s.ticks[pid])
    ensures var s' := Apply(c, s, Scan(pid, a));
      pid in s'.ticks && UploadOk(c, s', s'.ticks[pid])
  {
    hide LeaseInv, DiskIsLast, Enabled, Apply;
    match a
    case Pick => PickKeepsUploadOk(c, s, pid);
    case Read => ReadKeepsUploadOk(c, s, pid);
    case _ => OtherActionUploadsNothing(c, s, pid, a);
  }

  lemma SameNames(s: State, s': State)
    requires s'.written == s.written
    ensures forall k :: OnlyName(s', k) == OnlyName(s, k)
  {
    hide SameMatch;
  }

  /** What such an action changes besides its tick: at most a config file goes. */
  lemma ActionFrame(c: Setup, s: State, pid: nat, a: Action)
    requires LeaseInv(c, s) && Enabled(c, s, Scan(pid, a)) && !a.Put? && !a.Delete?
    ensures var s' := Apply(c, s, Scan(pid, a));
      && s'.store == s.store
      && forall k: Place | k.0 != Configs ::
           (k in s.disk <==> k in s'.disk) && (k in s.disk ==> s'.disk[k] == s.disk[k])
  {
    hide MatchIdOf, ObjectOf, LeaseInv, IsFresh, Pruned, IdsOf;
    LeaseOfTick(c, s, pid);
  }

  lemma OtherActionKeepsArtifacts(c: Setup, s: State, pid: nat, a: Action)
    requires ArtifactInv(c, s) && LeaseInv(c, s) && c.startDelay + c.scanAge <= LEASE
    requires Enabled(c, s, Scan(pid, a)) && !a.Put? && !a.Delete?
    ensures ArtifactInv(c, Apply(c, s, Scan(pid, a)))
  {
    hide UploadOk, LeaseInv, FilesAgree, AllKept, DiskIsLast, Enabled, Apply, State.Alive;
    var s' := Apply(c, s, Scan(pid, a));
    EnabledPid(c, s, pid, a);
    ScanFrame(c, s, pid, a);
    ActionFrame(c, s, pid, a);
    ActionKeepsUploadOk(c, s, pid, a);
    OthersKeepUploadOk(c, s, s', pid);
    UntouchedArtifacts(c, s, s');
  }

  lemma LeaseOfTick(c: Setup, s: State, pid: nat)
    requires LeaseInv(c, s) && pid in s.ticks
    ensures s.ticks[pid].stage == Removing ==> s.ticks[pid].folder == Configs
  {
    hide MatchIdOf, ConfigName;
    assert TickOk(c, s, s.ticks[pid]);
  }

  // ---- writing -----------------------------------------------------------------------------------

  /** What a write changes. */
  lemma WriteIs(c: Setup, s: State, step: Step)
    requires Enabled(c, s, step) && step.Writes?
    ensures var k := (step.folder, step.name);
      var s' := Apply(c, s, step);
      && s' == s.(disk := s.disk[k := step.content], written := s.written[k := step.content])
      && k.0 != Configs && k !in c.directories && MatchIdOf(k.1) == Some(step.g.id) && s.IsAlive(step.g.id)
  {
    hide MatchIdOf;
  }

  lemma WriteKeepsFiles(c: Setup, s: State, s': State, k: Place, content: Content)
    requires DiskIsLast(c, s) && AllKept(s) && k.0 != Configs && k !in c.directories
    requires s' == s.(disk := s.disk[k := content], written := s.written[k := content])
    ensures DiskIsLast(c, s') && AllKept(s')
  {
    hide MatchIdOf, ObjectOf;
    forall l | l in s'.written
      ensures Kept(s', l)
    {
      if l != k { assert Kept(s, l); }
    }
  }

  /** The files agree after a write exactly when the others of that match and folder held its content before. */
  lemma WriteAgreesIff(c: Setup, s: State, step: Step)
    requires FilesAgree(s.written) && Enabled(c, s, step) && step.Writes?
    ensures FilesAgree(Apply(c, s, step).written) <==> SettledStep(s, step)
  {
    hide MatchIdOf, State.IsAlive;
    WriteIs(c, s, step);
    var k := (step.folder, step.name);
    var written := s.written[k := step.content];
    if FilesAgree(written) {
      forall l | l in s.written && SameMatch(k, l) && l.1 != k.1
        ensures s.written[l] == step.content
      {
        assert written[l] == written[k];
      }
    }
  }

  /** A live match writes none of the files being uploaded, unless it writes what they hold. */
  lemma WriteKeepsUpload(c: Setup, s: State, s': State, t: Tick, k: Place, content: Content)
    requires UploadOk(c, s, t) && FilesAgree(s.written)
    requires s' == s.(disk := s.disk[k := content], written := s.written[k := content])
    requires MatchIdOf(k.1).Some? && s.IsAlive(MatchIdOf(k.1).value)
    requires forall l | l in s.written && SameMatch(k, l) && l.1 != k.1 :: s.written[l] == content
    ensures UploadOk(c, s', t)
  {
    hide MatchIdOf, ObjectOf, State.IsAlive;
    assert s'.Alive() == s.Alive() && forall id :: s'.IsAlive(id) == s.IsAlive(id) by { SameAlive(s, s'); }
    if t.Uploading() && t.At() == k {
      var l :| l in s.written && SameMatch(k, l) && l != k;
      assert s.written[k] == s.written[l] == content;
    }
  }

  lemma SameAlive(s: State, s': State)
    requires s'.starting == s.starting && s'.running == s.running
    ensures s'.Alive() == s.Alive() && forall id :: s'.IsAlive(id) == s.IsAlive(id)
  {
  }

  lemma WriteKeepsArtifacts(c: Setup, s: State, step: Step)
    requires ArtifactInv(c, s) && Enabled(c, s, step) && SettledStep(s, step) && step.Writes?
    ensures ArtifactInv(c, Apply(c, s, step))
  {
    hide MatchIdOf, FilesAgree, AllKept, DiskIsLast, UploadOk, Enabled, Apply, State.IsAlive;
    var s' := Apply(c, s, step);
    var k := (step.folder, step.name);
    WriteIs(c, s, step);
    WriteKeepsFiles(c, s, s', k, step.content);
    WriteAgreesIff(c, s, step);
    forall pid | pid in s'.ticks
      ensures UploadOk(c, s', s'.ticks[pid])
    {
      WriteKeepsUpload(c, s, s', s.ticks[pid], k, step.content);
    }
  }

  // ---- steps and runs ----------------------------------------------------------------------------

  lemma QuietStepAwakens(c: Setup, s: State, step: Step, id: nat)
    requires Enabled(c, s, step) && !step.Writes? && !step.Scan?
    requires !s.IsAlive(id) && (step.Start? ==> s.launch.id != id)
    ensures !Apply(c, s, step).IsAlive(id)
  {
    hide LaunchConfig;
    forall g | g in Apply(c, s, step).Alive()
      ensures g.id != id
    {
      assert g in s.Alive() ==> s.IsAlive(g.id);
    }
  }

  lemma QuietStepFrame(c: Setup, s: State, step: Step)
    requires Enabled(c, s, step) && !step.Writes? && !step.Scan?
    ensures var s' := Apply(c, s, step);
      && s'.written == s.written && s'.store == s.store
      && (forall k: Place | k.0 != Configs ::
            (k in s.disk <==> k in s'.disk) && (k in s.disk ==> s'.disk[k] == s.disk[k]))
      && forall pid | pid in s'.ticks ::
           if pid in s.ticks then s'.ticks[pid] == s.ticks[pid] else s'.ticks[pid].stage == Waiting
  {
    hide MatchIdOf, ConfigName;
  }

  /** A settled launch wakes no match whose only file is being uploaded. */
  lemma QuietStepKeepsUpload(c: Setup, s: State, step: Step, pid: nat)
    requires Enabled(c, s, step) && SettledStep(s, step) && !step.Writes? && !step.Scan?
    requires pid in s.ticks && UploadOk(c, s, s.ticks[pid])
    ensures UploadOk(c, Apply(c, s, step), s.ticks[pid])
  {
    hide MatchIdOf, OnlyName, Stored, Apply, State.IsAlive, LaunchConfig, FirstFree;
    var t := s.ticks[pid];
    QuietStepFrame(c, s, step);
    if t.Uploading() && OnlyName(s, t.At()) { QuietStepAwakens(c, s, step, t.Id().value); }
    SameUploadOk(c, s, Apply(c, s, step), t);
  }

  lemma QuietStepKeepsArtifacts(c: Setup, s: State, step: Step)
    requires ArtifactInv(c, s) && Enabled(c, s, step) && SettledStep(s, step)
    requires !step.Writes? && !step.Scan?
    ensures ArtifactInv(c, Apply(c, s, step))
  {
    hide FilesAgree, AllKept, DiskIsLast, UploadOk, Enabled, Apply, SettledStep;
    var s' := Apply(c, s, step);
    QuietStepFrame(c, s, step);
    forall pid | pid in s'.ticks
      ensures UploadOk(c, s', s'.ticks[pid])
    {
      if pid in s.ticks { QuietStepKeepsUpload(c, s, step, pid); } else { WaitingUploadsNothing(c, s', s'.ticks[pid]); }
    }
    UntouchedArtifacts(c, s, s');
  }

  lemma WaitingUploadsNothing(c: Setup, s: State, t: Tick)
    requires t.stage == Waiting
    ensures UploadOk(c, s, t)
  {
  }

  lemma StepKeepsArtifacts(c: Setup, s: State, step: Step)
    requires ArtifactInv(c, s) && LeaseInv(c, s) && c.startDelay + c.scanAge <= LEASE
    requires Enabled(c, s, step) && SettledStep(s, step)
    ensures ArtifactInv(c, Apply(c, s, step))
  {
    hide ArtifactInv, LeaseInv, Apply, Enabled, SettledStep;
    match step
    case Scan(pid, Put) => PutKeepsArtifacts(c, s, pid);
    case Scan(pid, Delete) => DeleteKeepsArtifacts(c, s, pid);
    case Scan(pid, a) => OtherActionKeepsArtifacts(c, s, pid, a);
    case Writes(_, _, _, _) => WriteKeepsArtifacts(c, s, step);
    case _ => QuietStepKeepsArtifacts(c, s, step);
  }

  lemma {:induction false} RunKeepsArtifacts(c: Setup, s: State, steps: seq<Step>)
    requires ArtifactInv(c, s) && LockInv(s) && LeaseInv(c, s) && c.startDelay + c.scanAge <= LEASE
    requires Legal(c, s, steps) && Settled(c, s, steps)
    ensures ArtifactInv(c, After(c, s, steps))
    decreases |steps|
  {
    hide ArtifactInv, LockInv, LeaseInv, Apply, Enabled, SettledStep;
    if steps != [] {
      StepKeepsArtifacts(c, s, steps[0]);
      StepKeepsLock(c, s, steps[0]);
      StepKeepsLease(c, s, steps[0]);
      RunKeepsArtifacts(c, Apply(c, s, steps[0]), steps[1..]);
    }
  }

  /** Reached by a settled run that began with files that agree. */
  ghost predicate SettledReachable(c: Setup, s: State) {
    exists s0, steps ::
      && Init(c, s0) && FilesAgree(s0.written)
      && Legal(c, s0, steps) && Settled(c, s0, steps) && After(c, s0, steps) == s
  }

  lemma SettledStatesAreOk(c: Setup, s: State)
    requires SettledReachable(c, s) && c.startDelay + c.scanAge <= LEASE
    ensures ArtifactInv(c, s) && LockInv(s) && LeaseInv(c, s)
  {
    hide ArtifactInv, LockInv, LeaseInv, Init, Legal, Settled, After, FilesAgree;
    var s0, steps :| Init(c, s0) && FilesAgree(s0.written) && Legal(c, s0, steps) && Settled(c, s0, steps)
                     && After(c, s0, steps) == s;
    InitHolds(c, s0);
    InitKeepsArtifacts(c, s0);
    RunKeepsArtifacts(c, s0, steps);
    RunKeepsLease(c, s0, steps);
  }

  lemma InitKeepsArtifacts(c: Setup, s: State)
    requires Init(c, s)
    ensures DiskIsLast(c, s) && AllKept(s) && UploadsOk(c, s)
    ensures FilesAgree(s.written) ==> ArtifactInv(c, s)
  {
  }

  /**
   * Over every settled run, whatever fails and wherever scans stop: the last content of every log and replay there
   * ever was is on disk or stored under its match's key, and no scan is uploading or deleting the only file that a
   * live match has in a folder.
   */
  lemma NoArtifactIsLost(c: Setup, s: State)
    requires SettledReachable(c, s) && c.startDelay + c.scanAge <= 60000
    ensures AllKept(s)
    ensures forall pid | pid in s.ticks && s.ticks[pid].Uploading() ::
              && s.ticks[pid].todo != [] && s.ticks[pid].Id().Some?
              && (OnlyName(s, s.ticks[pid].At()) ==> !s.IsAlive(s.ticks[pid].Id().value))
  {
    hide SettledReachable, Kept;
    SettledStatesAreOk(c, s);
    forall pid | pid in s.ticks && s.ticks[pid].Uploading()
      ensures s.ticks[pid].todo != [] && s.ticks[pid].Id().Some?
      ensures OnlyName(s, s.ticks[pid].At()) ==> !s.IsAlive(s.ticks[pid].Id().value)
    {
      assert UploadOk(c, s, s.ticks[pid]);
    }
  }
}
