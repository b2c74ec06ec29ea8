/** A scan of the replay service that nothing interrupts is one run of the fleet, so what the fleet keeps it keeps. */
module FleetScan {
  import opened Text
  import opened Docker
  import opened Fleet
  import opened FleetArtifacts
  import opened FleetRuns
  import opened FleetServices
  import opened Replays

  /** The scan has gone on: to the entries still to do, or out of its folder with the lock freed. */
  predicate GoesOn(s: State, s': State, pid: nat, going: bool, todo: seq<string>)
    requires pid in s.ticks
  {
    var t := s.ticks[pid];
    && pid in s'.ticks
    && s'.ticks[pid] == (if going then t.(stage := Looping) else t.NextScan()).(
                        todo := s'.ticks[pid].todo, content := s'.ticks[pid].content)
    && (going ==> s'.ticks[pid].todo == todo)
    && s'.locked == (if going then s.locked else s.locked - {BucketOf(t.folder)})
    && s'.starting == s.starting && s'.running == s.running && s'.written == s.written
  }

  // ---- one entry ---------------------------------------------------------------------------------

  lemma FailStep(c: Setup, o: State, s: State, pid: nat) returns (s': State)
    requires Leads(c, o, s) && pid in s.ticks && s.ticks[pid].Critical()
    ensures Leads(c, o, s') && WorldOf(s') == WorldOf(s) && s'.now == s.now && GoesOn(s, s', pid, false, [])
  {
    hide Leads, MatchIdOf, ObjectOf;
    LeadsOn(c, o, s, Scan(pid, Fail));
    s' := Apply(c, s, Scan(pid, Fail));
  }

  lemma PassOverStep(c: Setup, o: State, s: State, pid: nat) returns (s': State)
    requires Leads(c, o, s) && pid in s.ticks && s.ticks[pid].stage == Looping && s.ticks[pid].todo != []
    requires s.ticks[pid].At() in s.disk || s.ticks[pid].At() in c.directories
    requires !Eligible(WorldOf(s), c.directories, s.ticks[pid].running, s.now, s.ticks[pid].At())
    ensures Leads(c, o, s') && WorldOf(s') == WorldOf(s) && s'.now == s.now
    ensures GoesOn(s, s', pid, true, s.ticks[pid].todo[1..])
  {
    hide Leads, MatchIdOf, ObjectOf, IsFresh;
    LeadsOn(c, o, s, Scan(pid, PassOver));
    s' := Apply(c, s, Scan(pid, PassOver));
  }

  lemma PickStepOf(c: Setup, o: State, s: State, pid: nat) returns (s': State)
    requires Leads(c, o, s) && Enabled(c, s, Scan(pid, Pick))
    ensures Leads(c, o, s') && pid in s.ticks && s.ticks[pid].todo != [] && s.ticks[pid].Id().Some?
    ensures var t := s.ticks[pid];
      s' == s.(starts := Pruned(s.starts, s.now, t.Id().value),
               ticks := s.ticks[pid := t.(stage := if t.folder == Configs then Removing else Reading)])
  {
    hide Leads, MatchIdOf, ObjectOf, IsFresh, Pruned;
    LeadsOn(c, o, s, Scan(pid, Pick));
    s' := Apply(c, s, Scan(pid, Pick));
  }

  lemma ConfigIsFleetRun(c: Setup, o: State, s: State, pid: nat, fault: Fault) returns (s': State)
    requires Leads(c, o, s) && Enabled(c, s, Scan(pid, Pick)) && s.ticks[pid].folder == Configs && fault != LookFails
    requires s.ticks[pid].todo != []
    ensures var t := s.ticks[pid];
      var r := Handled(WorldOf(s), c.directories, t.running, t.At(), Visit(s.now, fault));
      Leads(c, o, s') && WorldOf(s') == r.world && s'.now == s.now && GoesOn(s, s', pid, r.going, t.todo[1..])
  {
    hide Leads, MatchIdOf, ObjectOf, IsFresh, Pruned;
    PickNeedsEntry(c, s, pid);
    PickIsEligible(c, s, pid);
    var s1 := PickStepOf(c, o, s, pid);
    if fault == UnlinkFails {
      s' := FailStep(c, o, s1, pid);
    } else {
      LeadsOn(c, o, s1, Scan(pid, Remove));
      s' := Apply(c, s1, Scan(pid, Remove));
    }
  }

  /** The last step of an upload: the file is deleted, or it stays, and the scan goes on or an exception ends it. */
  lemma UploadEnds(c: Setup, o: State, s: State, pid: nat, a: Action) returns (s': State)
    requires Leads(c, o, s) && pid in s.ticks && s.ticks[pid].todo != []
    requires if a.Fail? then s.ticks[pid].Critical()
             else (a.Delete? || a.DeleteFails?) && s.ticks[pid].stage == Deleting
    ensures Leads(c, o, s') && s'.now == s.now
    ensures WorldOf(s') == WorldOf(s).(disk := if a.Delete? then s.disk - {s.ticks[pid].At()} else s.disk)
    ensures GoesOn(s, s', pid, !a.Fail?, s.ticks[pid].todo[1..])
  {
    hide Leads, MatchIdOf, ObjectOf;
    LeadsOn(c, o, s, Scan(pid, a));
    s' := Apply(c, s, Scan(pid, a));
  }

  /** Up to the point where it is stored, or where it fails before that. */
  lemma UploadStands(c: Setup, o: State, s: State, pid: nat, stored: bool) returns (s': State)
    requires Leads(c, o, s) && Enabled(c, s, Scan(pid, Pick)) && s.ticks[pid].folder != Configs
    ensures pid in s.ticks && s.ticks[pid].todo != [] && s.ticks[pid].Id().Some? && s.ticks[pid].At() in s.disk
    ensures var t := s.ticks[pid];
      var read := t.(content := s.disk[t.At()]);
      && Leads(c, o, s')
      && s' == s.(starts := Pruned(s.starts, s.now, t.Id().value),
                  store := if stored then s.store[ObjectOf(t.folder, t.Id().value) := s.disk[t.At()]] else s.store,
                  ticks := s.ticks[pid := read.(stage := if stored then Deleting else Putting)])
  {
    hide Leads, MatchIdOf, ObjectOf, IsFresh, Pruned, Enabled, Apply;
    PickStep(c, s, pid);
    var t := s.ticks[pid];
    LeadsOn(c, o, s, Scan(pid, Pick));
    var s1 := Apply(c, s, Scan(pid, Pick));
    ReadStep(c, s1, pid, t.(stage := Reading));
    LeadsOn(c, o, s1, Scan(pid, Read));
    s' := Apply(c, s1, Scan(pid, Read));
    assert s'.ticks == s.ticks[pid := t.(stage := Putting, content := s.disk[t.At()])];
    if stored {
      var s2 := s';
      PutStep(c, s2, pid, t.(stage := Putting, content := s.disk[t.At()]));
      LeadsOn(c, o, s2, Scan(pid, Put));
      s' := Apply(c, s2, Scan(pid, Put));
      assert s'.ticks == s.ticks[pid := t.(stage := Deleting, content := s.disk[t.At()])];
    }
  }

  lemma UploadIsFleetRun(c: Setup, o: State, s: State, pid: nat, fault: Fault) returns (s': State)
    requires Leads(c, o, s) && Enabled(c, s, Scan(pid, Pick)) && s.ticks[pid].folder != Configs && fault != LookFails
    requires s.ticks[pid].todo != []
    ensures var t := s.ticks[pid];
      var r := Handled(WorldOf(s), c.directories, t.running, t.At(), Visit(s.now, fault));
      Leads(c, o, s') && WorldOf(s') == r.world && s'.now == s.now && GoesOn(s, s', pid, r.going, t.todo[1..])
  {
    hide Leads, MatchIdOf, ObjectOf, IsFresh, Pruned, Enabled;
    PickNeedsEntry(c, s, pid);
    PickIsEligible(c, s, pid);
    var before := UploadStands(c, o, s, pid, fault != UploadFails(false));
    var a := if fault == NoFault then Delete else if fault == UnlinkFails then DeleteFails else Fail;
    s' := UploadEnds(c, o, before, pid, a);
  }

  /** Whatever kind of entry it is, and whatever goes wrong at it. */
  lemma EntryIsFleetRun(c: Setup, o: State, s: State, pid: nat, fault: Fault) returns (s': State)
    requires Leads(c, o, s) && pid in s.ticks && s.ticks[pid].stage == Looping && s.ticks[pid].todo != []
    requires s.now - s.ticks[pid].listedAt <= c.scanAge
    ensures var t := s.ticks[pid];
      var r := Handled(WorldOf(s), c.directories, t.running, t.At(), Visit(s.now, fault));
      Leads(c, o, s') && WorldOf(s') == r.world && s'.now == s.now && GoesOn(s, s', pid, r.going, t.todo[1..])
  {
    hide Leads, Eligible, Taken, Enabled, Apply;
    var t := s.ticks[pid];
    PickIsEligible(c, s, pid);
    if fault == LookFails || (t.At() !in s.disk && t.At() !in c.directories) {
      s' := FailStep(c, o, s, pid);
    } else if !Eligible(WorldOf(s), c.directories, t.running, s.now, t.At()) {
      s' := PassOverStep(c, o, s, pid);
    } else if t.folder == Configs {
      s' := ConfigIsFleetRun(c, o, s, pid, fault);
    } else {
      s' := UploadIsFleetRun(c, o, s, pid, fault);
    }
  }

  // ---- the loop over the entries -----------------------------------------------------------------

  /** The clock can pass to every visit: no container is still to appear by then, and the listing is recent enough. */
  predicate CanWait(c: Setup, s: State, listedAt: int, visits: seq<Visit>) {
    && InTime(s.now, visits)
    && forall v | v in visits ::
         v.now - listedAt <= c.scanAge && forall g | g in s.starting :: v.now - g.startedAt <= c.startDelay
  }

  lemma WaitStep(c: Setup, o: State, s: State, pid: nat, now: int) returns (s': State)
    requires Leads(c, o, s) && s.now <= now && forall g | g in s.starting :: now - g.startedAt <= c.startDelay
    ensures Leads(c, o, s') && s' == s.(now := now)
  {
    hide Leads;
    LeadsOn(c, o, s, Pass(now - s.now));
    s' := Apply(c, s, Pass(now - s.now));
  }

  lemma GoesFurther(s: State, s1: State, s2: State, s': State, pid: nat, going: bool, rest: seq<string>,
                    todo: seq<string>)
    requires pid in s.ticks && s.ticks[pid].stage == Looping && GoesOn(s, s1, pid, true, rest)
    requires s2 == s1.(now := s2.now) && GoesOn(s2, s', pid, going, todo)
    ensures GoesOn(s, s', pid, going, todo)
  {
  }

  lemma StillLoops(s: State, s': State, pid: nat, todo: seq<string>)
    requires pid in s.ticks && s.ticks[pid].stage == Looping && GoesOn(s, s', pid, true, todo)
    ensures var t := s.ticks[pid];
      && pid in s'.ticks && s'.ticks[pid].todo == todo && s'.ticks[pid].stage == Looping
      && s'.ticks[pid].folder == t.folder && s'.ticks[pid].running == t.running
      && s'.ticks[pid].listedAt == t.listedAt && s'.starting == s.starting
  {
  }

  lemma LastVisit(c: Setup, s: State, listedAt: int, visits: seq<Visit>)
    requires CanWait(c, s, listedAt, visits) && visits != []
    ensures var last := visits[|visits| - 1];
      && CanWait(c, s, listedAt, visits[..|visits| - 1]) && s.now <= last.now && last.now - listedAt <= c.scanAge
      && (forall g | g in s.starting :: last.now - g.startedAt <= c.startDelay)
      && (|visits| > 1 ==> visits[..|visits| - 1][|visits| - 2].now <= last.now)
  {
    FewerVisits(c, s, listedAt, visits, |visits| - 1);
    assert visits[|visits| - 1] in visits;
  }

  lemma FewerVisits(c: Setup, s: State, listedAt: int, visits: seq<Visit>, n: nat)
    requires CanWait(c, s, listedAt, visits) && n <= |visits|
    ensures CanWait(c, s, listedAt, visits[..n])
  {
    assert forall v | v in visits[..n] :: v in visits;
  }

  /** The loop does to the files, the store and the map what one run of the fleet does. */
  lemma {:induction false} LoopIsFleetRun(c: Setup, o: State, s: State, pid: nat, names: seq<string>,
                                          rest: seq<string>, visits: seq<Visit>) returns (s': State)
    requires Leads(c, o, s) && pid in s.ticks && s.ticks[pid].stage == Looping && s.ticks[pid].todo == names + rest
    requires |names| == |visits| && CanWait(c, s, s.ticks[pid].listedAt, visits)
    ensures var t := s.ticks[pid];
      var r := Scanned(WorldOf(s), c.directories, t.running, t.folder, names, visits);
      && Leads(c, o, s') && WorldOf(s') == r.world && GoesOn(s, s', pid, r.going, rest)
      && s'.now >= s.now && (names == [] ==> s'.now == s.now) && (names != [] ==> s'.now <= visits[|names| - 1].now)
    decreases |names|
  {
    hide Leads, Handled, CanWait;
    if names == [] {
      s' := s;
      assert [] + rest == rest;
    } else {
      hide GoesOn;
      var n := |names| - 1;
      var front, looks, last := names[..n], visits[..n], visits[n];
      LastVisit(c, s, s.ticks[pid].listedAt, visits);
      assert names + rest == front + ([names[n]] + rest);
      s' := LoopIsFleetRun(c, o, s, pid, front, [names[n]] + rest, looks);
      if Scanned(WorldOf(s), c.directories, s.ticks[pid].running, s.ticks[pid].folder, front, looks).going {
        var s1 := s';
        StillLoops(s, s1, pid, [names[n]] + rest);
        var s2 := WaitStep(c, o, s1, pid, last.now);
        assert ([names[n]] + rest)[1..] == rest;
        s' := EntryIsFleetRun(c, o, s2, pid, last.fault);
        GoesFurther(s, s1, s2, s', pid,
                    Handled(WorldOf(s2), c.directories, s2.ticks[pid].running, s2.ticks[pid].At(), last).going,
                    [names[n]] + rest, rest);
      } else {
        StopsAlike(s, s', pid, [names[n]] + rest, rest);
      }
    }
  }

  lemma StopsAlike(s: State, s': State, pid: nat, rest: seq<string>, todo: seq<string>)
    requires pid in s.ticks && GoesOn(s, s', pid, false, rest)
    ensures GoesOn(s, s', pid, false, todo)
  {
  }

  // ---- the whole scan ----------------------------------------------------------------------------

  /** What a scan is given fits the fleet: docker lists the running games, and the folder what is in it. */
  ghost predicate Fits(c: Setup, s: State, folder: Folder, games: seq<GameServer>, input: ScanInput) {
    && input.Valid()
    && (input.servers.Some? ==>
          input.servers.value == Wrapped(games) && Lists(games, s.running) && HasSafeIds(games))
    && (input.listing.Some? ==>
          && CanWait(c, s, s.now, input.visits)
          && forall n | n in input.listing.value :: (folder, n) in s.disk || (folder, n) in c.directories)
  }

  /** The scan is over, and the tick goes on to its next folder, with the locks as they were. */
  predicate IsOver(s: State, s': State, pid: nat)
    requires pid in s.ticks
  {
    && pid in s'.ticks && s'.ticks[pid].folder == s.ticks[pid].NextScan().folder
    && s'.ticks[pid].stage == s.ticks[pid].NextScan().stage
    && s'.locked == s.locked && s'.starting == s.starting && s'.running == s.running && s'.written == s.written
  }

  lemma SkipStep(c: Setup, o: State, s: State, pid: nat) returns (s': State)
    requires Leads(c, o, s) && pid in s.ticks && s.ticks[pid].stage == Waiting
    requires BucketOf(s.ticks[pid].folder) in s.locked
    ensures Leads(c, o, s') && WorldOf(s') == WorldOf(s) && IsOver(s, s', pid)
  {
    hide Leads;
    LeadsOn(c, o, s, Scan(pid, Skip));
    s' := Apply(c, s, Scan(pid, Skip));
  }

  /** The scan has entered its folder. */
  lemma EnterStep(c: Setup, o: State, s: State, pid: nat) returns (s': State)
    requires Leads(c, o, s) && pid in s.ticks && s.ticks[pid].stage == Waiting
    requires BucketOf(s.ticks[pid].folder) !in s.locked
    ensures var t := s.ticks[pid];
      Leads(c, o, s') &&
      s' == s.(locked := s.locked + {BucketOf(t.folder)}, ticks := s.ticks[pid := t.(stage := Entered)])
  {
    hide Leads;
    LeadsOn(c, o, s, Scan(pid, Enter));
    s' := Apply(c, s, Scan(pid, Enter));
  }

  lemma ListStep(c: Setup, o: State, s: State, pid: nat, games: seq<GameServer>) returns (s': State)
    requires Leads(c, o, s) && pid in s.ticks && s.ticks[pid].stage == Entered
    requires Lists(games, s.running) && HasSafeIds(games)
    ensures Leads(c, o, s') &&
      s' == s.(ticks := s.ticks[pid := s.ticks[pid].(
              stage := Listed, running := RunningIds(Wrapped(games)), listedAt := s.now)])
  {
    hide Leads, Lists, Wrapped, RunningIds, IdsOf;
    RunningIdsAreTheGames(games, s.running);
    LeadsOn(c, o, s, Scan(pid, List));
    s' := Apply(c, s, Scan(pid, List));
  }

  lemma ReadFolderStep(c: Setup, o: State, s: State, pid: nat, names: seq<string>) returns (s': State)
    requires Leads(c, o, s) && pid in s.ticks && s.ticks[pid].stage == Listed
    requires forall n | n in names ::
               (s.ticks[pid].folder, n) in s.disk || (s.ticks[pid].folder, n) in c.directories
    ensures Leads(c, o, s') && s' == s.(ticks := s.ticks[pid := s.ticks[pid].(stage := Looping, todo := names)])
  {
    hide Leads;
    LeadsOn(c, o, s, Scan(pid, ReadFolder(names)));
    s' := Apply(c, s, Scan(pid, ReadFolder(names)));
  }

  lemma FinishStep(c: Setup, o: State, s: State, pid: nat) returns (s': State)
    requires Leads(c, o, s) && pid in s.ticks && s.ticks[pid].stage == Looping && s.ticks[pid].todo == []
    ensures Leads(c, o, s') && WorldOf(s') == WorldOf(s) && GoesOn(s, s', pid, false, [])
  {
    hide Leads;
    LeadsOn(c, o, s, Scan(pid, Finish));
    s' := Apply(c, s, Scan(pid, Finish));
  }

  /** The listed folder is worked through, and the lock is freed. */
  lemma ListedIsFleetRun(c: Setup, o: State, s: State, pid: nat, limit: nat, listing: seq<string>,
                         visits: seq<Visit>) returns (s': State)
    requires Leads(c, o, s) && pid in s.ticks && s.ticks[pid].stage == Listed
    requires |visits| == |listing| && CanWait(c, s, s.ticks[pid].listedAt, visits)
    requires forall n | n in listing ::
               (s.ticks[pid].folder, n) in s.disk || (s.ticks[pid].folder, n) in c.directories
    ensures var t, seen := s.ticks[pid], Seen(listing, limit);
      var r := Scanned(WorldOf(s), c.directories, t.running, t.folder, seen, visits[..|seen|]);
      Leads(c, o, s') && WorldOf(s') == r.world && GoesOn(s, s', pid, false, [])
  {
    hide Leads, Scanned;
    var seen := Seen(listing, limit);
    assert forall n | n in seen :: n in listing;
    FewerVisits(c, s, s.ticks[pid].listedAt, visits, |seen|);
    var s1 := ReadFolderStep(c, o, s, pid, seen);
    assert seen + [] == seen;
    s' := LoopIsFleetRun(c, o, s1, pid, seen, [], visits[..|seen|]);
    if s'.ticks[pid].stage == Looping {
      s' := FinishStep(c, o, s', pid);
    }
  }

  /**
   * A scan that nothing interrupts, whatever its listings and its entries throw, does to the files, the store and the
   * freshness map what one settled run of the fleet does, and frees its lock as that does.
   */
  lemma ScanIsFleetRun(c: Setup, o: State, s: State, pid: nat, games: seq<GameServer>, limit: nat,
                       input: ScanInput) returns (s': State)
    requires Leads(c, o, s) && pid in s.ticks && s.ticks[pid].stage == Waiting
    requires Fits(c, s, s.ticks[pid].folder, games, input)
    ensures Leads(c, o, s') && IsOver(s, s', pid)
    ensures var folder := s.ticks[pid].folder;
      WorldOf(s') == AfterScan(BucketOf(folder) in s.locked, WorldOf(s), c.directories, folder, limit, input)
  {
    hide Leads, Scanned, Wrapped, RunningIds, Lists, HasSafeIds, CanWait;
    var t := s.ticks[pid];
    if BucketOf(t.folder) in s.locked {
      s' := SkipStep(c, o, s, pid);
    } else {
      var s1 := EnterStep(c, o, s, pid);
      assert s1.locked - {BucketOf(t.folder)} == s.locked;
      if input.servers.None? {
        s' := FailStep(c, o, s1, pid);
      } else {
        var s2 := ListStep(c, o, s1, pid, games);
        if input.listing.None? {
          s' := FailStep(c, o, s2, pid);
        } else {
          WaitsAlike(c, s, s2, s.now, input.visits);
          s' := ListedIsFleetRun(c, o, s2, pid, limit, input.listing.value, input.visits);
        }
      }
    }
  }

  lemma WaitsAlike(c: Setup, s: State, s': State, listedAt: int, visits: seq<Visit>)
    requires CanWait(c, s, listedAt, visits) && s'.now == s.now && s'.starting == s.starting
    ensures CanWait(c, s', listedAt, visits)
  {
  }

  /**
   * So within the lease, from any point of a settled run, such a scan keeps every log and replay, on disk or stored.
   */
  lemma ScanKeepsArtifacts(c: Setup, s: State, pid: nat, games: seq<GameServer>, limit: nat, input: ScanInput)
    returns (s': State)
    requires SettledReachable(c, s) && c.startDelay + c.scanAge <= 60000
    requires pid in s.ticks && s.ticks[pid].stage == Waiting && Fits(c, s, s.ticks[pid].folder, games, input)
    ensures var folder := s.ticks[pid].folder;
      var w := AfterScan(BucketOf(folder) in s.locked, WorldOf(s), c.directories, folder, limit, input);
      && WorldOf(s') == w && SettledReachable(c, s') && s'.written == s.written
      && forall k | k in s.written ::
           || (k in w.disk && w.disk[k] == s.written[k])
           || (MatchIdOf(k.1).Some? && ObjectOf(k.0, MatchIdOf(k.1).value) in w.store
               && w.store[ObjectOf(k.0, MatchIdOf(k.1).value)] == s.written[k])
  {
    hide Leads, SettledReachable, AfterScan, MatchIdOf, ObjectOf, Fits;
    LeadsNowhere(c, s);
    s' := ScanIsFleetRun(c, s, s, pid, games, limit, input);
    SettledLeads(c, s, s');
    NoArtifactIsLost(c, s');
    assert AllKept(s');
  }
}
