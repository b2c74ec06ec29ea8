/** The replay service run without interruption: one scan as the source's loop, and the backlog it works off. */
module Replays {
  import opened Text
  import opened Numerals
  import opened Docker
  import opened Fleet
  import opened FleetRuns

  /** What a scan changes: files, stored objects and the freshness map. */
  datatype World = World(disk: map<Place, Content>, store: map<Object, Content>, starts: StartMap)

  /**
   * What goes wrong at an entry: `lstat` throws, or reading, compressing or putting does, perhaps after the object was
   * stored, or the unlink does.
   */
  datatype Fault = NoFault | LookFails | UploadFails(stored: bool) | UnlinkFails

  /** When a scan comes to an entry, and what goes wrong there. */
  datatype Visit = Visit(now: int, fault: Fault)

  /** What a scan has come to, and whether it goes on or an exception has ended it. */
  datatype Outcome = Outcome(world: World, going: bool)

  /** The entry is a numbered file of a match that is neither listed as running nor fresh. */
  predicate Eligible(w: World, directories: set<Place>, running: set<nat>, now: int, k: Place) {
    var id := MatchIdOf(k.1);
    k in w.disk && k !in directories && id.Some? && id.value !in running && !IsFresh(w.starts, now, id.value)
  }

  /** What becomes of an eligible entry: a config is removed, a log or replay is stored and then removed. */
  function Taken(w: World, k: Place, fault: Fault): Outcome
    requires k in w.disk && MatchIdOf(k.1).Some?
  {
    if k.0 == Configs then
      if fault == UnlinkFails then Outcome(w, false) else Outcome(w.(disk := w.disk - {k}), true)
    else
      var stored := w.(store := w.store[ObjectOf(k.0, MatchIdOf(k.1).value) := w.disk[k]]);
      match fault
      case UploadFails(put) => Outcome(if put then stored else w, false)
      case UnlinkFails => Outcome(stored, true)
      case _ => Outcome(stored.(disk := w.disk - {k}), true)
  }

  /** One entry: an eligible one is taken, after the map was asked about it; anything else is left. */
  function Handled(w: World, directories: set<Place>, running: set<nat>, k: Place, v: Visit): Outcome {
    if v.fault == LookFails || (k !in w.disk && k !in directories) then Outcome(w, false)
    else if !Eligible(w, directories, running, v.now, k) then Outcome(w, true)
    else Taken(w.(starts := Pruned(w.starts, v.now, MatchIdOf(k.1).value)), k, v.fault)
  }

  /** The entries in order, up to the first that throws. */
  function Scanned(w: World, directories: set<Place>, running: set<nat>, folder: Folder,
                   names: seq<string>, visits: seq<Visit>): Outcome
    requires |names| == |visits|
    decreases |names|
  {
    if names == [] then Outcome(w, true)
    else
      var n := |names| - 1;
      var before := Scanned(w, directories, running, folder, names[..n], visits[..n]);
      if before.going then Handled(before.world, directories, running, (folder, names[n]), visits[n]) else before
  }

  function Min(a: nat, b: nat): nat {
    if a < b then a else b
  }

  /** The entries a scan looks at. */
  function Seen(listing: seq<string>, limit: nat): seq<string> {
    listing[..Min(limit, |listing|)]
  }

  function RunningIds(servers: seq<DockerServerWrapper>): set<nat> {
    set s | s in servers && s.matchId.Some? :: s.matchId.value
  }

  /** What one scan is given: docker's listing, the folder's, and how each entry is met. */
  datatype ScanInput = Input(
    servers: Option<seq<DockerServerWrapper>>, listing: Option<seq<string>>, visits: seq<Visit>)
  {
    predicate Valid() {
      listing.Some? ==> |visits| == |listing.value|
    }
  }

  predicate IsLocked(procMap: map<Bucket, bool>, bucket: Bucket) {
    bucket in procMap && procMap[bucket]
  }

  /** The bucket of a folder's scan, and whether its files are compressed. */
  predicate ScansInto(folder: Folder, bucket: Bucket, compress: bool) {
    bucket == BucketOf(folder) && (compress <==> folder == Replays)
  }

  /** What one scan leaves, when its bucket is locked and when it is not. */
  function AfterScan(
    locked: bool, w: World, directories: set<Place>, folder: Folder, limit: nat, input: ScanInput): World
    requires input.Valid()
  {
    if locked || input.servers.None? || input.listing.None? then w
    else
      var seen := Seen(input.listing.value, limit);
      Scanned(w, directories, RunningIds(input.servers.value), folder, seen, input.visits[..|seen|]).world
  }

  /** No file whose name carries this id, and no object under its keys, differs between the two. */
  ghost predicate Spares(w: World, w': World, id: nat) {
    && (forall k: Place | MatchIdOf(k.1) == Some(id) && (k in w.disk || k in w'.disk) ::
          k in w.disk && k in w'.disk && w'.disk[k] == w.disk[k])
    && forall key | (key == (LogBucket, Decimal(id) + ".log") || key == (ReplayBucket, Decimal(id) + ".dem.zip"))
                    && (key in w.store || key in w'.store) ::
         key in w.store && key in w'.store && w'.store[key] == w.store[key]
  }

  /** The match started at most a minute before each of these visits. */
  predicate IsFreshAtAll(starts: StartMap, visits: seq<Visit>, id: nat) {
    id in starts && forall v | v in visits :: v.now - starts[id] <= 60000
  }

  datatype Upload = Uploaded | Kept | Threw

  class ReplayService {
    var procMap: map<Bucket, bool>
    var disk: map<Place, Content>
    var store: map<Object, Content>
    const docker: DockerService

    constructor (docker: DockerService, disk: map<Place, Content>)
      ensures this.docker == docker && procMap == map[] && this.disk == disk && store == map[]
    {
      this.docker, procMap, this.disk, store := docker, map[], disk, map[];
    }

    function CurrentWorld(): World
      reads this, docker
    {
      World(disk, store, docker.serverStartMap)
    }

    /**
     * Reads the file, puts it under the target name, then unlinks it. The file goes only after it was stored; a file
     * that cannot be unlinked stays, and only a failure before that throws.
     */
    method UploadEntity(folder: Folder, filename: string, targetFilename: string, bucket: Bucket, compress: bool,
                        fault: Fault)
      returns (r: Upload)
      modifies this`disk, this`store
      ensures r == Threw <==> (folder, filename) !in old(disk) || fault.UploadFails?
      ensures r == Kept <==> (folder, filename) in old(disk) && fault == UnlinkFails
      ensures disk == if r == Uploaded then old(disk) - {(folder, filename)} else old(disk)
      ensures store ==
        if (folder, filename) in old(disk) && fault != UploadFails(false) then
          old(store)[(bucket, targetFilename + if compress then ".zip" else "") := old(disk)[(folder, filename)]]
        else old(store)
    {
      if (folder, filename) !in disk || fault == UploadFails(false) {
        return Threw;
      }
      var file := disk[(folder, filename)];
      var target := targetFilename;
      if compress {
        target := target + ".zip";
      }
      assert target == targetFilename + if compress then ".zip" else "";
      store := store[(bucket, target) := file];
      if fault == UploadFails(true) {
        return Threw;
      }
      if fault == UnlinkFails {
        return Kept;
      }
      disk := disk - {(folder, filename)};
      return Uploaded;
    }

    /** The body of the scan's loop; `false` when it throws. */
    method HandleEntry(folder: Folder, bucket: Bucket, compress: bool, entity: string, running: set<nat>,
                       directories: set<Place>, v: Visit)
      returns (going: bool)
      requires ScansInto(folder, bucket, compress)
      modifies this`disk, this`store, docker`serverStartMap
      ensures Outcome(CurrentWorld(), going)
           == Handled(old(CurrentWorld()), directories, running, (folder, entity), v)
    {
      hide MatchIdOf, Decimal;
      if v.fault == LookFails || ((folder, entity) !in disk && (folder, entity) !in directories) {
        return false;
      }
      if (folder, entity) in directories {
        return true;
      }
      var matchId := MatchIdOf(entity);
      if matchId.None? || matchId.value in running {
        return true;
      }
      var isFresh := docker.IsFreshServer(v.now, matchId.value);
      if isFresh {
        return true;
      }
      if folder == Configs {
        if v.fault == UnlinkFails {
          return false;
        }
        disk := disk - {(folder, entity)};
        return true;
      }
      var target := Decimal(matchId.value) + if bucket == LogBucket then ".log" else ".dem";
      KeyIsObject(folder, bucket, compress, matchId.value, target);
      var upload := UploadEntity(folder, entity, target, bucket, compress, v.fault);
      return upload != Threw;
    }

    /**
     * One scan. `servers` is what docker lists and `listing` what `readdir` gives, each nothing when it throws, and
     * `visits` says when each entry is looked at and what goes wrong there. A locked bucket is left alone; otherwise
     * its lock is free afterwards, however the scan ended, and the entries up to the limit or the first exception have
     * been handled in order. No file of a match that docker lists, or that started at most a minute before, is touched.
     */
    method ScanUploadableEntities(
      folder: Folder, bucket: Bucket, limit: nat, compress: bool,
      servers: Option<seq<DockerServerWrapper>>, listing: Option<seq<string>>, visits: seq<Visit>,
      directories: set<Place>)
      requires (listing.Some? ==> |visits| == |listing.value|) && ScansInto(folder, bucket, compress)
      modifies this, docker`serverStartMap
      ensures CurrentWorld()
           == old(AfterScan(IsLocked(procMap, bucket), CurrentWorld(), directories, folder, limit,
                            Input(servers, listing, visits)))
      ensures procMap == if old(IsLocked(procMap, bucket)) then old(procMap) else old(procMap)[bucket := false]
      ensures forall g: GameServer |
        servers.Some? && Wrap(Launched(g)) in servers.value && g.id < 0x20_0000_0000_0000 ::
        Spares(old(CurrentWorld()), CurrentWorld(), g.id)
      ensures forall id: nat | IsFreshAtAll(old(docker.serverStartMap), visits, id) ::
        Spares(old(CurrentWorld()), CurrentWorld(), id)
    {
      hide Scanned, Spares, IsLocked, Wrap, Launched, RunningIds, IsFreshAtAll, AfterScan;
      ghost var w, input := CurrentWorld(), Input(servers, listing, visits);
      forall g: GameServer | servers.Some? && Wrap(Launched(g)) in servers.value && g.id < SAFE_LIMIT
        ensures Spares(w, AfterScan(IsLocked(procMap, bucket), w, directories, folder, limit, input), g.id)
      {
        RunningIsSpared(IsLocked(procMap, bucket), w, directories, folder, limit, input, g);
      }
      forall id: nat | IsFreshAtAll(docker.serverStartMap, visits, id)
        ensures Spares(w, AfterScan(IsLocked(procMap, bucket), w, directories, folder, limit, input), id)
      {
        FreshIsSpared(IsLocked(procMap, bucket), w, directories, folder, limit, input, id);
      }
      ScanEntries(folder, bucket, limit, compress, servers, listing, visits, directories);
    }

    /** The scan itself. */
    method ScanEntries(
      folder: Folder, bucket: Bucket, limit: nat, compress: bool,
      servers: Option<seq<DockerServerWrapper>>, listing: Option<seq<string>>, visits: seq<Visit>,
      directories: set<Place>)
      requires (listing.Some? ==> |visits| == |listing.value|) && ScansInto(folder, bucket, compress)
      modifies this, docker`serverStartMap
      ensures CurrentWorld()
           == old(AfterScan(IsLocked(procMap, bucket), CurrentWorld(), directories, folder, limit,
                            Input(servers, listing, visits)))
      ensures procMap == if old(IsLocked(procMap, bucket)) then old(procMap) else old(procMap)[bucket := false]
    {
      hide MatchIdOf, ObjectOf, RunningIds, Handled, ScansInto;
      if bucket in procMap && procMap[bucket] {
        return;
      }
      procMap := procMap[bucket := true];
      if servers.None? || listing.None? {
        procMap := procMap[bucket := false];
        return;
      }
      var running := RunningIds(servers.value);
      var logs := listing.value[..Min(limit, |listing.value|)];
      ghost var looks := visits[..|logs|];
      ghost var w := CurrentWorld();
      var i := 0;
      var going := true;
      while i < |logs| && going
        invariant 0 <= i <= |logs|
        invariant procMap == old(procMap)[bucket := true]
        invariant Outcome(CurrentWorld(), going) == Scanned(w, directories, running, folder, logs[..i], looks[..i])
      {
        assert logs[..i + 1][..i] == logs[..i] && looks[..i + 1][..i] == looks[..i];
        going := HandleEntry(folder, bucket, compress, logs[i], running, directories, visits[i]);
        i := i + 1;
      }
      NothingFollowsException(w, directories, running, folder, logs, looks, i);
      assert logs[..|logs|] == logs && looks[..|logs|] == looks;
      procMap := procMap[bucket := false];
    }

    /** One tick: replays, configs and logs in turn, each with its bucket and limit. */
    method CheckUploadableReplays(replays: ScanInput, configs: ScanInput, logs: ScanInput, directories: set<Place>)
      requires replays.Valid() && configs.Valid() && logs.Valid()
      modifies this, docker`serverStartMap
      ensures CurrentWorld() == old(
        var replaysLocked := IsLocked(procMap, ReplayBucket);
        var logsLocked := IsLocked(procMap, LogBucket);
        var w1 := AfterScan(replaysLocked, CurrentWorld(), directories, Replays, 10, replays);
        var w2 := AfterScan(logsLocked, w1, directories, Configs, 10, configs);
        AfterScan(logsLocked, w2, directories, Logs, 50, logs))
      ensures forall b :: IsLocked(procMap, b) <==> old(IsLocked(procMap, b))
    {
      hide AfterScan;
      ScanUploadableEntities(Replays, ReplayBucket, 10, true,
                             replays.servers, replays.listing, replays.visits, directories);
      ScanUploadableEntities(Configs, LogBucket, 10, false,
                             configs.servers, configs.listing, configs.visits, directories);
      ScanUploadableEntities(Logs, LogBucket, 50, false,
                             logs.servers, logs.listing, logs.visits, directories);
    }
  }

  // ---- what a scan spares ------------------------------------------------------------------------

  lemma StoredElsewhere(folder: Folder, other: nat, id: nat)
    requires folder != Configs && other != id
    ensures ObjectOf(folder, other) != (LogBucket, Decimal(id) + ".log")
    ensures ObjectOf(folder, other) != (ReplayBucket, Decimal(id) + ".dem.zip")
  {
    hide Decimal;
    var suffix := if folder == Replays then ".dem.zip" else ".log";
    var name := Decimal(other) + suffix;
    if name == Decimal(id) + suffix {
      assert name[..|name| - |suffix|] == Decimal(other) && name[..|name| - |suffix|] == Decimal(id);
      DecimalInjective(other, id);
    }
  }

  /** The check lets nothing of this match through at any of these visits. */
  predicate IsGuarded(running: set<nat>, starts: StartMap, visits: seq<Visit>, id: nat) {
    id in running || IsFreshAtAll(starts, visits, id)
  }

  lemma HandledSpares(w: World, directories: set<Place>, running: set<nat>, k: Place, v: Visit, id: nat)
    requires IsGuarded(running, w.starts, [v], id)
    ensures var o := Handled(w, directories, running, k, v);
      && Spares(w, o.world, id)
      && (id !in running ==> id in o.world.starts && o.world.starts[id] == w.starts[id])
  {
    hide Taken, Spares;
    assert v in [v];
    SparesItself(w, id);
    if Eligible(w, directories, running, v.now, k) {
      var other := MatchIdOf(k.1).value;
      assert other != id;
      TakenSpares(w.(starts := Pruned(w.starts, v.now, other)), k, v.fault, id);
      SparesWhatever(w, w.(starts := Pruned(w.starts, v.now, other)), id);
      SparesTransitive(w, w.(starts := Pruned(w.starts, v.now, other)),
                       Taken(w.(starts := Pruned(w.starts, v.now, other)), k, v.fault).world, id);
    }
  }

  lemma SparesWhatever(w: World, w': World, id: nat)
    requires w'.disk == w.disk && w'.store == w.store
    ensures Spares(w, w', id)
  {
  }

  lemma TakenSpares(w: World, k: Place, fault: Fault, id: nat)
    requires k in w.disk && MatchIdOf(k.1).Some? && MatchIdOf(k.1).value != id
    ensures Spares(w, Taken(w, k, fault).world, id) && Taken(w, k, fault).world.starts == w.starts
  {
    hide MatchIdOf, ObjectOf, Decimal;
    if k.0 != Configs { StoredElsewhere(k.0, MatchIdOf(k.1).value, id); }
  }

  lemma SparesTransitive(w: World, w': World, w'': World, id: nat)
    requires Spares(w, w', id) && Spares(w', w'', id)
    ensures Spares(w, w'', id)
  {
    hide MatchIdOf, Decimal;
  }

  lemma {:induction false} ScannedSpares(
    w: World, directories: set<Place>, running: set<nat>, folder: Folder,
    names: seq<string>, visits: seq<Visit>, id: nat)
    requires |names| == |visits| && IsGuarded(running, w.starts, visits, id)
    ensures var w' := Scanned(w, directories, running, folder, names, visits).world;
      && Spares(w, w', id)
      && (id !in running ==> id in w'.starts && w'.starts[id] == w.starts[id])
    decreases |names|
  {
    hide MatchIdOf, Decimal, Handled, Spares;
    if names == [] {
      SparesItself(w, id);
    } else {
      var n := |names| - 1;
      assert forall v | v in visits[..n] :: v in visits;
      ScannedSpares(w, directories, running, folder, names[..n], visits[..n], id);
      var before := Scanned(w, directories, running, folder, names[..n], visits[..n]).world;
      assert visits[n] in visits;
      HandledSpares(before, directories, running, (folder, names[n]), visits[n], id);
      SparesTransitive(w, before, Handled(before, directories, running, (folder, names[n]), visits[n]).world, id);
    }
  }

  lemma SparesItself(w: World, id: nat)
    ensures Spares(w, w, id)
  {
  }

  lemma GuardedIsSpared(locked: bool, w: World, directories: set<Place>, folder: Folder, limit: nat, input: ScanInput,
                        id: nat)
    requires input.Valid()
    requires input.servers.Some? ==> IsGuarded(RunningIds(input.servers.value), w.starts, input.visits, id)
    ensures Spares(w, AfterScan(locked, w, directories, folder, limit, input), id)
  {
    hide Scanned, Spares, RunningIds;
    SparesItself(w, id);
    if input.servers.Some? && input.listing.Some? {
      var seen := Seen(input.listing.value, limit);
      assert forall v | v in input.visits[..|seen|] :: v in input.visits;
      ScannedSpares(w, directories, RunningIds(input.servers.value), folder, seen, input.visits[..|seen|], id);
    }
  }

  /**
   * Any other numbered file is removed, and all but configs are stored under their folder's key first. What goes wrong
   * with an upload ends the scan, and so does a config that cannot be unlinked; another file that cannot stays.
   */
  lemma TheRestIsTaken(w: World, directories: set<Place>, running: set<nat>, k: Place, v: Visit, id: nat)
    requires k in w.disk && k !in directories && MatchIdOf(k.1) == Some(id) && v.fault != LookFails
    requires id !in running && (id in w.starts ==> v.now - w.starts[id] > 60000)
    ensures var o := Handled(w, directories, running, k, v);
      && (o.going <==> if k.0 == Configs then v.fault != UnlinkFails else !v.fault.UploadFails?)
      && o.world.disk == (if v.fault == UnlinkFails || (k.0 != Configs && v.fault.UploadFails?) then w.disk
                          else w.disk - {k})
      && o.world.starts == w.starts - {id}
      && o.world.store == (
         if v.fault == UploadFails(false) then w.store
         else match k.0
           case Configs => w.store
           case Logs => w.store[(LogBucket, Decimal(id) + ".log") := w.disk[k]]
           case Replays => w.store[(ReplayBucket, Decimal(id) + ".dem.zip") := w.disk[k]])
  {
    hide MatchIdOf, Decimal;
  }

  /** Directories, unnumbered files and files of running or fresh matches are left; a failed look ends the scan. */
  lemma TheOthersAreLeft(w: World, directories: set<Place>, running: set<nat>, k: Place, v: Visit)
    requires
      || v.fault == LookFails || k !in w.disk || k in directories || MatchIdOf(k.1).None?
      || MatchIdOf(k.1).value in running
      || (MatchIdOf(k.1).value in w.starts && v.now - w.starts[MatchIdOf(k.1).value] <= 60000)
    ensures Handled(w, directories, running, k, v)
         == Outcome(w, v.fault != LookFails && (k in w.disk || k in directories))
  {
    hide MatchIdOf;
  }

  /** Nothing of a match that docker lists is touched, whatever else it lists. */
  lemma RunningIsSpared(locked: bool, w: World, directories: set<Place>, folder: Folder, limit: nat, input: ScanInput,
                        g: GameServer)
    requires input.Valid()
    requires input.servers.Some? ==> Wrap(Launched(g)) in input.servers.value
    requires g.id < 0x20_0000_0000_0000
    ensures Spares(w, AfterScan(locked, w, directories, folder, limit, input), g.id)
  {
    hide Scanned, Spares, AfterScan, Wrap, Launched;
    WrapId(g);
    GuardedIsSpared(locked, w, directories, folder, limit, input, g.id);
  }

  /** Nothing of a match that started at most a minute before is touched, listed or not. */
  lemma FreshIsSpared(locked: bool, w: World, directories: set<Place>, folder: Folder, limit: nat, input: ScanInput,
                      id: nat)
    requires input.Valid() && IsFreshAtAll(w.starts, input.visits, id)
    ensures Spares(w, AfterScan(locked, w, directories, folder, limit, input), id)
  {
    hide Scanned, Spares, AfterScan, RunningIds;
    GuardedIsSpared(locked, w, directories, folder, limit, input, id);
  }

  lemma KeyIsObject(folder: Folder, bucket: Bucket, compress: bool, id: nat, target: string)
    requires ScansInto(folder, bucket, compress)
    requires target == Decimal(id) + if bucket == LogBucket then ".log" else ".dem"
    ensures (bucket, target + if compress then ".zip" else "") == ObjectOf(folder, id)
  {
    hide Decimal;
    assert ".dem" + ".zip" == ".dem.zip" && target + "" == target;
    assert Decimal(id) + ".dem" + ".zip" == Decimal(id) + (".dem" + ".zip");
  }

  /** Once an entry threw, the rest of the listing does not matter. */
  lemma {:induction false} NothingFollowsException(
    w: World, directories: set<Place>, running: set<nat>, folder: Folder,
    names: seq<string>, visits: seq<Visit>, i: nat)
    requires |names| == |visits| && i <= |names|
    requires i == |names| || !Scanned(w, directories, running, folder, names[..i], visits[..i]).going
    ensures Scanned(w, directories, running, folder, names, visits)
         == Scanned(w, directories, running, folder, names[..i], visits[..i])
    decreases |names|
  {
    hide Handled;
    if i == |names| {
      assert names[..i] == names && visits[..i] == visits;
    } else {
      var n := |names| - 1;
      assert names[..n][..i] == names[..i] && visits[..n][..i] == visits[..i];
      NothingFollowsException(w, directories, running, folder, names[..n], visits[..n], i);
    }
  }

  // ---- what a scan removes -----------------------------------------------------------------------

  /** The clock does not go back during the scan. */
  predicate InTime(start: int, visits: seq<Visit>) {
    && (forall v | v in visits :: start <= v.now)
    && (forall i, j | 0 <= i < j < |visits| :: visits[i].now <= visits[j].now)
  }

  /** On a config nothing is uploaded, so nothing about that can fail. */
  predicate Removes(folder: Folder, fault: Fault) {
    fault == NoFault || (folder == Configs && fault.UploadFails?)
  }

  /** At visit `i` the scan removes `k`, judged by the files and the map as they were before the scan. */
  predicate RemovedAt(w: World, directories: set<Place>, running: set<nat>, folder: Folder,
                      names: seq<string>, visits: seq<Visit>, k: Place, i: nat)
    requires |names| == |visits|
  {
    && i < |names| && k == (folder, names[i]) && Removes(folder, visits[i].fault)
    && Eligible(w, directories, running, visits[i].now, k)
  }

  ghost predicate IsRemoved(w: World, directories: set<Place>, running: set<nat>, folder: Folder,
                            names: seq<string>, visits: seq<Visit>, k: Place)
    requires |names| == |visits|
  {
    exists i: nat :: RemovedAt(w, directories, running, folder, names, visits, k, i)
  }

  /** Asking the map at one time changes no answer from then on. */
  lemma PrunedStaysFresh(starts: StartMap, at: int, asked: nat, now: int, id: nat)
    requires at <= now
    ensures IsFresh(Pruned(starts, at, asked), now, id) <==> IsFresh(starts, now, id)
  {
  }

  /** What one entry does to the disk and to later answers of the map. */
  lemma HandledChanges(w: World, directories: set<Place>, running: set<nat>, k: Place, v: Visit)
    ensures var o := Handled(w, directories, running, k, v);
      && o.world.disk == (if o.going && Removes(k.0, v.fault) && Eligible(w, directories, running, v.now, k)
                          then w.disk - {k} else w.disk)
      && (o.going ==> k in w.disk || k in directories)
      && forall id: nat, now | v.now <= now :: IsFresh(o.world.starts, now, id) <==> IsFresh(w.starts, now, id)
  {
    hide MatchIdOf, ObjectOf, IsFresh, Pruned;
    var o := Handled(w, directories, running, k, v);
    forall id: nat, now | v.now <= now
      ensures IsFresh(o.world.starts, now, id) <==> IsFresh(w.starts, now, id)
    {
      if MatchIdOf(k.1).Some? { PrunedStaysFresh(w.starts, v.now, MatchIdOf(k.1).value, now, id); }
    }
  }

  lemma RemovedInFront(w: World, directories: set<Place>, running: set<nat>, folder: Folder,
                       names: seq<string>, visits: seq<Visit>, k: Place)
    requires |names| == |visits| > 0
    ensures var n := |names| - 1;
      IsRemoved(w, directories, running, folder, names, visits, k) <==>
      || IsRemoved(w, directories, running, folder, names[..n], visits[..n], k)
      || (k == (folder, names[n]) && Removes(folder, visits[n].fault)
          && Eligible(w, directories, running, visits[n].now, k))
  {
    hide Eligible, Removes;
    var n := |names| - 1;
    if i: nat :| RemovedAt(w, directories, running, folder, names, visits, k, i) {
      assert i < n ==> RemovedAt(w, directories, running, folder, names[..n], visits[..n], k, i);
    }
    if i: nat :| RemovedAt(w, directories, running, folder, names[..n], visits[..n], k, i) {
      assert RemovedAt(w, directories, running, folder, names, visits, k, i);
    }
    assert RemovedAt(w, directories, running, folder, names, visits, k, n) <==>
      (k == (folder, names[n]) && Removes(folder, visits[n].fault)
       && Eligible(w, directories, running, visits[n].now, k));
  }

  lemma NothingIsRemoved(w: World, directories: set<Place>, running: set<nat>, folder: Folder)
    ensures forall k :: !IsRemoved(w, directories, running, folder, [], [], k)
  {
  }

  /** Before the last entry the state differs only by what the scan removed, so that entry is judged as at the start. */
  lemma LastIsJudgedAsBefore(w: World, before: World, directories: set<Place>, running: set<nat>, k: Place, now: int)
    requires k in before.disk || k in directories
    requires k in before.disk ==> k in w.disk
    requires forall id: nat :: IsFresh(before.starts, now, id) <==> IsFresh(w.starts, now, id)
    ensures Eligible(before, directories, running, now, k) <==> Eligible(w, directories, running, now, k)
  {
    hide MatchIdOf, IsFresh;
  }

  /**
   * A scan that meets no exception removes exactly the entries that are eligible when it comes to them and whose
   * unlink succeeds, judged by the state before the scan; it changes no other file and no later answer of the map.
   */
  lemma {:induction false} ScanRemovesEligible(
    w: World, directories: set<Place>, running: set<nat>, start: int, folder: Folder,
    names: seq<string>, visits: seq<Visit>)
    requires |names| == |visits| && InTime(start, visits)
    requires Scanned(w, directories, running, folder, names, visits).going
    ensures var w' := Scanned(w, directories, running, folder, names, visits).world;
      && (forall k :: k in w'.disk <==>
            k in w.disk && !IsRemoved(w, directories, running, folder, names, visits, k))
      && (forall k | k in w'.disk :: w'.disk[k] == w.disk[k])
      && (forall id: nat, now | start <= now && (forall v | v in visits :: v.now <= now) ::
            IsFresh(w'.starts, now, id) <==> IsFresh(w.starts, now, id))
    decreases |names|
  {
    hide MatchIdOf, ObjectOf, IsFresh, Handled, Removes, Eligible, IsRemoved;
    if names == [] {
      NothingIsRemoved(w, directories, running, folder);
    } else {
      var n := |names| - 1;
      var front, looks := names[..n], visits[..n];
      var k0, v := (folder, names[n]), visits[n];
      var before := Scanned(w, directories, running, folder, front, looks).world;
      ScanRemovesEligible(w, directories, running, start, folder, front, looks);
      HandledChanges(before, directories, running, k0, v);
      assert v in visits && forall u | u in looks :: u in visits && u.now <= v.now;
      LastIsJudgedAsBefore(w, before, directories, running, k0, v.now);
      forall k
        ensures IsRemoved(w, directories, running, folder, names, visits, k) <==>
          || IsRemoved(w, directories, running, folder, front, looks, k)
          || (k == k0 && Removes(folder, v.fault) && Eligible(w, directories, running, v.now, k))
      {
        RemovedInFront(w, directories, running, folder, names, visits, k);
      }
    }
  }

  predicate ErrorFree(visits: seq<Visit>) {
    forall v | v in visits :: v.fault == NoFault
  }

  predicate Distinct(names: seq<string>) {
    forall i, j | 0 <= i < j < |names| :: names[i] != names[j]
  }

  predicate Present(w: World, directories: set<Place>, folder: Folder, names: seq<string>) {
    forall n | n in names :: (folder, n) in w.disk || (folder, n) in directories
  }

  /** Without faults, a scan of distinct entries that are there goes on to its end. */
  lemma {:induction false} ErrorFreeScanEnds(
    w: World, directories: set<Place>, running: set<nat>, start: int, folder: Folder,
    names: seq<string>, visits: seq<Visit>)
    requires |names| == |visits| && InTime(start, visits) && ErrorFree(visits)
    requires Distinct(names) && Present(w, directories, folder, names)
    ensures Scanned(w, directories, running, folder, names, visits).going
    decreases |names|
  {
    hide MatchIdOf, ObjectOf, Eligible, Taken;
    if names != [] {
      var n := |names| - 1;
      var front, looks := names[..n], visits[..n];
      assert names[n] in names && visits[n] in visits && forall m | m in front :: m in names;
      ErrorFreeScanEnds(w, directories, running, start, folder, front, looks);
      ScanRemovesEligible(w, directories, running, start, folder, front, looks);
      LastIsStillThere(w, directories, running, folder, names, visits);
      NoFaultGoes(Scanned(w, directories, running, folder, front, looks).world, directories, running,
                  (folder, names[n]), visits[n]);
    }
  }

  lemma LastIsStillThere(w: World, directories: set<Place>, running: set<nat>, folder: Folder,
                         names: seq<string>, visits: seq<Visit>)
    requires |names| == |visits| > 0 && Distinct(names)
    ensures var n := |names| - 1;
      !IsRemoved(w, directories, running, folder, names[..n], visits[..n], (folder, names[n]))
  {
  }

  lemma NoFaultGoes(w: World, directories: set<Place>, running: set<nat>, k: Place, v: Visit)
    requires v.fault == NoFault && (k in w.disk || k in directories)
    ensures Handled(w, directories, running, k, v).going
  {
    hide MatchIdOf, ObjectOf, IsFresh;
  }

  /** Two files of a folder that carry one match id share a key, and only the content scanned last survives. */
  lemma SharedIdKeepsOnlyLast(w: World, directories: set<Place>, running: set<nat>, folder: Folder,
                              first: string, last: string, v: Visit, u: Visit)
    requires folder != Configs && first != last && MatchIdOf(first) == MatchIdOf(last)
    requires v.fault == NoFault && u.fault == NoFault && v.now <= u.now
    requires Eligible(w, directories, running, v.now, (folder, first))
    requires Eligible(w, directories, running, u.now, (folder, last))
    ensures var o := Scanned(w, directories, running, folder, [first, last], [v, u]);
      && o.going && (folder, first) !in o.world.disk && (folder, last) !in o.world.disk
      && o.world.store == w.store[ObjectOf(folder, MatchIdOf(last).value) := w.disk[(folder, last)]]
  {
    hide MatchIdOf, ObjectOf, IsFresh, Pruned;
    assert [first, last][..1] == [first] && [first][..0] == [] && [v, u][..1] == [v] && [v][..0] == [];
    var before := Handled(w, directories, running, (folder, first), v);
    assert Scanned(w, directories, running, folder, [first], [v]) == before;
    HandledChanges(w, directories, running, (folder, first), v);
    LastIsJudgedAsBefore(w, before.world, directories, running, (folder, last), u.now);
  }

  // ---- progress ----------------------------------------------------------------------------------

  /** A listing names every entry of the folder once, in any order. */
  ghost predicate IsListing(w: World, directories: set<Place>, folder: Folder, listing: seq<string>) {
    && (forall n :: n in listing <==> (folder, n) in w.disk || (folder, n) in directories)
    && Distinct(listing)
  }

  /** The entries that a scan at this time passes over. */
  function Ineligible(w: World, directories: set<Place>, running: set<nat>, now: int, folder: Folder): set<string> {
    (set k | k in w.disk && k.0 == folder && !Eligible(w, directories, running, now, k) :: k.1)
    + (set k | k in directories && k.0 == folder && !Eligible(w, directories, running, now, k) :: k.1)
  }

  lemma {:induction false} DistinctMembers(names: seq<string>, s: set<string>)
    requires Distinct(names) && forall n | n in names :: n in s
    ensures |names| <= |s|
    decreases |names|
  {
    if names != [] {
      var last := names[|names| - 1];
      var front := names[..|names| - 1];
      forall n | n in front
        ensures n in s - {last}
      {
        var i :| 0 <= i < |front| && front[i] == n;
        assert names[i] != last;
      }
      DistinctMembers(front, s - {last});
    }
  }

  /** An entry that is eligible stays so as time passes. */
  lemma EligibleStays(w: World, directories: set<Place>, running: set<nat>, start: int, now: int, k: Place)
    requires Eligible(w, directories, running, start, k) && start <= now
    ensures Eligible(w, directories, running, now, k)
  {
    hide MatchIdOf;
  }

  lemma EligibleIsFile(w: World, directories: set<Place>, running: set<nat>, now: int, k: Place)
    requires Eligible(w, directories, running, now, k)
    ensures k in w.disk && k !in directories
  {
  }

  lemma SeenIsThere(w: World, directories: set<Place>, folder: Folder, listing: seq<string>, limit: nat)
    requires IsListing(w, directories, folder, listing)
    ensures Distinct(Seen(listing, limit)) && Present(w, directories, folder, Seen(listing, limit))
  {
    forall n | n in Seen(listing, limit)
      ensures n in listing
    {
    }
  }

  lemma PassedOverAreIneligible(w: World, directories: set<Place>, running: set<nat>, now: int, folder: Folder,
                                listing: seq<string>)
    requires IsListing(w, directories, folder, listing)
    ensures forall n | n in listing && !Eligible(w, directories, running, now, (folder, n)) ::
              n in Ineligible(w, directories, running, now, folder)
  {
    hide Eligible, Distinct;
    forall n | n in listing && !Eligible(w, directories, running, now, (folder, n))
      ensures n in Ineligible(w, directories, running, now, folder)
    {
      assert (folder, n) in w.disk || (folder, n) in directories;
    }
  }

  /** While the entries passed over are fewer than the limit, any order of the listing shows the scan some eligible. */
  lemma SomeEligibleIsSeen(w: World, directories: set<Place>, running: set<nat>, now: int, folder: Folder,
                           listing: seq<string>, limit: nat) returns (i: nat)
    requires IsListing(w, directories, folder, listing)
    requires |Ineligible(w, directories, running, now, folder)| < limit
    requires exists n :: Eligible(w, directories, running, now, (folder, n))
    ensures i < |Seen(listing, limit)| && Eligible(w, directories, running, now, (folder, Seen(listing, limit)[i]))
  {
    hide Eligible, Ineligible, Distinct;
    var seen := Seen(listing, limit);
    var skipped := Ineligible(w, directories, running, now, folder);
    PassedOverAreIneligible(w, directories, running, now, folder, listing);
    SeenIsThere(w, directories, folder, listing, limit);
    if |listing| <= limit {
      var name :| Eligible(w, directories, running, now, (folder, name));
      EligibleIsFile(w, directories, running, now, (folder, name));
      assert seen == listing && name in seen;
      i :| 0 <= i < |seen| && seen[i] == name;
    } else if forall n | n in seen :: n in skipped {
      DistinctMembers(seen, skipped);
      assert false;
    } else {
      var name :| name in seen && name !in skipped;
      assert name in listing;
      i :| 0 <= i < |seen| && seen[i] == name;
    }
  }

  /** Whatever the pace, an error-free scan then removes some file and adds none. */
  lemma ScanMakesProgress(w: World, directories: set<Place>, running: set<nat>, start: int, folder: Folder,
                          listing: seq<string>, limit: nat, visits: seq<Visit>)
    requires IsListing(w, directories, folder, listing) && |visits| == |Seen(listing, limit)|
    requires InTime(start, visits) && ErrorFree(visits)
    requires |Ineligible(w, directories, running, start, folder)| < limit
    requires exists n :: Eligible(w, directories, running, start, (folder, n))
    ensures var w' := Scanned(w, directories, running, folder, Seen(listing, limit), visits).world;
      w'.disk.Keys < w.disk.Keys
  {
    hide MatchIdOf, Eligible, Ineligible;
    var seen := Seen(listing, limit);
    var i := SomeEligibleIsSeen(w, directories, running, start, folder, listing, limit);
    var k := (folder, seen[i]);
    assert visits[i] in visits;
    EligibleStays(w, directories, running, start, visits[i].now, k);
    EligibleIsFile(w, directories, running, start, k);
    SeenIsThere(w, directories, folder, listing, limit);
    ErrorFreeScanEnds(w, directories, running, start, folder, seen, visits);
    ScanRemovesEligible(w, directories, running, start, folder, seen, visits);
    assert RemovedAt(w, directories, running, folder, seen, visits, k, i);
  }

  lemma {:induction false} SetAsListing(s: set<string>) returns (names: seq<string>)
    ensures Distinct(names) && |names| == |s| && forall n :: n in names <==> n in s
  {
    if s == {} {
      names := [];
    } else {
      var n :| n in s;
      var others := SetAsListing(s - {n});
      names := others + [n];
    }
  }

  /** The entries of a folder. */
  function Entries(w: World, directories: set<Place>, folder: Folder): set<string> {
    (set k | k in w.disk && k.0 == folder :: k.1) + (set k | k in directories && k.0 == folder :: k.1)
  }

  lemma EntriesAre(w: World, directories: set<Place>, running: set<nat>, now: int, folder: Folder)
    ensures forall n :: n in Entries(w, directories, folder) <==> (folder, n) in w.disk || (folder, n) in directories
    ensures var skipped := Ineligible(w, directories, running, now, folder);
      skipped <= Entries(w, directories, folder) &&
      forall n | n in skipped :: !Eligible(w, directories, running, now, (folder, n))
  {
    hide Eligible;
    forall n
      ensures n in Entries(w, directories, folder) <==> (folder, n) in w.disk || (folder, n) in directories
    {
      assert (folder, n).0 == folder && (folder, n).1 == n;
    }
  }

  lemma DistinctConcat(a: seq<string>, b: seq<string>)
    requires Distinct(a) && Distinct(b) && forall n | n in a :: n !in b
    ensures Distinct(a + b)
  {
    forall i, j | 0 <= i < j < |a + b|
      ensures (a + b)[i] != (a + b)[j]
    {
      assert i < |a| ==> (a + b)[i] in a;
      assert j >= |a| ==> (a + b)[j] in b;
    }
  }

  /** A listing that has the entries to pass over first. */
  lemma WorstListing(w: World, directories: set<Place>, running: set<nat>, now: int, folder: Folder, limit: nat)
    returns (listing: seq<string>)
    requires limit <= |Ineligible(w, directories, running, now, folder)|
    ensures IsListing(w, directories, folder, listing) && |Seen(listing, limit)| == limit
    ensures forall n | n in Seen(listing, limit) :: !Eligible(w, directories, running, now, (folder, n))
  {
    hide MatchIdOf, Eligible, Ineligible, Entries, Distinct;
    var skipped := Ineligible(w, directories, running, now, folder);
    EntriesAre(w, directories, running, now, folder);
    var first := SetAsListing(skipped);
    var last := SetAsListing(Entries(w, directories, folder) - skipped);
    DistinctConcat(first, last);
    listing := first + last;
    assert Seen(listing, limit) == first[..limit];
    forall n | n in first[..limit]
      ensures n in first
    {
    }
  }

  /** In whatever order the folder is listed, and at whatever pace, an error-free scan removes something. */
  ghost predicate AlwaysProgresses(w: World, directories: set<Place>, running: set<nat>, start: int, folder: Folder,
                                   limit: nat) {
    forall listing, visits |
      && IsListing(w, directories, folder, listing) && |visits| == |Seen(listing, limit)|
      && InTime(start, visits) && ErrorFree(visits) ::
      Scanned(w, directories, running, folder, Seen(listing, limit), visits).world.disk.Keys < w.disk.Keys
  }

  /** With as many entries to pass over as the limit, a scan that finds them first removes nothing. */
  lemma ScanCanStarve(w: World, directories: set<Place>, running: set<nat>, start: int, folder: Folder, limit: nat)
    requires limit <= |Ineligible(w, directories, running, start, folder)|
    ensures !AlwaysProgresses(w, directories, running, start, folder, limit)
  {
    hide MatchIdOf, Eligible, Ineligible, Scanned;
    var listing := WorstListing(w, directories, running, start, folder, limit);
    var seen := Seen(listing, limit);
    var visits := seq(limit, _ => Visit(start, NoFault));
    SeenIsThere(w, directories, folder, listing, limit);
    ErrorFreeScanEnds(w, directories, running, start, folder, seen, visits);
    ScanRemovesEligible(w, directories, running, start, folder, seen, visits);
    forall k
      ensures !IsRemoved(w, directories, running, folder, seen, visits, k)
    {
    }
    assert w.disk.Keys <= Scanned(w, directories, running, folder, seen, visits).world.disk.Keys;
  }

  /**
   * When something is eligible, every error-free scan makes progress, in any order of the listing, exactly when the
   * entries to pass over are fewer than the limit.
   */
  lemma ScanProgressesIffFewPassedOver(
    w: World, directories: set<Place>, running: set<nat>, start: int, folder: Folder, limit: nat)
    requires exists n :: Eligible(w, directories, running, start, (folder, n))
    ensures AlwaysProgresses(w, directories, running, start, folder, limit) <==>
            |Ineligible(w, directories, running, start, folder)| < limit
  {
    hide Eligible, Ineligible, Scanned, IsListing;
    if |Ineligible(w, directories, running, start, folder)| < limit {
      forall listing, visits |
        && IsListing(w, directories, folder, listing) && |visits| == |Seen(listing, limit)|
        && InTime(start, visits) && ErrorFree(visits)
        ensures Scanned(w, directories, running, folder, Seen(listing, limit), visits).world.disk.Keys < w.disk.Keys
      {
        ScanMakesProgress(w, directories, running, start, folder, listing, limit, visits);
      }
    } else {
      ScanCanStarve(w, directories, running, start, folder, limit);
    }
  }

  /** One scan of a series: when it begins, which matches it sees running, its listing, and its visits. */
  datatype Round = Round(start: int, running: set<nat>, listing: seq<string>, visits: seq<Visit>)

  /** The scan meets no error, its clock does not go back, and each entry it looks at has its visit. */
  predicate RunsClean(limit: nat, r: Round) {
    |r.visits| == |Seen(r.listing, limit)| && InTime(r.start, r.visits) && ErrorFree(r.visits)
  }

  function AfterRound(w: World, directories: set<Place>, folder: Folder, limit: nat, r: Round): World
    requires RunsClean(limit, r)
  {
    Scanned(w, directories, r.running, folder, Seen(r.listing, limit), r.visits).world
  }

  /** The state that round `k` finds. */
  function WorldAt(w: World, directories: set<Place>, folder: Folder, limit: nat, rounds: seq<Round>, k: nat): World
    requires k <= |rounds| && forall i | 0 <= i < |rounds| :: RunsClean(limit, rounds[i])
  {
    if k == 0 then w
    else AfterRound(WorldAt(w, directories, folder, limit, rounds, k - 1), directories, folder, limit, rounds[k - 1])
  }

  /** The listing is true to its time, and fewer entries are passed over than the limit. */
  ghost predicate HasRoom(w: World, directories: set<Place>, folder: Folder, limit: nat, r: Round) {
    && IsListing(w, directories, folder, r.listing)
    && |Ineligible(w, directories, r.running, r.start, folder)| < limit
  }

  ghost predicate Workable(w: World, directories: set<Place>, folder: Folder, limit: nat, rounds: seq<Round>) {
    && (forall k | 0 <= k < |rounds| :: RunsClean(limit, rounds[k]))
    && forall k | 0 <= k < |rounds| ::
         HasRoom(WorldAt(w, directories, folder, limit, rounds, k), directories, folder, limit, rounds[k])
  }

  /** Something in the folder is eligible when this round begins. */
  ghost predicate HasWork(w: World, directories: set<Place>, folder: Folder, r: Round) {
    exists n :: Eligible(w, directories, r.running, r.start, (folder, n))
  }

  lemma ProperSubsetIsSmaller<T>(a: set<T>, b: set<T>)
    requires a < b
    ensures |a| < |b|
  {
    assert b == a + (b - a);
    assert b - a != {};
  }

  lemma RoundShrinks(w: World, directories: set<Place>, folder: Folder, limit: nat, r: Round)
    requires RunsClean(limit, r) && HasRoom(w, directories, folder, limit, r) && HasWork(w, directories, folder, r)
    ensures |AfterRound(w, directories, folder, limit, r).disk| < |w.disk|
  {
    hide Eligible, Scanned, Ineligible, IsListing, InTime, ErrorFree;
    ScanMakesProgress(w, directories, r.running, r.start, folder, r.listing, limit, r.visits);
    ProperSubsetIsSmaller(AfterRound(w, directories, folder, limit, r).disk.Keys, w.disk.Keys);
  }

  /** Every round that has work leaves fewer files. */
  lemma {:induction false} DiskShrinks(
    w: World, directories: set<Place>, folder: Folder, limit: nat, rounds: seq<Round>, k: nat)
    requires Workable(w, directories, folder, limit, rounds) && k <= |rounds|
    requires forall i | 0 <= i < k :: HasWork(WorldAt(w, directories, folder, limit, rounds, i), directories, folder,
                                              rounds[i])
    ensures |WorldAt(w, directories, folder, limit, rounds, k).disk| + k <= |w.disk|
  {
    hide AfterRound, HasRoom, HasWork, RunsClean;
    if k > 0 {
      DiskShrinks(w, directories, folder, limit, rounds, k - 1);
      var before := WorldAt(w, directories, folder, limit, rounds, k - 1);
      RoundShrinks(before, directories, folder, limit, rounds[k - 1]);
    }
  }

  /** The backlog drains: with no new files, one of more error-free scans than there are files finds nothing to do. */
  lemma BacklogDrains(w: World, directories: set<Place>, folder: Folder, limit: nat, rounds: seq<Round>)
    requires Workable(w, directories, folder, limit, rounds) && |rounds| > |w.disk|
    ensures exists k :: 0 <= k < |rounds| &&
              !HasWork(WorldAt(w, directories, folder, limit, rounds, k), directories, folder, rounds[k])
  {
    hide HasWork, HasRoom, RunsClean;
    if forall k | 0 <= k < |rounds| ::
      HasWork(WorldAt(w, directories, folder, limit, rounds, k), directories, folder, rounds[k])
    {
      DiskShrinks(w, directories, folder, limit, rounds, |rounds|);
    }
  }

  // ---- the scan and the fleet --------------------------------------------------------------------

  function WorldOf(s: State): World {
    World(s.disk, s.store, s.starts)
  }

  /** The last step: the file is deleted, or it stays, and the scan goes on or an exception ends it. */
  lemma LastStep(c: Setup, s: State, pid: nat, t: Tick, a: Action)
    requires pid in s.ticks && s.ticks[pid] == t && t.todo != []
    requires if a.Fail? then t.Critical() else (a.Delete? || a.DeleteFails?) && t.stage == Deleting
    ensures Enabled(c, s, Scan(pid, a))
    ensures var s' := Apply(c, s, Scan(pid, a));
      && WorldOf(s') == WorldOf(s).(disk := if a.Delete? then s.disk - {t.At()} else s.disk)
      && pid in s'.ticks && (s'.ticks[pid].stage == Looping <==> !a.Fail?)
  {
    hide MatchIdOf, ObjectOf;
  }

  lemma UploadSteps(c: Setup, s: State, pid: nat) returns (s1: State, s2: State, s3: State)
    requires Enabled(c, s, Scan(pid, Pick)) && s.ticks[pid].folder != Configs
    ensures var t := s.ticks[pid];
      && t.todo != [] && t.Id().Some? && t.At() in s.disk
      && Apply(c, s, Scan(pid, Pick)) == s1
      && WorldOf(s1) == WorldOf(s).(starts := Pruned(s.starts, s.now, t.Id().value))
      && Enabled(c, s1, Scan(pid, Read)) && Apply(c, s1, Scan(pid, Read)) == s2 && WorldOf(s2) == WorldOf(s1)
      && Enabled(c, s2, Scan(pid, Put)) && Apply(c, s2, Scan(pid, Put)) == s3
      && WorldOf(s3) == WorldOf(s1).(store := s.store[ObjectOf(t.folder, t.Id().value) := s.disk[t.At()]])
      && pid in s2.ticks && s2.ticks[pid] == t.(stage := Putting, content := s.disk[t.At()])
      && pid in s3.ticks && s3.ticks[pid] == t.(stage := Deleting, content := s.disk[t.At()])
  {
    hide MatchIdOf, ObjectOf, Pruned, Enabled, Apply;
    PickStep(c, s, pid);
    var t := s.ticks[pid];
    s1 := Apply(c, s, Scan(pid, Pick));
    ReadStep(c, s1, pid, t.(stage := Reading));
    s2 := Apply(c, s1, Scan(pid, Read));
    PutStep(c, s2, pid, t.(stage := Putting, content := s.disk[t.At()]));
    s3 := Apply(c, s2, Scan(pid, Put));
  }

  /** The fleet's steps for a log or replay at which this goes wrong. */
  function StepsOf(pid: nat, fault: Fault): seq<Step> {
    [Scan(pid, Pick)] + ([Scan(pid, Read)] +
    match fault
    case NoFault => [Scan(pid, Put)] + [Scan(pid, Delete)]
    case UnlinkFails => [Scan(pid, Put)] + [Scan(pid, DeleteFails)]
    case UploadFails(stored) => (if stored then [Scan(pid, Put)] else []) + [Scan(pid, Fail)]
    case LookFails => [])
  }

  lemma OneStep(c: Setup, s: State, step: Step)
    requires Enabled(c, s, step)
    ensures Legal(c, s, [step]) && After(c, s, [step]) == Apply(c, s, step)
  {
    hide Enabled, Apply;
    assert Legal(c, Apply(c, s, step), []) && [step][1..] == [];
  }

  /**
   * Handling a log or replay without interruption does what the fleet's steps do to it in a row, whatever goes wrong,
   * and the scan goes on to its next entry, or ends, accordingly.
   */
  lemma HandledIsFleetSteps(c: Setup, s: State, pid: nat, fault: Fault)
    requires Enabled(c, s, Scan(pid, Pick)) && s.ticks[pid].folder != Configs && fault != LookFails
    ensures var t := s.ticks[pid];
      var o := Handled(WorldOf(s), c.directories, t.running, t.At(), Visit(s.now, fault));
      && Legal(c, s, StepsOf(pid, fault))
      && var s' := After(c, s, StepsOf(pid, fault));
         WorldOf(s') == o.world && pid in s'.ticks && (s'.ticks[pid].stage == Looping <==> o.going)
  {
    hide MatchIdOf, ObjectOf, Pruned, Legal, After, IsFresh, Enabled, Apply;
    PickNeedsEntry(c, s, pid);
    PickIsEligible(c, s, pid);
    var s1, s2, s3 := UploadSteps(c, s, pid);
    var a := if fault == NoFault then Delete else if fault == UnlinkFails then DeleteFails else Fail;
    var early := fault == UploadFails(false);
    var before := if early then s2 else s3;
    LastStep(c, before, pid, before.ticks[pid], a);
    OneStep(c, before, Scan(pid, a));
    if !early { RunBegins(c, s2, Scan(pid, Put), [Scan(pid, a)]); }
    var rest := (if early then [] else [Scan(pid, Put)]) + [Scan(pid, a)];
    assert early ==> rest == [Scan(pid, a)];
    RunBegins(c, s1, Scan(pid, Read), rest);
    RunBegins(c, s, Scan(pid, Pick), [Scan(pid, Read)] + rest);
    assert StepsOf(pid, fault) == [Scan(pid, Pick)] + ([Scan(pid, Read)] + rest);
  }

  lemma PickNeedsEntry(c: Setup, s: State, pid: nat)
    requires Enabled(c, s, Scan(pid, Pick))
    ensures pid in s.ticks && s.ticks[pid].stage == Looping && s.ticks[pid].todo != []
  {
    hide MayTouch;
  }

  /** The fleet picks an entry exactly when an uninterrupted scan would take it, while its listing is recent enough. */
  lemma PickIsEligible(c: Setup, s: State, pid: nat)
    requires pid in s.ticks && s.ticks[pid].stage == Looping && s.ticks[pid].todo != []
    ensures Enabled(c, s, Scan(pid, Pick)) <==>
      && Eligible(WorldOf(s), c.directories, s.ticks[pid].running, s.now, s.ticks[pid].At())
      && s.now - s.ticks[pid].listedAt <= c.scanAge
  {
    hide MatchIdOf, IsFresh;
  }
}
