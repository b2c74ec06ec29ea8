/**
 * The fleet as a state machine: launches, containers, files, stored objects and overlapping scans, in any interleaving.
 *
 * Launches come one at a time, and the next begins at the earliest `launchWait` milliseconds after one has started its
 * container, whether that is listed by then or not. A container is listed, or gone, within `startDelay` milliseconds
 * of its launch, and a scan looks at an entry within `scanAge` milliseconds of listing the containers. Nothing else is
 * assumed of the order or the speed of the steps.
 */
module Fleet {
  import opened Text
  import opened Numerals
  import opened Docker

  datatype Folder = Replays | Configs | Logs

  datatype Bucket = ReplayBucket | LogBucket

  function BucketOf(folder: Folder): Bucket {
    if folder == Replays then ReplayBucket else LogBucket
  }

  type Place = (Folder, string)
  type Content = string
  type Object = (Bucket, string)

  /** Where an artifact of a match is stored; replays are compressed, which the content does not show. */
  function ObjectOf(folder: Folder, id: nat): Object {
    (BucketOf(folder), Decimal(id) + if folder == Replays then ".dem.zip" else ".log")
  }

  datatype Game = Game(id: nat, cpu: nat, startedAt: int)

  datatype LaunchPhase = Idle | SlotFound(id: nat) | CpuFound(id: nat, cpu: nat)

  /** Where a tick stands in the scan of its folder. `Removing` to `Deleting` are at the head of `todo`. */
  datatype Stage = Waiting | Entered | Listed | Looping | Removing | Reading | Putting | Deleting | Over

  datatype Tick = Tick(
    folder: Folder, stage: Stage, running: set<nat>, listedAt: int, todo: seq<string>, content: Content)
  {
    predicate Critical() {
      stage != Waiting && stage != Over
    }

    predicate Holds(b: Bucket) {
      Critical() && BucketOf(folder) == b
    }

    predicate HasListing() {
      Critical() && stage != Entered
    }

    predicate Uploading() {
      stage == Reading || stage == Putting || stage == Deleting
    }

    function At(): Place
      requires todo != []
    {
      (folder, todo[0])
    }

    function Id(): Option<nat>
      requires todo != []
    {
      MatchIdOf(todo[0])
    }

    /** On to the next folder, or to the end; `checkUploadableReplays` scans replays, configs, logs. */
    function NextScan(): Tick {
      match folder
      case Replays => this.(folder := Configs, stage := Waiting)
      case Configs => this.(folder := Logs, stage := Waiting)
      case Logs => this.(stage := Over)
    }

    function NextEntry(): Tick
      requires todo != []
    {
      this.(stage := Looping, todo := todo[1..])
    }
  }

  datatype Setup = Setup(
    pool: nat, cpuCount: nat, launchWait: nat, startDelay: nat, scanAge: nat, directories: set<Place>)

  datatype State = State(
    now: int, starting: set<Game>, running: set<Game>, launch: LaunchPhase,
    readyAt: int,  // when the next launch may begin
    starts: StartMap,
    disk: map<Place, Content>, store: map<Object, Content>,
    written: map<Place, Content>,  // the last content of every log and replay there ever was
    locked: set<Bucket>, ticks: map<nat, Tick>)
  {
    function Alive(): set<Game> {
      starting + running
    }

    predicate IsAlive(id: nat) {
      exists g :: g in Alive() && g.id == id
    }
  }

  datatype Action =
    | Skip | Enter | List | ReadFolder(names: seq<string>) | PassOver | Pick
    | Remove | Read | Put | Delete | DeleteFails | Finish | Fail

  datatype Step =
    | Pass(ms: nat)
    | FindSlot(id: nat) | FindCpu(cpu: nat) | Start | GiveUp
    | Appears(g: Game) | DiesStarting(g: Game) | Stops(g: Game)
    | Writes(g: Game, folder: Folder, name: string, content: Content)
    | TickBegins(pid: nat)
    | Scan(pid: nat, action: Action)

  function CpusOf(games: set<Game>): set<string> {
    set g | g in games :: Decimal(g.cpu)
  }

  function IdsOf(games: set<Game>): set<nat> {
    set g | g in games :: g.id
  }

  function LaunchConfig(id: nat): Place {
    (Configs, ConfigName(id))
  }

  /** The check a scan makes before it touches an entry. */
  predicate MayTouch(s: State, t: Tick)
    requires t.todo != []
  {
    t.Id().Some? && t.Id().value !in t.running && !IsFresh(s.starts, s.now, t.Id().value)
  }

  predicate ActionEnabled(c: Setup, s: State, t: Tick, a: Action) {
    match a
    case Skip => t.stage == Waiting && BucketOf(t.folder) in s.locked
    case Enter => t.stage == Waiting && BucketOf(t.folder) !in s.locked
    case List => t.stage == Entered
    case ReadFolder(names) =>
      t.stage == Listed && forall n | n in names :: (t.folder, n) in s.disk || (t.folder, n) in c.directories
    case PassOver =>
      && t.stage == Looping && t.todo != []
      && (t.At() in c.directories || (t.At() in s.disk && !MayTouch(s, t)))
    case Pick =>
      && t.stage == Looping && t.todo != [] && t.At() !in c.directories && t.At() in s.disk
      && MayTouch(s, t) && s.now - t.listedAt <= c.scanAge
    case Remove => t.stage == Removing && t.todo != []
    case Read => t.stage == Reading && t.todo != [] && t.At() in s.disk
    case Put => t.stage == Putting && t.todo != [] && t.Id().Some?
    case Delete => t.stage == Deleting && t.todo != []
    case DeleteFails => t.stage == Deleting && t.todo != []
    case Finish => t.stage == Looping && t.todo == []
    case Fail => t.Critical()
  }

  function Act(s: State, pid: nat, t: Tick, a: Action): State
    requires exists c :: ActionEnabled(c, s, t, a)
  {
    match a
    case Skip => s.(ticks := s.ticks[pid := t.NextScan()])
    case Enter =>
      s.(locked := s.locked + {BucketOf(t.folder)}, ticks := s.ticks[pid := t.(stage := Entered)])
    case List =>
      s.(ticks := s.ticks[pid := t.(stage := Listed, running := IdsOf(s.running), listedAt := s.now)])
    case ReadFolder(names) => s.(ticks := s.ticks[pid := t.(stage := Looping, todo := names)])
    case PassOver => s.(ticks := s.ticks[pid := t.NextEntry()])
    case Pick =>
      s.(starts := Pruned(s.starts, s.now, t.Id().value),
         ticks := s.ticks[pid := t.(stage := if t.folder == Configs then Removing else Reading)])
    case Remove => s.(disk := s.disk - {t.At()}, ticks := s.ticks[pid := t.NextEntry()])
    case Read => s.(ticks := s.ticks[pid := t.(stage := Putting, content := s.disk[t.At()])])
    case Put =>
      s.(store := s.store[ObjectOf(t.folder, t.Id().value) := t.content],
         ticks := s.ticks[pid := t.(stage := Deleting)])
    case Delete => s.(disk := s.disk - {t.At()}, ticks := s.ticks[pid := t.NextEntry()])
    case DeleteFails => s.(ticks := s.ticks[pid := t.NextEntry()])
    case Finish => s.(locked := s.locked - {BucketOf(t.folder)}, ticks := s.ticks[pid := t.NextScan()])
    case Fail => s.(locked := s.locked - {BucketOf(t.folder)}, ticks := s.ticks[pid := t.NextScan()])
  }

  predicate Enabled(c: Setup, s: State, step: Step) {
    match step
    case Pass(ms) => forall g | g in s.starting :: s.now + ms - g.startedAt <= c.startDelay
    case FindSlot(id) => s.launch == Idle && s.readyAt <= s.now && c.pool - |s.running| > 0 && id < SAFE_LIMIT
    case FindCpu(cpu) => s.launch.SlotFound? && FirstFree(c.cpuCount, CpusOf(s.running), cpu)
    case Start => s.launch.CpuFound? && LaunchConfig(s.launch.id) !in s.disk
    case GiveUp => s.launch != Idle
    case Appears(g) => g in s.starting
    case DiesStarting(g) => g in s.starting
    case Stops(g) => g in s.running
    case Writes(g, folder, name, _) =>
      g in s.Alive() && folder != Configs && MatchIdOf(name) == Some(g.id) && (folder, name) !in c.directories
    case TickBegins(pid) => pid !in s.ticks
    case Scan(pid, action) => pid in s.ticks && ActionEnabled(c, s, s.ticks[pid], action)
  }

  function Apply(c: Setup, s: State, step: Step): State
    requires Enabled(c, s, step)
  {
    match step
    case Pass(ms) => s.(now := s.now + ms)
    case FindSlot(id) => s.(launch := SlotFound(id))
    case FindCpu(cpu) => s.(launch := CpuFound(s.launch.id, cpu))
    case Start =>
      s.(disk := s.disk[LaunchConfig(s.launch.id) := ""], starts := s.starts[s.launch.id := s.now],
         starting := s.starting + {Game(s.launch.id, s.launch.cpu, s.now)}, launch := Idle,
         readyAt := s.now + c.launchWait)
    case GiveUp => s.(launch := Idle)
    case Appears(g) => s.(starting := s.starting - {g}, running := s.running + {g})
    case DiesStarting(g) => s.(starting := s.starting - {g})
    case Stops(g) => s.(running := s.running - {g})
    case Writes(_, folder, name, content) =>
      s.(disk := s.disk[(folder, name) := content], written := s.written[(folder, name) := content])
    case TickBegins(pid) => s.(ticks := s.ticks[pid := Tick(Replays, Waiting, {}, 0, [], "")])
    case Scan(pid, action) => Act(s, pid, s.ticks[pid], action)
  }

  /** Nothing runs yet; the folders and the store may hold anything. */
  predicate Init(c: Setup, s: State) {
    && s.starting == {} && s.running == {} && s.launch == Idle && s.readyAt == s.now && s.starts == map[]
    && s.locked == {} && s.ticks == map[]
    && s.written == (map k | k in s.disk && k.0 != Configs :: s.disk[k])
    && forall k | k in s.written :: k !in c.directories
  }

  predicate Legal(c: Setup, s: State, steps: seq<Step>)
    decreases |steps|
  {
    steps == [] || (Enabled(c, s, steps[0]) && Legal(c, Apply(c, s, steps[0]), steps[1..]))
  }

  function After(c: Setup, s: State, steps: seq<Step>): State
    requires Legal(c, s, steps)
    decreases |steps|
  {
    if steps == [] then s else After(c, Apply(c, s, steps[0]), steps[1..])
  }

  ghost predicate Reachable(c: Setup, s: State) {
    exists s0, steps :: Init(c, s0) && Legal(c, s0, steps) && After(c, s0, steps) == s
  }
}
