/** The docker service: names and labels that carry match ids, the freshness map, CPU allocation and launching. */
module Docker {
  import opened Text
  import opened Numerals
  import opened Values

  // ---- match ids in names ------------------------------------------------------------------------

  function ConfigName(id: nat): string { Decimal(id) + ".json" }

  function LogName(id: nat): string { "match_" + Decimal(id) + ".log" }

  function ContainerName(id: nat): string { "/match" + Decimal(id) }

  /** `name.replace(/\D+/g, '')` */
  function DigitsOf(s: string): (r: string)
    ensures AllDigits(r)
  {
    if s == "" then "" else (if IsDigit(s[0]) then [s[0]] else "") + DigitsOf(s[1..])
  }

  /** `parseInt` on a text that begins with a digit, and on the empty text; the result is a double. */
  function ParseInt(s: string): Option<nat> {
    var n := DigitRun(s);
    if n == 0 then None else Some(NearestDouble(ToNat(s[..n])))
  }

  function MatchIdOf(filename: string): Option<nat> {
    ParseInt(DigitsOf(filename))
  }

  lemma {:induction false} DigitsOfConcat(a: string, b: string)
    ensures DigitsOf(a + b) == DigitsOf(a) + DigitsOf(b)
  {
    if a == "" {
      assert a + b == b;
    } else {
      assert (a + b)[1..] == a[1..] + b;
      DigitsOfConcat(a[1..], b);
    }
  }

  lemma {:induction false} DigitsOfDigits(s: string)
    requires AllDigits(s)
    ensures DigitsOf(s) == s
  {
    if s != "" {
      DigitsOfDigits(s[1..]);
    }
  }

  lemma {:induction false} DigitsOfOther(s: string)
    requires forall i | 0 <= i < |s| :: !IsDigit(s[i])
    ensures DigitsOf(s) == ""
  {
    if s != "" {
      DigitsOfOther(s[1..]);
    }
  }

  lemma ParseIntOfDecimal(id: nat)
    ensures ParseInt(Decimal(id)) == Some(NearestDouble(id))
  {
    hide NearestDouble;
    ParseIntStops(id, "");
    assert Decimal(id) + "" == Decimal(id);
  }

  /** What follows the digits does not matter. */
  lemma ParseIntStops(id: nat, rest: string)
    requires rest == "" || !IsDigit(rest[0])
    ensures ParseInt(Decimal(id) + rest) == Some(NearestDouble(id))
  {
    hide NearestDouble, Decimal, DigitRun;
    DigitRunStops(Decimal(id), rest);
    ToNatOfDecimal(id);
    assert (Decimal(id) + rest)[..|Decimal(id)|] == Decimal(id);
  }

  lemma ParseIntNeedsDigit(s: string)
    ensures ParseInt(s).None? <==> s == "" || !IsDigit(s[0])
  {
  }

  /** A name has an id exactly when there is a digit in it. */
  lemma {:induction false} NumberedIffDigit(name: string)
    ensures MatchIdOf(name).Some? <==> exists i :: 0 <= i < |name| && '0' <= name[i] <= '9'
  {
    hide ParseInt;
    ParseIntNeedsDigit(DigitsOf(name));
    if name != "" {
      NumberedIffDigit(name[1..]);
      ParseIntNeedsDigit(DigitsOf(name[1..]));
    }
  }

  lemma AffixedId(prefix: string, id: nat, suffix: string)
    requires forall i | 0 <= i < |prefix| :: !IsDigit(prefix[i])
    requires forall i | 0 <= i < |suffix| :: !IsDigit(suffix[i])
    ensures MatchIdOf(prefix + Decimal(id) + suffix) == Some(NearestDouble(id))
  {
    hide DigitsOf, ParseInt, NearestDouble, Decimal;
    DigitsOfConcat(prefix + Decimal(id), suffix);
    DigitsOfConcat(prefix, Decimal(id));
    DigitsOfOther(prefix);
    DigitsOfOther(suffix);
    DigitsOfDigits(Decimal(id));
    ParseIntOfDecimal(id);
    assert "" + Decimal(id) == Decimal(id) && Decimal(id) + "" == Decimal(id);
  }

  /** Label, config, log and replay names all decode to the id, exactly when the id is a double; safe ids are. */
  lemma MatchIdSurvivesEncoding(id: nat)
    ensures ConfigName(id) == Decimal(id) + ".json" && LogName(id) == "match_" + Decimal(id) + ".log"
    ensures ParseInt(Decimal(id)) == Some(id) <==> NearestDouble(id) == id
    ensures MatchIdOf(ConfigName(id)) == Some(id) <==> NearestDouble(id) == id
    ensures MatchIdOf(LogName(id)) == Some(id) <==> NearestDouble(id) == id
    ensures MatchIdOf(Decimal(id) + ".dem") == Some(id) <==> NearestDouble(id) == id
    ensures id < 0x20_0000_0000_0000 ==> NearestDouble(id) == id
  {
    hide MatchIdOf, ParseInt, NearestDouble, Decimal;
    ParseIntOfDecimal(id);
    AffixedId("", id, ".json");
    AffixedId("match_", id, ".log");
    AffixedId("", id, ".dem");
    assert "" + Decimal(id) == Decimal(id);
    if id < SAFE_LIMIT { SafeIsExact(id); }
  }

  // ---- containers --------------------------------------------------------------------------------

  const SERVER_URL_LABEL: string := "ru.dotaclassic-url"
  const MATCH_ID_LABEL: string := "ru.dotaclassic-matchId"
  const LOBBY_TYPE_LABEL: string := "ru.dotaclassic-lobbyType"
  const CONTAINER_CPU_AFFINITY: string := "ru.dotaclassic-cpu-affinity"

  datatype ContainerInfo = ContainerInfo(names: seq<string>, labels: map<string, string>)

  function Label(labels: map<string, string>, key: string): Option<string> {
    if key in labels then Some(labels[key]) else None
  }

  datatype DockerServerWrapper = DockerServerWrapper(
    matchId: Option<nat>, serverUrl: Option<string>, lobbyType: Numeric, cpuAffinity: Option<string>)

  /** The wrapper's constructor. */
  function Wrap(info: ContainerInfo): DockerServerWrapper {
    var id := Label(info.labels, MATCH_ID_LABEL);
    DockerServerWrapper(
      if id.Some? then ParseInt(id.value) else None,
      Label(info.labels, SERVER_URL_LABEL),
      NumberOf(Label(info.labels, LOBBY_TYPE_LABEL)),
      Label(info.labels, CONTAINER_CPU_AFFINITY))
  }

  /** What a launched container is told apart by. */
  datatype GameServer = GameServer(id: nat, serverUrl: string, lobbyType: nat, cpu: nat)

  /** The container `startGameServer` asks for. */
  function Launched(g: GameServer): ContainerInfo {
    ContainerInfo([ContainerName(g.id)],
      map[SERVER_URL_LABEL := g.serverUrl, MATCH_ID_LABEL := Decimal(g.id),
          LOBBY_TYPE_LABEL := Decimal(g.lobbyType), CONTAINER_CPU_AFFINITY := Decimal(g.cpu)])
  }

  /** The name and the labels of that container, written out. */
  lemma LaunchedIs(g: GameServer)
    ensures Launched(g).names == ["/match" + Decimal(g.id)]
    ensures Launched(g).labels
         == map["ru.dotaclassic-url" := g.serverUrl, "ru.dotaclassic-matchId" := Decimal(g.id),
                "ru.dotaclassic-lobbyType" := Decimal(g.lobbyType), "ru.dotaclassic-cpu-affinity" := Decimal(g.cpu)]
  {
    hide Decimal;
  }

  lemma WrapInvertsLabels(g: GameServer)
    requires g.id < SAFE_LIMIT && g.lobbyType < SAFE_LIMIT
    ensures Wrap(Launched(g))
         == DockerServerWrapper(Some(g.id), Some(g.serverUrl), Whole(g.lobbyType), Some(Decimal(g.cpu)))
  {
    hide SERVER_URL_LABEL, MATCH_ID_LABEL, LOBBY_TYPE_LABEL, CONTAINER_CPU_AFFINITY, NumberOf;
    LabelsDiffer();
    ParseIntOfDecimal(g.id);
    SafeIsExact(g.id);
    NumberOfDecimal(g.lobbyType);
  }

  /** Whatever the id and the lobby type, the CPU comes back. */
  lemma WrapCpu(g: GameServer)
    ensures Wrap(Launched(g)).cpuAffinity == Some(Decimal(g.cpu))
  {
    hide Decimal, NumberOf, ParseInt;
    LabelsDiffer();
  }

  /** Whatever the lobby type, the id comes back, rounded to a double. */
  lemma WrapId(g: GameServer)
    ensures Wrap(Launched(g)).matchId == Some(NearestDouble(g.id))
    ensures g.id < SAFE_LIMIT ==> Wrap(Launched(g)).matchId == Some(g.id)
  {
    hide Decimal, NumberOf, ParseInt, NearestDouble;
    LabelsDiffer();
    ParseIntOfDecimal(g.id);
    if g.id < SAFE_LIMIT { SafeIsExact(g.id); }
  }

  /** What docker lists when these servers run, as the service sees it. */
  function Wrapped(games: seq<GameServer>): seq<DockerServerWrapper> {
    seq(|games|, i requires 0 <= i < |games| => Wrap(Launched(games[i])))
  }

  lemma LabelsDiffer()
    ensures SERVER_URL_LABEL != MATCH_ID_LABEL && SERVER_URL_LABEL != LOBBY_TYPE_LABEL
    ensures SERVER_URL_LABEL != CONTAINER_CPU_AFFINITY && MATCH_ID_LABEL != LOBBY_TYPE_LABEL
    ensures MATCH_ID_LABEL != CONTAINER_CPU_AFFINITY && LOBBY_TYPE_LABEL != CONTAINER_CPU_AFFINITY
  {
    assert SERVER_URL_LABEL[15] == 'u' && MATCH_ID_LABEL[15] == 'm';
    assert LOBBY_TYPE_LABEL[15] == 'l' && CONTAINER_CPU_AFFINITY[15] == 'c';
  }

  // ---- stopping ----------------------------------------------------------------------------------

  /** `some.find(...)` of `stopGameServer`: the first container one of whose names contains the pattern. */
  function StopIndex(listing: seq<ContainerInfo>, id: nat): (r: int)
    ensures r == -1 || 0 <= r < |listing|
  {
    if listing == [] then -1
    else if exists name :: name in listing[0].names && Contains(name, ContainerName(id)) then 0
    else
      var r := StopIndex(listing[1..], id);
      if r == -1 then -1 else r + 1
  }

  /** The containers of these matches, in the order docker lists them. */
  function ListingOf(games: seq<GameServer>): seq<ContainerInfo> {
    seq(|games|, i requires 0 <= i < |games| => Launched(games[i]))
  }

  /** A container's name contains another's exactly when its id's digits begin with the other's. */
  lemma NameContainsIffPrefix(a: nat, b: nat)
    ensures Contains(ContainerName(a), ContainerName(b)) <==> Decimal(b) <= Decimal(a)
  {
    hide Decimal;
    var name, pattern := ContainerName(a), ContainerName(b);
    if Contains(name, pattern) {
      var at :| 0 <= at <= |name| && OccursAt(name, pattern, at);
      assert name[at] == name[at..at + |pattern|][0] == '/';
      SlashOnlyFirst(a, at);
      PrefixOfNames(a, b);
    }
    if Decimal(b) <= Decimal(a) {
      PrefixOfNames(a, b);
      assert OccursAt(name, pattern, 0);
    }
  }

  lemma PrefixOfNames(a: nat, b: nat)
    ensures OccursAt(ContainerName(a), ContainerName(b), 0) <==> Decimal(b) <= Decimal(a)
  {
    hide Decimal;
    var name, pattern := ContainerName(a), ContainerName(b);
    var n := |Decimal(b)|;
    assert name[6..] == Decimal(a) && pattern[6..] == Decimal(b) && name[..6] == pattern[..6];
    if n <= |Decimal(a)| {
      assert name[..6 + n] == name[..6] + Decimal(a)[..n] && pattern == pattern[..6] + Decimal(b);
      assert name[..6 + n] == pattern ==> name[..6 + n][6..] == pattern[6..];
    }
  }

  lemma SlashOnlyFirst(id: nat, at: nat)
    requires at < |ContainerName(id)| && ContainerName(id)[at] == '/'
    ensures at == 0
  {
    var name := ContainerName(id);
    assert forall k | 6 <= k < |name| :: name[k] == Decimal(id)[k - 6];
  }

  ghost predicate ListsDistinct(games: seq<GameServer>) {
    forall i, j | 0 <= i < j < |games| :: games[i].id != games[j].id
  }

  /** In every order docker may list these matches, stopping `id` picks its own container. */
  ghost predicate StopsTheRightOne(games: seq<GameServer>, id: nat) {
    forall order: seq<GameServer> | multiset(order) == multiset(games) ::
      var r := StopIndex(ListingOf(order), id);
      0 <= r < |order| && order[r].id == id
  }

  lemma {:induction false} StopIndexIsFirstWithPrefix(games: seq<GameServer>, id: nat)
    ensures var r := StopIndex(ListingOf(games), id);
      && (r == -1 || (0 <= r < |games| && Decimal(id) <= Decimal(games[r].id)))
      && forall k | 0 <= k < |games| && (r == -1 || k < r) :: !(Decimal(id) <= Decimal(games[k].id))
  {
    hide Contains, ContainerName, Decimal;
    if games != [] {
      var listing := ListingOf(games);
      assert listing[0].names == [ContainerName(games[0].id)];
      NameContainsIffPrefix(games[0].id, id);
      StopIndexIsFirstWithPrefix(games[1..], id);
      assert listing[1..] == ListingOf(games[1..]);
    }
  }

  lemma FirstListedIsStopped(order: seq<GameServer>, id: nat)
    requires order != [] && Decimal(id) <= Decimal(order[0].id)
    ensures StopIndex(ListingOf(order), id) == 0
  {
    hide Decimal, StopIndex, ListingOf;
    StopIndexIsFirstWithPrefix(order, id);
  }

  lemma PrefixListedFirstIsStopped(games: seq<GameServer>, id: nat, j: nat)
    requires j < |games| && games[j].id != id && Decimal(id) <= Decimal(games[j].id)
    ensures !StopsTheRightOne(games, id)
  {
    hide Decimal, StopIndex, ListingOf;
    var order := MovedToFront(games, j);
    FirstListedIsStopped(order, id);
    assert order[0].id != id;
  }

  lemma MovedToFront(games: seq<GameServer>, j: nat) returns (order: seq<GameServer>)
    requires j < |games|
    ensures multiset(order) == multiset(games) && order != [] && order[0] == games[j]
  {
    var before, after := games[..j], games[j + 1..];
    order := [games[j]] + (before + after);
    assert games == before + ([games[j]] + after);
  }

  lemma NoPrefixIsStoppedRightly(games: seq<GameServer>, k: nat, order: seq<GameServer>)
    requires ListsDistinct(games) && k < |games| && multiset(order) == multiset(games)
    requires forall j | 0 <= j < |games| && j != k :: !(Decimal(games[k].id) <= Decimal(games[j].id))
    ensures var r := StopIndex(ListingOf(order), games[k].id);
      0 <= r < |order| && order[r].id == games[k].id
  {
    hide Decimal, StopIndex, ListingOf;
    var id := games[k].id;
    StopIndexIsFirstWithPrefix(order, id);
    assert games[k] in multiset(games);
    assert games[k] in multiset(order);
    var i :| 0 <= i < |order| && order[i] == games[k];
    assert Decimal(id) <= Decimal(order[i].id);
    var r := StopIndex(ListingOf(order), id);
    assert order[r] in multiset(order);
    assert order[r] in multiset(games);
    var j :| 0 <= j < |games| && games[j] == order[r];
  }

  /**
   * `stopGameServer` matches names by an unanchored pattern. It picks the right container, in whatever order docker
   * lists them, exactly when no other running id has this id's digits as a proper prefix.
   */
  lemma StopIsRightIffNoPrefix(games: seq<GameServer>, k: nat)
    requires ListsDistinct(games) && k < |games|
    ensures var id := games[k].id;
      StopsTheRightOne(games, id) <==>
      forall j | 0 <= j < |games| && j != k :: !(Decimal(id) <= Decimal(games[j].id))
  {
    hide Decimal, StopIndex, ListingOf;
    var id := games[k].id;
    if j: nat :| j < |games| && j != k && Decimal(id) <= Decimal(games[j].id) {
      assert games[j].id != id by { if j < k { assert games[j].id != games[k].id; } }
      PrefixListedFirstIsStopped(games, id, j);
    } else {
      forall order: seq<GameServer> | multiset(order) == multiset(games)
        ensures var r := StopIndex(ListingOf(order), id); 0 <= r < |order| && order[r].id == id
      {
        NoPrefixIsStoppedRightly(games, k, order);
      }
    }
  }

  // ---- freshness ---------------------------------------------------------------------------------

  const LEASE: int := 60000

  type StartMap = map<nat, int>

  predicate Expired(starts: StartMap, now: int, id: nat) {
    id in starts && now - starts[id] > LEASE
  }

  predicate IsFresh(starts: StartMap, now: int, id: nat) {
    id in starts && !Expired(starts, now, id)
  }

  /** The map after `isFreshServer` was asked about `id`. */
  function Pruned(starts: StartMap, now: int, id: nat): StartMap {
    if Expired(starts, now, id) then starts - {id} else starts
  }

  /** What happens to the map: a server starts, or someone asks about one. */
  datatype Event = Began(id: nat, at: int) | Asked(id: nat, at: int)

  /** The answers, in order, of the map that prunes itself when asked. */
  function Answers(starts: StartMap, events: seq<Event>): seq<bool>
    decreases |events|
  {
    if events == [] then []
    else
      match events[0]
      case Began(id, at) => Answers(starts[id := at], events[1..])
      case Asked(id, at) => [IsFresh(starts, at, id)] + Answers(Pruned(starts, at, id), events[1..])
  }

  /** The answers of a map that forgets nothing: is the latest start at most a minute old? */
  function LatestStart(events: seq<Event>, id: nat): Option<int>
    decreases |events|
  {
    if events == [] then None
    else
      var e := events[|events| - 1];
      if e.Began? && e.id == id then Some(e.at) else LatestStart(events[..|events| - 1], id)
  }

  function AnswerFromHistory(past: seq<Event>, id: nat, at: int): bool {
    var start := LatestStart(past, id);
    start.Some? && at - start.value <= 60000
  }

  function AnswersFromHistory(past: seq<Event>, events: seq<Event>): seq<bool>
    decreases |events|
  {
    if events == [] then []
    else
      (if events[0].Asked? then [AnswerFromHistory(past, events[0].id, events[0].at)] else [])
      + AnswersFromHistory(past + [events[0]], events[1..])
  }

  predicate InOrder(events: seq<Event>) {
    forall i, j | 0 <= i < j < |events| :: events[i].at <= events[j].at
  }

  /** The map holds every latest start, except those that expired by `clock`. */
  ghost predicate Represents(starts: StartMap, past: seq<Event>, clock: int) {
    forall id: nat ::
      var start := LatestStart(past, id);
      if id in starts then start == Some(starts[id]) else start.None? || clock - start.value > LEASE
  }

  /** Deleting expired entries never changes a later answer, as long as the clock does not go back. */
  lemma {:induction false} PruningChangesNoAnswer(starts: StartMap, past: seq<Event>, events: seq<Event>, clock: int)
    requires Represents(starts, past, clock) && InOrder(events)
    requires forall e | e in events :: clock <= e.at
    ensures Answers(starts, events) == AnswersFromHistory(past, events)
    decreases |events|
  {
    if events != [] {
      var e := events[0];
      var starts' := if e.Began? then starts[e.id := e.at] else Pruned(starts, e.at, e.id);
      assert (past + [e])[..|past|] == past;
      assert e in events;
      forall id: nat
        ensures var start := LatestStart(past + [e], id);
          if id in starts' then start == Some(starts'[id]) else start.None? || e.at - start.value > LEASE
      {
        assert LatestStart(past + [e], id) == if e.Began? && e.id == id then Some(e.at) else LatestStart(past, id);
      }
      forall f | f in events[1..]
        ensures e.at <= f.at
      {
        var i :| 0 < i < |events| && events[i] == f;
      }
      PruningChangesNoAnswer(starts', past + [e], events[1..], e.at);
      assert [] + Answers(starts', events[1..]) == Answers(starts', events[1..]);
    }
  }

  lemma PruningChangesNoAnswerFromStart(events: seq<Event>)
    requires InOrder(events)
    ensures Answers(map[], events) == AnswersFromHistory([], events)
  {
    if events != [] {
      PruningChangesNoAnswer(map[], [], events, events[0].at);
    }
  }

  // ---- allocation and launching ------------------------------------------------------------------

  /** The lowest CPU number whose decimal text is not in use. */
  predicate FirstFree(cpuCount: nat, used: set<string>, cpu: nat) {
    && cpu < cpuCount && Decimal(cpu) !in used
    && forall i | 0 <= i < cpu :: Decimal(i) in used
  }

  /** Some listed server wears this label. */
  predicate IsWornBy(servers: seq<DockerServerWrapper>, cpu: string) {
    exists s :: s in servers && s.cpuAffinity == Some(cpu)
  }

  /** The lowest CPU number that no listed server wears. */
  predicate LowestFree(cpuCount: nat, servers: seq<DockerServerWrapper>, cpu: nat) {
    && cpu < cpuCount && !IsWornBy(servers, Decimal(cpu))
    && forall i | 0 <= i < cpu :: IsWornBy(servers, Decimal(i))
  }

  /** Some of these games runs on this CPU. */
  predicate RunsOn(games: seq<GameServer>, cpu: nat) {
    exists g :: g in games && g.cpu == cpu
  }

  /** A label is worn exactly when a game runs on that CPU. */
  lemma WornIffRunning(games: seq<GameServer>, cpu: nat)
    ensures IsWornBy(Wrapped(games), Decimal(cpu)) <==> RunsOn(games, cpu)
  {
    hide Decimal, Wrap, Launched;
    var servers := Wrapped(games);
    if s :| s in servers && s.cpuAffinity == Some(Decimal(cpu)) {
      var i :| 0 <= i < |servers| && servers[i] == s;
      WrapCpu(games[i]);
      DecimalInjective(games[i].cpu, cpu);
    }
    if g :| g in games && g.cpu == cpu {
      var i :| 0 <= i < |games| && games[i] == g;
      WrapCpu(g);
      assert servers[i] in servers;
    }
  }

  /** What the config file tells the server; `rest` stands for the fields that nothing here looks at. */
  datatype RunServerSchema = RunServerSchema(matchId: nat, lobbyType: nat, serverUrl: string, rest: string)

  datatype Launch = OutOfCpus | ConfigExists | Started(server: GameServer, container: ContainerInfo)

  class DockerService {
    var serverStartMap: StartMap
    var matchIdToModeMap: map<nat, nat>
    var configs: map<string, RunServerSchema>  // the files of the configs folder

    constructor ()
      ensures serverStartMap == map[] && matchIdToModeMap == map[] && configs == map[]
    {
      serverStartMap, matchIdToModeMap, configs := map[], map[], map[];
    }

    method IsFreshServer(now: int, matchId: nat) returns (answer: bool)
      modifies this`serverStartMap
      ensures answer == old(IsFresh(serverStartMap, now, matchId))
      ensures serverStartMap == old(Pruned(serverStartMap, now, matchId))
      ensures answer <==> matchId in old(serverStartMap) && now - old(serverStartMap[matchId]) <= 60000
      ensures serverStartMap == if answer then old(serverStartMap) else old(serverStartMap) - {matchId}
    {
      if matchId !in serverStartMap {
        return false;
      }
      if now - serverStartMap[matchId] > 1000 * 60 {
        serverStartMap := serverStartMap - {matchId};
        return false;
      }
      return true;
    }

    method HaveFreeSlot(pool: nat, servers: seq<DockerServerWrapper>) returns (free: bool)
      ensures free <==> |servers| < pool
    {
      free := pool - |servers| > 0;
    }

    method GetUsedCpus(servers: seq<DockerServerWrapper>) returns (used: set<string>)
      ensures forall cpu :: cpu in used <==> IsWornBy(servers, cpu)
    {
      used := {};
      for i := 0 to |servers|
        invariant forall cpu :: cpu in used <==> IsWornBy(servers[..i], cpu)
      {
        assert servers[..i + 1] == servers[..i] + [servers[i]];
        if servers[i].cpuAffinity.Some? {
          used := used + {servers[i].cpuAffinity.value};
        }
      }
      assert servers[..|servers|] == servers;
    }

    /** The lowest CPU that no game runs on, or nothing when some game runs on each. */
    method AllocateCpu(cpuCount: nat, servers: seq<DockerServerWrapper>) returns (cpu: Option<nat>)
      ensures cpu.Some? ==> LowestFree(cpuCount, servers, cpu.value)
      ensures cpu.None? ==> forall i | 0 <= i < cpuCount :: IsWornBy(servers, Decimal(i))
      ensures forall games | servers == Wrapped(games) ::
        if cpu.Some? then
          cpu.value < cpuCount && !RunsOn(games, cpu.value) && forall i: nat | i < cpu.value :: RunsOn(games, i)
        else forall i: nat | i < cpuCount :: RunsOn(games, i)
    {
      hide Decimal, Wrapped, RunsOn;
      var used := GetUsedCpus(servers);
      forall games, i: nat | servers == Wrapped(games)
        ensures IsWornBy(servers, Decimal(i)) <==> RunsOn(games, i)
      {
        WornIffRunning(games, i);
      }
      for i := 0 to cpuCount
        invariant forall k | 0 <= k < i :: Decimal(k) in used
      {
        if Decimal(i) !in used {
          return Some(i);
        }
      }
      return None;
    }

    /** Exclusive creation: an existing file makes the launch throw before either map is touched. */
    method CreateTemporaryLaunchConfig(schema: RunServerSchema) returns (created: bool)
      modifies this`configs
      ensures created <==> ConfigName(schema.matchId) !in old(configs)
      ensures configs == if created then old(configs)[ConfigName(schema.matchId) := schema] else old(configs)
    {
      if ConfigName(schema.matchId) in configs {
        return false;
      }
      configs := configs[ConfigName(schema.matchId) := schema];
      return true;
    }

    /** A launch that is refused changes nothing; one that starts runs on the lowest CPU that no game runs on. */
    method StartGameServer(
      now: int, servers: seq<DockerServerWrapper>, cpuCount: nat, host: string, schema: RunServerSchema, gamePort: nat)
      returns (r: Launch)
      modifies this
      ensures r.OutOfCpus? ==> forall i | 0 <= i < cpuCount :: IsWornBy(servers, Decimal(i))
      ensures r.ConfigExists? ==>
        && (exists cpu :: LowestFree(cpuCount, servers, cpu))
        && ConfigName(schema.matchId) in old(configs)
      ensures !r.Started? ==>
        && serverStartMap == old(serverStartMap) && matchIdToModeMap == old(matchIdToModeMap)
        && configs == old(configs)
      ensures r.Started? ==>
        && ConfigName(schema.matchId) !in old(configs)
        && configs == old(configs)[ConfigName(schema.matchId) := schema]
        && serverStartMap == old(serverStartMap)[schema.matchId := now]
        && matchIdToModeMap == old(matchIdToModeMap)[schema.matchId := schema.lobbyType]
        && LowestFree(cpuCount, servers, r.server.cpu)
        && r.server == GameServer(schema.matchId, host + ":" + Decimal(gamePort), schema.lobbyType, r.server.cpu)
        && r.container == Launched(r.server)
      ensures forall games | r.Started? && servers == Wrapped(games) ::
        r.server.cpu < cpuCount && !RunsOn(games, r.server.cpu) && forall i: nat | i < r.server.cpu :: RunsOn(games, i)
    {
      hide Decimal, Wrapped, RunsOn;
      var cpu := AllocateCpu(cpuCount, servers);
      if cpu.None? {
        return OutOfCpus;
      }
      var created := CreateTemporaryLaunchConfig(schema);
      if !created {
        return ConfigExists;
      }
      serverStartMap := serverStartMap[schema.matchId := now];
      matchIdToModeMap := matchIdToModeMap[schema.matchId := schema.lobbyType];
      var server := GameServer(schema.matchId, host + ":" + Decimal(gamePort), schema.lobbyType, cpu.value);
      return Started(server, Launched(server));
    }
  }
}
