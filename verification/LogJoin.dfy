/** Joining the players of a log into the players of a game event, by hero. */
module LogJoin {
  import opened Text
  import opened Numerals
  import opened Values
  import opened Message
  import opened Collapse
  import opened LogReader

  /** A field of a parsed object: `None` is `undefined`. */
  type Slot = Option<Json>

  datatype Stats = Stats(gpm: Slot, xpm: Slot, heroDamage: Slot, heroHealing: Slot, towerDamage: Slot, networth: Slot,
    supportGold: Slot, supportAbilityValue: Slot, misses: Slot, bear: Slot)

  /** A player of the log; the steam id is `None` where `BigInt` throws on it. */
  datatype LogPlayer = LogPlayer(steam_id: Option<int>, hero_id: Slot,
    gold_per_min: Slot, xp_per_minute: Slot, hero_damage: Slot, hero_healing: Slot, tower_damage: Slot,
    net_worth: Slot, support_gold: Slot, support_ability_value: Slot, misses: Slot, additional_units_items: Slot)
  {
    function ToStats(): Stats {
      Stats(gold_per_min, xp_per_minute, hero_damage, hero_healing, tower_damage, net_worth, support_gold,
        support_ability_value, misses, additional_units_items)
    }
  }

  /** The hero table: `HeroData.find(hd => hd.name === hero)?.id`. */
  type HeroTable = map<string, Json>

  function HeroId(table: HeroTable, hero: string): Slot {
    if hero in table then Some(table[hero]) else None
  }

  class EventPlayer {
    var steam_id: int
    var hero: string
    var gpm: Slot
    var xpm: Slot
    var heroDamage: Slot
    var heroHealing: Slot
    var towerDamage: Slot
    var networth: Slot
    var supportGold: Slot
    var supportAbilityValue: Slot
    var misses: Slot
    var bear: Slot

    function CurrentStats(): Stats
      reads this
    {
      Stats(gpm, xpm, heroDamage, heroHealing, towerDamage, networth, supportGold, supportAbilityValue, misses, bear)
    }
  }

  /** The first event player with this hero id, or -1. */
  function Target(heroes: seq<string>, table: HeroTable, heroId: Slot): (j: int)
    ensures -1 <= j < |heroes|
    ensures j >= 0 ==> HeroId(table, heroes[j]) == heroId
    ensures forall k | 0 <= k < |heroes| && (j < 0 || k < j) :: HeroId(table, heroes[k]) != heroId
  {
    if heroes == [] then -1
    else if HeroId(table, heroes[0]) == heroId then 0
    else
      var j := Target(heroes[1..], table, heroId);
      if j < 0 then -1 else j + 1
  }

  function Assign(stats: seq<Stats>, j: int, s: Stats): (r: seq<Stats>)
    requires j < |stats|
    ensures |r| == |stats|
  {
    if j < 0 then stats else stats[j := s]
  }

  /** The log players taken in order, up to the first whose steam id throws. */
  function Joined(heroes: seq<string>, table: HeroTable, stats: seq<Stats>, log: seq<LogPlayer>): (r: seq<Stats>)
    requires |heroes| == |stats|
    ensures |r| == |stats|
  {
    if log == [] then stats
    else
      var before := Joined(heroes, table, stats, log[..|log| - 1]);
      var player := log[|log| - 1];
      if Readable(log) then Assign(before, Target(heroes, table, player.hero_id), player.ToStats()) else before
  }

  predicate Readable(log: seq<LogPlayer>) {
    forall l | l in log :: l.steam_id.Some?
  }

  ghost predicate Distinct(players: seq<EventPlayer>) {
    forall i, j | 0 <= i < j < |players| :: players[i] != players[j]
  }

  function HeroesOf(players: seq<EventPlayer>): seq<string>
    reads players
  {
    seq(|players|, i requires 0 <= i < |players| reads players => players[i].hero)
  }

  function StatsOf(players: seq<EventPlayer>): seq<Stats>
    reads players
  {
    seq(|players|, i requires 0 <= i < |players| reads players => players[i].CurrentStats())
  }

  method FindByHero(players: seq<EventPlayer>, table: HeroTable, heroId: Slot) returns (j: int)
    ensures j == Target(HeroesOf(players), table, heroId)
  {
    ghost var heroes := HeroesOf(players);
    j := 0;
    while j < |players|
      invariant 0 <= j <= |players|
      invariant forall k | 0 <= k < j :: HeroId(table, heroes[k]) != heroId
    {
      assert heroes[j] == players[j].hero;
      if HeroId(table, players[j].hero) == heroId {
        return;
      }
      j := j + 1;
    }
    j := -1;
  }

  method FindBySteamId(players: seq<EventPlayer>, steam32: int) returns (j: int)
    ensures -1 <= j < |players| && (j >= 0 ==> players[j].steam_id == steam32)
  {
    for i := 0 to |players| {
      if players[i].steam_id == steam32 {
        return i;
      }
    }
    return -1;
  }

  /** The ten assignments to one event player. */
  method Fill(base: EventPlayer, player: LogPlayer)
    modifies base`gpm, base`xpm, base`heroDamage, base`heroHealing, base`towerDamage, base`networth, base`supportGold,
      base`supportAbilityValue, base`misses, base`bear
    ensures base.CurrentStats() == player.ToStats()
    ensures base.gpm == player.gold_per_min && base.xpm == player.xp_per_minute
    ensures base.heroDamage == player.hero_damage && base.heroHealing == player.hero_healing
    ensures base.towerDamage == player.tower_damage && base.networth == player.net_worth
    ensures base.supportGold == player.support_gold && base.supportAbilityValue == player.support_ability_value
    ensures base.misses == player.misses && base.bear == player.additional_units_items
  {
    base.gpm := player.gold_per_min;
    base.xpm := player.xp_per_minute;
    base.heroDamage := player.hero_damage;
    base.heroHealing := player.hero_healing;
    base.towerDamage := player.tower_damage;
    base.networth := player.net_worth;
    base.supportGold := player.support_gold;
    base.supportAbilityValue := player.support_ability_value;
    base.misses := player.misses;
    base.bear := player.additional_units_items;
  }

  /** The loop over the log's players; the player found by steam id is overwritten by the one found by hero. */
  method FillFromLog(players: seq<EventPlayer>, table: HeroTable, log: seq<LogPlayer>) returns (completed: bool)
    requires Distinct(players)
    modifies players
    ensures StatsOf(players) == old(Joined(HeroesOf(players), table, StatsOf(players), log))
    ensures forall p | p in players :: p.hero == old(p.hero) && p.steam_id == old(p.steam_id)
    ensures completed <==> Readable(log)
  {
    hide Target, LogPlayer.ToStats;
    ghost var heroes, stats := HeroesOf(players), StatsOf(players);
    assert log[..|log|] == log;
    for i := 0 to |log|
      invariant Readable(log[..i])
      invariant forall p | p in players :: p.hero == old(p.hero) && p.steam_id == old(p.steam_id)
      invariant StatsOf(players) == Joined(heroes, table, stats, log[..i])
    {
      assert log[..i + 1][..i] == log[..i] && log[..i + 1] == log[..i] + [log[i]];
      if log[i].steam_id.None? {
        assert !Readable(log) by { assert log[i] in log; }
        JoinStopsAt(heroes, table, stats, log, i);
        return false;
      }
      var base := FindBySteamId(players, log[i].steam_id.value - STEAM_BASE);
      assert HeroesOf(players) == heroes;
      base := FindByHero(players, table, log[i].hero_id);
      if base >= 0 {
        Fill(players[base], log[i]);
      }
      assert StatsOf(players) == Assign(Joined(heroes, table, stats, log[..i]), base, log[i].ToStats());
    }
    return true;
  }

  lemma {:induction false} JoinStopsAt(
    heroes: seq<string>, table: HeroTable, stats: seq<Stats>, log: seq<LogPlayer>, i: nat)
    requires |heroes| == |stats| && i < |log| && log[i].steam_id.None?
    ensures Joined(heroes, table, stats, log) == Joined(heroes, table, stats, log[..i])
  {
    assert log[i] in log;
    if i < |log| - 1 {
      JoinStopsAt(heroes, table, stats, log[..|log| - 1], i);
      assert log[..|log| - 1][..i] == log[..i];
    }
  }

  // ---- who gets what -----------------------------------------------------------------------------

  /** The statistics of the last log player that goes to event player `j`. */
  function LastFor(heroes: seq<string>, table: HeroTable, log: seq<LogPlayer>, j: nat): (r: Option<Stats>)
    ensures r.Some? ==> exists l :: l in log && Target(heroes, table, l.hero_id) == j && r.value == l.ToStats()
    ensures r.None? ==> forall l | l in log :: Target(heroes, table, l.hero_id) != j
  {
    if log == [] then None
    else
      var l := log[|log| - 1];
      assert log == log[..|log| - 1] + [l];
      if Target(heroes, table, l.hero_id) == j then Some(l.ToStats())
      else LastFor(heroes, table, log[..|log| - 1], j)
  }

  /** Every event player ends with the statistics of the last log player that goes to it, or keeps its own. */
  lemma {:induction false} JoinGivesLast(
    heroes: seq<string>, table: HeroTable, stats: seq<Stats>, log: seq<LogPlayer>, j: nat)
    requires |heroes| == |stats| && j < |stats| && Readable(log)
    ensures Joined(heroes, table, stats, log)[j]
         == match LastFor(heroes, table, log, j) case None => stats[j] case Some(s) => s
  {
    if log != [] {
      JoinGivesLast(heroes, table, stats, log[..|log| - 1], j);
    }
  }

  /** No two log players that go to the same event player disagree. */
  predicate Agreeing(heroes: seq<string>, table: HeroTable, log: seq<LogPlayer>) {
    forall a, b | a in log && b in log && a.hero_id == b.hero_id && Target(heroes, table, a.hero_id) >= 0 ::
      a.ToStats() == b.ToStats()
  }

  ghost predicate OrderIndependent(heroes: seq<string>, table: HeroTable, stats: seq<Stats>, log: seq<LogPlayer>)
    requires |heroes| == |stats|
  {
    forall log' | multiset(log') == multiset(log) ::
      Joined(heroes, table, stats, log') == Joined(heroes, table, stats, log)
  }

  lemma SameMembers(log: seq<LogPlayer>, log': seq<LogPlayer>)
    requires multiset(log') == multiset(log)
    ensures forall l :: l in log <==> l in log'
  {
    forall l
      ensures l in log <==> l in log'
    {
      assert l in multiset(log) <==> l in multiset(log');
    }
  }

  lemma AgreeingIsOrderIndependent(
    heroes: seq<string>, table: HeroTable, stats: seq<Stats>, log: seq<LogPlayer>, log': seq<LogPlayer>)
    requires |heroes| == |stats| && Readable(log) && Agreeing(heroes, table, log)
    requires multiset(log') == multiset(log)
    ensures Joined(heroes, table, stats, log') == Joined(heroes, table, stats, log)
  {
    SameMembers(log, log');
    forall j | 0 <= j < |stats|
      ensures Joined(heroes, table, stats, log')[j] == Joined(heroes, table, stats, log)[j]
    {
      JoinGivesLast(heroes, table, stats, log, j);
      JoinGivesLast(heroes, table, stats, log', j);
    }
  }

  /** Any log player can be moved to the end, where it decides. */
  lemma MovedToEndDecides(
    heroes: seq<string>, table: HeroTable, stats: seq<Stats>, log: seq<LogPlayer>, k: nat)
    returns (log': seq<LogPlayer>)
    requires |heroes| == |stats| && Readable(log) && k < |log|
    requires Target(heroes, table, log[k].hero_id) >= 0
    ensures multiset(log') == multiset(log)
    ensures Joined(heroes, table, stats, log')[Target(heroes, table, log[k].hero_id)] == log[k].ToStats()
  {
    log' := log[..k] + log[k + 1..] + [log[k]];
    assert log == log[..k] + [log[k]] + log[k + 1..];
    SameMembers(log, log');
    JoinGivesLast(heroes, table, stats, log', Target(heroes, table, log[k].hero_id));
  }

  /** The result is the same for every order of the log's players iff no two of them contend with different data. */
  lemma OrderIndependentIffAgreeing(heroes: seq<string>, table: HeroTable, stats: seq<Stats>, log: seq<LogPlayer>)
    requires |heroes| == |stats| && Readable(log)
    ensures OrderIndependent(heroes, table, stats, log) <==> Agreeing(heroes, table, log)
  {
    if Agreeing(heroes, table, log) {
      forall log' | multiset(log') == multiset(log)
        ensures Joined(heroes, table, stats, log') == Joined(heroes, table, stats, log)
      {
        AgreeingIsOrderIndependent(heroes, table, stats, log, log');
      }
    }
    if OrderIndependent(heroes, table, stats, log) {
      forall i, k | 0 <= i < |log| && 0 <= k < |log| && log[i].hero_id == log[k].hero_id
                    && Target(heroes, table, log[i].hero_id) >= 0
        ensures log[i].ToStats() == log[k].ToStats()
      {
        var withI := MovedToEndDecides(heroes, table, stats, log, i);
        var withK := MovedToEndDecides(heroes, table, stats, log, k);
        assert Joined(heroes, table, stats, withI) == Joined(heroes, table, stats, withK);
      }
    }
  }

  /**
   * With distinct heroes, known and distinctly numbered, and distinct hero ids in the log: every event player gets
   * exactly the statistics of the log player with its hero id, players the log does not have keep theirs, and
   * the order of the log's players does not matter.
   */
  lemma JoinIsByHero(heroes: seq<string>, table: HeroTable, stats: seq<Stats>, log: seq<LogPlayer>, j: nat)
    requires |heroes| == |stats| && j < |heroes| && Readable(log)
    requires forall a, b | 0 <= a < b < |heroes| :: HeroId(table, heroes[a]) != HeroId(table, heroes[b])
    requires forall a, b | 0 <= a < b < |log| :: log[a].hero_id != log[b].hero_id
    ensures forall k | 0 <= k < |log| && log[k].hero_id == HeroId(table, heroes[j]) ::
      Joined(heroes, table, stats, log)[j] == log[k].ToStats()
    ensures (forall k | 0 <= k < |log| :: log[k].hero_id != HeroId(table, heroes[j])) ==>
      Joined(heroes, table, stats, log)[j] == stats[j]
    ensures OrderIndependent(heroes, table, stats, log)
  {
    JoinGivesLast(heroes, table, stats, log, j);
    OrderIndependentIffAgreeing(heroes, table, stats, log);
    forall l | l in log
      ensures Target(heroes, table, l.hero_id) == j <==> l.hero_id == HeroId(table, heroes[j])
    {
    }
  }

  // ---- from the log's text to the event ----------------------------------------------------------

  /** `value.key`, which is `undefined` on whatever lacks the key. */
  function SlotOf(value: Slot, key: string): Slot {
    if value.Some? && value.value.Obj? && key in value.value.fields then Some(value.value.fields[key]) else None
  }

  /** `BigInt(steam_id.toString())`, which throws on whatever does not read as an integer. */
  function SteamIdOf(slot: Slot): Option<int> {
    if slot.Some? && (slot.value.Str? || slot.value.Num?) && IntegerShape(Show(slot.value)) then
      Some(IntegerOf(Show(slot.value)))
    else None
  }

  /** An `undefined` player throws when its steam id is asked for, as one without a steam id does. */
  function PlayerOf(p: Slot): LogPlayer {
    LogPlayer(SteamIdOf(SlotOf(p, "steam_id")), SlotOf(p, "hero_id"),
      SlotOf(p, "gold_per_min"), SlotOf(p, "xp_per_minute"), SlotOf(p, "hero_damage"), SlotOf(p, "hero_healing"),
      SlotOf(p, "tower_damage"), SlotOf(p, "net_worth"), SlotOf(p, "support_gold"),
      SlotOf(p, "support_ability_value"), SlotOf(p, "misses"),
      SlotOf(SlotOf(p, "additional_units_inventory"), "items"))
  }

  /** What `flatMap` takes from one team: the members of a list, or the value itself, even `undefined`. */
  function TeamPlayers(players: Slot): seq<LogPlayer> {
    match players
    case Some(Arr(ps)) => seq(|ps|, i requires 0 <= i < |ps| => PlayerOf(Some(ps[i])))
    case _ => [PlayerOf(players)]
  }

  function PlayersOfTeams(teams: seq<Json>): seq<LogPlayer> {
    if teams == [] then [] else TeamPlayers(SlotOf(Some(teams[0]), "players")) + PlayersOfTeams(teams[1..])
  }

  /** `teams.flatMap(t => t.players)`; nothing when `teams` is not a list, which throws. */
  function LogPlayers(message: Json): Option<seq<LogPlayer>> {
    match SlotOf(Some(message), "teams")
    case Some(Arr(teams)) => Some(PlayersOfTeams(teams))
    case _ => None
  }

  /** The players a printed message holds: those of its teams, in order, each collapsed. */
  function PrintedPlayers(fields: seq<Field>): seq<LogPlayer> {
    if fields == [] then []
    else
      (if fields[0].key == "teams" then PrintedTeamPlayers(fields[0]) else []) + PrintedPlayers(fields[1..])
  }

  function PrintedTeamPlayers(team: Field): seq<LogPlayer> {
    if team.Nested? && "players" in KeysOf(team.body) then
      var ps := ValuesOf(team.body, "players");
      seq(|ps|, i requires 0 <= i < |ps| => PlayerOf(Some(Collapsed(ps[i], NO_COLLAPSE_KEYS))))
    else
      [PlayerOf(None)]
  }

  lemma {:induction false} ValuesOfKnown(fields: seq<Field>, key: string)
    ensures ValuesOf(fields, key) == [] <==> key !in KeysOf(fields)
    decreases |fields|
  {
    if fields != [] {
      ValuesOfKnown(fields[1..], key);
      assert fields == [fields[0]] + fields[1..];
    }
  }

  lemma ProtectedKeys()
    ensures "teams" in NO_COLLAPSE_KEYS && "players" in NO_COLLAPSE_KEYS
  {
  }

  /** A protected key holds a list after collapsing, even of one value. */
  lemma ProtectedSlot(fields: seq<Field>, key: string)
    requires key in NO_COLLAPSE_KEYS
    ensures var ps := ValuesOf(fields, key);
      var slot := SlotOf(Some(Collapsed(ObjectOf(Grouped(fields)), NO_COLLAPSE_KEYS)), key);
      if key in KeysOf(fields) then
        slot == Some(Arr(seq(|ps|, i requires 0 <= i < |ps| => Collapsed(ps[i], NO_COLLAPSE_KEYS))))
      else slot == None
  {
    hide NO_COLLAPSE_KEYS, ValuesOf, KeysOf;
  }

  lemma TeamOfField(team: Field)
    ensures TeamPlayers(SlotOf(Some(Collapsed(team.Meaning(), NO_COLLAPSE_KEYS)), "players"))
         == PrintedTeamPlayers(team)
  {
    hide NO_COLLAPSE_KEYS, PlayerOf, Grouped, ObjectOf, ValuesOf, KeysOf;
    if team.Nested? {
      ProtectedKeys();
      ProtectedSlot(team.body, "players");
    } else {
      ScalarHasNoSlots(team.value, "players");
    }
  }

  lemma ScalarHasNoSlots(lit: Literal, key: string)
    ensures SlotOf(Some(Collapsed(lit.Value(), NO_COLLAPSE_KEYS)), key) == None
  {
  }

  lemma {:induction false} TeamsOfFields(fields: seq<Field>)
    ensures var ts := ValuesOf(fields, "teams");
      PlayersOfTeams(seq(|ts|, i requires 0 <= i < |ts| => Collapsed(ts[i], NO_COLLAPSE_KEYS)))
      == PrintedPlayers(fields)
    decreases |fields|
  {
    hide NO_COLLAPSE_KEYS, PlayerOf, TeamPlayers, PrintedTeamPlayers, SlotOf, Collapsed, Field.Meaning;
    if fields != [] {
      TeamsOfFields(fields[1..]);
      var ts := ValuesOf(fields, "teams");
      if fields[0].key == "teams" {
        var collapsed := seq(|ts|, i requires 0 <= i < |ts| => Collapsed(ts[i], NO_COLLAPSE_KEYS));
        var ts' := ValuesOf(fields[1..], "teams");
        TeamOfField(fields[0]);
        assert collapsed[1..] == seq(|ts'|, i requires 0 <= i < |ts'| => Collapsed(ts'[i], NO_COLLAPSE_KEYS));
      } else {
        assert ts == ValuesOf(fields[1..], "teams");
      }
    }
  }

  /**
   * The join sees exactly the players a log was printed with, in order, also when there is one team or one player,
   * because the collapse keeps those lists; a log with no team makes it throw.
   */
  lemma LogPlayersOfPrinted(fields: seq<Field>)
    ensures LogPlayers(Collapsed(ObjectOf(Grouped(fields)), NO_COLLAPSE_KEYS))
         == if "teams" in KeysOf(fields) then Some(PrintedPlayers(fields)) else None
  {
    hide NO_COLLAPSE_KEYS, Collapsed, Grouped, ObjectOf, ValuesOf, KeysOf, PlayersOfTeams, PrintedPlayers;
    ProtectedKeys();
    ProtectedSlot(fields, "teams");
    TeamsOfFields(fields);
  }

  // ---- from the printed message to the event -----------------------------------------------------

  /** What the reader makes of one field. */
  function ReadAs(f: Field): Json {
    match f
    case Scalar(_, _, value) => value.Value()
    case Nested(_, _, body) => Collapsed(ObjectOf(Grouped(body)), NO_COLLAPSE_KEYS)
  }

  /** The value printed under a key, or nothing. */
  function PrintedUnder(body: seq<Field>, key: string): Slot {
    var fs := FieldsOf(body, key);
    if fs == [] then None else Some(ReadAs(fs[0]))
  }

  /** All the values printed under a key. */
  function PrintedList(body: seq<Field>, key: string): Slot {
    var fs := FieldsOf(body, key);
    if fs == [] then None else Some(Arr(seq(|fs|, i requires 0 <= i < |fs| => ReadAs(fs[i]))))
  }

  /** The items of the additional units. */
  function PrintedItems(body: seq<Field>): Slot {
    var fs := FieldsOf(body, "additional_units_inventory");
    if fs == [] || fs[0].Scalar? then None else PrintedList(fs[0].body, "items")
  }

  function PrintedStats(body: seq<Field>): Stats {
    Stats(
      gpm := PrintedUnder(body, "gold_per_min"), xpm := PrintedUnder(body, "xp_per_minute"),
      heroDamage := PrintedUnder(body, "hero_damage"), heroHealing := PrintedUnder(body, "hero_healing"),
      towerDamage := PrintedUnder(body, "tower_damage"), networth := PrintedUnder(body, "net_worth"),
      supportGold := PrintedUnder(body, "support_gold"),
      supportAbilityValue := PrintedUnder(body, "support_ability_value"),
      misses := PrintedUnder(body, "misses"), bear := PrintedItems(body))
  }

  /** An event player with the statistics that a player's body was printed with. */
  predicate HasPrinted(p: EventPlayer, body: seq<Field>)
    reads p
  {
    && p.gpm == PrintedUnder(body, "gold_per_min") && p.xpm == PrintedUnder(body, "xp_per_minute")
    && p.heroDamage == PrintedUnder(body, "hero_damage") && p.heroHealing == PrintedUnder(body, "hero_healing")
    && p.towerDamage == PrintedUnder(body, "tower_damage") && p.networth == PrintedUnder(body, "net_worth")
    && p.supportGold == PrintedUnder(body, "support_gold")
    && p.supportAbilityValue == PrintedUnder(body, "support_ability_value")
    && p.misses == PrintedUnder(body, "misses") && p.bear == PrintedItems(body)
  }

  predicate AtMostOnce(body: seq<Field>, key: string) {
    |FieldsOf(body, key)| <= 1
  }

  /** A player as the server prints it: each key at most once, and the steam id an integer. */
  predicate IsPlayer(f: Field) {
    && f.Nested?
    && (var ids := FieldsOf(f.body, "steam_id"); |ids| == 1 && ids[0].Scalar? && ids[0].value.Integer?)
    && AtMostOnce(f.body, "hero_id") && AtMostOnce(f.body, "gold_per_min") && AtMostOnce(f.body, "xp_per_minute")
    && AtMostOnce(f.body, "hero_damage") && AtMostOnce(f.body, "hero_healing") && AtMostOnce(f.body, "tower_damage")
    && AtMostOnce(f.body, "net_worth") && AtMostOnce(f.body, "support_gold")
    && AtMostOnce(f.body, "support_ability_value") && AtMostOnce(f.body, "misses")
    && AtMostOnce(f.body, "additional_units_inventory")
  }

  predicate IsTeam(f: Field) {
    f.Nested? && FieldsOf(f.body, "players") != [] && forall p | p in FieldsOf(f.body, "players") :: IsPlayer(p)
  }

  /** A message with teams of such players. */
  predicate HasTeams(fields: seq<Field>) {
    FieldsOf(fields, "teams") != [] && forall t | t in FieldsOf(fields, "teams") :: IsTeam(t)
  }

  function BodyOf(f: Field): seq<Field> {
    if f.Nested? then f.body else []
  }

  function Bodies(fs: seq<Field>): seq<seq<Field>> {
    seq(|fs|, i requires 0 <= i < |fs| => BodyOf(fs[i]))
  }

  /** The bodies of the players of these teams, in order. */
  function RosterOf(teams: seq<Field>): seq<seq<Field>> {
    if teams == [] then [] else Bodies(FieldsOf(BodyOf(teams[0]), "players")) + RosterOf(teams[1..])
  }

  function Roster(fields: seq<Field>): seq<seq<Field>> {
    RosterOf(FieldsOf(fields, "teams"))
  }

  lemma ScalarStays(f: Field)
    ensures Collapsed(f.Meaning(), NO_COLLAPSE_KEYS) == ReadAs(f)
  {
    hide NO_COLLAPSE_KEYS, Grouped, ObjectOf;
  }

  /** A key printed at most once, that is not one of the six, holds just what was printed. */
  lemma PlainSlot(body: seq<Field>, key: string)
    requires AtMostOnce(body, key) && key !in NO_COLLAPSE_KEYS
    ensures SlotOf(Some(Collapsed(ObjectOf(Grouped(body)), NO_COLLAPSE_KEYS)), key) == PrintedUnder(body, key)
  {
    hide NO_COLLAPSE_KEYS, ValuesOf, KeysOf, ReadAs, Field.Meaning, FieldsOf;
    ValuesOfFields(body, key);
    var fs := FieldsOf(body, key);
    if fs != [] { ScalarStays(fs[0]); }
  }

  /** A key that keeps its list holds all that was printed. */
  lemma ListSlot(body: seq<Field>, key: string)
    requires key in NO_COLLAPSE_KEYS
    ensures SlotOf(Some(Collapsed(ObjectOf(Grouped(body)), NO_COLLAPSE_KEYS)), key) == PrintedList(body, key)
  {
    hide NO_COLLAPSE_KEYS, ValuesOf, KeysOf, ReadAs, Field.Meaning, FieldsOf, Collapsed, ObjectOf, Grouped;
    ValuesOfFields(body, key);
    ProtectedSlot(body, key);
    var fs, vs := FieldsOf(body, key), ValuesOf(body, key);
    forall i | 0 <= i < |fs|
      ensures Collapsed(vs[i], NO_COLLAPSE_KEYS) == ReadAs(fs[i])
    {
      ScalarStays(fs[i]);
    }
    assert seq(|vs|, i requires 0 <= i < |vs| => Collapsed(vs[i], NO_COLLAPSE_KEYS))
        == seq(|fs|, i requires 0 <= i < |fs| => ReadAs(fs[i]));
  }

  lemma StatisticsArePlain()
    ensures "steam_id" !in NO_COLLAPSE_KEYS && "hero_id" !in NO_COLLAPSE_KEYS && "gold_per_min" !in NO_COLLAPSE_KEYS
    ensures "xp_per_minute" !in NO_COLLAPSE_KEYS && "hero_damage" !in NO_COLLAPSE_KEYS
    ensures "hero_healing" !in NO_COLLAPSE_KEYS && "tower_damage" !in NO_COLLAPSE_KEYS
    ensures "net_worth" !in NO_COLLAPSE_KEYS && "support_gold" !in NO_COLLAPSE_KEYS
    ensures "support_ability_value" !in NO_COLLAPSE_KEYS && "misses" !in NO_COLLAPSE_KEYS
    ensures "additional_units_inventory" !in NO_COLLAPSE_KEYS
    ensures "items" in NO_COLLAPSE_KEYS && "tower_status" in NO_COLLAPSE_KEYS && "barracks_status" in NO_COLLAPSE_KEYS
  {
  }

  lemma SteamIdIsRead(n: int)
    ensures SteamIdOf(Some(Integer(n).Value())) == Some(n)
  {
    hide IntegerShape, IntegerOf;
    IntegerTextShape(n);
  }

  function Signed(minus: bool, n: int): int {
    if minus then -n else n
  }

  /** Just the integers can be read as steam ids, in quotes or not, whatever their zeros. */
  lemma SteamIdIsReadIff(lit: Literal)
    requires lit.Valid()
    ensures SteamIdOf(Some(lit.Value())) ==
      match lit
      case Integer(n) => Some(n)
      case Numbered(n) =>
        if n.fraction.None? && n.exponent.None? then Some(Signed(n.minus, ToNat(n.whole))) else None
      case Quoted(text, _) => IntegerIn(text)
      case _ => None
  {
    hide IntegerShape, IntegerOf, NumberShape;
    match lit
    case Integer(n) => SteamIdIsRead(n);
    case Numbered(n) => NumeralSteamId(n);
    case Quoted(text, _) => IntegerInText(text);
    case Bare(w) => BareIsNoInteger(w);
    case _ =>
  }

  /** The integer that a text spells. */
  function IntegerIn(text: string): Option<int> {
    if IsDigits(text) then Some(ToNat(text))
    else if text != "" && text[0] == '-' && IsDigits(text[1..]) then Some(Signed(true, ToNat(text[1..])))
    else None
  }

  lemma IntegerInText(text: string)
    ensures SteamIdOf(Some(Str(text))) == IntegerIn(text)
  {
  }

  lemma NumeralSteamId(n: Numeral)
    requires n.Valid()
    ensures SteamIdOf(Some(n.Value()))
         == if n.fraction.None? && n.exponent.None? then Some(Signed(n.minus, ToNat(n.whole))) else None
  {
    hide IntegerShape, NumberShape, Numeral.Text;
    NumeralHasNumberShape(n);
    UnsignedNumeral(n);
    if n.fraction.None? && n.exponent.None? {
      TailIsRead(n);
      assert n.whole + n.Tail() == n.whole;
      IntegerTextShape(Signed(n.minus, ToNat(n.whole)));
    }
  }

  lemma BareIsNoInteger(w: string)
    requires Bare(w).Valid()
    ensures !IntegerShape(w)
  {
    hide NumberShape;
    NumberShapeIff(w);
    if IntegerShape(w) { IntegerIsNumber(w); }
  }

  lemma ItemsAreRead(body: seq<Field>)
    requires AtMostOnce(body, "additional_units_inventory")
    ensures SlotOf(PrintedUnder(body, "additional_units_inventory"), "items") == PrintedItems(body)
  {
    hide NO_COLLAPSE_KEYS, FieldsOf, PrintedList, Collapsed, Grouped, ObjectOf;
    StatisticsArePlain();
    var fs := FieldsOf(body, "additional_units_inventory");
    if fs != [] && fs[0].Nested? {
      ListSlot(fs[0].body, "items");
    } else if fs != [] {
      ScalarHasNoSlot(fs[0].value, "items");
    }
  }

  lemma ScalarHasNoSlot(lit: Literal, key: string)
    ensures SlotOf(Some(lit.Value()), key) == None
  {
  }

  /** The reader gives each statistic of a player the value printed under its own key. */
  lemma PlayerIsRead(f: Field)
    requires IsPlayer(f)
    ensures var p := PlayerOf(Some(Collapsed(f.Meaning(), NO_COLLAPSE_KEYS)));
      && p.steam_id == Some(FieldsOf(f.body, "steam_id")[0].value.n)
      && p.hero_id == PrintedUnder(f.body, "hero_id") && p.ToStats() == PrintedStats(f.body)
  {
    hide NO_COLLAPSE_KEYS, FieldsOf, PrintedUnder, PrintedItems, Collapsed, Grouped, ObjectOf, SteamIdOf, SlotOf;
    var body := f.body;
    StatisticsArePlain();
    assert AtMostOnce(body, "steam_id");
    PlainSlot(body, "steam_id");
    PlainSlot(body, "hero_id");
    PlainSlot(body, "gold_per_min");
    PlainSlot(body, "xp_per_minute");
    PlainSlot(body, "hero_damage");
    PlainSlot(body, "hero_healing");
    PlainSlot(body, "tower_damage");
    PlainSlot(body, "net_worth");
    PlainSlot(body, "support_gold");
    PlainSlot(body, "support_ability_value");
    PlainSlot(body, "misses");
    PlainSlot(body, "additional_units_inventory");
    ItemsAreRead(body);
    PrintedSteamId(body);
    SteamIdIsRead(FieldsOf(body, "steam_id")[0].value.n);
  }

  lemma PrintedSteamId(body: seq<Field>)
    requires var ids := FieldsOf(body, "steam_id"); |ids| == 1 && ids[0].Scalar? && ids[0].value.Integer?
    ensures PrintedUnder(body, "steam_id") == Some(Integer(FieldsOf(body, "steam_id")[0].value.n).Value())
  {
    hide FieldsOf, Literal.Value;
  }

  /** The player that a body of the roster is read as. */
  function PlayerRead(body: seq<Field>): LogPlayer {
    PlayerOf(Some(Collapsed(ObjectOf(Grouped(body)), NO_COLLAPSE_KEYS)))
  }

  function PlayersRead(roster: seq<seq<Field>>): seq<LogPlayer> {
    seq(|roster|, i requires 0 <= i < |roster| => PlayerRead(roster[i]))
  }

  lemma TeamIsRead(team: Field)
    requires IsTeam(team)
    ensures PrintedTeamPlayers(team) == PlayersRead(Bodies(FieldsOf(BodyOf(team), "players")))
  {
    hide NO_COLLAPSE_KEYS, PlayerOf, ValuesOf, KeysOf, FieldsOf, Collapsed, Grouped, ObjectOf, IsPlayer;
    ValuesOfFields(team.body, "players");
    var fs, vs := FieldsOf(team.body, "players"), ValuesOf(team.body, "players");
    forall i | 0 <= i < |fs|
      ensures vs[i] == ObjectOf(Grouped(BodyOf(fs[i])))
    {
      assert fs[i] in fs;
      PlayersAreNested(fs[i]);
    }
  }

  lemma PlayersAreNested(f: Field)
    requires IsPlayer(f)
    ensures f.Nested? && f.Meaning() == ObjectOf(Grouped(BodyOf(f)))
  {
    hide FieldsOf, Grouped, ObjectOf;
  }

  lemma PlayersReadConcat(a: seq<seq<Field>>, b: seq<seq<Field>>)
    ensures PlayersRead(a + b) == PlayersRead(a) + PlayersRead(b)
  {
    hide PlayerRead;
  }

  lemma {:induction false} RosterIsRead(fields: seq<Field>)
    requires forall t | t in FieldsOf(fields, "teams") :: IsTeam(t)
    ensures PrintedPlayers(fields) == PlayersRead(Roster(fields))
    decreases |fields|
  {
    hide PrintedTeamPlayers, PlayerRead, IsTeam, Bodies;
    if fields != [] {
      RosterIsRead(fields[1..]);
      if fields[0].key == "teams" {
        var first := Bodies(FieldsOf(BodyOf(fields[0]), "players"));
        assert FieldsOf(fields, "teams")[0] == fields[0];
        assert FieldsOf(fields, "teams")[1..] == FieldsOf(fields[1..], "teams");
        TeamIsRead(fields[0]);
        PlayersReadConcat(first, Roster(fields[1..]));
      } else {
        assert FieldsOf(fields, "teams") == FieldsOf(fields[1..], "teams");
        assert [] + PrintedPlayers(fields[1..]) == PrintedPlayers(fields[1..]);
      }
    }
  }

  lemma {:induction false} RosterHolds(teams: seq<Field>, k: nat)
    requires (forall t | t in teams :: IsTeam(t)) && k < |RosterOf(teams)|
    ensures exists f: Field :: IsPlayer(f) && BodyOf(f) == RosterOf(teams)[k]
  {
    hide IsPlayer;
    if teams != [] {
      var fs := FieldsOf(BodyOf(teams[0]), "players");
      assert IsTeam(teams[0]);
      if k < |fs| {
        assert fs[k] in fs;
        PlayersAreNested(fs[k]);
      } else {
        RosterHolds(teams[1..], k - |fs|);
      }
    }
  }

  /** Each player of a printed roster is read with its own hero id and statistics, and its steam id can be read. */
  lemma RosterPlayerIsRead(fields: seq<Field>, k: nat)
    requires HasTeams(fields) && k < |Roster(fields)|
    ensures var p, body := PlayerRead(Roster(fields)[k]), Roster(fields)[k];
      p.steam_id.Some? && p.hero_id == PrintedUnder(body, "hero_id") && p.ToStats() == PrintedStats(body)
  {
    hide IsPlayer, NO_COLLAPSE_KEYS, PlayerOf, Collapsed, Grouped, ObjectOf, PrintedStats, PrintedUnder, FieldsOf;
    RosterHolds(FieldsOf(fields, "teams"), k);
    var f: Field :| IsPlayer(f) && BodyOf(f) == Roster(fields)[k];
    PlayersAreNested(f);
    PlayerIsRead(f);
  }

  /** A log of a message with teams. */
  ghost predicate IsLogOfTeams(log: string, fields: seq<Field>) {
    IsLogOf(log, fields) && HasTeams(fields)
  }

  /** What the whole reading of a log of such a message gives. */
  lemma MessageIsRead(log: string, fields: seq<Field>)
    requires IsLogOfTeams(log, fields)
    ensures ParseLog(log).Read?
    ensures var m := ParseLog(log).message;
      && SlotOf(Some(m), "tower_status") == PrintedList(fields, "tower_status")
      && SlotOf(Some(m), "barracks_status") == PrintedList(fields, "barracks_status")
      && LogPlayers(m) == Some(PlayersRead(Roster(fields))) && Readable(PlayersRead(Roster(fields)))
  {
    hide IsLogOf, ParseLog, NO_COLLAPSE_KEYS, Collapsed, Grouped, ObjectOf, LogPlayers, PlayerRead, FieldsOf, IsTeam,
         PrintedList, SlotOf, Roster, KeysOf, PrintedPlayers, PrintedStats, PrintedUnder, LogPlayer.ToStats;
    LogIsRead(log, fields);
    StatisticsArePlain();
    ListSlot(fields, "tower_status");
    ListSlot(fields, "barracks_status");
    LogPlayersOfPrinted(fields);
    ValuesOfFields(fields, "teams");
    RosterIsRead(fields);
    forall l | l in PlayersRead(Roster(fields))
      ensures l.steam_id.Some?
    {
      var k :| 0 <= k < |Roster(fields)| && l == PlayerRead(Roster(fields)[k]);
      RosterPlayerIsRead(fields, k);
    }
  }

  /** This is the hero's id in the table; a hero that is not there has none, like a player without a hero id. */
  predicate IsIdOf(table: HeroTable, hero: string, id: Slot) {
    if hero in table then id == Some(table[hero]) else id == None
  }

  /** Event player `j` is the first with the hero id of player `k` of the roster, and no later one has it. */
  predicate GoesTo(heroes: seq<string>, table: HeroTable, roster: seq<seq<Field>>, k: nat, j: nat) {
    && k < |roster| && j < |heroes| && IsIdOf(table, heroes[j], PrintedUnder(roster[k], "hero_id"))
    && (forall i | 0 <= i < j :: !IsIdOf(table, heroes[i], PrintedUnder(roster[k], "hero_id")))
    && (forall i | k < i < |roster| :: !IsIdOf(table, heroes[j], PrintedUnder(roster[i], "hero_id")))
  }

  /** No player of the roster has the hero id of event player `j`. */
  predicate GetsNone(heroes: seq<string>, table: HeroTable, roster: seq<seq<Field>>, j: nat) {
    j < |heroes| && forall i | 0 <= i < |roster| :: !IsIdOf(table, heroes[j], PrintedUnder(roster[i], "hero_id"))
  }

  lemma TargetIs(heroes: seq<string>, table: HeroTable, id: Slot, j: nat)
    requires j < |heroes| && IsIdOf(table, heroes[j], id)
    requires forall i | 0 <= i < j :: !IsIdOf(table, heroes[i], id)
    ensures Target(heroes, table, id) == j
  {
  }

  /** A player of the log that is the last to go to an event player decides. */
  lemma {:induction false} LastForIs(heroes: seq<string>, table: HeroTable, log: seq<LogPlayer>, k: nat, j: nat)
    requires k < |log| && Target(heroes, table, log[k].hero_id) == j
    requires forall i | k < i < |log| :: Target(heroes, table, log[i].hero_id) != j
    ensures LastFor(heroes, table, log, j) == Some(log[k].ToStats())
    decreases |log|
  {
    hide Target, LogPlayer.ToStats;
    if k < |log| - 1 {
      LastForIs(heroes, table, log[..|log| - 1], k, j);
    }
  }

  /** The event player gets the ten statistics as they were printed. */
  lemma EventPlayerGetsPrinted(log: string, fields: seq<Field>, heroes: seq<string>, table: HeroTable,
                               stats: seq<Stats>, k: nat, j: nat)
    requires IsLogOfTeams(log, fields) && |heroes| == |stats|
    requires GoesTo(heroes, table, Roster(fields), k, j)
    ensures k < |Roster(fields)| && j < |heroes| && ParseLog(log).Read? && LogPlayers(ParseLog(log).message).Some?
    ensures Joined(heroes, table, stats, LogPlayers(ParseLog(log).message).value)[j] == PrintedStats(Roster(fields)[k])
  {
    hide IsLogOf, ParseLog, LogPlayers, FieldsOf, Roster, PlayerRead, PrintedStats, PrintedUnder, LogPlayer.ToStats,
         Joined, Target, LastFor, Readable;
    MessageIsRead(log, fields);
    var roster := Roster(fields);
    var players := PlayersRead(roster);
    forall i | k <= i < |roster|
      ensures Target(heroes, table, players[i].hero_id) == j <==> i == k
    {
      RosterPlayerIsRead(fields, i);
      if i == k { TargetIs(heroes, table, players[i].hero_id, j); } else { OtherTarget(heroes, table, players[i], j); }
    }
    LastForIs(heroes, table, players, k, j);
    RosterPlayerIsRead(fields, k);
    JoinGivesLast(heroes, table, stats, players, j);
  }

  lemma OtherTarget(heroes: seq<string>, table: HeroTable, l: LogPlayer, j: int)
    requires 0 <= j < |heroes| && !IsIdOf(table, heroes[j], l.hero_id)
    ensures Target(heroes, table, l.hero_id) != j
  {
  }

  lemma EventPlayerKeeps(log: string, fields: seq<Field>, heroes: seq<string>, table: HeroTable,
                         stats: seq<Stats>, j: nat)
    requires IsLogOfTeams(log, fields) && |heroes| == |stats|
    requires GetsNone(heroes, table, Roster(fields), j)
    ensures j < |heroes| && ParseLog(log).Read? && LogPlayers(ParseLog(log).message).Some?
    ensures Joined(heroes, table, stats, LogPlayers(ParseLog(log).message).value)[j] == stats[j]
  {
    hide IsLogOf, ParseLog, LogPlayers, FieldsOf, Roster, PlayerRead, PrintedStats, PrintedUnder, LogPlayer.ToStats,
         Joined, Target, LastFor, Readable;
    MessageIsRead(log, fields);
    var players := PlayersRead(Roster(fields));
    forall l | l in players
      ensures Target(heroes, table, l.hero_id) != j
    {
      var i :| 0 <= i < |players| && players[i] == l;
      RosterPlayerIsRead(fields, i);
      OtherTarget(heroes, table, l, j);
    }
    JoinGivesLast(heroes, table, stats, players, j);
    assert LastFor(heroes, table, players, j).None?;
  }

  /** Every event player that a player of the roster goes to shows what that was printed with. */
  ghost predicate PlayersShow(players: seq<EventPlayer>, table: HeroTable, roster: seq<seq<Field>>)
    reads players
  {
    forall k: nat, j: nat | GoesTo(HeroesOf(players), table, roster, k, j) :: HasPrinted(players[j], roster[k])
  }

  /** Every event player whose hero id the roster lacks keeps its statistics. */
  ghost predicate UnlistedKeep(after: seq<Stats>, before: seq<Stats>, heroes: seq<string>, table: HeroTable,
                               roster: seq<seq<Field>>)
    requires |after| == |before| == |heroes|
  {
    forall j: nat | GetsNone(heroes, table, roster, j) :: after[j] == before[j]
  }

  lemma PlayersShowPrinted(players: seq<EventPlayer>, log: string, fields: seq<Field>, table: HeroTable,
                           stats: seq<Stats>)
    requires IsLogOfTeams(log, fields) && |stats| == |players|
    requires ParseLog(log).Read? && LogPlayers(ParseLog(log).message).Some?
    requires StatsOf(players)
          == Joined(HeroesOf(players), table, stats, LogPlayers(ParseLog(log).message).value)
    ensures PlayersShow(players, table, Roster(fields))
    ensures UnlistedKeep(StatsOf(players), stats, HeroesOf(players), table, Roster(fields))
  {
    hide IsLogOfTeams, ParseLog, LogPlayers, Roster, Joined, PrintedStats, HasPrinted, PrintedUnder;
    var heroes := HeroesOf(players);
    forall k: nat, j: nat | GoesTo(heroes, table, Roster(fields), k, j)
      ensures HasPrinted(players[j], Roster(fields)[k])
    {
      EventPlayerGetsPrinted(log, fields, heroes, table, stats, k, j);
      assert StatsOf(players)[j] == players[j].CurrentStats();
      ShowsPrinted(players[j], Roster(fields)[k]);
    }
    forall j: nat | GetsNone(heroes, table, Roster(fields), j)
      ensures StatsOf(players)[j] == stats[j]
    {
      EventPlayerKeeps(log, fields, heroes, table, stats, j);
    }
  }

  lemma ShowsPrinted(p: EventPlayer, body: seq<Field>)
    requires p.CurrentStats() == PrintedStats(body)
    ensures HasPrinted(p, body)
  {
    hide PrintedUnder, PrintedItems;
  }

  class GameEvent {
    var towerStatus: Slot
    var barracksStatus: Slot
    var players: seq<EventPlayer>

    function CurrentState(): EventState
      reads this, players
    {
      EventState(towerStatus, barracksStatus, StatsOf(players))
    }
  }

  datatype EventState = EventState(towerStatus: Slot, barracksStatus: Slot, stats: seq<Stats>)

  /** What becomes of an event, and whether the source gets to the end; a part is done unless an earlier one throws. */
  function Filled(before: EventState, heroes: seq<string>, table: HeroTable, log: string): (r: (EventState, bool))
    requires |heroes| == |before.stats|
    ensures |r.0.stats| == |heroes|
  {
    match ParseLog(log)
    case Failed => (before, false)
    case Read(message) =>
      var after := before.(towerStatus := SlotOf(Some(message), "tower_status"),
                           barracksStatus := SlotOf(Some(message), "barracks_status"));
      match LogPlayers(message)
      case None => (after, false)
      case Some(players) => (after.(stats := Joined(heroes, table, before.stats, players)), Readable(players))
  }

  /** A log of a message with teams fills the event as the message was printed. */
  lemma FilledAsPrinted(before: EventState, players: seq<EventPlayer>, table: HeroTable, log: string,
                        fields: seq<Field>)
    requires IsLogOfTeams(log, fields) && |before.stats| == |players|
    requires StatsOf(players) == Filled(before, HeroesOf(players), table, log).0.stats
    ensures var (after, completed) := Filled(before, HeroesOf(players), table, log);
      && completed && after.towerStatus == PrintedList(fields, "tower_status")
      && after.barracksStatus == PrintedList(fields, "barracks_status")
    ensures PlayersShow(players, table, Roster(fields))
    ensures UnlistedKeep(StatsOf(players), before.stats, HeroesOf(players), table, Roster(fields))
  {
    hide IsLogOfTeams, ParseLog, SlotOf, LogPlayers, Joined, Readable, Roster, PrintedList, PlayersShow, UnlistedKeep;
    MessageIsRead(log, fields);
    PlayersShowPrinted(players, log, fields, table, before.stats);
  }

  /** Without a team the source throws, after it took the two lists of statuses. */
  lemma FilledWithoutTeams(before: EventState, heroes: seq<string>, table: HeroTable, log: string, fields: seq<Field>)
    requires IsLogOf(log, fields) && FieldsOf(fields, "teams") == [] && |before.stats| == |heroes|
    ensures Filled(before, heroes, table, log) ==
      (EventState(PrintedList(fields, "tower_status"), PrintedList(fields, "barracks_status"), before.stats), false)
  {
    hide IsLogOf, ParseLog, NO_COLLAPSE_KEYS, Collapsed, Grouped, ObjectOf, LogPlayers, FieldsOf, PrintedList, SlotOf,
         KeysOf, PrintedPlayers, ValuesOf;
    LogIsRead(log, fields);
    StatisticsArePlain();
    ListSlot(fields, "tower_status");
    ListSlot(fields, "barracks_status");
    ValuesOfFields(fields, "teams");
    LogPlayersOfPrinted(fields);
  }

  /** A log that cannot be read leaves the event as it is. */
  lemma UnreadLogFillsNothing(before: EventState, heroes: seq<string>, table: HeroTable, log: string)
    requires ParseLog(log).Failed? && |before.stats| == |heroes|
    ensures Filled(before, heroes, table, log) == (before, false)
  {
  }

  /** The whole of `fillAdditionalDataFromLog` on the text of the log; `false` where the source throws. */
  method FillAdditionalDataFromLog(evt: GameEvent, table: HeroTable, log: string) returns (completed: bool)
    requires Distinct(evt.players)
    modifies evt`towerStatus, evt`barracksStatus, evt.players
    ensures forall p | p in evt.players :: p.hero == old(p.hero) && p.steam_id == old(p.steam_id)
    ensures (evt.CurrentState(), completed) == old(Filled(evt.CurrentState(), HeroesOf(evt.players), table, log))
    ensures forall fields | IsLogOfTeams(log, fields) ::
      && completed
      && evt.towerStatus == PrintedList(fields, "tower_status")
      && evt.barracksStatus == PrintedList(fields, "barracks_status")
      && PlayersShow(evt.players, table, Roster(fields))
      && UnlistedKeep(StatsOf(evt.players), old(StatsOf(evt.players)), HeroesOf(evt.players), table, Roster(fields))
  {
    hide ParseLog, SlotOf, LogPlayers, Joined, Readable, IsLogOfTeams, Roster, PrintedList, PlayersShow, UnlistedKeep;
    ghost var before, heroes := evt.CurrentState(), HeroesOf(evt.players);
    completed := FillEvent(evt, table, log);
    assert HeroesOf(evt.players) == heroes;
    forall fields | IsLogOfTeams(log, fields)
      ensures completed && evt.towerStatus == PrintedList(fields, "tower_status")
      ensures evt.barracksStatus == PrintedList(fields, "barracks_status")
      ensures PlayersShow(evt.players, table, Roster(fields))
      ensures UnlistedKeep(StatsOf(evt.players), before.stats, heroes, table, Roster(fields))
    {
      FilledAsPrinted(before, evt.players, table, log, fields);
    }
  }

  method FillEvent(evt: GameEvent, table: HeroTable, log: string) returns (completed: bool)
    requires Distinct(evt.players)
    modifies evt`towerStatus, evt`barracksStatus, evt.players
    ensures forall p | p in evt.players :: p.hero == old(p.hero) && p.steam_id == old(p.steam_id)
    ensures (evt.CurrentState(), completed) == old(Filled(evt.CurrentState(), HeroesOf(evt.players), table, log))
  {
    hide ParseLog, SlotOf, LogPlayers, Joined, Readable;
    var reading := ReadLog(log);
    if reading.Failed? {
      return false;
    }
    evt.towerStatus := SlotOf(Some(reading.message), "tower_status");
    evt.barracksStatus := SlotOf(Some(reading.message), "barracks_status");
    var players := LogPlayers(reading.message);
    if players.None? {
      return false;
    }
    completed := FillFromLog(evt.players, table, players.value);
  }
}
