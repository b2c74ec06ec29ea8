# Verification of the game-server operator

A Dafny 4.11 model of three parts of the operator, with proofs about them. `dafny verify dfyconfig.toml` checks it.

**The SIGNOUT log reader** (`src/util/parseLogFile.ts`) reads a game's result out of a server log. The log loses its
timestamps, the payload is cut out between two marks, comments go, the rest is split into tokens, parsed into a
multimap by a recursive parser over a shared index, and collapsed, and the players are joined into the game event. Each
pass is a function with the loop that computes it, and each pass is shown to undo the matching step of printing a
message into a log. The main result is `LogReader.ParseLogInvertsPrinting`: for every message, in every mix of the
accepted spellings (`k: v` or `k v`, `k {..}` or `k: {..}`), laid out with any white space and comments, on lines of
which any may carry a timestamp, `parseLog` returns exactly the collapsed multimap of the message.

**The fleet** (`src/docker/docker.service.ts`, `src/replay.service.ts`, `launch-game-server.handler.ts`) is a state
machine whose steps are the points where the asynchronous code can be interrupted: a launch finds a slot, finds a CPU,
writes its config and starts; a container appears, stops, or writes its files; the clock passes; any number of
overlapping ticks scan the three folders, and each scan can throw anywhere. Proved over every run: the lock, and for
each of the other guarantees exactly which timings, pools and CPU counts give it: that no two containers share a CPU,
that the pool is not exceeded, that a minute of freshness covers a stale listing, that no two containers serve one
match, and that no log or replay is lost.

**The `status` table parser** (`src/util/parseStatusResponse.ts`) pairs quotes, and player names may hold quotes. It is
shown to recover every field of every printed row, whatever the name, and the two exceptions are told exactly.

Modules: `Text`, `Numerals` and `Values` hold strings, numerals with double rounding, and parsed values; `LogText`,
`Tokens`, `Message`, `Collapse`, `LogReader` and `LogJoin` are the log reader; `StatusTable` is the table;
`Docker` and `Replays` are the two services as classes; `Fleet` defines the state machine, `FleetSafety` and
`FleetArtifacts` prove what its steps keep, and `FleetRuns`, `FleetSlots`, `FleetCpus`, `FleetLease`, `FleetLoss` and
`FleetSettled` prove exactly when each guarantee holds. `FleetServices` and `FleetScan` show that the services' own code
takes these steps: what docker lists, as the wrapper reads it, gives a launch its slot and its CPU and a scan the matches
to spare, and a scan that nothing interrupts is one settled run of the fleet.

What the fleet assumes, and where it comes from:

- Launches come one at a time (`prefetchCount: 1`, `src/app.module.ts:86`). After it started a container the handler
  waits five seconds (`src/operator/command/launch-game-server.handler.ts:122`) and its subscriber five more
  (`src/events.controller.ts:59`) before the next launch is taken; the two are the parameter `launchWait`. Nothing
  makes the next launch wait until the container is listed.
- A container is listed or gone at most `startDelay` after its launch, and a scan checks an entry at most `scanAge`
  after it listed the containers. Both are parameters. The lock and the lease need no relation between the three; where
  a guarantee does, the theorem says which.
- Writing the config file and setting the freshness entry are one step; the code awaits the write in between.
- The artifact theorems are about settled runs: the folders begin with one content for each match and folder, no match
  is launched while the one file that it has in a folder is being uploaded, and a match that has several files in a
  folder writes to each what the others hold. `FoldersAreSafeIffTheyAgree` shows that the first is needed,
  `StepIsSafeIffSettled` that the others are at every single step, and `RelaunchIsUnsettled` that the code takes
  unsettled launches.
- A name that is a directory is never a log or a replay as well.

Where the code and its comments disagree the model follows the code: the handler waits five seconds, not two; the scan
looks at `limit` entries, not always fifty; and the player found by steam id is always replaced by the one found by
hero, so the join is by hero.

## Model

| member | source | states |
|---|---|---|
| LogReader.ParseLogInvertsPrinting | src/util/parseLogFile.ts:122-154 | Any message, in any spelling and layout, put in a log with any timestamps between the marks, is read back as exactly its collapsed multimap; the header must lack the start signal, and the end mark may come only after the body |
| LogReader.ListsOfLog | src/util/parseLogFile.ts:143-151 | In any log of a message, at every object that a path leads to, a key holds a list iff it occurred there more than once or is one of the six: players, teams, items, tower_status, barracks_status, ability_upgrades |
| LogReader.EveryTextIsLaid | src/util/parseLogFile.ts:135-170 | The layouts of the round trip leave no text out: every text is tokens, white space and comments that may follow each other so |
| LogReader.ParseLogInvertsPrintedLog | src/util/parseLogFile.ts:122-154 | The same for one concrete printer, on every valid message whose tokens hold no white space, `#` or `/` |
| LogReader.ReadLog | src/util/parseLogFile.ts:122-154 | The chain of passes computes the specification used by the round trip |
| LogReader.ReadIffScanEnds | src/util/parseLogFile.ts:138-153 | A log is read iff the depth-counter scan of its tokens finds an end; what is read is an object, is already fully collapsed, and re-wraps to a parser output |
| LogReader.CommentsAreRemoved | src/util/parseLogFile.ts:135-135 | Removing comments from any laid-out message leaves just its other pieces |
| LogReader.LaidTokensAreRead | src/util/parseLogFile.ts:156-170 | Tokenizing a laid-out message gives its tokens, in order |
| LogText.StripInvertsStamping | src/util/parseLogFile.ts:123-124 | Whatever lines carry a timestamp, stripping leaves every line as it is without it |
| LogText.StampFreeIff | src/util/parseLogFile.ts:123-124 | The pattern finds something in a text iff a timestamp, written part by part, occurs in it |
| LogText.PayloadIsBody | src/util/parseLogFile.ts:125-132 | The slice between the first start signal and the first end mark is exactly the body |
| LogText.PayloadCut | src/util/parseLogFile.ts:125-132 | The slice of any log: from one character after the first start signal, or from the 32nd when there is none, up to the first end mark, even if that comes before; without an end mark, all but the last character |
| LogText.CommentPrefix | src/util/parseLogFile.ts:135-135 | A comment is removed up to, and not including, the line end |
| Tokens.TokenizeLoop | src/util/parseLogFile.ts:156-170 | The loop over `exec` computes the token sequence, and ends |
| Tokens.TokensCoverInput | src/util/parseLogFile.ts:156-170 | The tokens put together are the input without white space, and each is one delimiter or a delimiter-free word |
| Tokens.TokenizeOfConcat | src/util/parseLogFile.ts:156-170 | Words are maximal: at any break the input is tokenized independently on both sides |
| Tokens.TokenizeInvertsSpaceJoined | src/util/parseLogFile.ts:156-170 | Tokenizing tokens joined by spaces gives them back |
| Tokens.TokenizeOfTrim | src/util/parseLogFile.ts:135-138 | The trim before tokenizing changes nothing |
| Message.ParseObject | src/util/parseLogFile.ts:172-229 | The loop and its recursion end on every token sequence and compute the parse, with failures |
| Message.AddToResult | src/util/parseLogFile.ts:231-237 | The value is appended to the list of its key, which is made first if need be |
| Message.InheritedKeyThrows | src/util/parseLogFile.ts:231-236 | Wherever one of the twelve names that every object inherits stands as a key, the parse throws |
| Message.ParseFrom | src/util/parseLogFile.ts:172-229 | A successful parse returns an index past its start and within the tokens |
| Message.ParserEndsWhereScanSays | src/util/parseLogFile.ts:172-229 | On every token sequence the recursive parser throws, or stops, exactly where a one-pass scan with a depth counter says: it throws iff the tokens run out where a value is due, or an inherited name stands as a key, before the object ends |
| Message.ScanIsNestedParse | src/util/parseLogFile.ts:200-218 | One level deeper the scan does what a nested parse, resumed at the index it returns, does |
| Message.ParserReadsNested | src/util/parseLogFile.ts:172-229 | Wherever printed fields stand with a closing brace after them, the parser returns them grouped by key in order of occurrence, and stops just past that brace |
| Message.ParserReadsFields | src/util/parseLogFile.ts:179-226 | Reading printed fields has the effect of pushing their values in order, whatever was collected before and whatever follows |
| Message.ParserReadsMessage | src/util/parseLogFile.ts:140-141 | At the top level the fields run to the end of the tokens and are grouped by key |
| Message.PushAllFromEmpty | src/util/parseLogFile.ts:231-237 | Pushing fields one by one is grouping them by key in order of occurrence |
| Collapse.CollapseRepeated | src/util/parseLogFile.ts:107-120 | The in-place loops over keys and list elements compute the collapse |
| Collapse.ExpandInvertsCollapse | src/util/parseLogFile.ts:107-120 | Nothing is lost: re-wrapping whatever is not a list gives the parser's output back |
| Collapse.CollapseIsIdempotent | src/util/parseLogFile.ts:107-120 | On parser output a second pass changes nothing |
| Collapse.CollapseKeepsPaths | src/util/parseLogFile.ts:107-120 | In any such value, every path leads where it led before, to the collapsed form of what was there |
| Collapse.ListIffRepeatedOrKept | src/util/parseLogFile.ts:113-115 | At every depth, a key ends as a list iff it occurred more than once or is protected |
| Collapse.CollapseSettles | src/util/parseLogFile.ts:107-120 | At every depth of any value with no list directly in a list, no list of one is left but under the kept keys |
| Collapse.ParserOutputIsRaw | src/util/parseLogFile.ts:172-237 | Under every key the parser builds a nonempty list of scalars and objects of the same kind |
| Values.ParseValueInvertsToken | src/util/parseLogFile.ts:240-281 | `parseValue` gives back the value of every literal: integers of any length, numbers written as an optional minus, digits, an optional fraction and an optional exponent, truth values in any letter case, quoted texts, and whatever is none of these |
| Values.EveryTokenIsLiteral | src/util/parseLogFile.ts:240-281 | Every token is the spelling of such a literal, but for a quote on its own, which is read as the empty text |
| Values.NumberShapeIff | src/util/parseLogFile.ts:250-252 | The number pattern matches exactly the texts written in those parts |
| Values.IntegerTokensPrintBack | src/util/parseLogFile.ts:252-275 | An integer token of any length prints back as itself iff it is canonical or longer than fifteen digits |
| Values.ThresholdIsLargest | src/util/parseLogFile.ts:264-275 | Reading canonical naturals up to a digit count as doubles is exact iff the count is at most fifteen |
| Numerals.NearestDoubleIsNearest | src/util/parseLogFile.ts:273-275 | The rounding that `parseFloat` and `parseInt` do gives a number with at most 53 binary digits and then zeros, and no such number is nearer |
| Numerals.TiesGoToEven | src/util/parseLogFile.ts:273-275 | Of two equally near it takes the even one |
| Values.SteamIdIsExact | src/util/parseLogFile.ts:302-304 | The steam64 to steam32 subtraction is exact for every integer token |
| LogJoin.FillFromLog | src/util/parseLogFile.ts:299-333 | The loop leaves every event player as the join says, changes no hero and no steam id, and completes iff every steam id can be read |
| LogJoin.FindByHero | src/util/parseLogFile.ts:312-314 | The search finds the first event player with the hero id |
| LogJoin.Fill | src/util/parseLogFile.ts:323-332 | All ten statistics come from the log player, each from its own field |
| LogJoin.JoinIsByHero | src/util/parseLogFile.ts:299-333 | With distinct heroes and hero ids each event player gets exactly the statistics of the log player with its hero id, the unmatched keep theirs, and order does not matter |
| LogJoin.FillAdditionalDataFromLog | src/util/parseLogFile.ts:283-333 | For every log of a message with teams whose players have each key at most once and an integer steam id: the call completes, both status lists are as printed, the event player that a log player goes to by hero id has the ten statistics as printed under their own keys, and those whose hero id the log lacks keep theirs |
| LogJoin.EventPlayerGetsPrinted | src/util/parseLogFile.ts:299-333 | The same for one player: the last in the log with a hero id decides, and the first event player with it gets what was printed |
| LogJoin.PlayerIsRead | src/util/parseLogFile.ts:301-332 | Each statistic of a printed player is read from under its own key, an absent one as nothing, and `bear` from the items of the additional units |
| LogJoin.SteamIdIsReadIff | src/util/parseLogFile.ts:302-304 | Of all literals just the integers, in quotes or not and whatever their zeros, can be read as steam ids, and they are read as what they spell |
| LogJoin.FilledWithoutTeams | src/util/parseLogFile.ts:286-300 | A log of a message without a team sets the two status lists, throws, and fills no player |
| LogJoin.LogPlayersOfPrinted | src/util/parseLogFile.ts:299-301 | The join sees exactly the players a message was printed with, in order, also for a single team or player, because those keys stay lists; without a team it throws |
| LogJoin.JoinGivesLast | src/util/parseLogFile.ts:299-333 | Without those conditions each event player gets the statistics of the last log player that goes to it |
| LogJoin.OrderIndependentIffAgreeing | src/util/parseLogFile.ts:299-333 | The join is the same for every order of the log's players iff no two that go to one event player differ in their statistics |
| StatusTable.ParseStatusRowInvertsPrint | src/util/parseStatusResponse.ts:14-43 | Whatever white space surrounds a printed row and whatever quotes its name holds: a human row gives back every field, the name as trimmed, iff its number stands apart from the `#`; a bot row is left out iff it has fewer than seven fields; no printed row throws |
| StatusTable.HumanRowIsRead | src/util/parseStatusResponse.ts:21-42 | Of every printed human row all fields but the user id are recovered, and the user id iff a gap follows the `#` |
| StatusTable.PlainBotIsLeftOut | src/util/parseStatusResponse.ts:18-19 | A bot whose name has no quote is always left out, also when its number touches the `#` |
| StatusTable.SplitOfRow | src/util/parseStatusResponse.ts:15-31 | Quote pairing splits a printed row into the fields before the name, the fields that the name has on its own, and the fields after it |
| StatusTable.MatchStaysInName | src/util/parseStatusResponse.ts:15-16 | No field that begins inside a name runs past its closing quote, however the quotes pair up, and where it ends does not depend on what follows |
| StatusTable.ParseStatusResponseInvertsPrint | src/util/parseStatusResponse.ts:44-62 | Any printed response is read, no human is left out, and exactly the human rows come back, in order, iff every row is legible in that sense, whatever precedes the header and follows the end line |
| StatusTable.ReadStatusResponse | src/util/parseStatusResponse.ts:44-62 | The loop with its break computes the specified list, and throws where a row does |
| StatusTable.RowThrowsIff | src/util/parseStatusResponse.ts:14-34 | A row throws iff it is white space with at most one quote, or has seven fields and only white space after its last quote |
| StatusTable.ListingThrowsIff | src/util/parseStatusResponse.ts:53-59 | A listing throws iff some row before its first end line does |
| StatusTable.HeaderlessResponseIsRead | src/util/parseStatusResponse.ts:47-53 | Without a header the rows are read in the same way from the first line on |
| Docker.MatchIdSurvivesEncoding | src/replay.service.ts:135-135 | Label, config, log and replay names decode to the id exactly when the id is a double, which every safe natural is |
| Docker.WrapInvertsLabels | src/docker/docker-server-wrapper.ts:15-25 | The wrapper reads back the id, the URL, the lobby type and the CPU that a launch writes into the labels |
| Docker.LaunchedIs | src/docker/docker.service.ts:104-115 | The name and the four labels of a launched container, written out |
| Docker.WornIffRunning | src/docker/docker.service.ts:377-381 | Some listed server wears the label of a CPU iff some game runs on it |
| Docker.NumberedIffDigit | src/replay.service.ts:135-140 | A file name carries an id iff there is a digit in it |
| Docker.StopIsRightIffNoPrefix | src/docker/docker.service.ts:197-205 | Stopping a match picks its own container, in whatever order docker lists them, iff no other running id begins with its digits |
| Docker.PruningChangesNoAnswerFromStart | src/docker/docker.service.ts:37-48 | Under a clock that does not go back, the self-pruning map answers every query as the full history of starts would |
| Docker.DockerService.IsFreshServer | src/docker/docker.service.ts:37-48 | Fresh iff the start is at most a minute old; exactly an expired entry is deleted |
| Docker.DockerService.GetUsedCpus | src/docker/docker.service.ts:373-384 | A text is used iff some listed server wears it as its CPU label |
| Docker.DockerService.AllocateCpu | src/docker/docker.service.ts:386-401 | When docker lists the containers of any games as launches label them: a CPU that no game runs on while some game runs on every lower one, or nothing when some game runs on each |
| Docker.DockerService.CreateTemporaryLaunchConfig | src/docker/docker.service.ts:362-371 | The exclusive write succeeds iff the file is absent, and otherwise changes nothing |
| Docker.DockerService.StartGameServer | src/docker/docker.service.ts:59-170 | A refused launch changes nothing; a launch writes its schema to the config, sets both maps, and starts a container with its name and labels on the lowest CPU that no listed game runs on |
| FleetSafety.LockIsSafe | src/replay.service.ts:95-117 | In every interleaving with exceptions anywhere, a bucket is locked iff exactly one scan of it is in its critical section, and nothing stays locked |
| FleetSafety.StepKeepsLock | src/replay.service.ts:108-176 | Every step keeps that |
| FleetSafety.AllocationIsSafe | src/docker/docker.service.ts:267-273 | When launches do not overlap, in every reachable state no two containers share a CPU and the pool is not exceeded |
| FleetSlots.CpusAreApartIffSerialised | src/docker/docker.service.ts:386-401 | No two containers ever share a CPU iff every container is listed before the next launch begins (or nothing can be launched) |
| FleetSlots.SharingIsBounded | src/docker/docker.service.ts:373-401 | At any timing, the containers on one CPU are at most one more than the launches that fit in the start delay |
| FleetSlots.PoolHoldsIffItFits | src/docker/docker.service.ts:267-273 | The pool is never exceeded iff launches do not overlap, or it has room for that many containers on every CPU |
| FleetSlots.StepKeepsCrowd | src/docker/docker.service.ts:72-99 | Every step keeps launches apart and the sharing of each CPU bounded, at any timing |
| FleetSlots.PacedIsReachable | src/operator/command/launch-game-server.handler.ts:50-125 | Launches at their quickest pace, each listed as late as allowed, reach that crowding |
| FleetSafety.StepKeepsSlots | src/docker/docker.service.ts:72-80 | When launches do not overlap every step keeps that, also while containers stop between the slot check, the CPU choice and the start |
| FleetCpus.CpusSufficeIffPoolFits | src/docker/docker.service.ts:386-401 | When at most three launches can overlap the next, a launch that found a slot always finds a CPU, in every run, iff there is a CPU for every slot, and one more for each launch that does overlap the next |
| FleetCpus.EnoughCpusSuffice | src/docker/docker.service.ts:74-80 | At any timing, a CPU for every slot and one for every launch that can overlap are enough |
| FleetCpus.ThreeOverlapsRunOut | src/docker/docker.service.ts:72-80 | With three overlapping launches and one CPU less than that, a run takes the CPUs from above until a launch that found a slot finds none |
| FleetSafety.LiveMatchesAreDistinct | src/docker/docker.service.ts:362-371 | Within the lease no two live containers serve one match, and every live match keeps the config file that the exclusive write refuses to recreate |
| FleetLease.MatchesAreDistinctIff | src/docker/docker.service.ts:362-371 | No two live containers ever serve one match iff start delay and scan age fit in the lease, or there is only ever room for one container |
| FleetSafety.StepKeepsLease | src/replay.service.ts:116-160 | Every step keeps what the lease argument needs of live containers, listings and pending removals |
| FleetSafety.PickSparesLiveMatches | src/replay.service.ts:142-154 | A scan's check lets no file of a live match through |
| FleetArtifacts.NoArtifactIsLost | src/replay.service.ts:38-79 | Over every settled run within the lease, with failures anywhere, the last content of every log and replay is on disk or stored under its match's key, and no upload or deletion is under way for the only file that a live match has in a folder |
| FleetSettled.FoldersAreSafeIffTheyAgree | src/replay.service.ts:128-170 | Within the lease, every settled run from given folders keeps every log and replay iff, in each folder, the files that carry one match id have one content |
| FleetLoss.ArtifactsAreKeptIffTimingsFit | src/replay.service.ts:116-169 | Every settled run keeps every log and replay iff start delay and scan age together are at most 60000 ms |
| FleetSettled.StepIsSafeIffSettled | src/replay.service.ts:38-79 | Within the lease, at any point of a settled run, a step is safe for every artifact, however the run goes on in settled steps, iff it is settled: it launches no match whose one file in a folder is being uploaded, and writes no second content for a match and folder |
| FleetSettled.DisagreementLoses | src/replay.service.ts:135-169 | From any state with two such contents in which the lock is sound and the disk holds what was last written, at any timing, settled steps lead to the loss of one: the fleet comes to rest, and one scan uploads what is left of the two |
| FleetLoss.StartDuringUploadLoses | src/replay.service.ts:38-72 | Whatever the timings, a launch during an upload of any file of the match can be continued to a state that has lost an artifact |
| FleetLoss.UnsettledStartLoses | src/replay.service.ts:38-72 | Whatever the timings, in every reachable state, a launch that is not settled can be continued in settled steps to such a loss |
| FleetLoss.LiveUploadLoses | src/replay.service.ts:38-72 | Wherever an upload of a live match's file stands, at the read, the put or the unlink, the match can lose what it writes |
| FleetArtifacts.StepKeepsArtifacts | src/replay.service.ts:128-176 | Every settled step keeps that |
| FleetArtifacts.ObjectIsOfOneMatch | src/replay.service.ts:162-169 | No two matches or folders share an object key |
| FleetLease.LeaseCoversIffTimingsFit | src/docker/docker.service.ts:41-45 | The lease covers the stale listing in every run iff start delay and scan age together are at most 60000 ms |
| FleetLease.UncoveredBeyondLease | src/replay.service.ts:116-145 | Beyond that, a run lets a scan pick the config of a running match |
| FleetLoss.RelaunchIsUnsettled | src/replay.service.ts:142-154 | Whatever the timings, a settled run reaches a launch of a match whose old log is being uploaded |
| FleetLoss.RelaunchCanLoseArtifact | src/replay.service.ts:38-72 | So, whatever the timings, some run loses an artifact |
| Replays.ReplayService.ScanUploadableEntities | src/replay.service.ts:102-177 | A locked bucket is left alone; otherwise the lock is free afterwards, and nothing was done when a listing throws, or else the entries up to the limit, or up to the first that throws, were handled in order, each at its own time; no file and no object of a match that docker lists, or that started at most a minute before every visit, is changed |
| Replays.ReplayService.UploadEntity | src/replay.service.ts:28-80 | The file is removed only after it was stored under the target name, with `.zip` when compressed; one that cannot be unlinked stays without a throw; a failure to read, compress or put throws and removes nothing |
| Replays.ReplayService.HandleEntry | src/replay.service.ts:130-169 | Directories, unnumbered, running and fresh entries are left; configs are removed; the rest is uploaded; it throws exactly on a missing entry, a failed look, a failed upload, or a config that cannot be unlinked |
| Replays.TheRestIsTaken | src/replay.service.ts:135-169 | A numbered file of a match that is not listed and not fresh is removed, after it was stored under `<id>.log` or `<id>.dem.zip` unless it is a config, and what goes wrong at it ends the scan or leaves the file, as told |
| Replays.TheOthersAreLeft | src/replay.service.ts:130-155 | Every other entry is left, the scan goes on, and nothing changes; a missing entry or a failed look ends it |
| Replays.RunningIsSpared | src/replay.service.ts:116-155 | Whatever else docker lists, a scan changes no file and no object of a launched match that it lists |
| Replays.FreshIsSpared | src/replay.service.ts:142-155 | Nor of a match that started at most a minute before every visit, listed or not |
| Replays.ReplayService.CheckUploadableReplays | src/replay.service.ts:95-100 | One tick scans ten replays into their bucket, then ten configs and fifty logs under the bucket of the logs, and leaves no lock behind |
| Replays.ScanRemovesEligible | src/replay.service.ts:130-170 | A scan that meets no exception removes exactly the entries that are eligible when it comes to them and whose unlink succeeds, judged by the state before it, and changes no other file |
| Replays.ErrorFreeScanEnds | src/replay.service.ts:130-170 | Without faults a scan of distinct entries that are there reaches its end |
| Replays.SharedIdKeepsOnlyLast | src/replay.service.ts:135-169 | Two eligible files of a folder that carry one match id share a key, and only the content scanned last survives |
| Replays.ScanProgressesIffFewPassedOver | src/replay.service.ts:128-170 | With something eligible, every error-free scan removes something, in any order of the listing and at any pace, iff the entries to pass over are fewer than the limit |
| Replays.BacklogDrains | src/replay.service.ts:95-100 | With no new files and fewer entries to pass over than the limit, one more error-free scan than there are files finds nothing eligible |
| Replays.HandledIsFleetSteps | src/replay.service.ts:38-79 | Handling a log or replay is the fleet's steps in a row, whatever fails, and goes on or ends the scan as they do |
| Replays.PickIsEligible | src/replay.service.ts:130-155 | The fleet picks an entry iff an uninterrupted scan takes it, while the listing is recent enough |
| FleetServices.FindCpuIsAllocation | src/docker/docker.service.ts:386-401 | The fleet gives a launch a CPU iff no running game has it and some running game has every lower one, which is what `allocateCpu` picks from what docker lists |
| FleetServices.FindSlotIsFreeSlot | src/docker/docker.service.ts:267-273 | The fleet begins a launch iff `haveFreeSlot` answers yes to that listing |
| FleetServices.LaunchIsFleetSteps | src/docker/docker.service.ts:72-145 | A launch on that CPU whose config is absent is two steps of the fleet, which write the config, set the freshness entry and add a container with that id and CPU |
| FleetServices.ListIsRunningIds | src/replay.service.ts:116-117 | The listing step gives a scan exactly the ids of the running games, as the scan reads them off the labels |
| FleetScan.ScanIsFleetRun | src/replay.service.ts:102-177 | A scan that nothing interrupts, whatever throws in it, has the effect of one settled run of the fleet on files, objects and map, and frees its lock as that does |
| FleetScan.ScanKeepsArtifacts | src/replay.service.ts:102-177 | So within the lease, from any point of a settled run, it leaves every log and replay there ever was on disk or stored |

## Left out

- Parsed objects are values, not heap objects: updating them in place and sharing are not captured; the source never shares them. Nor is the order in which JavaScript enumerates keys, on which nothing here depends.
- Values.ParseFloat: a token with a fraction or an exponent stays opaque, so `1.0` and `1` are different numbers here; negative zero is zero.
- Numerals.Decimal: JavaScript prints numbers from 10^21 on with an exponent, which the model does not; ids from 2^53 on are rounded as the code rounds them.
- Strings are sequences of Unicode characters; UTF-16 surrogates are not modelled.
- Docker.ParseInt: leading white space and signs are not modelled; the texts it is given have neither.
- Docker.DockerService.StartGameServer: CPU affinity is always on, as its one caller asks; image, network, exposed ports, volumes and environment of the container are not modelled; the config file holds the schema, of which only id, lobby type and URL are told apart.
- Docker refuses a second container with a name in use; here such a launch is one that takes its slot and its CPU and may die before it is listed, so `MatchesAreDistinctIff` is about what the operator itself guarantees.
- `getRunningGameServers` also filters containers by name; here a listing has only the containers of matches.
- Replays.ReplayService.ScanUploadableEntities: runs without interruption, so a listing is never stale there; the fleet's steps interleave.
- Replays.BacklogDrains: is about scans that meet no exception.
- FleetScan.ScanIsFleetRun: is about scans whose clock does not go back, that look at each entry within `scanAge` and before any container still to appear is overdue, as the fleet assumes of every scan.
- FleetArtifacts.NoArtifactIsLost: needs the run settled and the timings within the lease; `FleetLoss` and `FleetSettled` show that it is false otherwise.
- FleetCpus.CpusSufficeIffPoolFits: is exact while at most three launches overlap the next; with more, the bound of `EnoughCpusSuffice` is sufficient but not claimed to be tight. Its runs need a few more safe match ids than there are CPUs.
- Replays.ReplayService.UploadEntity: the event published after the put is not modelled.
- Replays.SharedIdKeepsOnlyLast: is about one uninterrupted scan of two entries; `FleetSettled.DisagreementLoses` is about the fleet.
- LogJoin.SteamIdOf: `BigInt` also accepts an empty text, surrounding white space and other bases, which throw here. So does a steam id with a fraction or an exponent; the source prints its number first, so `1.0` is accepted there as `1`.
- LogJoin.FillAdditionalDataFromLog: takes the text of the log instead of reading its file, and throws on the same steam ids.
- LogJoin.FillFromLog: "completes iff every steam id can be read" is therefore exact for steam ids that are integer tokens or texts in decimal digits.
- The hero table is not part of this model; the join takes any table.
- Docker, S3, RCON, Redis, RabbitMQ, HTTP and the file system are kept only as their effect on the state; compression of replays does not show in the stored content.
- Nest wiring, logging, configuration and metrics connect the parts and report on them. `getFreePort` asks the operating system for a port, `zipBuffer` compresses through a library, `src/rcache.ts` wraps a Redis store, the result mapper copies fields, and `parseStatsResponse` filters lines.
- Restarts of the operator and clocks that go back: the maps in memory give no guarantee there.
