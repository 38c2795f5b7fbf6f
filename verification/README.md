# Warzone game engine — a Dafny model

This project models the core of a C++ "Warzone" game, a Risk-like turn-based
strategy game. Its parts:

- A **map** (continents, territories and their adjacencies) is read from a
  text file and validated:
  - the whole map is connected;
  - every continent is a connected subgraph;
  - every territory belongs to exactly one continent.
- A **command processor** reads commands from the console or from a file.
  It validates each command against the current game state and records an
  effect.
- A **game engine** runs the command state machine:
  - start → map loaded → map validated → players added → the play cycle;
  - the play cycle is assign reinforcement → issue orders → execute orders,
    then win.
- The **main game loop**:
  - deals the territories round-robin, with 5 armies each;
  - plays at most 10 turns;
  - each turn runs the reinforcement phase, the issue-orders phase and the
    execute-orders phase;
  - removes players who own nothing;
  - checks the two win conditions.
- **Six kinds of order** (Deploy, Advance, Bomb, Blockade, Airlift,
  Negotiate) are each validated and executed against the board.
- **Subjects** keep a list of log observers and notify them.

## Modules

| file | module | models |
|---|---|---|
| wrappers.dfy | `Wrappers` | `Option`, for nullable pointers and "not found" results |
| text.dfy | `Text` | the `trim` and `split` helpers of `Map.cpp`; lower-casing and `>>` word extraction of the command processor |
| logging.dfy | `Logging` | `Subject` and its observer list (`LoggingObserver.cpp`) |
| world.dfy | `Game` | the `Order` values, `OrdersList`, `Player`, the `Board` of territories, the ownership records and the turn-scoped negotiation and card sets |
| orders.dfy | `Orders` | `validate` and `execute` of the six orders (`Orders.cpp`) |
| maps.dfy | `Maps` | `Map`, `getTerritory` and the three validation checks (`Map.cpp`) |
| map_loader.dfy | `MapLoader` | `MapLoader::parseFile` and `loadMap` |
| schedule.dfy | `Schedule` | the arithmetic and the order of the game loop: the reinforcement formula, the round-robin deal, Deploys first, round-robin execution |
| commands.dfy | `CommandProcessing` | `Command`, `CommandProcessor` and `FileCommandProcessorAdapter` |
| engine.dfy | `Engine` | `GameEngine`: the command table and `mainGameLoop` with its phases |

### Modelling choices

- **Territories** live in a `Board` object. It holds `owner` and `armies`
  as sequences indexed by territory id, plus the adjacency lists.
  - A territory's id is its insertion index, as `parseFile` assigns it.
  - An order refers to territories by id and to players by reference.
- **Ownership** is recorded twice in the source: the territory's `owner` and
  the player's `territories` vector.
  - The predicate `Game.Consistent` states that the two records agree.
  - Every order execution and every engine phase keeps it.
- **The file system and the console** are parameters:
  - the map and command files are a `map<string, seq<string>>` of lines;
  - a console line is a string argument;
  - `std::stoi` succeeding is the `isNumeric` parameter.
- **An order's `executed` flag and effect text** are returned by `execute`,
  not stored in the order. The effect text is a tag datatype (`Verdict`,
  `Effect`).
- **Cards** are a count per player. Playing a card is a foreign call and is
  modelled as taking one card off the count.

### Behaviour of the code worth knowing

- **Defender losses in an Advance.** `Orders.cpp:430` computes
  `min(moved, defenders * 7 / 10)`: the defenders kill 70% of the
  *defending* armies, capped by the armies moved.
- **Commands after a win.** `CommandProcessor::validate` accepts only
  `replay` and `quit` in the win state (`CommandProcessing.cpp:259-270`).
  `play` is rejected.
- **`gamestart`.** In the code:
  - the validator does not count players;
  - the engine's `gamestart` branch (`GameEngine.cpp:190-200`) can never be
    reached, because `validateCommand` does not allow that command in state
    2;
  - `mainGameLoop` deals territory `i` to player `i mod n`, without a
    shuffle, with 5 armies each.
- **Six-player cap.** The code enforces the cap only in the `addplayer`
  branches of states 2 and 3, which are the only states that accept
  `addplayer`.
- **Neutral player.** The source creates it on first use. The model creates
  it eagerly, with the reserved id 0.

## Model

| member | source | states |
|---|---|---|
| Text.Trim | Map/Map.cpp:198-203 | the result has no leading or trailing space, tab, CR or LF; it is empty exactly when the input is all such whitespace; otherwise it is the input with only that whitespace cut from both ends |
| Text.TrimOfTrimmed | Map/Map.cpp:198-203 | a string already without boundary whitespace is returned unchanged |
| Text.TrimIdempotent | Map/Map.cpp:198-203 | trimming twice is trimming once |
| Text.Split | Map/Map.cpp:205-216 | the tokens are the `getline` pieces between delimiters, each trimmed, with empty pieces dropped, in order; every token is non-empty, trimmed and free of the delimiter |
| Text.SplitFromIsSplitSpec | Map/Map.cpp:207-214 | reading character by character and emitting at each delimiter yields exactly the trimmed non-empty pieces |
| Text.SplitSpecAtDelimiter | Map/Map.cpp:207-214 | at a delimiter, the current piece is emitted (when non-empty after trimming) and splitting resumes after it |
| Text.SplitNoDelimiter | Map/Map.cpp:205-216 | no token of a split contains the delimiter |
| Text.Clean | Map/Map.cpp:209-213 | dropping empty trimmed pieces leaves only non-empty trimmed tokens, never more than there were pieces |
| Text.CleanAppend | Map/Map.cpp:209-213 | cleaning distributes over concatenation, so the order of tokens is that of the line |
| Text.ToLower | Command_processing/CommandProcessing.cpp:149 | `A`–`Z` map to `a`–`z` (code point plus 32); every other character is unchanged |
| Text.Lower | Command_processing/CommandProcessing.cpp:148-149 | same length, each character lower-cased by `ToLower` |
| Text.SkipSpaces | Command_processing/CommandProcessing.cpp:151-153 | the result is a suffix of the input that does not start with whitespace |
| Text.WordPrefix | Command_processing/CommandProcessing.cpp:151-153 | the word is a prefix with no whitespace, and it ends at whitespace or at the end of the input |
| Text.NextWord | Command_processing/CommandProcessing.cpp:151-153 | the extracted word has no whitespace; when no word is left, nothing remains |
| Text.FirstWordOfWordThenSpace | Command_processing/CommandProcessing.cpp:151-153 | `>>` on a string made of a word followed by whitespace or the end reads exactly that word |
| Text.WordPrefixOf | Command_processing/CommandProcessing.cpp:151-153 | the longest whitespace-free prefix of a word followed by whitespace is that word |
| Logging.Without | Logging/LoggingObserver.cpp:30-32 | after `remove`, an observer is listed exactly when it was listed and is not the one removed |
| Logging.WithoutIsFilter | Logging/LoggingObserver.cpp:30-32 | `remove` deletes every copy of the observer and nothing else; a list without it is unchanged |
| Logging.WithoutAbsent | Logging/LoggingObserver.cpp:30-32 | removing an observer that is not attached leaves the list unchanged |
| Logging.WithoutKeepsNoDuplicates | Logging/LoggingObserver.cpp:30-32 | removing keeps a duplicate-free list duplicate-free, and removing twice is removing once |
| Logging.WithoutAppend | Logging/LoggingObserver.cpp:30-32 | removing preserves the relative order of the remaining observers |
| Logging.Attached | Logging/LoggingObserver.cpp:21-28 | after `attach` the observer is listed, the others are unchanged, and no duplicate is introduced |
| Logging.AttachIdempotent | Logging/LoggingObserver.cpp:21-28 | attaching an observer that is already present changes nothing; otherwise the list grows by one |
| Logging.DetachUndoesAttach | Logging/LoggingObserver.cpp:21-32 | detaching an observer that was just attached restores the original list |
| Logging.AttachedAll | Logging/LoggingObserver.cpp:49-53 | propagating keeps the target's list as a prefix, adds every source observer, and adds no duplicate |
| Logging.OnceInDistinct | Logging/LoggingObserver.cpp:41-47 | in a duplicate-free list an observer occurs once |
| Logging.Subject.constructor | Logging/LoggingObserver.h:22 | a new subject has no observers |
| Logging.Subject.Copy | Logging/LoggingObserver.cpp:9-11 | a copy has the same observers |
| Logging.Subject.Assign | Logging/LoggingObserver.cpp:14-19 | assignment replaces the observers with the other's, including self-assignment |
| Logging.Subject.Attach | Logging/LoggingObserver.cpp:21-28 | a null observer is ignored; otherwise it is attached once; the list stays duplicate-free |
| Logging.Subject.Detach | Logging/LoggingObserver.cpp:30-32 | a null observer is ignored; otherwise every occurrence is removed |
| Logging.Subject.NotifyObserversOf | Logging/LoggingObserver.cpp:41-47 | each attached observer is updated, in list order, exactly once |
| Logging.Subject.NotifyObservers | Logging/LoggingObserver.cpp:34-39 | a loggable subject notifies all its observers; otherwise none |
| Logging.Subject.PropagateObserversTo | Logging/LoggingObserver.cpp:49-53 | the target ends up with all of its own observers and all of this subject's, without duplicates |
| Game.Removed | Orders/Orders.cpp:898-905 | the element at the index is erased and the others keep their order |
| Game.RemovedMultiset | Orders/Orders.cpp:898-905 | erasing removes exactly one copy of the erased order |
| Game.MovedMeaning | Orders/Orders.cpp:908-926 | a move is a permutation that puts the moved order at the target index, the others keeping their relative order |
| Game.MoveToSelf | Orders/Orders.cpp:908-926 | moving an order to its own index changes nothing |
| Game.OrdersList.constructor | Orders/Orders.cpp:856-858 | a new list is empty |
| Game.OrdersList.Copy | Orders/Orders.cpp:861-866 | a copy holds the same orders in the same order |
| Game.OrdersList.Assign | Orders/Orders.cpp:869-883 | assignment replaces the contents with the other list's |
| Game.OrdersList.Add | Orders/Orders.cpp:893-895 | the order is appended at the end |
| Game.OrdersList.Remove | Orders/Orders.cpp:898-905 | succeeds exactly for an index in range, then erases that order alone; otherwise leaves the list unchanged |
| Game.OrdersList.Move | Orders/Orders.cpp:908-926 | succeeds exactly when both indices are in range, then permutes the list so that the order is at `to`; otherwise, or when `from == to`, leaves it unchanged |
| Game.Board.constructor | Map/Map.cpp:8-9 | every territory starts unowned with 0 armies, with the map's adjacencies |
| Game.ScanAdjacent | Orders/Orders.cpp:49-59 | the scan of `from`'s neighbours finds `to` exactly when `to` is in that adjacency list (`IsAdjacent`) |
| Game.RemoveFirst | Orders/Orders.cpp:76-87 | removes one copy of the territory, or nothing when it is absent |
| Game.RemoveFirstAt | Orders/Orders.cpp:81-86 | the erased copy is the first occurrence |
| Game.RemoveFirstDistinct | Orders/Orders.cpp:76-87 | on a duplicate-free list, the result is duplicate-free and lists exactly the other territories |
| Game.Hostile | Player/Player.cpp:86-91 | the neighbours kept are exactly those not owned by the player |
| Game.AttackTargetOf | Player/Player.cpp:84-94 | a territory is in `toAttack` exactly when it neighbours one of the player's territories and the player does not own it |
| Game.StrongIndex | Player/Player.cpp:114-115 | finds the first owned territory with more than one army, or reports that none has |
| Game.Player.constructor | Player/Player.cpp:5-10 | a new player has no territories, no cards, a pool of 0 and an empty orders list |
| Game.Player.AddTerritory | Player/Player.cpp:59-61 | the territory is appended to the player's list |
| Game.Player.SetReinforcementPool | Player/Player.cpp:72-74 | the pool becomes the amount |
| Game.Player.AddReinforcement | Player/Player.cpp:76-78 | the pool grows by the amount |
| Game.Player.ToAttack | Player/Player.cpp:84-94 | returns exactly the hostile neighbours of the player's territories |
| Game.Player.HostileNeighbours | Player/Player.cpp:86-91 | returns the neighbours of one territory that the player does not own, in adjacency order |
| Game.Player.IssueOrder | Player/Player.cpp:97-147 | by priority: with armies in the pool and a territory, Deploy `min(3, pool)` on the first territory; else Advance half the armies of the first territory holding more than one towards the first attack target; else play a card; else nothing. At most one order is added, and the pool never goes negative |
| Game.Player.IssueAdvance | Player/Player.cpp:113-134 | an Advance is issued exactly when the player has an attack target and a territory with more than one army; it moves half that territory's armies (more than 0) to the first target |
| Game.RemoveTerritoryFromPlayer | Orders/Orders.cpp:76-87 | the first occurrence of the territory is erased from the player's list |
| Game.TransferKeepsAgreement | Orders/Orders.cpp:436-442 | changing a territory's owner while moving it between the two players' lists keeps both ownership records in agreement |
| Game.Transfer | Orders/Orders.cpp:436-442 | the territory changes owner on the board and in the players' lists, and the records stay `Consistent` |
| Game.ScanOwned | Orders/Orders.cpp:62-73 | true exactly when the player is not null and lists the territory (`PlayerOwnsTerritory`) |
| Game.ScanTouches | Orders/Orders.cpp:90-100 | true exactly when some territory of the player's list has the territory as a neighbour (`TerritoryTouchesPlayer`) |
| Game.MakePair | Orders/Orders.cpp:32-38 | the pair holds both players, the smaller first, so it does not depend on argument order |
| Game.TurnState.constructor | Orders/Orders.cpp:25-29 | no negotiations, no cards granted; the neutral player exists with no territories |
| Game.TurnState.Reset | Orders/Orders.cpp:946-949 | clears the negotiated pairs and the granted-card set |
| Game.NegotiationSymmetric | Orders/Orders.cpp:41-46 | a truce between a and b is a truce between b and a |
| Game.GrantCardForConquest | Orders/Orders.cpp:110-123 | a player gets one card the first time it is granted in a turn and nothing afterwards |
| Game.GrantCard | Orders/Orders.cpp:110-123 | a player not yet granted gets one more card and joins the granted set; one already granted keeps its hand; no other hand changes |
| Game.GrantEachCounts | Orders/Orders.cpp:110-123 | after a sequence of conquests, each player's hand has grown by exactly its count in `Grants`, which `GrantedAtMostOnce` bounds by one |
| Game.GrantEachGranted | Orders/Orders.cpp:110-123 | after a sequence of conquests, the granted set is the old one plus every conqueror |
| Game.GrantedAtMostOnce | Orders/Orders.cpp:110-123 | however many conquests, a player receives at most one card per turn, and none if already granted |
| Orders.ValidateDeploy | Orders/Orders.cpp:218-248 | accepted exactly when there is an issuer, a territory, a positive count, and the issuer owns the territory |
| Orders.ValidateAdvance | Orders/Orders.cpp:326-375 | accepted exactly when there is an issuer; source and destination are set and differ; 0 < armies ≤ the source's armies; the issuer owns the source; the two are adjacent; and no truce holds with the destination's owner |
| Orders.TruceBlocksAdvance | Orders/Orders.cpp:369-373 | an Advance into a territory of a player the issuer negotiated with, in either order, is never accepted |
| Orders.ValidateBomb | Orders/Orders.cpp:499-526 | accepted exactly when the target is owned by another (non-null) player and touches a territory of the issuer |
| Orders.ValidateBlockade | Orders/Orders.cpp:589-604 | accepted exactly when the issuer owns the target |
| Orders.ValidateAirlift | Orders/Orders.cpp:691-725 | accepted exactly when the issuer owns both ends and 0 < armies ≤ the source's armies (adjacency not needed) |
| Orders.ValidateNegotiate | Orders/Orders.cpp:799-821 | accepted exactly when there is an issuer and a target player other than the issuer |
| Orders.Validate | Orders/Orders.h:21 | no order is accepted without an issuer, and no Deploy, Advance or Airlift with fewer than one army; each kind's own check is stated by its `Validate...` row |
| Orders.MoveArmiesConserves | Orders/Orders.cpp:406-415 | moving armies takes them from the source and adds them to the destination; the total is kept and no other territory changes |
| Orders.Fight | Orders/Orders.cpp:428-432 | attackers kill `min(D, 6m/10)` and defenders kill `min(m, 7D/10)`; each side loses at most its size; the defenders are wiped out exactly when `6m/10 ≥ D`, the attackers exactly when `7D/10 ≥ m` |
| Orders.ConquestNeedsMoreArmies | Orders/Orders.cpp:428-435 | conquering a defended territory needs strictly more attackers than defenders |
| Orders.FightLosesArmies | Orders/Orders.cpp:428-432 | a fight never creates armies |
| Orders.LoneDefenderKillsNone | Orders/Orders.cpp:428-432 | a single defender kills no attacker and falls to any two attackers |
| Orders.Occupying | Orders/Orders.cpp:443 | a conquered territory holds the surviving attackers, and at least 1 |
| Orders.AddArmies | Orders/Orders.cpp:275 | the territory gains the armies and every other territory keeps its armies |
| Orders.HalveArmies | Orders/Orders.cpp:551-552 | the target keeps half its armies, rounded down, and every other territory keeps its armies |
| Orders.DoubleArmies | Orders/Orders.cpp:637 | the target's armies are doubled and every other territory keeps its armies |
| Orders.Occupation | Orders/Orders.cpp:408-444 | after a conquest the destination holds the occupying armies, the source has lost the moved armies, and every other territory keeps its armies |
| Orders.ExecuteDeploy | Orders/Orders.cpp:251-284 | runs exactly when valid; adds the armies to the territory and changes nothing else; an invalid order changes nothing |
| Orders.ExecuteAdvance | Orders/Orders.cpp:378-470 | runs exactly when valid; an invalid order changes nothing; onto the issuer's own territory the armies move (`MoveArmies`); against anyone else the world changes exactly as `Attacked` says (conquest in both records with the card, or repulse); ownership stays `Consistent` |
| Orders.Attack | Orders/Orders.cpp:428-467 | the world changes exactly as `Attacked` says: on conquest the destination changes hands in both records and the issuer gets a card once per turn (`Conquest`); otherwise only the two territories' armies change |
| Orders.Conquer | Orders/Orders.cpp:435-454 | the issuer takes the destination with `Occupying` armies, the source loses the moved armies, and a card is granted once per turn |
| Orders.Repel | Orders/Orders.cpp:455-466 | the defenders keep the survivors and the surviving attackers return to the source |
| Orders.ConquestSteps | Orders/Orders.cpp:406-445 | the conquest's steps on the board, the lists, the hands and the granted set change the world exactly as `Conquest` says |
| Orders.Occupy | Orders/Orders.cpp:406-444 | the destination passes to the issuer on the board and in both players' lists (`TransferLists`), the armies become `Occupation`, and no hand changes |
| Orders.GrantInWorld | Orders/Orders.cpp:445 | the card step changes the world exactly as `CardGranted` says |
| Orders.ConquestInTwoParts | Orders/Orders.cpp:435-445 | a conquest is its occupation followed by its card grant |
| Orders.ExecuteBomb | Orders/Orders.cpp:529-560 | runs exactly when valid and halves the target's armies (rounding down); nothing else changes |
| Orders.ExecuteBlockade | Orders/Orders.cpp:607-652 | runs exactly when valid; doubles the target's armies and hands it to the neutral player in both records; the issuer no longer lists it |
| Orders.HandToNeutral | Orders/Orders.cpp:636-643 | doubles the armies and moves the territory to the neutral player, keeping ownership `Consistent` |
| Orders.ExecuteAirlift | Orders/Orders.cpp:728-770 | runs exactly when valid and moves the armies from source to destination, whether or not they are adjacent |
| Orders.ExecuteNegotiate | Orders/Orders.cpp:824-850 | runs exactly when valid and records a truce that holds in both directions |
| Orders.Execute | Orders/Orders.h:21-22 | any order takes effect exactly when `Validate` accepts it; the board, the players' lists and hands and the turn's sets become `Step` of the old ones, so an invalid order changes nothing and a valid one is `Apply`; ownership stays `Consistent` |
| Orders.ExecuteOnArmies | Orders/Orders.h:22 | a Deploy, Bomb or Airlift takes effect exactly when `Validate` accepts it and changes the world as `Step` says, touching only armies |
| Orders.Apply | Orders/Orders.cpp:251-850 | no valid order changes the map, the neutral player or who has records (`SameShape`) |
| Orders.Step | Orders/Orders.h:21-22 | no order, valid or not, changes the map, the neutral player or who has records |
| Orders.DeployStep | Orders/Orders.cpp:251-284 | a Deploy is checked by `ValidateDeploy` and, once accepted, only adds its armies to its territory; otherwise nothing changes |
| Orders.BombStep | Orders/Orders.cpp:529-560 | a Bomb is checked by `ValidateBomb` against the issuer's list and, once accepted, only halves the target's armies; otherwise nothing changes |
| Orders.AirliftStep | Orders/Orders.cpp:728-770 | an Airlift is checked by `ValidateAirlift` and, once accepted, only moves its armies; otherwise nothing changes |
| Orders.NegotiateStep | Orders/Orders.cpp:824-850 | a Negotiate is checked by `ValidateNegotiate` and, once accepted, only records the pair; otherwise nothing changes |
| Orders.StepKeepsRecords | Orders/Orders.cpp:436-442 | every order keeps the board's owners and the players' lists in agreement |
| Orders.StepsKeepRecords | Game_Engine/GameEngine.cpp:381-417 | any run of orders keeps the board's owners and the players' lists in agreement |
| Orders.StepsAppend | Game_Engine/GameEngine.cpp:381-417 | running one run of orders and then another is running them concatenated |
| Orders.StepsKeepShape | Game_Engine/GameEngine.cpp:381-417 | a run of orders keeps the map, the neutral player and who has records |
| Maps.FindId | Map/Map.cpp:105-110 | the first territory with that id, or none |
| Maps.GetTerritory | Map/Map.cpp:105-110 | returns the first territory with the id, and none exactly when no territory has it |
| Maps.GetTerritoryByIndex | Map/Map.cpp:105-110 | in a loaded map, looking up id `i` returns the `i`-th territory |
| Maps.SearchConnectedMeaning | Map/Map.cpp:123-154 | for a list without repeated ids, counting the ids the search reaches decides exactly whether every listed territory is reachable from the first through territories of the list |
| Maps.CollectIds | Map/Map.cpp:125-131 | the id set holds exactly the listed ids |
| Maps.VisitNeighbours | Map/Map.cpp:139-150 | every allowed neighbour of the current node becomes visited; each visited node is reachable from the start; newly visited nodes are queued |
| Maps.Search | Map/Map.cpp:133-152 | the BFS visits exactly the nodes reachable from the start within the set |
| Maps.IsTerritoriesConnected | Map/Map.cpp:123-154 | true for an empty list; otherwise, for a list without repeated ids, true exactly when every listed territory is reachable from the first through territories of the list |
| Maps.ContinentsAreConnected | Map/Map.cpp:162-172 | fails exactly when some continent is empty or not connected |
| Maps.MembersDistinct | Map/Map.cpp:175-183 | when no territory is listed twice across continents, none is listed twice within a continent |
| Maps.AddMembers | Map/Map.cpp:177-180 | succeeds exactly when the continent adds no territory already seen |
| Maps.TerritoriesHaveUniqueContinent | Map/Map.cpp:175-183 | passes exactly when no territory appears in two continent lists or twice in one |
| Maps.Validate | Map/Map.cpp:116-121 | passes exactly when all three checks pass |
| Maps.ValidMapMeaning | Map/Map.cpp:116-121 | a valid map is connected, every continent is non-empty and connected, and every territory is listed in at most one continent |
| MapLoader.IndexOf | Map/Map.cpp:246 | the first position of the character, and none exactly when it is absent |
| MapLoader.ContinentEntryMeaning | Map/Map.cpp:246-265 | a continent line is accepted exactly when it has an `=` before its last character and the trimmed text after the first `=` is a number; the name is the trimmed text before it |
| MapLoader.AddContinent | Map/Map.cpp:258-260 | a new empty continent is appended and its name maps to its index |
| MapLoader.AddTerritory | Map/Map.cpp:295-304 | a territory with the next id, its name and its continent is appended, and its name maps to its id |
| MapLoader.ReadLineState | Map/Map.cpp:236-305 | an accepted line keeps the state under construction well-formed and adds exactly the continent names the line declares |
| MapLoader.Parsed | Map/Map.cpp:226-307 | the state after an accepted prefix of the lines is well-formed and its continent names are exactly those the prefix declares |
| MapLoader.ParseLine | Map/Map.cpp:232-305 | a line is accepted exactly as the file format allows: blank lines and section headers change sections; other lines are parsed by section; an accepted line moves to the next section and leaves `ReadLineState` (a continent line adds its continent, a territory line its territory, any other line nothing) |
| MapLoader.ParseContinentLine | Map/Map.cpp:245-266 | accepted exactly when the line is a well-formed continent entry (`ContinentEntry`); the state is then `AddContinent` of the name before the `=` |
| MapLoader.ParseTerritoryLine | Map/Map.cpp:268-305 | accepted exactly when the line has at least 4 tokens, numeric coordinates and a known continent; the state is then `AddTerritory` of the line's tokens |
| MapLoader.TrimLines | Map/Map.cpp:231-232 | every line is trimmed before it is parsed |
| MapLoader.LinesOkExtend | Map/Map.cpp:226-307 | a file is accepted line by line: an accepted prefix followed by an accepted line is accepted |
| MapLoader.ReadLine | Map/Map.cpp:231-306 | one line of the first pass: accepting it extends the accepted prefix and leaves `Parsed` of the longer prefix; rejecting it rejects the file |
| MapLoader.FirstPass | Map/Map.cpp:226-307 | succeeds exactly when every line is accepted, and then leaves `Parsed` of all the lines: the continents, territories and kept adjacency lines they add, in order |
| MapLoader.Link | Map/Map.cpp:316-317 | an adjacency is recorded in both directions and nothing else changes |
| MapLoader.LinkNames | Map/Map.cpp:312-318 | linking one line's names changes only adjacency lists |
| MapLoader.LinkNamesAdjacents | Map/Map.cpp:312-318 | after one line, `t` lists `n` exactly when it did before, or one of them is the line's territory and the other a territory the line names; names of no territory add nothing |
| MapLoader.LinkAll | Map/Map.cpp:309-320 | the second pass changes only adjacency lists |
| MapLoader.LinkAllAdjacents | Map/Map.cpp:309-320 | the second pass loses no adjacency, and links every name of a kept line that names a territory with the line's territory, in both directions |
| MapLoader.LinkLine | Map/Map.cpp:312-318 | the territories become `LinkNames` of the line, so every known neighbour name becomes adjacent to the line's territory in both directions; adjacency stays in range and symmetric |
| MapLoader.LinkAdjacencies | Map/Map.cpp:309-320 | the territories become `LinkAll` of the kept adjacency lines, in order; adjacency stays in range and symmetric |
| MapLoader.ParseFile | Map/Map.cpp:218-323 | returns a map exactly when every line is accepted, and then exactly the map the lines describe (`ParsedMap`: the first pass's continents and its territories with every kept line linked); that map is well-formed, its adjacency is symmetric, and each territory's continent lists it |
| MapLoader.LoadMap | Map/Map.cpp:187-196 | a missing file yields none; for an existing file a map is returned exactly when every line is accepted and the map the lines describe (`ParsedMap`) passes `validate`, and it is that map, well-formed and symmetric |
| Schedule.Reinforcements | Game_Engine/GameEngine.cpp:312-313 | a player receives `max(3, territories / 3)` |
| Schedule.ReinforcementsGrow | Game_Engine/GameEngine.cpp:312-313 | fewer than 12 territories give the minimum 3, more territories never give fewer armies |
| Schedule.ReinforcedThenSpent | Game_Engine/GameEngine.cpp:443-445 | growing every pool by `Reinforcements` and then only spending leaves each pool at most its old value plus `Reinforcements`, and not negative when that sum is not |
| Schedule.Dealt | Game_Engine/GameEngine.cpp:428-434 | player `j` of `n` receives exactly the territories `t` with `t mod n == j`, in increasing order |
| Schedule.DealtCount | Game_Engine/GameEngine.cpp:428-434 | player `j` receives `count / n` territories, plus one when `j < count mod n` |
| Schedule.DealIsFair | Game_Engine/GameEngine.cpp:428-434 | earlier seats receive at most one territory more than later seats and never fewer |
| Schedule.DealExample | Game_Engine/GameEngine.cpp:428-434 | with 3 players and 12 territories the second player receives 1, 4, 7, 10 |
| Schedule.Deploys | Game_Engine/GameEngine.cpp:387-396 | only Deploy orders are taken in the first pass |
| Schedule.NonDeploys | Game_Engine/GameEngine.cpp:387-396 | only non-Deploy orders are left for the rounds |
| Schedule.DeploysPartition | Game_Engine/GameEngine.cpp:387-396 | the first pass splits a list into its Deploys and the rest, losing nothing |
| Schedule.FiltersAppend | Game_Engine/GameEngine.cpp:387-396 | both filters keep list order |
| Schedule.NoDeploysKept | Game_Engine/GameEngine.cpp:387-396 | a list without Deploys is left as it is |
| Schedule.WithoutDeploys | Game_Engine/GameEngine.cpp:384-398 | after the Deploy pass every player's list holds its non-Deploys in order |
| Schedule.RoundTakesHeads | Game_Engine/GameEngine.cpp:405-415 | a round runs the first order of every non-empty list and leaves the rest; it runs nothing exactly when every list is empty |
| Schedule.RoundRobinRunsEverything | Game_Engine/GameEngine.cpp:405-416 | round-robin execution runs every queued order exactly once |
| Schedule.RoundRobinSingle | Game_Engine/GameEngine.cpp:405-416 | with one player the orders run in list order |
| Schedule.PhaseRunsEverything | Game_Engine/GameEngine.cpp:381-417 | the execute phase runs every issued order exactly once |
| Schedule.DeployPassSplits | Game_Engine/GameEngine.cpp:384-398 | the Deploy pass runs only Deploys and leaves everything else queued |
| Schedule.DeploysRunFirst | Game_Engine/GameEngine.cpp:381-417 | every Deploy runs before any other order: the first pass runs only Deploys and the rounds run none |
| Schedule.RoundRobinAvoids | Game_Engine/GameEngine.cpp:405-416 | rounds over lists without Deploys run no Deploy |
| Schedule.RobinStep | Game_Engine/GameEngine.cpp:402-416 | each round with orders strictly shrinks the queues, so the loop ends |
| CommandProcessing.DecideFor | Command_processing/CommandProcessing.cpp:159-276 | a command succeeds exactly when the state accepts it and has its argument; it fails for a missing argument exactly when one is needed and empty; it is invalid in the state exactly when not accepted; a success announces the next state |
| CommandProcessing.NextStateFor | Command_processing/CommandProcessing.cpp:300-337 | an accepted command moves to its announced state; anything else leaves the state unchanged; exit is final |
| CommandProcessing.AcceptedMovesToAnnounced | Command_processing/CommandProcessing.cpp:141-338 | the state `getNextState` moves to is the one `validate` announced |
| CommandProcessing.CommandNameOfWord | Command_processing/CommandProcessing.cpp:148-153 | the command name is the lower-case first word |
| CommandProcessing.LowerOfLowerWord | Command_processing/CommandProcessing.cpp:148-149 | lower-casing leaves a lower-case word intact and whitespace after it |
| CommandProcessing.LowerOfWords | Command_processing/CommandProcessing.cpp:148-149 | lower-casing keeps lower-case words and the space between them, and lower-cases what follows |
| CommandProcessing.NextWordOf | Command_processing/CommandProcessing.cpp:151-153 | `>>` on a word followed by whitespace or the end reads the word and leaves what follows |
| CommandProcessing.SecondWordOfWords | Command_processing/CommandProcessing.cpp:151-163 | the second `>>` on a word, a space and a word, followed by whitespace or the end, reads the second word |
| CommandProcessing.ArgumentOfWords | Command_processing/CommandProcessing.cpp:148-163 | a command written as a lower-case name, a space and a lower-case word, then whitespace or the end, has that name and that word as its argument |
| CommandProcessing.GameStartAssignsReinforcement | Command_processing/CommandProcessing.cpp:234-236 | with players added, `gamestart` succeeds and moves to assign reinforcement, without any player count |
| CommandProcessing.DecidedByFirstWord | Command_processing/CommandProcessing.cpp:146-157 | a command starting with a lower-case word is validated and moved on by that word, whatever follows it |
| CommandProcessing.AcceptedAlone | Command_processing/CommandProcessing.cpp:159-276 | a lone word the state accepts and that takes no argument succeeds and moves to the state it announces |
| CommandProcessing.RejectedAlone | Command_processing/CommandProcessing.cpp:159-276 | a lone word the state does not accept is rejected as invalid in that state |
| CommandProcessing.ReplayAfterWin | Command_processing/CommandProcessing.cpp:259-262 | after a win, `replay` succeeds and returns to start |
| CommandProcessing.PlayAfterWin | Command_processing/CommandProcessing.cpp:259-270 | after a win, `play` is invalid in the state |
| CommandProcessing.Command.constructor | Command_processing/CommandProcessing.cpp:14-17 | a new command holds its text, no effect and no observers |
| CommandProcessing.Command.Copy | Command_processing/CommandProcessing.cpp:19-22 | a copy holds the same text and effect but no observers |
| CommandProcessing.Command.SaveEffect | Command_processing/CommandProcessing.cpp:37-40 | the effect is stored and every observer is notified |
| CommandProcessing.CommandProcessor.constructor | Command_processing/CommandProcessing.cpp:61-65 | no commands and no observers |
| CommandProcessing.CommandProcessor.SaveCommand | Command_processing/CommandProcessing.cpp:119-126 | a non-null command is appended and receives the processor's observers; a null one is ignored |
| CommandProcessing.CommandProcessor.Submit | Command_processing/CommandProcessing.cpp:128-139 | an empty line gives no command; otherwise a fresh command with that text is saved |
| CommandProcessing.CommandProcessor.GetCommand | Command_processing/CommandProcessing.cpp:108-139 | the console line is trimmed; a blank line gives no command; otherwise a fresh command with the trimmed text is saved |
| CommandProcessing.CommandProcessor.Validate | Command_processing/CommandProcessing.cpp:141-285 | null is invalid; otherwise the stored effect is the decision for the state, and the command is valid exactly when it succeeded |
| CommandProcessing.CommandProcessor.GetNextState | Command_processing/CommandProcessing.cpp:287-338 | null keeps the state; otherwise the accepted command's target state; exit stays exit |
| CommandProcessing.CommandProcessor.AddObserver | Command_processing/CommandProcessing.cpp:340-347 | the processor's list becomes `Attached` of its old list and every saved command's list becomes `Attached` of its own; the saved commands stay the same |
| CommandProcessing.CommandProcessor.RemoveObserver | Command_processing/CommandProcessing.cpp:349-356 | the processor's list and every saved command's list become `Without` of their old lists (every copy removed, the others kept in order); the saved commands stay the same |
| CommandProcessing.AttachToCommands | Command_processing/CommandProcessing.cpp:342-346 | every listed command's observers become `Attached` of its old list, so a command listed twice gets the observer once |
| CommandProcessing.DetachFromCommands | Command_processing/CommandProcessing.cpp:350-354 | every listed command's observers become `Without` of its old list |
| CommandProcessing.CommandLines | Command_processing/CommandProcessing.cpp:450-461 | the commands of a file are its trimmed lines, in order, skipping blank lines and `#` comments |
| CommandProcessing.CommandLinesShape | Command_processing/CommandProcessing.cpp:450-461 | every command read from a file is non-empty, trimmed and not a comment |
| CommandProcessing.NextCommandLine | Command_processing/CommandProcessing.cpp:450-461 | returns the next command line after the position, or reports that the file holds no more |
| CommandProcessing.FileCommandProcessorAdapter.constructor | Command_processing/CommandProcessing.cpp:369-380 | a missing file marks reading complete; otherwise the remaining commands are the file's command lines |
| CommandProcessing.FileCommandProcessorAdapter.Yield | Command_processing/CommandProcessing.cpp:450-461 | returning a command line moves the stream past it and adds it to the commands read; the stream stays open and reading is not marked complete |
| CommandProcessing.FileCommandProcessorAdapter.Close | Command_processing/CommandProcessing.cpp:463-465 | with no command left, the stream is closed and reading is marked complete; nothing else changes |
| CommandProcessing.FileCommandProcessorAdapter.ReadCommandInternal | Command_processing/CommandProcessing.cpp:443-466 | returns the next command line and consumes it; at the end returns "" and marks reading complete |
| CommandProcessing.FileCommandProcessorAdapter.GetCommand | Command_processing/CommandProcessing.cpp:432-441 | once reading is complete it returns null; otherwise it saves a command for the next line of the file |
| Engine.NextState | Game_Engine/GameEngine.cpp:127-271 | a transition exists only for an allowed command and leads to a state 0–7 |
| Engine.AllowedCommandsHaveTransitions | Game_Engine/GameEngine.cpp:96-271 | every command `validateCommand` allows has a transition, except one: in state 1 a command starting with `loadmap` is allowed but has no branch, so it fails |
| Engine.PlayCycle | Game_Engine/GameEngine.cpp:221-271 | the play cycle issue orders → execute orders → assign reinforcement, win after execution, `play` restarts, and no map or player commands once playing |
| Engine.SurvivorsMembers | Game_Engine/GameEngine.cpp:449-458 | a player survives exactly when it owns a territory |
| Engine.SurvivorsOrdered | Game_Engine/GameEngine.cpp:449-458 | elimination keeps the seating order |
| Engine.SurvivorsAppend | Game_Engine/GameEngine.cpp:449-458 | elimination works player by player, in order |
| Engine.NobodyEliminated | Game_Engine/GameEngine.cpp:449-458 | when everyone owns a territory, nobody is removed |
| Engine.EliminationKeeps | Game_Engine/GameEngine.cpp:449-458 | removing eliminated players keeps ownership `Consistent` and the registry well-formed |
| Engine.EraseEliminated | Game_Engine/GameEngine.cpp:449-458 | the erase loop leaves exactly the survivors, in order |
| Engine.OwnsAllMeans | Game_Engine/GameEngine.cpp:468-476 | a player listing as many territories as the map owns every territory |
| Engine.DealAgrees | Game_Engine/GameEngine.cpp:428-434 | after the deal, every player's list agrees with the board's owners |
| Engine.LoadValidMap | Map/Map.cpp:187-196 | a map is returned only for a file that exists, and it is well-formed and valid |
| Engine.IssueWithin | Player/Player.cpp:97-147 | at most one order joins the end of the player's list, naming the player and territories of the board; the pool never grows, and does not go negative from zero or more |
| Engine.GameEngine.constructor | Game_Engine/GameEngine.cpp:10-27 | a new engine is in the start state with no map and no players |
| Engine.GameEngine.ExecuteCommand | Game_Engine/GameEngine.cpp:120-274 | a failed command changes nothing; a successful one takes the table's transition; `loadmap` installs a valid map with an unowned board; `validatemap` succeeds exactly for a valid map; `addplayer` succeeds exactly below 6 players and appends a new empty player |
| Engine.GameEngine.Perform | Game_Engine/GameEngine.cpp:127-271 | a failed command changes no state, player, map or board; a successful one takes the table's transition; a command that cannot fail succeeds; `loadmap` installs a valid map with a fresh unowned board of its size; `validatemap` succeeds exactly for a valid loaded map; `addplayer` succeeds exactly below 6 players and appends a fresh empty player named by the argument |
| Engine.GameEngine.LoadMapCommand | Game_Engine/GameEngine.cpp:128-147 | succeeds only with a valid map file, then moves to map loaded with a fresh unowned board; otherwise nothing changes |
| Engine.GameEngine.ValidateMapCommand | Game_Engine/GameEngine.cpp:150-167 | moves to map validated exactly for `validatemap` with a valid loaded map |
| Engine.GameEngine.AddPlayer | Game_Engine/GameEngine.cpp:169-219 | below 6 players a fresh empty player is appended; at 6 the roster is unchanged |
| Engine.GameEngine.Step | Game_Engine/GameEngine.cpp:221-271 | the remaining commands take exactly the table's transition, or change nothing |
| Engine.GameEngine.ReinforcementPhase | Game_Engine/GameEngine.cpp:308-320 | every player's pool grows by `max(3, territories / 3)` |
| Engine.GameEngine.HasArmiesToMove | Game_Engine/GameEngine.cpp:349-357 | true exactly when some owned territory holds more than one army |
| Engine.GameEngine.CanIssueNow | Game_Engine/GameEngine.cpp:343-362 | a player may issue when its pool is positive; otherwise, if it holds territories, exactly when one of them has more than one army; otherwise exactly when it holds a card |
| Engine.GameEngine.PlayerTurn | Game_Engine/GameEngine.cpp:338-369 | one player's turn in a round changes only that player and records whether it issued |
| Engine.GameEngine.IssueRound | Game_Engine/GameEngine.cpp:331-371 | one round gives each player who can still issue one turn, in seat order |
| Engine.GameEngine.IssueRounds | Game_Engine/GameEngine.cpp:328-378 | at most 10 rounds; stopping early means a round issued nothing and nobody can issue |
| Engine.GameEngine.IssueOrdersPhase | Game_Engine/GameEngine.cpp:322-379 | each player's list only grows, by at most one order per round, in at most 10 rounds |
| Engine.GameEngine.RunAt | Game_Engine/GameEngine.cpp:392-393 | the order at the index leaves the player's list, the other lists stay, and the world becomes `Orders.Step` of that order |
| Engine.GameEngine.RunOrder | Game_Engine/GameEngine.cpp:392 | the world becomes `Orders.Step` of the order, and no orders list changes |
| Engine.GameEngine.RemoveAt | Game_Engine/GameEngine.cpp:393 | the order at the index leaves the player's list; the other lists, the board, the turn's sets and the players stay |
| Engine.GameEngine.DeployStep | Game_Engine/GameEngine.cpp:389-396 | a Deploy at the index runs (`Orders.Step`) and leaves the list, the index staying; any other order stays and the index moves past it |
| Engine.GameEngine.RunHead | Game_Engine/GameEngine.cpp:407-414 | when the player's list is not empty its first order runs (`Orders.Step`) and leaves it; otherwise nothing changes; it reports which |
| Engine.GameEngine.RunRound | Game_Engine/GameEngine.cpp:405-415 | one round runs `Heads` of the lists (the first order of every non-empty list, in seat order) and leaves `Tails`; the world becomes `Orders.Steps` of those orders; the round reports orders exactly when some list had one |
| Engine.GameEngine.RunDeploys | Game_Engine/GameEngine.cpp:387-397 | runs the player's `Deploys` in list order and leaves its `NonDeploys` in order, no other list changing; the world becomes `Orders.Steps` of the Deploys run |
| Engine.GameEngine.RunDeployPass | Game_Engine/GameEngine.cpp:384-398 | runs `DeployPass` of the lists, player by player, and leaves `WithoutDeploys`; the world becomes `Orders.Steps` of the Deploys run |
| Engine.GameEngine.RunAll | Game_Engine/GameEngine.cpp:384-416 | every list ends empty; the orders run are `DeployPass` of the lists followed by `RoundRobin` of what it left, and the world becomes `Orders.Steps` of them, in that order |
| Engine.GameEngine.ExecuteOrdersPhase | Game_Engine/GameEngine.cpp:381-417 | in a game under way: every list ends empty; the orders run are `DeployPass` then `RoundRobin` of what it left, and the board, lists, hands and turn's sets become `Orders.Steps` of them; the game stays under way, so ownership stays `Consistent` |
| Engine.GameEngine.ExecuteKeepingPools | Game_Engine/GameEngine.cpp:381-417 | `ExecuteOrdersPhase`, and the reinforcement pools stay as they were |
| Engine.GameEngine.Deal | Game_Engine/GameEngine.cpp:427-434 | territory `i` goes to player `i mod n` with 5 armies, in both ownership records |
| Engine.GameEngine.Distribute | Game_Engine/GameEngine.cpp:427-434 | the deal on a running engine, leaving the ownership records `Consistent` |
| Engine.GameEngine.EliminatePlayers | Game_Engine/GameEngine.cpp:449-458 | the players left are exactly those owning a territory, in their previous order |
| Engine.GameEngine.Eliminate | Game_Engine/GameEngine.cpp:449-458 | exactly the players owning a territory remain, in order, and the board, lists, hands, turn's sets, pools and orders lists are as before |
| Engine.GameEngine.ReinforcePools | Game_Engine/GameEngine.cpp:308-320 | every pool grows by `Reinforcements` of the player's territories; the world and the orders lists stay |
| Engine.GameEngine.IssueKeeping | Game_Engine/GameEngine.cpp:322-379 | the pools are only spent, the lists only extended, and of the world only the hands change |
| Engine.GameEngine.ReinforceAndIssue | Game_Engine/GameEngine.cpp:443-445 | each pool is `Reinforced`; the lists only grow; of the world only the hands change |
| Engine.GameEngine.ExecuteAndEliminate | Game_Engine/GameEngine.cpp:447-458 | execution runs `DeployPass` then `RoundRobin` of the lists and empties them, the world becoming `Orders.Steps` of those orders; then exactly the players owning a territory remain, in order; the pools stay |
| Engine.GameEngine.PlayTurn | Game_Engine/GameEngine.cpp:439-458 | each pool is `Reinforced` (grown by `Reinforcements`, then only spent); the lists are extended to `queued`, and before execution only the hands have changed (`start`); execution runs `DeployPass` then `RoundRobin` of `queued` and empties every list, leaving the board, lists, hands and turn's sets as `Orders.Steps` from `start` says; exactly the players still owning a territory remain, in order |
| Engine.GameEngine.NextTurn | Game_Engine/GameEngine.cpp:441-458 | a turn keeps the game under way on the same board; players and orders lists only leave |
| Engine.GameEngine.FindOwnerOfAll | Game_Engine/GameEngine.cpp:468-476 | finds the first player owning every territory, or reports none |
| Engine.GameEngine.CheckWin | Game_Engine/GameEngine.cpp:460-476 | a lone player wins; otherwise the first player owning every territory wins; otherwise nobody has won |
| Engine.GameEngine.PlayTurns | Game_Engine/GameEngine.cpp:436-477 | plays 1 to 10 turns and stops with a winner or at the turn limit |
| Engine.GameEngine.MainGameLoop | Game_Engine/GameEngine.cpp:419-479 | does not start without a map or with fewer than 2 players; otherwise deals and plays at most 10 turns, ending with the last player standing, a player owning every territory, or the turn limit |

## Left out

- Console and file input/output are parameters. A console line is passed in
  as a string, and files are a map from file name to lines. Output to
  `std::cout` and the `LogObserver` writing to `gamelog.txt`
  (`LoggingObserver.cpp:59-93`) are not modelled. Observers are
  identifiers, and notifying returns the identifiers updated.
- `std::stoi` is the `isNumeric` parameter of the map loader, because the
  model does not include number parsing.
- Integer overflow of `int` is not modelled, because counts in a game stay
  far below 2^31.
- The neutral player is created once, eagerly, with id 0. `makePair` orders
  players by id rather than by pointer; the set of truces is the same.
- Effect strings are tags (`Verdict`, `Effect`). An order's `executed` flag
  and effect are returned by `execute` rather than stored in the order.
- Cards are a count. `Card::play` and the deck and hand classes are not part
  of this model; playing a card only takes it off the count.
- `GameEngine::notify` has an empty body, and `addObserver`/`removeObserver`
  (`GameEngine.cpp:286-299`) only wrap `Subject`, which is modelled in
  `Logging`.
- Two branches of `executeCommand` are unreachable: the duplicate
  `validatemap` branch (`GameEngine.cpp:162-166`) and the `gamestart`
  branch (`GameEngine.cpp:190-200`), because `validateCommand` never allows
  those commands in those states. They are not modelled.
- `Engine.GameEngine.MainGameLoop` requires an unowned board and empty
  player lists on entry, which is the state after `loadmap` and `addplayer`.
- The truce and granted-card sets persist across the engine's turns.
  `resetOrderTurnState` is called only from the order driver, never from
  `mainGameLoop`. `Game.TurnState.Reset` is modelled but the loop does not
  call it.
- Copy constructors and assignment operators of `Player`, `Territory`, `Map`,
  `CommandProcessor`, `FileCommandProcessorAdapter` and `GameEngine`, as
  well as all destructors and `operator<<` printers, are not modelled.
  The model has no manual memory management.
- `loadmap` replaces the map and builds a fresh board.
- Player strategies, the tournament mode, the startup phase in
  `PlayerStrategies.cpp` and the driver programs are not part of this model.
- `Engine.GameEngine.IssueOrdersPhase`: the contract bounds how the lists
  grow (prefix, at most one order per round, at most 10 rounds). It does
  not name which order each player issues; `Game.Player.IssueOrder` states
  that.
- `Engine.GameEngine.PlayTurns` and `Engine.GameEngine.MainGameLoop` state
  the winner, the turn bounds and that players only leave, not the board
  after the last turn. Each turn's effect on the board is stated by
  `Engine.GameEngine.PlayTurn`. It is not folded over the turns, because
  the orders a turn runs are those the players issue on that turn's board,
  and `Engine.GameEngine.IssueOrdersPhase` bounds them without naming them.
- `CommandProcessing.CommandProcessor.AddObserver` and
  `CommandProcessing.CommandProcessor.RemoveObserver` take an observer
  identifier, so the null observer that `Subject::attach` and
  `Subject::detach` ignore cannot be passed to them. `Logging.Subject.Attach`
  and `Logging.Subject.Detach` model that case.
