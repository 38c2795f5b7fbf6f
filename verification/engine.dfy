/**
 * The game engine of Game_Engine/GameEngine.cpp: the command state machine
 * (`validateCommand`, `executeCommand`) and the turn loop with its phases
 * (`reinforcementPhase`, `issueOrdersPhase`, `executeOrdersPhase`,
 * `mainGameLoop`).
 *
 * The states are numbered as in the source: 0 start, 1 map loaded, 2 map
 * validated, 3 players added, 4 assign reinforcement, 5 issue orders,
 * 6 execute orders, 7 win. The territories of the loaded map live on a
 * `Board`; the files a `loadmap` may read are a parameter.
 */
module Engine {
  import opened Wrappers
  import opened Game
  import Maps
  import MapLoader
  import Text
  import Orders
  import opened Schedule

  const MaxPlayers := 6
  const MaxIssueRounds := 10
  const MaxTurns := 10
  const StartingArmies := 5

  // ---------------------------------------------------------------------
  // The command table

  /** `validateCommand` (Game_Engine/GameEngine.cpp:96-116): the commands each state allows. */
  predicate ValidateCommand(state: int, command: string)
  {
    if state == 0 then Text.StartsWith(command, "loadmap")
    else if state == 1 then Text.StartsWith(command, "loadmap") || command == "validatemap"
    else if state == 2 then Text.StartsWith(command, "addplayer")
    else if state == 3 then Text.StartsWith(command, "addplayer") || command == "assigncountries"
    else if state == 4 then command == "issueorder"
    else if state == 5 then command == "issueorder" || command == "endissueorders"
    else if state == 6 then command == "execorder" || command == "endexecorders" || command == "win"
    else if state == 7 then command == "play" || command == "end"
    else false
  }

  /**
   * The transitions `executeCommand` takes (Game_Engine/GameEngine.cpp:127-271):
   * the state after a successful command, or `None` when no branch handles
   * the command. Every transition stays within the eight states and is
   * allowed by the table.
   */
  function NextState(state: int, command: string): (r: Option<int>)
    ensures r.Some? ==> ValidateCommand(state, command) && 0 <= r.value <= 7
  {
    if state == 0 && Text.StartsWith(command, "loadmap") then Some(1)
    else if state == 1 && command == "validatemap" then Some(2)
    else if state == 2 && Text.StartsWith(command, "addplayer") then Some(3)
    else if state == 3 && Text.StartsWith(command, "addplayer") then Some(3)
    else if state == 3 && command == "assigncountries" then Some(4)
    else if state == 4 && command == "issueorder" then Some(5)
    else if state == 5 && command == "issueorder" then Some(5)
    else if state == 5 && command == "endissueorders" then Some(6)
    else if state == 6 && command == "execorder" then Some(6)
    else if state == 6 && command == "endexecorders" then Some(4)
    else if state == 6 && command == "win" then Some(7)
    else if state == 7 && command == "play" then Some(0)
    else if state == 7 && command == "end" then Some(7)
    else None
  }

  /**
   * Every command the table allows has a transition, except a `loadmap`
   * in state 1: it passes validation but no branch handles it.
   */
  lemma AllowedCommandsHaveTransitions(state: int, command: string)
    ensures ValidateCommand(state, command) && NextState(state, command).None? <==>
      state == 1 && Text.StartsWith(command, "loadmap")
  {
    if Text.StartsWith(command, "loadmap") {
      assert command[0] == 'l';
    }
    if Text.StartsWith(command, "addplayer") {
      assert command[1] == 'd';
    }
  }

  /**
   * The play cycle: 4 to 5 on issueorder, 5 to 6 on endissueorders, 6 back
   * to 4 on endexecorders, 6 to 7 on win, 7 to 0 on play; "end" keeps the
   * win state, and the map and player commands are refused once the game
   * is under way.
   */
  lemma PlayCycle(command: string)
    ensures NextState(4, "issueorder") == Some(5)
    ensures NextState(5, "endissueorders") == Some(6)
    ensures NextState(6, "endexecorders") == Some(4)
    ensures NextState(6, "win") == Some(7)
    ensures NextState(7, "play") == Some(0)
    ensures NextState(7, "end") == Some(7)
    ensures forall s :: 4 <= s <= 7 ==> !ValidateCommand(s, "loadmap") && !ValidateCommand(s, "addplayer")
    ensures !ValidateCommand(4, "endissueorders")
  {
  }

  /** The commands whose success depends on more than the state: they have a branch that can fail. */
  predicate MayFail(state: int, command: string)
  {
    || (state == 0 && Text.StartsWith(command, "loadmap"))
    || (state == 1 && command == "validatemap")
    || (AddsPlayer(state, command))
  }

  /** An `addplayer` command in a state that takes one. */
  predicate AddsPlayer(state: int, command: string)
  {
    (state == 2 || state == 3) && Text.StartsWith(command, "addplayer")
  }

  // ---------------------------------------------------------------------
  // Players

  /**
   * The players of a game, in joining order: ids increase along the list,
   * stay below the next id to hand out (id 0 is the neutral player's), and
   * no two players share an orders list.
   */
  predicate Registered(ps: seq<Player>, nextId: nat)
  {
    && (forall i, j :: 0 <= i < j < |ps| ==> ps[i].id < ps[j].id)
    && (forall p :: p in ps ==> 0 < p.id < nextId)
    && (forall p, q :: p in ps && q in ps && p != q ==> p.ordersList != q.ordersList)
  }

  /**
   * Every order waiting in a player's list names territories of a board of
   * `n` territories and was issued by that player.
   */
  ghost predicate QueuesWellFormed(ps: seq<Player>, n: nat)
    reads set p | p in ps :: p.ordersList
  {
    forall p :: p in ps ==> OrdersFit(p, p.ordersList.orders, n)
  }

  /** Orders issued by `p` that name territories of a board of `n` territories. */
  predicate OrdersFit(p: Player, orders: seq<Order>, n: nat)
  {
    forall k :: 0 <= k < |orders| ==> orders[k].RefersWithin(n) && orders[k].issuer == p
  }

  /** A fitting order appended to fitting orders keeps them fitting. */
  lemma OrdersFitAppend(p: Player, orders: seq<Order>, o: Order, n: nat)
    requires OrdersFit(p, orders, n) && o.RefersWithin(n) && o.issuer == p
    ensures OrdersFit(p, orders + [o], n)
  {
  }

  /** Removing an order keeps the rest fitting. */
  lemma OrdersFitRemoved(p: Player, orders: seq<Order>, at: nat, n: nat)
    requires OrdersFit(p, orders, n) && at < |orders|
    ensures OrdersFit(p, Removed(orders, at), n)
  {
  }

  /** The orders waiting in each player's list, in player order. */
  ghost function Contents(ps: seq<Player>): (r: seq<seq<Order>>)
    reads set p | p in ps :: p.ordersList
    ensures |r| == |ps|
  {
    seq(|ps|, j requires 0 <= j < |ps| reads set p | p in ps :: p.ordersList => ps[j].ordersList.orders)
  }

  /**
   * The Deploy loop over a list `s` after looking at its first `k` orders:
   * the list holds the kept orders followed by the unseen ones, the loop
   * index is past the kept ones, and the Deploy orders seen have run.
   */
  predicate DeployLoopSoFar(s: seq<Order>, k: nat, list: seq<Order>, at: nat, ran: seq<Order>)
  {
    && k <= |s|
    && list == NonDeploys(s[..k]) + s[k..]
    && at == |NonDeploys(s[..k])|
    && ran == Deploys(s[..k])
  }

  /**
   * One step of the Deploy loop: the order at the loop index is `s[k]`; a
   * Deploy order is removed there and runs, any other order is stepped over.
   */
  lemma DeployLoopStep(s: seq<Order>, k: nat, list: seq<Order>, at: nat, ran: seq<Order>)
    requires DeployLoopSoFar(s, k, list, at, ran) && at < |list|
    ensures k < |s|
    ensures at < |list| && list[at] == s[k]
    ensures s[k].Deploy? ==> DeployLoopSoFar(s, k + 1, Removed(list, at), at, ran + [s[k]])
    ensures !s[k].Deploy? ==> DeployLoopSoFar(s, k + 1, list, at + 1, ran)
  {
    assert s[..k + 1][..k] == s[..k];
    assert s[k..] == [s[k]] + s[k + 1..];
  }

  /** The Deploy loop after the whole list: the list keeps exactly the other orders. */
  lemma DeployLoopDone(s: seq<Order>, k: nat, list: seq<Order>, at: nat, ran: seq<Order>)
    requires DeployLoopSoFar(s, k, list, at, ran) && at >= |list|
    ensures list == NonDeploys(s) && ran == Deploys(s)
  {
    assert k == |s| && s[..k] == s && s[k..] == [];
  }

  /**
   * Whether a player may still issue orders (Game_Engine/GameEngine.cpp:343-362):
   * with reinforcements left; otherwise, holding territories, when one of
   * them has more than one army; otherwise, holding none, when cards remain.
   */
  predicate CanIssue(p: Player, armies: seq<nat>)
    reads p
  {
    if p.reinforcementPool > 0 then true
    else if p.territories != [] then
      exists k :: 0 <= k < |p.territories| && p.territories[k] < |armies| && armies[p.territories[k]] > 1
    else p.cards > 0
  }

  /** What the issue phase reads and changes of a player: pool, cards, orders, and whether it may issue. */
  datatype Standing = Standing(pool: int, cards: nat, orders: seq<Order>, canIssue: bool)

  ghost function StandingOf(p: Player, armies: seq<nat>): Standing
    reads p, p.ordersList
  {
    Standing(p.reinforcementPool, p.cards, p.ordersList.orders, CanIssue(p, armies))
  }

  /** The standing of every player, in player order. */
  ghost function Standings(ps: seq<Player>, armies: seq<nat>): (r: seq<Standing>)
    reads set p | p in ps, set p | p in ps :: p.ordersList
    ensures |r| == |ps|
  {
    seq(|ps|, j requires 0 <= j < |ps| reads set p | p in ps, set p | p in ps :: p.ordersList => StandingOf(ps[j], armies))
  }

  /**
   * A player's turn in one round of the issue phase: it issues exactly when
   * it was not done and could issue; it is done afterwards exactly when it
   * did not issue; a player that did not issue is left as it was; its
   * orders only grow, by at most one; and its pool never grows, nor drops
   * below zero from zero or more.
   */
  predicate Turned(before: Standing, after: Standing, wasDone: bool, nowDone: bool, issued: bool)
  {
    && (issued <==> !wasDone && before.canIssue)
    && (nowDone <==> !issued)
    && (!issued ==> after == before)
    && before.orders <= after.orders
    && |after.orders| <= |before.orders| + 1
    && after.pool <= before.pool && (before.pool >= 0 ==> after.pool >= 0)
  }

  /**
   * The first `i` turns of a round: they are `Turned` with respect to the
   * standings at the start of the round; the later players are as they
   * were; `round` lists the players that issued, in increasing order.
   */
  predicate RoundSoFar(start: seq<Standing>, cur: seq<Standing>, done: seq<bool>, done': seq<bool>, round: seq<nat>, i: nat)
  {
    && |cur| == |start| && |done| == |start| && |done'| == |start| && i <= |start|
    && Increasing(round) && (forall k :: 0 <= k < |round| ==> round[k] < i)
    && (forall j :: i <= j < |start| ==> done'[j] == done[j] && cur[j] == start[j])
    && (forall j :: 0 <= j < i ==> Turned(start[j], cur[j], done[j], done'[j], j in round))
  }

  /** One more turn extends a round. */
  lemma RoundStep(start: seq<Standing>, cur: seq<Standing>, done: seq<bool>, done': seq<bool>, round: seq<nat>, i: nat,
                  after: Standing, issued: bool)
    requires RoundSoFar(start, cur, done, done', round, i) && i < |start|
    requires Turned(cur[i], after, done'[i], !issued, issued)
    ensures RoundSoFar(start, cur[i := after], done, done'[i := !issued], if issued then round + [i] else round, i + 1)
  {
    var round' := if issued then round + [i] else round;
    assert i !in round;
    assert forall j :: 0 <= j < i ==> (j in round' <==> j in round);
  }

  /**
   * The rounds of an issue phase: one to ten of them, each in increasing
   * order over `count` players, all but the last non-empty, and every
   * player in a round also in the round before.
   */
  predicate RoundsShape(rounds: seq<seq<nat>>, count: nat)
  {
    && 1 <= |rounds| <= MaxIssueRounds
    && (forall r :: 0 <= r < |rounds| - 1 ==> rounds[r] != [])
    && (forall r :: 0 <= r < |rounds| ==> Increasing(rounds[r]) && forall k :: 0 <= k < |rounds[r]| ==> rounds[r][k] < count)
    && (forall r :: 0 < r < |rounds| ==> Within(rounds[r], rounds[r - 1]))
  }

  /** Every index listed in `a` is listed in `b`. */
  predicate Within(a: seq<nat>, b: seq<nat>)
  {
    forall j :: j in a ==> j in b
  }

  /**
   * Every player's orders have only been extended, by at most `rounds`
   * orders, and no pool has grown or dropped below zero from zero or more.
   */
  predicate Grown(start: seq<Standing>, now: seq<Standing>, rounds: nat)
  {
    && |now| == |start|
    && (forall j :: 0 <= j < |start| ==> start[j].orders <= now[j].orders && |now[j].orders| <= |start[j].orders| + rounds)
    && (forall j :: 0 <= j < |start| ==> now[j].pool <= start[j].pool && (start[j].pool >= 0 ==> now[j].pool >= 0))
  }

  /**
   * The issue phase after the non-empty `rounds`, from standings `start` to
   * `now`: the rounds are shaped as `RoundsShape` says, a player is done
   * exactly when it did not issue in the last round, a done player cannot
   * issue, and the lists have grown by at most one order a round.
   */
  predicate IssueSoFar(start: seq<Standing>, now: seq<Standing>, done: seq<bool>, rounds: seq<seq<nat>>)
  {
    && |done| == |now|
    && |rounds| <= MaxIssueRounds
    && (rounds == [] || RoundsShape(rounds, |done|))
    && (forall r :: 0 <= r < |rounds| ==> rounds[r] != [])
    && (forall j :: 0 <= j < |done| ==> (done[j] <==> rounds != [] && j !in rounds[|rounds| - 1]))
    && (forall j :: 0 <= j < |done| && done[j] ==> !now[j].canIssue)
    && Grown(start, now, |rounds|)
  }

  /**
   * A finished round extends the rounds of a phase: a round in which
   * somebody issued continues it, and after an empty one nobody can issue.
   */
  lemma RoundsGrow(rounds: seq<seq<nat>>, round: seq<nat>, before: seq<Standing>, after: seq<Standing>,
                   done: seq<bool>, done': seq<bool>, start: seq<Standing>)
    requires IssueSoFar(start, before, done, rounds) && |rounds| < MaxIssueRounds
    requires RoundSoFar(before, after, done, done', round, |done|)
    requires forall j :: 0 <= j < |done| && done'[j] ==> !after[j].canIssue
    ensures RoundsShape(rounds + [round], |done|)
    ensures Grown(start, after, |rounds| + 1)
    ensures round != [] ==> IssueSoFar(start, after, done', rounds + [round])
    ensures round == [] ==> forall j :: 0 <= j < |done| ==> !after[j].canIssue
  {
    var rounds' := rounds + [round];
    if rounds != [] {
      forall j | j in round
        ensures j in rounds[|rounds| - 1]
      {
        var k :| 0 <= k < |round| && round[k] == j;
        assert Turned(before[j], after[j], done[j], done'[j], j in round);
      }
    }
    forall r | 0 < r < |rounds'|
      ensures Within(rounds'[r], rounds'[r - 1])
    {
      if r < |rounds| {
        assert rounds'[r] == rounds[r] && rounds'[r - 1] == rounds[r - 1];
      }
    }
  }

  /** The players of a seating order, as a set. */
  ghost function SeatsOf(ps: seq<Player>): set<Player>
  {
    set p | p in ps
  }

  /** The owners a territory can have: the seated players and the neutral player. */
  ghost function RosterOf(ps: seq<Player>, neutral: Player): set<Player>
  {
    SeatsOf(ps) + {neutral}
  }

  /** The orders lists of a seating order. */
  ghost function QueuesOf(ps: seq<Player>): set<OrdersList>
  {
    set p | p in ps :: p.ordersList
  }

  /** The reinforcement pools of a seating order. */
  ghost function PoolsOf(ps: seq<Player>): (r: seq<int>)
    reads SeatsOf(ps)
    ensures |r| == |ps| && forall j :: 0 <= j < |ps| ==> r[j] == ps[j].reinforcementPool
  {
    seq(|ps|, j requires 0 <= j < |ps| reads SeatsOf(ps) => ps[j].reinforcementPool)
  }

  /** How many territories each player of a seating order lists. */
  ghost function HoldingsOf(ps: seq<Player>): (r: seq<nat>)
    reads SeatsOf(ps)
    ensures |r| == |ps| && forall j :: 0 <= j < |ps| ==> r[j] == |ps[j].territories|
  {
    seq(|ps|, j requires 0 <= j < |ps| reads SeatsOf(ps) => |ps[j].territories|)
  }

  /** Indices in increasing order. */
  predicate Increasing(s: seq<nat>)
  {
    forall a, b :: 0 <= a < b < |s| ==> s[a] < s[b]
  }

  /** The players that still hold a territory, in their order (Game_Engine/GameEngine.cpp:451-458). */
  ghost function Survivors(ps: seq<Player>): (r: seq<Player>)
    reads set p | p in ps
    ensures |r| <= |ps|
  {
    if ps == [] then []
    else
      var init, last := ps[..|ps| - 1], ps[|ps| - 1];
      assert forall q :: q in init ==> q in ps;
      Survivors(init) + if last.territories != [] then [last] else []
  }

  /** Elimination keeps exactly the players that hold a territory. */
  lemma {:induction false} SurvivorsMembers(ps: seq<Player>)
    ensures forall p :: p in Survivors(ps) ==> p in ps && p.territories != []
    ensures forall p :: p in ps && p.territories != [] ==> p in Survivors(ps)
  {
    if ps != [] {
      var init, last := ps[..|ps| - 1], ps[|ps| - 1];
      SurvivorsMembers(init);
      assert ps == init + [last];
      assert Survivors(ps) == Survivors(init) + if last.territories != [] then [last] else [];
    }
  }

  /** Elimination keeps the players in their order, so increasing ids stay increasing. */
  lemma {:induction false} SurvivorsOrdered(ps: seq<Player>)
    requires forall i, j :: 0 <= i < j < |ps| ==> ps[i].id < ps[j].id
    ensures forall i, j :: 0 <= i < j < |Survivors(ps)| ==> Survivors(ps)[i].id < Survivors(ps)[j].id
  {
    if ps != [] {
      var init, last := ps[..|ps| - 1], ps[|ps| - 1];
      SurvivorsOrdered(init);
      SurvivorsMembers(init);
      var r0 := Survivors(init);
      var r := Survivors(ps);
      assert r == r0 + if last.territories != [] then [last] else [];
      forall i, j | 0 <= i < j < |r|
        ensures r[i].id < r[j].id
      {
        if j == |r0| {
          assert r[i] in r0;
          var k :| 0 <= k < |init| && init[k] == r[i];
        }
      }
    }
  }

  /**
   * One step of the erase loop over `ps`, `seen` players in: the list holds
   * the survivors so far followed by the unseen players, and the player at
   * the loop index is `ps[seen]`; erasing it, or stepping past it, moves on.
   */
  lemma SurvivorsStep(ps: seq<Player>, seen: nat)
    requires seen < |ps|
    ensures |Survivors(ps[..seen])| < |Survivors(ps[..seen]) + ps[seen..]|
    ensures (Survivors(ps[..seen]) + ps[seen..])[|Survivors(ps[..seen])|] == ps[seen]
    ensures ps[seen].territories == [] ==>
      && Survivors(ps[..seen + 1]) == Survivors(ps[..seen])
      && Removed(Survivors(ps[..seen]) + ps[seen..], |Survivors(ps[..seen])|) == Survivors(ps[..seen + 1]) + ps[seen + 1..]
    ensures ps[seen].territories != [] ==>
      && Survivors(ps[..seen + 1]) == Survivors(ps[..seen]) + [ps[seen]]
      && Survivors(ps[..seen]) + ps[seen..] == Survivors(ps[..seen + 1]) + ps[seen + 1..]
  {
    assert ps[..seen + 1][..seen] == ps[..seen];
    assert ps[seen..] == [ps[seen]] + ps[seen + 1..];
  }

  /**
   * Erasing the players that hold no territory (Game_Engine/GameEngine.cpp:449-458)
   * keeps the ownership records of board `b` in agreement with the players
   * left, as `EliminationKeeps` shows.
   */
  method EraseEliminatedKeeping(ps: seq<Player>, ghost b: Board, ghost neutral: Player, ghost nextId: nat)
    returns (list: seq<Player>)
    requires Consistent(b, RosterOf(ps, neutral)) && Registered(ps, nextId) && QueuesWellFormed(ps, |b.owner|)
    ensures list == Survivors(ps)
    ensures Consistent(b, RosterOf(list, neutral)) && Registered(list, nextId) && QueuesWellFormed(list, |b.owner|)
    ensures SeatsOf(list) <= SeatsOf(ps) && QueuesOf(list) <= QueuesOf(ps)
  {
    list := EraseEliminated(ps);
    EliminationKeeps(b, ps, neutral, nextId);
  }

  /**
   * The erase loop of `mainGameLoop` (Game_Engine/GameEngine.cpp:449-458):
   * the players holding no territory leave the list, the others stay in
   * their order.
   */
  method EraseEliminated(ps: seq<Player>) returns (list: seq<Player>)
    ensures list == Survivors(ps)
  {
    ghost var seen := 0;
    list := ps;
    var k := 0;
    while k < |list|
      invariant seen <= |ps|
      invariant list == Survivors(ps[..seen]) + ps[seen..]
      invariant k == |Survivors(ps[..seen])| && |list| == k + |ps| - seen
      decreases |ps| - seen
    {
      SurvivorsStep(ps, seen);
      if list[k].territories == [] {
        list := Removed(list, k);
      } else {
        k := k + 1;
      }
      seen := seen + 1;
    }
    assert ps[..seen] == ps;
  }

  /**
   * Erasing the players without territories keeps the invariants of a
   * game under way: an owned territory's owner holds a territory and so
   * survives, and what held for every player holds for the survivors.
   */
  lemma EliminationKeeps(b: Board, ps: seq<Player>, neutral: Player, nextId: nat)
    requires Consistent(b, RosterOf(ps, neutral)) && Registered(ps, nextId)
    requires QueuesWellFormed(ps, |b.owner|)
    ensures Consistent(b, RosterOf(Survivors(ps), neutral)) && Registered(Survivors(ps), nextId)
    ensures QueuesWellFormed(Survivors(ps), |b.owner|)
    ensures SeatsOf(Survivors(ps)) <= SeatsOf(ps) && QueuesOf(Survivors(ps)) <= QueuesOf(ps)
  {
    SurvivorsMembers(ps);
    SurvivorsOrdered(ps);
    var r := Survivors(ps);
    var before := RosterOf(ps, neutral);
    var after := RosterOf(r, neutral);
    forall t | 0 <= t < |b.owner| && b.owner[t] != null
      ensures b.owner[t] in after
    {
      var q := b.owner[t];
      if q != neutral {
        assert q in before && Agrees(b.owner, q, q.territories);
        assert t in q.territories;
      }
    }
    forall p | p in after
      ensures Agrees(b.owner, p, p.territories)
    {
      assert p in before;
    }
    assert Consistent(b, after);
    forall p | p in r
      ensures 0 < p.id < nextId && OrdersFit(p, p.ordersList.orders, |b.owner|)
    {
      assert p in ps;
    }
    forall p, q | p in r && q in r && p != q
      ensures p.ordersList != q.ordersList
    {
      assert p in ps && q in ps;
    }
  }

  /** Elimination works piecewise, so the remaining players keep their order. */
  lemma {:induction false} SurvivorsAppend(a: seq<Player>, b: seq<Player>)
    ensures Survivors(a + b) == Survivors(a) + Survivors(b)
    decreases |b|
  {
    if b == [] {
      assert a + b == a;
    } else {
      SurvivorsAppend(a, b[..|b| - 1]);
      assert (a + b)[..|a + b| - 1] == a + b[..|b| - 1];
    }
  }

  /** When nobody has lost every territory, nobody is eliminated. */
  lemma {:induction false} NobodyEliminated(ps: seq<Player>)
    requires forall p :: p in ps ==> p.territories != []
    ensures Survivors(ps) == ps
  {
    if ps != [] {
      NobodyEliminated(ps[..|ps| - 1]);
      assert ps == ps[..|ps| - 1] + [ps[|ps| - 1]];
    }
  }

  /** How a game loop ended. */
  datatype Outcome =
    | NotStarted                    // no map or fewer than 2 players
    | LastStanding(winner: Player)  // one player left
    | OwnsAll(winner: Player)       // one player owns every territory
    | TurnLimit                     // 10 turns played

  /**
   * With the two ownership records in agreement, a player listing as many
   * territories as the board has owns every territory.
   */
  lemma OwnsAllMeans(b: Board, ps: set<Player>, p: Player)
    requires Consistent(b, ps) && p in ps && |p.territories| == |b.owner|
    ensures forall t :: 0 <= t < |b.owner| ==> b.owner[t] == p
  {
    var ids := Upto(|b.owner|);
    var listed := Maps.Elements(p.territories);
    var all := Maps.Elements(ids);
    forall t | t in listed
      ensures t in all
    {
      assert ids[t] == t;
    }
    Maps.DistinctSize(p.territories);
    Maps.DistinctSize(ids);
    Maps.SubsetSameSize(listed, all);
    forall t | 0 <= t < |b.owner|
      ensures b.owner[t] == p
    {
      assert ids[t] == t;
    }
  }

  /** The numbers below `n`, in order. */
  function Upto(n: nat): (r: seq<nat>)
    ensures |r| == n && forall i :: 0 <= i < n ==> r[i] == i
    ensures Maps.Distinct(r)
  {
    seq(n, i => i)
  }

  /**
   * The deal of `mainGameLoop` (Game_Engine/GameEngine.cpp:428-434) gives
   * territory `t` to player `t mod n`; with distinct players, the
   * territories `Dealt` lists for player `j` are exactly the ones the board
   * then gives to `ps[j]`.
   */
  lemma DealAgrees(owner: seq<Player?>, ps: seq<Player>, j: nat)
    requires j < |ps|
    requires forall a, b :: 0 <= a < b < |ps| ==> ps[a] != ps[b]
    requires forall t :: 0 <= t < |owner| ==> owner[t] == ps[t % |ps|]
    ensures Agrees(owner, ps[j], Dealt(j, |ps|, |owner|))
  {
    var n := |ps|;
    forall t | 0 <= t < |owner| && owner[t] == ps[j]
      ensures t in Dealt(j, n, |owner|)
    {
      SameSeat(ps, t % n, j);
    }
  }

  /** In a list without repetitions, equal entries sit at the same index. */
  lemma SameSeat(ps: seq<Player>, a: nat, b: nat)
    requires forall x, y :: 0 <= x < y < |ps| ==> ps[x] != ps[y]
    requires a < |ps| && b < |ps| && ps[a] == ps[b]
    ensures a == b
  {
  }

  /** On a board nobody owns, a list that agrees with the board is empty. */
  lemma UnownedHoldsNothing(owner: seq<Player?>, p: Player, list: seq<TerritoryId>)
    requires Agrees(owner, p, list)
    requires forall t :: 0 <= t < |owner| ==> owner[t] == null
    ensures list == []
  {
    Maps.DistinctSize(list);
    assert Maps.Elements(list) == {};
  }

  /** `MapLoader::loadMap`, keeping what the engine relies on: a loaded map is well formed and valid. */
  method LoadValidMap(files: map<string, seq<string>>, filename: string, isNumeric: string -> bool)
    returns (r: Option<Maps.Map>)
    ensures r.Some? ==> filename in files && Maps.WellFormed(r.value) && Maps.ValidMap(r.value)
  {
    r := MapLoader.LoadMap(files, filename, isNumeric);
  }

  /**
   * `issueOrder` as the engine sees it (Player/Player.cpp:97-147): at most
   * one order joins the end of the player's list, naming the player as its
   * issuer and only territories of the board.
   */
  method IssueWithin(p: Player, b: Board) returns (issued: Issued)
    requires b.Valid() && Agrees(b.owner, p, p.territories)
    requires OrdersFit(p, p.ordersList.orders, |b.owner|)
    modifies p`reinforcementPool, p`cards, p.ordersList
    ensures OrdersFit(p, p.ordersList.orders, |b.owner|)
    ensures old(p.ordersList.orders) <= p.ordersList.orders
    ensures |p.ordersList.orders| <= |old(p.ordersList.orders)| + 1
    ensures p.reinforcementPool <= old(p.reinforcementPool)
    ensures old(p.reinforcementPool) >= 0 ==> p.reinforcementPool >= 0
  {
    forall k | 0 <= k < |p.territories|
      ensures p.territories[k] < |b.adjacents|
    {
      assert p.territories[k] in p.territories;
    }
    ghost var before := p.ordersList.orders;
    ghost var n := |b.owner|;
    assert OrdersFit(p, before, n);
    ghost var targets := AttackTargets(b.adjacents, b.owner, p.territories, p);
    if targets != [] {
      AttackTargetOf(b.adjacents, b.owner, p.territories, p, targets[0]);
    }
    ghost var pool := p.reinforcementPool;
    issued := p.IssueOrder(b);
    if issued == IssuedDeploy {
      assert p.territories[0] in p.territories;
      OrdersFitAppend(p, before, Deploy(p, Min(3, pool), Some(p.territories[0])), n);
    } else if issued == IssuedAdvance {
      var source := p.territories[StrongIndex(p.territories, b.armies, 0).value];
      OrdersFitAppend(p, before, Advance(p, b.armies[source] / 2, Some(source), Some(targets[0])), n);
    }
  }

  // ---------------------------------------------------------------------
  // The engine

  class GameEngine {
    var currentState: int
    var gameMap: Option<Maps.Map>
    var board: Board
    var players: seq<Player>
    /** The turn-scoped sets and the neutral player. */
    const turn: TurnState
    /** The id the next added player receives. */
    var nextId: nat

    /**
     * The state is one of the eight, at most 6 players, and the board holds
     * the territories of the loaded map.
     */
    ghost predicate Valid()
      reads this, board
    {
      && 0 <= currentState <= 7
      && |players| <= MaxPlayers
      && board.Valid()
      && (gameMap.Some? ==> Maps.WellFormed(gameMap.value) && board.adjacents == Maps.Adjacency(gameMap.value))
      && nextId > 0 && Registered(players, nextId)
      && turn.neutral.id == 0
    }

    /** The players of the game. */
    ghost function Seats(): set<Player>
      reads this
    {
      SeatsOf(players)
    }

    /** The players of the game and the neutral player: the owners a territory can have. */
    ghost function Roster(): set<Player>
      reads this
    {
      RosterOf(players, turn.neutral)
    }

    /** The board, the players' lists and hands, and the turn's sets, as the orders see them. */
    ghost function World(): Orders.World
      reads this, board, turn, Roster()
    {
      Orders.WorldOf(board, turn, Roster())
    }

    /** The players' orders lists. */
    ghost function Queues(): set<OrdersList>
      reads this
    {
      QueuesOf(players)
    }

    /** A game under way: the ownership records agree and every waiting order is well formed. */
    ghost predicate Playing()
      reads this, board, Roster()`territories, Queues()
    {
      && Valid()
      && Consistent(board, Roster())
      && QueuesWellFormed(players, |board.owner|)
    }

    /** `GameEngine()` (Game_Engine/GameEngine.cpp:10-27): state 0, no map, no players. */
    constructor ()
      ensures Valid() && currentState == 0 && gameMap.None? && players == []
      ensures fresh(turn) && turn.negotiated == {} && turn.granted == {}
    {
      currentState := 0;
      gameMap := None;
      board := new Board(Maps.Map([], []));
      players := [];
      turn := new TurnState();
      nextId := 1;
    }

    /**
     * `executeCommand` (Game_Engine/GameEngine.cpp:120-274). A command the
     * table refuses, or one without a branch, fails and changes nothing. A
     * successful command moves to the state `NextState` names. `loadmap`
     * succeeds when the named file loads as a valid map, `validatemap` when
     * the loaded map validates, and `addplayer` while fewer than 6 players
     * exist, appending one new player named by the second word.
     */
    method ExecuteCommand(command: string, files: map<string, seq<string>>, isNumeric: string -> bool)
      returns (ok: bool)
      requires Valid()
      modifies this
      ensures Valid()
      ensures !ok ==> currentState == old(currentState) && players == old(players) && gameMap == old(gameMap)
      ensures !ok ==> board == old(board)
      ensures ok ==> NextState(old(currentState), command) == Some(currentState)
      ensures NextState(old(currentState), command).Some? && !MayFail(old(currentState), command) ==> ok
      ensures ok && old(currentState) == 0 ==>
        && gameMap.Some? && Text.SecondWord(command) in files && Maps.ValidMap(gameMap.value)
        && fresh(board) && |board.owner| == |gameMap.value.territories|
        && forall t :: 0 <= t < |board.owner| ==> board.owner[t] == null
      ensures !(ok && old(currentState) == 0) ==> gameMap == old(gameMap) && board == old(board)
      ensures old(currentState) == 1 && command == "validatemap" ==>
        (ok <==> old(gameMap).Some? && Maps.ValidMap(old(gameMap).value))
      ensures AddsPlayer(old(currentState), command) ==> (ok <==> |old(players)| < MaxPlayers)
      ensures AddsPlayer(old(currentState), command) && ok ==>
        && |players| == |old(players)| + 1 && players[..|old(players)|] == old(players)
        && fresh(players[|old(players)|]) && players[|old(players)|].name == Text.SecondWord(command)
        && players[|old(players)|].territories == [] && players[|old(players)|].ordersList.orders == []
      ensures !(AddsPlayer(old(currentState), command) && ok) ==> players == old(players)
    {
      ok := Perform(command, Text.SecondWord(command), files, isNumeric);
    }

    /** The branches of `executeCommand`, given the command's second word. */
    method Perform(command: string, argument: string, files: map<string, seq<string>>, isNumeric: string -> bool)
      returns (ok: bool)
      requires Valid()
      modifies this
      ensures Valid()
      ensures !ok ==> currentState == old(currentState) && players == old(players) && gameMap == old(gameMap)
      ensures !ok ==> board == old(board)
      ensures ok ==> NextState(old(currentState), command) == Some(currentState)
      ensures NextState(old(currentState), command).Some? && !MayFail(old(currentState), command) ==> ok
      ensures ok && old(currentState) == 0 ==>
        && gameMap.Some? && argument in files && Maps.ValidMap(gameMap.value)
        && fresh(board) && |board.owner| == |gameMap.value.territories|
        && forall t :: 0 <= t < |board.owner| ==> board.owner[t] == null
      ensures !(ok && old(currentState) == 0) ==> gameMap == old(gameMap) && board == old(board)
      ensures old(currentState) == 1 && command == "validatemap" ==>
        (ok <==> old(gameMap).Some? && Maps.ValidMap(old(gameMap).value))
      ensures AddsPlayer(old(currentState), command) ==> (ok <==> |old(players)| < MaxPlayers)
      ensures AddsPlayer(old(currentState), command) && ok ==>
        && |players| == |old(players)| + 1 && players[..|old(players)|] == old(players)
        && fresh(players[|old(players)|]) && players[|old(players)|].name == argument
        && players[|old(players)|].territories == [] && players[|old(players)|].ordersList.orders == []
      ensures !(AddsPlayer(old(currentState), command) && ok) ==> players == old(players)
    {
      if !ValidateCommand(currentState, command) {
        return false;
      }
      if currentState == 0 {
        assert NextState(0, command) == Some(1) && MayFail(0, command);
        ok := LoadMapCommand(argument, files, isNumeric);
      } else if currentState == 1 {
        assert NextState(1, command) == if command == "validatemap" then Some(2) else None;
        ok := ValidateMapCommand(command);
      } else if AddsPlayer(currentState, command) {
        assert NextState(currentState, command) == Some(3) && MayFail(currentState, command);
        ok := AddPlayer(argument);
        if ok {
          currentState := 3;
        }
      } else {
        assert !MayFail(currentState, command);
        ok := Step(command);
      }
    }

    /**
     * The `loadmap` branch of state 0 (Game_Engine/GameEngine.cpp:128-147):
     * the named file (the command's second word) is loaded; on success the map and
     * a fresh board replace the old ones and the state becomes 1.
     */
    method LoadMapCommand(filename: string, files: map<string, seq<string>>, isNumeric: string -> bool)
      returns (ok: bool)
      requires Valid() && currentState == 0
      modifies this`gameMap, this`board, this`currentState
      ensures Valid()
      ensures ok ==>
        && currentState == 1
        && gameMap.Some? && filename in files && Maps.ValidMap(gameMap.value)
        && fresh(board) && |board.owner| == |gameMap.value.territories|
        && forall t :: 0 <= t < |board.owner| ==> board.owner[t] == null
      ensures !ok ==> currentState == 0 && gameMap == old(gameMap) && board == old(board)
    {
      var loaded := LoadValidMap(files, filename, isNumeric);
      if loaded.Some? {
        gameMap := loaded;
        board := new Board(loaded.value);
        currentState := 1;
        return true;
      }
      return false;
    }

    /**
     * State 1 (Game_Engine/GameEngine.cpp:150-167): `validatemap` moves to
     * state 2 when the loaded map validates; any other command, `loadmap`
     * included, fails.
     */
    method ValidateMapCommand(command: string) returns (ok: bool)
      requires Valid() && currentState == 1
      modifies this`currentState
      ensures Valid()
      ensures ok <==> command == "validatemap" && gameMap.Some? && Maps.ValidMap(gameMap.value)
      ensures currentState == if ok then 2 else 1
    {
      if command == "validatemap" {
        if gameMap.Some? {
          var valid := Maps.Validate(gameMap.value);
          if valid {
            currentState := 2;
            return true;
          }
        }
        return false;
      }
      return false;
    }

    /**
     * The branches that only change the state (Game_Engine/GameEngine.cpp:221-271):
     * each moves to the state `NextState` names, and a command without a
     * branch fails.
     */
    method Step(command: string) returns (ok: bool)
      requires Valid() && currentState >= 2 && !AddsPlayer(currentState, command)
      modifies this`currentState
      ensures Valid()
      ensures ok <==> NextState(old(currentState), command).Some?
      ensures ok ==> NextState(old(currentState), command) == Some(currentState)
      ensures !ok ==> currentState == old(currentState)
    {
      if currentState == 3 {
        if command == "assigncountries" {
          currentState := 4;
          return true;
        }
      } else if currentState == 4 {
        if command == "issueorder" {
          currentState := 5;
          return true;
        }
      } else if currentState == 5 {
        if command == "issueorder" {
          return true;
        } else if command == "endissueorders" {
          currentState := 6;
          return true;
        }
      } else if currentState == 6 {
        if command == "execorder" {
          return true;
        } else if command == "endexecorders" {
          currentState := 4;
          return true;
        } else if command == "win" {
          currentState := 7;
          return true;
        }
      } else if currentState == 7 {
        if command == "play" {
          currentState := 0;
          return true;
        } else if command == "end" {
          return true;
        }
      }
      return false;
    }

    /**
     * The `addplayer` branch (Game_Engine/GameEngine.cpp:171-184, 204-216):
     * refused when 6 players exist; otherwise one new player is appended.
     */
    method AddPlayer(name: string) returns (added: bool)
      requires Valid()
      modifies this`players, this`nextId
      ensures Valid()
      ensures added <==> |old(players)| < MaxPlayers
      ensures !added ==> players == old(players)
      ensures added ==>
        && |players| == |old(players)| + 1 && players[..|old(players)|] == old(players)
        && fresh(players[|old(players)|]) && players[|old(players)|].name == name
        && players[|old(players)|].territories == [] && players[|old(players)|].ordersList.orders == []
    {
      if |players| >= MaxPlayers {
        return false;
      }
      var p := new Player(nextId, name);
      players := players + [p];
      nextId := nextId + 1;
      assert players[..|old(players)|] == old(players);
      assert forall q :: q in players ==> q in old(players) || q == p;
      return true;
    }

    // -------------------------------------------------------------------
    // reinforcementPhase

    /**
     * `reinforcementPhase` (Game_Engine/GameEngine.cpp:308-320): every player's
     * pool grows by exactly `max(3, territories / 3)`.
     */
    method ReinforcementPhase()
      requires Valid()
      modifies Seats()`reinforcementPool
      ensures forall i :: 0 <= i < |players| ==>
        players[i].reinforcementPool == old(players[i].reinforcementPool) + Reinforcements(|players[i].territories|)
    {
      for i := 0 to |players|
        invariant forall j :: 0 <= j < i ==>
          players[j].reinforcementPool == old(players[j].reinforcementPool) + Reinforcements(|players[j].territories|)
        invariant forall j :: i <= j < |players| ==> players[j].reinforcementPool == old(players[j].reinforcementPool)
      {
        var owned := |players[i].territories|;
        players[i].AddReinforcement(Reinforcements(owned));
      }
    }

    // -------------------------------------------------------------------
    // issueOrdersPhase

    /**
     * What the issue phase relies on and keeps, for a board of `n`
     * territories: the players are distinct and so are their lists, each
     * player's list of territories agrees with the board, and every waiting
     * order fits the board.
     */
    ghost predicate Issuable(n: nat)
      reads this, board, Seats()`territories, Queues()
    {
      && board.Valid() && |board.owner| == n && SeatsApart()
      && (forall j :: 0 <= j < |players| ==> Agrees(board.owner, players[j], players[j].territories))
      && QueuesFit(n)
    }

    /** No player sits twice, and no two players share an orders list. */
    ghost predicate SeatsApart()
      reads this
    {
      forall a, b :: 0 <= a < b < |players| ==> players[a] != players[b] && players[a].ordersList != players[b].ordersList
    }

    /** Every waiting order fits a board of `n` territories and names its player as issuer. */
    ghost predicate QueuesFit(n: nat)
      reads this, Queues()
    {
      forall j :: 0 <= j < |players| ==> OrdersFit(players[j], players[j].ordersList.orders, n)
    }

    /**
     * The army scan of `issueOrdersPhase` (Game_Engine/GameEngine.cpp:349-357),
     * stopping at the first territory with more than one army.
     */
    method HasArmiesToMove(p: Player) returns (found: bool)
      requires board.Valid()
      ensures found <==> exists k :: 0 <= k < |p.territories| && p.territories[k] < |board.armies| && board.armies[p.territories[k]] > 1
    {
      found := false;
      for k := 0 to |p.territories|
        invariant !found
        invariant forall j :: 0 <= j < k ==> !(p.territories[j] < |board.armies| && board.armies[p.territories[j]] > 1)
      {
        var t := p.territories[k];
        if t < |board.armies| && board.armies[t] > 1 {
          found := true;
          break;
        }
      }
    }

    /** The `canIssue` test of `issueOrdersPhase` (Game_Engine/GameEngine.cpp:343-362). */
    method CanIssueNow(p: Player) returns (canIssue: bool)
      requires board.Valid()
      ensures canIssue == CanIssue(p, board.armies)
    {
      if p.reinforcementPool > 0 {
        canIssue := true;
      } else if p.territories != [] {
        canIssue := HasArmiesToMove(p);
      } else {
        canIssue := p.cards > 0;
      }
    }

    /**
     * The turn of player `i` in a round of `issueOrdersPhase`
     * (Game_Engine/GameEngine.cpp:338-369): a player not done issues exactly
     * when `CanIssue` holds (`Turned`); nobody else's standing changes.
     */
    method PlayerTurn(p: Player, i: nat, isDone: bool, ghost n: nat) returns (issuedNow: bool)
      requires Issuable(n) && i < |players| && players[i] == p
      modifies p`reinforcementPool, p`cards, p.ordersList
      ensures Issuable(n)
      ensures Standings(players, board.armies) == old(Standings(players, board.armies))[i := StandingOf(p, board.armies)]
      ensures Turned(old(StandingOf(p, board.armies)), StandingOf(p, board.armies), isDone, !issuedNow, issuedNow)
    {
      ghost var before := Standings(players, board.armies);
      issuedNow := false;
      if !isDone {
        issuedNow := CanIssueNow(p);
        if issuedNow {
          var _ := IssueWithin(p, board);
        }
      }
      ghost var after := Standings(players, board.armies);
      forall j | 0 <= j < |players| && j != i
        ensures players[j] != p && players[j].ordersList != p.ordersList
      {
        if j < i {} else {}
      }
      assert after == before[i := StandingOf(p, board.armies)];
    }

    /**
     * One round of `issueOrdersPhase` (Game_Engine/GameEngine.cpp:331-364):
     * in player order, every player takes its turn (`Turned`). `round`
     * lists, in increasing order, the players that issued; a player done
     * after the round cannot issue.
     */
    method IssueRound(done: seq<bool>, ghost n: nat) returns (done': seq<bool>, anyIssued: bool, ghost round: seq<nat>)
      requires Issuable(n) && |done| == |players|
      requires forall j :: 0 <= j < |players| && done[j] ==> !Standings(players, board.armies)[j].canIssue
      modifies Seats()`reinforcementPool, Seats()`cards, Queues()
      ensures Issuable(n) && |done'| == |players|
      ensures anyIssued <==> round != []
      ensures RoundSoFar(old(Standings(players, board.armies)), Standings(players, board.armies), done, done', round, |players|)
      ensures forall j :: 0 <= j < |players| && done'[j] ==> !Standings(players, board.armies)[j].canIssue
    {
      ghost var start := Standings(players, board.armies);
      done', anyIssued, round := done, false, [];
      for i := 0 to |players|
        invariant Issuable(n)
        invariant RoundSoFar(start, Standings(players, board.armies), done, done', round, i)
        invariant anyIssued <==> round != []
      {
        ghost var was := done';
        ghost var cur := Standings(players, board.armies);
        var issuedNow := PlayerTurn(players[i], i, done'[i], n);
        RoundStep(start, cur, done, done', round, i, StandingOf(players[i], board.armies), issuedNow);
        if issuedNow {
          anyIssued := true;
          round := round + [i as nat];
        } else if !done'[i] {
          done' := done'[i := true];
        }
        assert done' == was[i := !issuedNow];
      }
    }

    /**
     * The loop of `issueOrdersPhase` (Game_Engine/GameEngine.cpp:328-378),
     * over standings: at most ten rounds, ending early after a round in
     * which nobody issued; a player done in one round takes no turn in the
     * next; each round's orders only extend every list, by at most one.
     */
    method IssueRounds(ghost n: nat) returns (ghost rounds: seq<seq<nat>>)
      requires Issuable(n)
      modifies Seats()`reinforcementPool, Seats()`cards, Queues()
      ensures Issuable(n)
      ensures RoundsShape(rounds, |players|)
      ensures |rounds| < MaxIssueRounds ==>
        rounds[|rounds| - 1] == [] && forall j :: 0 <= j < |players| ==> !Standings(players, board.armies)[j].canIssue
      ensures Grown(old(Standings(players, board.armies)), Standings(players, board.armies), |rounds|)
    {
      ghost var start := Standings(players, board.armies);
      ghost var now := start;
      var done := seq(|players|, _ => false);
      var roundCount := 0;
      rounds := [];
      while roundCount < MaxIssueRounds
        invariant Issuable(n) && now == Standings(players, board.armies)
        invariant roundCount == |rounds| && IssueSoFar(start, now, done, rounds)
      {
        ghost var before := now;
        ghost var wasDone := done;
        roundCount := roundCount + 1;
        var anyIssued;
        ghost var round;
        done, anyIssued, round := IssueRound(done, n);
        now := Standings(players, board.armies);
        RoundsGrow(rounds, round, before, now, wasDone, done, start);
        rounds := rounds + [round];
        if !anyIssued {
          break;
        }
      }
    }

      /** A game under way has what the issue phase relies on. */
    lemma PlayingIsIssuable()
      requires Playing()
      ensures Issuable(|board.owner|)
    {
      forall a, b | 0 <= a < b < |players|
        ensures players[a] != players[b] && players[a].ordersList != players[b].ordersList
      {
        assert players[a].id < players[b].id;
      }
      forall j | 0 <= j < |players|
        ensures Agrees(board.owner, players[j], players[j].territories)
        ensures OrdersFit(players[j], players[j].ordersList.orders, |board.owner|)
      {
        assert players[j] in Roster();
      }
    }

    /** What the issue phase keeps, with the records it does not touch, is a game under way. */
    lemma IssuableIsPlaying(n: nat)
      requires Valid() && Consistent(board, Roster()) && Issuable(n)
      ensures Playing()
    {
      forall p | p in players
        ensures OrdersFit(p, p.ordersList.orders, |board.owner|)
      {
        var j :| 0 <= j < |players| && players[j] == p;
      }
    }

    /**
     * `issueOrdersPhase` (Game_Engine/GameEngine.cpp:322-379): the rounds of
     * `IssueRounds`, seen on the players. When the
     * phase ends before ten rounds, nobody can issue any more; every
     * player's orders have only been extended, by at most one per round;
     * no pool has grown, and none has dropped below zero from zero or more.
     */
    method IssueOrdersPhase() returns (ghost rounds: seq<seq<nat>>)
      requires Playing()
      modifies Seats()`reinforcementPool, Seats()`cards, Queues()
      ensures Playing()
      ensures RoundsShape(rounds, |players|)
      ensures |rounds| < MaxIssueRounds ==>
        rounds[|rounds| - 1] == [] && forall j :: 0 <= j < |players| ==> !CanIssue(players[j], board.armies)
      ensures forall j :: 0 <= j < |players| ==>
        && old(players[j].ordersList.orders) <= players[j].ordersList.orders
        && |players[j].ordersList.orders| <= |old(players[j].ordersList.orders)| + |rounds|
      ensures forall j :: 0 <= j < |players| ==>
        && players[j].reinforcementPool <= old(players[j].reinforcementPool)
        && (old(players[j].reinforcementPool) >= 0 ==> players[j].reinforcementPool >= 0)
    {
      PlayingIsIssuable();
      ghost var start := Standings(players, board.armies);
      rounds := IssueRounds(|board.owner|);
      ghost var now := Standings(players, board.armies);
      forall j | 0 <= j < |players|
        ensures old(players[j].ordersList.orders) <= players[j].ordersList.orders
        ensures |players[j].ordersList.orders| <= |old(players[j].ordersList.orders)| + |rounds|
        ensures |rounds| < MaxIssueRounds ==> !CanIssue(players[j], board.armies)
        ensures players[j].reinforcementPool <= old(players[j].reinforcementPool)
        ensures old(players[j].reinforcementPool) >= 0 ==> players[j].reinforcementPool >= 0
      {
        assert start[j].orders == old(players[j].ordersList.orders);
        assert start[j].pool == old(players[j].reinforcementPool);
        assert now[j] == StandingOf(players[j], board.armies);
      }
      IssuableIsPlaying(|board.owner|);
    }
  
    // -------------------------------------------------------------------
    // executeOrdersPhase

    /**
     * What the execute phase relies on and keeps, for a board of `n`
     * territories: a valid board whose two ownership records agree, distinct
     * players and lists, and every waiting order fitting the board.
     */
    ghost predicate Runnable(n: nat)
      reads this, board, Roster()`territories, Queues()
    {
      board.Valid() && Consistent(board, Roster()) && |board.owner| == n && SeatsApart() && QueuesFit(n)
    }

    /** A game under way is runnable. */
    lemma PlayingIsRunnable()
      requires Playing()
      ensures Runnable(|board.owner|)
    {
      forall a, b | 0 <= a < b < |players|
        ensures players[a] != players[b] && players[a].ordersList != players[b].ordersList
      {
        assert players[a].id < players[b].id;
      }
      forall j | 0 <= j < |players|
        ensures OrdersFit(players[j], players[j].ordersList.orders, |board.owner|)
      {
        assert players[j] in players;
      }
    }

    /** A runnable engine in a valid state is a game under way. */
    lemma RunnableIsPlaying(n: nat)
      requires Valid() && Runnable(n)
      ensures Playing()
    {
      forall p | p in players
        ensures OrdersFit(p, p.ordersList.orders, |board.owner|)
      {
        var j :| 0 <= j < |players| && players[j] == p;
      }
    }

    /**
     * `order->execute()` followed by `remove(at)` on the list of player `i`
     * (Game_Engine/GameEngine.cpp:392-393, 411-412): the order leaves that
     * list, the other lists stay as they were, the world changes as
     * `Orders.Step` says for that order, and the engine stays runnable.
     */
    method RunAt(p: Player, i: nat, at: nat, ghost n: nat)
      requires Runnable(n) && i < |players| && players[i] == p && at < |p.ordersList.orders|
      modifies board, turn, Roster()`territories, Roster()`cards, p.ordersList
      ensures Runnable(n)
      ensures p.ordersList.orders == Removed(old(p.ordersList.orders), at)
      ensures Contents(players) == old(Contents(players))[i := p.ordersList.orders]
      ensures World() == Orders.Step(old(p.ordersList.orders[at]), old(World()))
    {
      var order := p.ordersList.orders[at];
      RunOrder(order, n);
      RemoveAt(p, i, at, n);
    }

    /**
     * `order->execute()` in the execute phase (Game_Engine/GameEngine.cpp:392, 411):
     * the world changes as `Orders.Step` says, the engine stays runnable
     * and the orders lists are not touched.
     */
    method RunOrder(order: Order, ghost n: nat)
      requires Runnable(n) && order.RefersWithin(n) && (order.issuer == null || order.issuer in Seats())
      modifies board, turn, Roster()`territories, Roster()`cards
      ensures Runnable(n) && unchanged(Queues())
      ensures World() == Orders.Step(order, old(World()))
    {
      var _, _ := Orders.Execute(order, board, turn, Roster());
    }

    /**
     * `remove(at)` in the execute phase (Game_Engine/GameEngine.cpp:393, 412):
     * the order leaves the list of player `i`, the other lists stay as they
     * were, and the engine stays runnable.
     */
    method RemoveAt(p: Player, i: nat, at: nat, ghost n: nat)
      requires Runnable(n) && i < |players| && players[i] == p && at < |p.ordersList.orders|
      modifies p.ordersList
      ensures Runnable(n) && unchanged(board, turn) && unchanged(Roster())
      ensures p.ordersList.orders == Removed(old(p.ordersList.orders), at)
      ensures Contents(players) == old(Contents(players))[i := p.ordersList.orders]
    {
      OrdersFitRemoved(p, p.ordersList.orders, at, n);
      var _ := p.ordersList.Remove(at);
      forall j | 0 <= j < |players| && j != i
        ensures players[j].ordersList != p.ordersList
      {
        if j < i {} else {}
      }
    }

    /**
     * One step of the Deploy loop on the list of player `i`
     * (Game_Engine/GameEngine.cpp:389-397): a Deploy order at index `at`
     * runs and leaves the list; any other order stays and the index moves
     * past it.
     */
    method DeployStep(p: Player, i: nat, at: nat, ghost n: nat) returns (at': nat, ghost ran: seq<Order>)
      requires Runnable(n) && i < |players| && players[i] == p && at < |p.ordersList.orders|
      modifies board, turn, Roster()`territories, Roster()`cards, p.ordersList
      ensures Runnable(n)
      ensures old(p.ordersList.orders[at]).Deploy? ==>
        at' == at && ran == [old(p.ordersList.orders[at])] && p.ordersList.orders == Removed(old(p.ordersList.orders), at)
      ensures !old(p.ordersList.orders[at]).Deploy? ==>
        at' == at + 1 && ran == [] && p.ordersList.orders == old(p.ordersList.orders)
      ensures Contents(players) == old(Contents(players))[i := p.ordersList.orders]
      ensures World() == Orders.Steps(ran, old(World()))
    {
      var order := p.ordersList.orders[at];
      if order.Deploy? {
        RunAt(p, i, at, n);
        at', ran := at, [order];
        assert ran[..0] == [];
      } else {
        at', ran := at + 1, [];
      }
    }

    /** `DeployStep` as a step of `RunDeploys`: the loop has looked at one more order of `s`. */
    method DeployLoopTurn(p: Player, i: nat, at: nat, ghost s: seq<Order>, ghost k: nat, ghost ran: seq<Order>,
                          ghost c: seq<seq<Order>>, ghost w: Orders.World, ghost n: nat)
      returns (at': nat, ghost ran': seq<Order>)
      requires Runnable(n) && i < |players| && players[i] == p && |c| == |players|
      requires Contents(players) == c[i := p.ordersList.orders]
      requires DeployLoopSoFar(s, k, p.ordersList.orders, at, ran) && at < |p.ordersList.orders|
      requires World() == Orders.Steps(ran, w)
      modifies board, turn, Roster()`territories, Roster()`cards, p.ordersList
      ensures Runnable(n) && Contents(players) == c[i := p.ordersList.orders]
      ensures DeployLoopSoFar(s, k + 1, p.ordersList.orders, at', ran')
      ensures World() == Orders.Steps(ran', w)
    {
      DeployLoopStep(s, k, p.ordersList.orders, at, ran);
      ghost var more;
      at', more := DeployStep(p, i, at, n);
      ran' := ran + more;
      Orders.StepsAppend(ran, more, w);
    }

    /**
     * The first loop of `executeOrdersPhase` on the list of player `i`
     * (Game_Engine/GameEngine.cpp:387-398): its Deploy orders run in list
     * order and leave the list; the other orders stay, in their order, and
     * the other lists are not touched; the world changes as those orders,
     * run in turn, say.
     */
    method RunDeploys(p: Player, i: nat, ghost n: nat) returns (ghost ran: seq<Order>)
      requires Runnable(n) && i < |players| && players[i] == p
      modifies board, turn, Roster()`territories, Roster()`cards, p.ordersList
      ensures Runnable(n)
      ensures ran == Deploys(old(Contents(players))[i])
      ensures Contents(players) == old(Contents(players))[i := NonDeploys(old(Contents(players))[i])]
      ensures World() == Orders.Steps(ran, old(World()))
    {
      ghost var w := World();
      ghost var c := Contents(players);
      ghost var s := p.ordersList.orders;
      assert c[i] == s;
      ghost var k: nat := 0;
      var at: nat := 0;
      ran := [];
      while at < |p.ordersList.orders|
        invariant Runnable(n) && Contents(players) == c[i := p.ordersList.orders]
        invariant DeployLoopSoFar(s, k, p.ordersList.orders, at, ran)
        invariant World() == Orders.Steps(ran, w)
        decreases |s| - k
      {
        at, ran := DeployLoopTurn(p, i, at, s, k, ran, c, w, n);
        k := k + 1;
      }
      DeployLoopDone(s, k, p.ordersList.orders, at, ran);
    }

    /** The first loop of the execute phase after `i` players: the state `RunDeployPass` keeps. */
    ghost predicate DeployPassAt(start: seq<seq<Order>>, i: nat, ran: seq<Order>, w: Orders.World, n: nat)
      reads this, board, turn, Roster(), Queues()
    {
      Runnable(n) && DeployPassSoFar(start, i, Contents(players), ran) && World() == Orders.Steps(ran, w)
    }

    /** The Deploy orders of player `i` as a step of `RunDeployPass`: `RunDeploys`, and the pass so far grows by that player. */
    method DeployTurn(i: nat, ghost start: seq<seq<Order>>, ghost ran: seq<Order>, ghost w: Orders.World, ghost n: nat)
      returns (ghost ran': seq<Order>)
      requires i < |players| && DeployPassAt(start, i, ran, w, n)
      modifies board, turn, Roster()`territories, Roster()`cards, Queues()
      ensures DeployPassAt(start, i + 1, ran', w, n)
    {
      ghost var now := Contents(players);
      assert players[i].ordersList in Queues();
      ghost var more := RunDeploys(players[i], i, n);
      DeployPassStep(start, i, now, ran, more);
      ran' := ran + more;
      Orders.StepsAppend(ran, more, w);
    }

    /**
     * The first loop of `executeOrdersPhase` (Game_Engine/GameEngine.cpp:385-399):
     * player by player, the Deploy orders run (`DeployPass`) and every list
     * keeps only its other orders (`WithoutDeploys`); the world changes as
     * the Deploy orders, run in that order, say.
     */
    method RunDeployPass(ghost n: nat) returns (ghost ran: seq<Order>)
      requires Runnable(n)
      modifies board, turn, Roster()`territories, Roster()`cards, Queues()
      ensures Runnable(n)
      ensures ran == DeployPass(old(Contents(players)))
      ensures Contents(players) == WithoutDeploys(old(Contents(players)))
      ensures World() == Orders.Steps(ran, old(World()))
    {
      ghost var w := World();
      ghost var start := Contents(players);
      ran := [];
      for i := 0 to |players|
        invariant DeployPassAt(start, i, ran, w, n)
      {
        ran := DeployTurn(i, start, ran, w, n);
      }
      DeployPassDone(start, Contents(players), ran);
    }

    /**
     * The turn of player `i` in a round of the second loop of
     * `executeOrdersPhase` (Game_Engine/GameEngine.cpp:407-414): when its
     * list is not empty, the first order runs (as `Orders.Step` says) and
     * leaves it; the other lists are not touched.
     */
    method RunHead(p: Player, i: nat, ghost n: nat) returns (ran: bool)
      requires Runnable(n) && i < |players| && players[i] == p
      modifies board, turn, Roster()`territories, Roster()`cards, p.ordersList
      ensures Runnable(n)
      ensures ran <==> old(Contents(players))[i] != []
      ensures ran ==> Contents(players) == old(Contents(players))[i := old(Contents(players))[i][1..]]
      ensures !ran ==> Contents(players) == old(Contents(players))
      ensures ran ==> World() == Orders.Step(old(Contents(players))[i][0], old(World()))
      ensures !ran ==> World() == old(World())
    {
      if p.ordersList.orders != [] {
        RemovedFirst(p.ordersList.orders);
        RunAt(p, i, 0, n);
        ran := true;
      } else {
        ran := false;
      }
    }

    /** A round of the second loop after `i` players: the state `RunRound` keeps. */
    ghost predicate RoundAt(start: seq<seq<Order>>, i: nat, ran: seq<Order>, hasOrders: bool, w: Orders.World, n: nat)
      reads this, board, turn, Roster(), Queues()
    {
      Runnable(n) && RunRoundSoFar(start, i, Contents(players), ran, hasOrders) && World() == Orders.Steps(ran, w)
    }

    /** The turn of player `i` as a step of `RunRound`: `RunHead`, and the round so far grows by that player. */
    method RoundTurn(i: nat, ghost start: seq<seq<Order>>, ghost ran: seq<Order>, hasOrders: bool,
                     ghost w: Orders.World, ghost n: nat)
      returns (hasOrders': bool, ghost ran': seq<Order>)
      requires i < |players| && RoundAt(start, i, ran, hasOrders, w, n)
      modifies board, turn, Roster()`territories, Roster()`cards, Queues()
      ensures RoundAt(start, i + 1, ran', hasOrders', w, n)
    {
      ghost var now := Contents(players);
      assert players[i].ordersList in Queues();
      RunRoundStep(start, i, now, ran, hasOrders);
      var ranOne := RunHead(players[i], i, n);
      hasOrders' := hasOrders || ranOne;
      ran' := if ranOne then ran + [now[i][0]] else ran;
      if ranOne {
        assert ran'[..|ran'| - 1] == ran;
      }
    }

    /**
     * One round of the second loop of `executeOrdersPhase`
     * (Game_Engine/GameEngine.cpp:405-415): the first order of every
     * non-empty list runs and leaves it (`Heads`, `Tails`), the world
     * changing as those orders, run in turn, say; the round reports orders
     * exactly when some list had one.
     */
    method RunRound(ghost n: nat) returns (hasOrders: bool, ghost ran: seq<Order>)
      requires Runnable(n)
      modifies board, turn, Roster()`territories, Roster()`cards, Queues()
      ensures Runnable(n)
      ensures ran == Heads(old(Contents(players)))
      ensures Contents(players) == Tails(old(Contents(players)))
      ensures hasOrders <==> !AllEmpty(old(Contents(players)))
      ensures World() == Orders.Steps(ran, old(World()))
    {
      ghost var w := World();
      ghost var start := Contents(players);
      hasOrders, ran := false, [];
      for i := 0 to |players|
        invariant RoundAt(start, i, ran, hasOrders, w, n)
      {
        hasOrders, ran := RoundTurn(i, start, ran, hasOrders, w, n);
      }
      RunRoundDone(start, Contents(players), ran, hasOrders);
    }

    /** The second loop after the rounds that ran `ran`: the state `RunAll` keeps. */
    ghost predicate RobinAt(deploys: seq<Order>, rest: seq<seq<Order>>, ran: seq<Order>, hasOrders: bool, w: Orders.World, n: nat)
      reads this, board, turn, Roster(), Queues()
    {
      Runnable(n) && RobinSoFar(deploys, rest, Contents(players), ran, hasOrders) && World() == Orders.Steps(ran, w)
    }

    /**
     * The two loops of `executeOrdersPhase` (Game_Engine/GameEngine.cpp:385-416):
     * first every Deploy order, player by player; then the other orders
     * round-robin, one per player and round, until every list is empty.
     * The orders run are exactly `DeployPass` followed by the `RoundRobin`
     * of what it left, and the world changes as they, run in that order, say.
     */
    method RunAll(ghost n: nat) returns (ghost ran: seq<Order>)
      requires Runnable(n)
      modifies board, turn, Roster()`territories, Roster()`cards, Queues()
      ensures Runnable(n)
      ensures AllEmpty(Contents(players))
      ensures ran == DeployPass(old(Contents(players))) + RoundRobin(WithoutDeploys(old(Contents(players))))
      ensures World() == Orders.Steps(ran, old(World()))
    {
      ghost var w := World();
      ghost var start := Contents(players);
      ran := RunDeployPass(n);
      ghost var rest := Contents(players);
      var hasOrders := true;
      while hasOrders
        invariant RobinAt(DeployPass(start), rest, ran, hasOrders, w, n)
        decreases Total(Contents(players)), if hasOrders then 1 else 0
      {
        ghost var now := Contents(players);
        ghost var round;
        hasOrders, round := RunRound(n);
        RobinStep(DeployPass(start), rest, now, ran, hasOrders);
        Orders.StepsAppend(ran, round, w);
        ran := ran + round;
      }
    }

    /**
     * `executeOrdersPhase` (Game_Engine/GameEngine.cpp:381-417): `RunAll`
     * in a game under way, which it leaves under way with every list empty;
     * the world changes as the orders run, in the order run, say, and the
     * reinforcement pools are not touched.
     */
    method ExecuteOrdersPhase() returns (ghost ran: seq<Order>)
      requires Playing()
      modifies board, turn, Roster()`territories, Roster()`cards, Queues()
      ensures Playing()
      ensures forall j :: 0 <= j < |players| ==> players[j].ordersList.orders == []
      ensures ran == DeployPass(old(Contents(players))) + RoundRobin(WithoutDeploys(old(Contents(players))))
      ensures World() == Orders.Steps(ran, old(World()))
    {
      PlayingIsRunnable();
      ran := RunAll(|board.owner|);
      assert forall j :: 0 <= j < |players| ==> Contents(players)[j] == players[j].ordersList.orders;
      RunnableIsPlaying(|board.owner|);
    }

    /** `ExecuteOrdersPhase`, which leaves the reinforcement pools as they were. */
    method ExecuteKeepingPools() returns (ghost ran: seq<Order>)
      requires Playing()
      modifies board, turn, Roster()`territories, Roster()`cards, Queues()
      ensures Playing()
      ensures forall j :: 0 <= j < |players| ==> players[j].ordersList.orders == []
      ensures ran == DeployPass(old(Contents(players))) + RoundRobin(WithoutDeploys(old(Contents(players))))
      ensures World() == Orders.Steps(ran, old(World()))
      ensures PoolsOf(players) == old(PoolsOf(players))
    {
      ran := ExecuteOrdersPhase();
    }

    // -------------------------------------------------------------------
    // mainGameLoop

    /**
     * The deal of `mainGameLoop` (Game_Engine/GameEngine.cpp:428-434) on a
     * board nobody owns yet: territory `t` goes to player `t mod n` with 5
     * armies and joins the end of that player's list, so each player holds
     * the territories `Dealt` names.
     */
    method Deal()
      requires board.Valid() && |players| > 0 && SeatsApart()
      requires forall t :: 0 <= t < |board.owner| ==> board.owner[t] == null
      requires forall j :: 0 <= j < |players| ==> players[j].territories == []
      modifies board`owner, board`armies, Seats()`territories
      ensures board.Valid()
      ensures forall t :: 0 <= t < |board.owner| ==>
        board.owner[t] == players[t % |players|] && board.armies[t] == StartingArmies
      ensures forall j :: 0 <= j < |players| ==> players[j].territories == Dealt(j, |players|, |board.owner|)
    {
      var n := |players|;
      for t := 0 to |board.owner|
        invariant board.Valid()
        invariant forall u :: 0 <= u < t ==> board.owner[u] == players[u % n] && board.armies[u] == StartingArmies
        invariant forall u :: t <= u < |board.owner| ==> board.owner[u] == null
        invariant forall j :: 0 <= j < n ==> players[j].territories == Dealt(j, n, t)
      {
        var owner := players[t % n];
        board.owner := board.owner[t := owner];
        board.armies := board.armies[t := StartingArmies];
        owner.AddTerritory(t);
      }
    }

    /** After the deal the two ownership records agree: the game is under way. */
    lemma DealtIsPlaying()
      requires Valid() && |players| > 0 && SeatsApart() && turn.neutral.territories == []
      requires QueuesWellFormed(players, |board.owner|)
      requires forall t :: 0 <= t < |board.owner| ==> board.owner[t] == players[t % |players|]
      requires forall j :: 0 <= j < |players| ==> players[j].territories == Dealt(j, |players|, |board.owner|)
      ensures Playing()
    {
      var n := |players|;
      forall p | p in Roster()
        ensures Agrees(board.owner, p, p.territories)
      {
        if p != turn.neutral {
          var j :| 0 <= j < n && players[j] == p;
          DealAgrees(board.owner, players, j);
        } else {
          assert p !in players;
        }
      }
    }

    /**
     * The deal of `mainGameLoop` (Game_Engine/GameEngine.cpp:428-434) in a
     * game whose board nobody owns yet: `Deal`, after which the game is
     * under way.
     */
    method Distribute()
      requires Playing() && |players| > 0
      requires forall t :: 0 <= t < |board.owner| ==> board.owner[t] == null
      requires forall j :: 0 <= j < |players| ==> players[j].territories == []
      modifies board`owner, board`armies, Seats()`territories
      ensures Playing()
      ensures forall t :: 0 <= t < |board.owner| ==>
        board.owner[t] == players[t % |players|] && board.armies[t] == StartingArmies
      ensures forall j :: 0 <= j < |players| ==> players[j].territories == Dealt(j, |players|, |board.owner|)
    {
      PlayingIsRunnable();
      assert turn.neutral !in players;
      UnownedHoldsNothing(board.owner, turn.neutral, turn.neutral.territories);
      Deal();
      DealtIsPlaying();
    }

    /**
     * Elimination in a game under way (Game_Engine/GameEngine.cpp:449-458):
     * the players `EraseEliminated` keeps stay, and the game is still under way.
     */
    method EliminatePlayers()
      requires Playing()
      modifies this`players
      ensures Playing()
      ensures players == old(Survivors(players))
      ensures Seats() <= old(Seats()) && Queues() <= old(Queues())
    {
      players := EraseEliminatedKeeping(players, board, turn.neutral, nextId);
    }

    /** `EliminatePlayers`, which leaves the pools and the orders lists as they were. */
    method EliminateKeeping()
      requires Playing()
      modifies this`players
      ensures Playing()
      ensures players == Survivors(old(players))
      ensures Seats() <= old(Seats()) && Queues() <= old(Queues())
      ensures PoolsOf(old(players)) == old(PoolsOf(players))
      ensures Contents(old(players)) == old(Contents(players))
    {
      EliminatePlayers();
    }

    /**
     * `EliminatePlayers`, which leaves the board, the players' lists and
     * hands, the turn's sets, the pools and the orders lists as they were.
     */
    method Eliminate()
      requires Playing()
      modifies this`players
      ensures Playing()
      ensures players == Survivors(old(players))
      ensures Seats() <= old(Seats()) && Queues() <= old(Queues())
      ensures Orders.WorldOf(board, turn, old(Roster())) == old(World())
      ensures PoolsOf(old(players)) == old(PoolsOf(players))
      ensures Contents(old(players)) == old(Contents(players))
    {
      ghost var roster := Roster();
      ghost var lists, hands := Orders.ListsOf(roster), Orders.HandsOf(roster);
      EliminateKeeping();
      Orders.KeptLists(lists, roster);
      Orders.KeptHands(hands, roster);
    }

    /**
     * One turn of `mainGameLoop` (Game_Engine/GameEngine.cpp:441-458): the
     * reinforcement, issue and execute phases, then elimination.
     *  - Each pool first grows by `Reinforcements` of the player's
     *    territories; issuing then only spends it.
     *  - Issuing extends the lists to `queued` and changes, of the world,
     *    only the hands (`start` is the world when execution begins).
     *  - Execution runs `ran`, the Deploy pass and then the round-robin of
     *    `queued`, and empties every list; the board, the lists, the hands
     *    and the turn's sets are then as `Orders.Steps(ran, start)` says.
     *  - Exactly the players left without territories leave, the others
     *    keep their order, and the game stays under way.
     */
    method PlayTurn() returns (ghost queued: seq<seq<Order>>, ghost start: Orders.World, ghost ran: seq<Order>)
      requires Playing()
      modifies this`players, board, turn, Roster(), Queues()
      ensures Playing() && board == old(board)
      ensures players == Survivors(old(players))
      ensures Seats() <= old(Seats()) && Queues() <= old(Queues())
      ensures Reinforced(old(PoolsOf(players)), old(HoldingsOf(players)), PoolsOf(old(players)))
      ensures |queued| == |old(players)|
      ensures forall j :: 0 <= j < |old(players)| ==> old(Contents(players))[j] <= queued[j]
      ensures start == old(World()).(cards := start.cards)
      ensures ran == DeployPass(queued) + RoundRobin(WithoutDeploys(queued))
      ensures forall j :: 0 <= j < |old(players)| ==> old(players)[j].ordersList.orders == []
      ensures Orders.WorldOf(board, turn, old(Roster())) == Orders.Steps(ran, start)
    {
      queued, start := ReinforceAndIssue();
      ran := ExecuteAndEliminate();
    }

    /**
     * The execute phase and elimination of a turn
     * (Game_Engine/GameEngine.cpp:447-458): `ExecuteOrdersPhase`, then
     * `EliminatePlayers`, which leaves the world as execution left it.
     */
    method ExecuteAndEliminate() returns (ghost ran: seq<Order>)
      requires Playing()
      modifies this`players, board, turn, Roster()`territories, Roster()`cards, Queues()
      ensures Playing() && board == old(board)
      ensures players == Survivors(old(players))
      ensures Seats() <= old(Seats()) && Queues() <= old(Queues())
      ensures ran == DeployPass(old(Contents(players))) + RoundRobin(WithoutDeploys(old(Contents(players))))
      ensures forall j :: 0 <= j < |old(players)| ==> old(players)[j].ordersList.orders == []
      ensures Orders.WorldOf(board, turn, old(Roster())) == Orders.Steps(ran, old(World()))
      ensures PoolsOf(old(players)) == old(PoolsOf(players))
    {
      ran := ExecuteKeepingPools();
      Eliminate();
    }

    /**
     * The reinforcement and issue phases of a turn
     * (Game_Engine/GameEngine.cpp:443-445): each pool grows by
     * `Reinforcements` of the player's territories and issuing then only
     * spends it; the lists only grow; of the world, only the hands change.
     */
    method ReinforceAndIssue() returns (ghost queued: seq<seq<Order>>, ghost start: Orders.World)
      requires Playing()
      modifies Seats()`reinforcementPool, Seats()`cards, Queues()
      ensures Playing()
      ensures Reinforced(old(PoolsOf(players)), old(HoldingsOf(players)), PoolsOf(players))
      ensures queued == Contents(players) && |queued| == |players|
      ensures forall j :: 0 <= j < |players| ==> old(Contents(players))[j] <= queued[j]
      ensures start == World() && start == old(World()).(cards := start.cards)
    {
      ghost var before, held := PoolsOf(players), HoldingsOf(players);
      ReinforcePools();
      ghost var mid := PoolsOf(players);
      queued, start := IssueKeeping();
      ReinforcedThenSpent(before, held, mid, PoolsOf(players));
    }

    /** `ReinforcementPhase` in a game under way, which it leaves under way, the world and the lists untouched. */
    method ReinforcePools()
      requires Playing()
      modifies Seats()`reinforcementPool
      ensures Playing()
      ensures PoolsGrown(old(PoolsOf(players)), old(HoldingsOf(players)), PoolsOf(players))
      ensures World() == old(World()) && Contents(players) == old(Contents(players))
    {
      ReinforcementPhase();
      Orders.KeptRecords(old(World()), Roster());
    }

    /** `IssueOrdersPhase`, seen as `ReinforceAndIssue` needs it: pools only spent, lists only extended, only the hands of the world changed. */
    method IssueKeeping() returns (ghost queued: seq<seq<Order>>, ghost start: Orders.World)
      requires Playing()
      modifies Seats()`reinforcementPool, Seats()`cards, Queues()
      ensures Playing()
      ensures Spent(old(PoolsOf(players)), PoolsOf(players))
      ensures queued == Contents(players) && |queued| == |players|
      ensures forall j :: 0 <= j < |players| ==> old(Contents(players))[j] <= queued[j]
      ensures start == World() && start == old(World()).(cards := start.cards)
    {
      ghost var lists := Orders.ListsOf(Roster());
      ghost var rounds := IssueOrdersPhase();
      Orders.KeptLists(lists, Roster());
      queued, start := Contents(players), World();
    }

    /**
     * The second win test of `mainGameLoop` (Game_Engine/GameEngine.cpp:469-476):
     * the first player whose list holds `total` territories, if any.
     */
    method FindOwnerOfAll(total: nat) returns (found: Option<nat>)
      requires Playing()
      ensures Playing()
      ensures found.Some? ==> found.value < |players| && |players[found.value].territories| == total
      ensures found.Some? ==> forall j :: 0 <= j < found.value ==> |players[j].territories| != total
      ensures found.None? ==> forall j :: 0 <= j < |players| ==> |players[j].territories| != total
    {
      for i := 0 to |players|
        invariant forall j :: 0 <= j < i ==> |players[j].territories| != total
      {
        if |players[i].territories| == total {
          return Some(i);
        }
      }
      return None;
    }

    /**
     * The win tests closing a turn of `mainGameLoop`
     * (Game_Engine/GameEngine.cpp:460-476): one player left wins; otherwise
     * the first player listing all `total` territories wins, and then owns
     * every territory of the board.
     */
    method CheckWin(total: nat) returns (won: Option<Outcome>)
      requires Playing() && |board.owner| == total
      ensures Playing()
      ensures won.None? ==> |players| != 1 && forall j :: 0 <= j < |players| ==> |players[j].territories| != total
      ensures won.Some? ==> won.value.LastStanding? || won.value.OwnsAll?
      ensures won.Some? && won.value.LastStanding? ==> |players| == 1 && players == [won.value.winner]
      ensures won.Some? && won.value.OwnsAll? ==>
        && |players| != 1
        && (exists j :: 0 <= j < |players| && players[j] == won.value.winner &&
              forall k :: 0 <= k < j ==> |players[k].territories| != total)
        && forall t :: 0 <= t < |board.owner| ==> board.owner[t] == won.value.winner
    {
      if |players| == 1 {
        return Some(LastStanding(players[0]));
      }
      var found := FindOwnerOfAll(total);
      if found.Some? {
        var winner := players[found.value];
        OwnsAllMeans(board, Roster(), winner);
        return Some(OwnsAll(winner));
      }
      return None;
    }

    /**
     * One pass of the loop of `mainGameLoop` before its win tests
     * (Game_Engine/GameEngine.cpp:441-458): `PlayTurn`, seen from the loop
     * as a step that keeps the game under way on the same board, with
     * players and their lists only leaving.
     */
    method NextTurn()
      requires Playing()
      modifies this`players, board, turn, Roster(), Queues()
      ensures Playing() && board == old(board)
      ensures Seats() <= old(Seats()) && Queues() <= old(Queues())
    {
      ghost var queued, start, ran := PlayTurn();
    }

    /**
     * The turns of `mainGameLoop` (Game_Engine/GameEngine.cpp:437-474): turn
     * after turn until one player is left, one player owns every territory,
     * or 10 turns have been played. Players only ever leave, and the game
     * stays under way.
     */
    method PlayTurns() returns (outcome: Outcome, turns: nat)
      requires Playing()
      modifies this`players, board, turn, Roster(), Queues()
      ensures Playing()
      ensures outcome != NotStarted && 1 <= turns <= MaxTurns
      ensures Seats() <= old(Seats())
      ensures outcome.LastStanding? ==> players == [outcome.winner]
      ensures outcome.OwnsAll? ==>
        && |players| != 1
        && (exists j :: 0 <= j < |players| && players[j] == outcome.winner &&
              forall k :: 0 <= k < j ==> |players[k].territories| != |board.owner|)
        && forall t :: 0 <= t < |board.owner| ==> board.owner[t] == outcome.winner
      ensures outcome == TurnLimit ==>
        && turns == MaxTurns && |players| != 1
        && forall j :: 0 <= j < |players| ==> |players[j].territories| != |board.owner|
    {
      var total := |board.owner|;
      turns := 0;
      while turns < MaxTurns
        invariant Playing() && turns <= MaxTurns && board == old(board) && |board.owner| == total
        invariant Seats() <= old(Seats()) && Queues() <= old(Queues())
        invariant turns > 0 ==> |players| != 1 && forall j :: 0 <= j < |players| ==> |players[j].territories| != total
        decreases MaxTurns - turns
      {
        turns := turns + 1;
        NextTurn();
        var won := CheckWin(total);
        if won.Some? {
          return won.value, turns;
        }
      }
      return TurnLimit, turns;
    }

    /**
     * `mainGameLoop` (Game_Engine/GameEngine.cpp:418-477). Without a map or
     * with fewer than 2 players nothing happens. Otherwise the territories
     * are dealt (`Distribute`) and the turns are played (`PlayTurns`).
     */
    method MainGameLoop() returns (outcome: Outcome, turns: nat)
      requires Playing()
      requires forall t :: 0 <= t < |board.owner| ==> board.owner[t] == null
      requires forall j :: 0 <= j < |players| ==> players[j].territories == []
      modifies this`players, board, turn, Roster(), Queues()
      ensures Playing()
      ensures outcome == NotStarted <==> gameMap.None? || |old(players)| < 2
      ensures outcome == NotStarted ==> turns == 0 && players == old(players)
      ensures outcome != NotStarted ==> 1 <= turns <= MaxTurns
      ensures Seats() <= old(Seats())
      ensures outcome.LastStanding? ==> players == [outcome.winner]
      ensures outcome.OwnsAll? ==>
        && |players| != 1 && outcome.winner in players
        && forall t :: 0 <= t < |board.owner| ==> board.owner[t] == outcome.winner
      ensures outcome == TurnLimit ==>
        && turns == MaxTurns && |players| != 1
        && forall j :: 0 <= j < |players| ==> |players[j].territories| != |board.owner|
    {
      if gameMap.None? || |players| < 2 {
        return NotStarted, 0;
      }
      Distribute();
      outcome, turns := PlayTurns();
    }
  }
}
