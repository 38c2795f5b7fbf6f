/**
 * `validate` and `execute` of the six orders (Orders/Orders.cpp:217-850).
 *
 * `validate` is a function returning the first failed check (each `Verdict`
 * stands for one of the source's effect messages). `execute` is a method
 * that re-validates, changes nothing when the order is invalid, and
 * otherwise updates the board, the players' lists and the turn-scoped sets
 * step by step. It returns `executed` and an `Effect` tag in place of the
 * order's `executed` flag and effect text. Every execution keeps the two
 * ownership records `Consistent`.
 */
module Orders {
  import opened Wrappers
  import opened Game

  /** The outcome of `validate`; every value but `Accepted` stands for one rejection message. */
  datatype Verdict =
    | Accepted
    | NoIssuer              // "no issuing player" / "no issuer"
    | NoTerritory           // "no territory specified"
    | NoTarget              // "no target"
    | NonPositiveArmies     // "non-positive armies"
    | NotOwnedByIssuer      // Deploy and Blockade: the issuer does not own the territory
    | MissingEndpoint       // "missing source or destination"
    | SameEndpoints         // "source and destination are the same"
    | SourceNotOwned        // "source territory not owned by issuer"
    | NotAdjacent           // "territories are not adjacent"
    | NotEnoughArmies       // "not enough armies in source"
    | NegotiationInEffect   // "negotiation in effect"
    | TargetNotEnemy        // "target not owned by an enemy"
    | NoAdjacentTerritory   // "no adjacent territory"
    | EndpointNotOwned      // "source or destination not owned by issuer"
    | NoPlayer              // "no player"
    | SelfNegotiation       // "cannot negotiate with self"

  /** What an execution did, in place of the effect text. */
  datatype Effect =
    | Rejected(reason: Verdict)
    | Deployed(territory: TerritoryId, before: nat, after: nat)
    | Moved(count: nat)
    | Conquered(territory: TerritoryId, occupying: nat)
    | Repelled(defendersLeft: nat, attackersReturned: nat)
    | Bombed(before: nat, after: nat)
    | Blockaded(before: nat, after: nat)
    | Airlifted(count: nat)
    | Negotiated

  // ---------------------------------------------------------------------
  // What an order reads and changes, as values

  /**
   * The part of the game an order reads or changes: the board's adjacency,
   * owners and armies, each player's list of territories and hand of
   * cards, the turn's negotiated pairs and granted players, and the
   * neutral player.
   */
  datatype World = World(
    adjacents: seq<seq<TerritoryId>>,
    owner: seq<Player?>,
    armies: seq<nat>,
    lists: map<Player, seq<TerritoryId>>,
    cards: map<Player, nat>,
    negotiated: set<(nat, nat)>,
    granted: set<Player>,
    neutral: Player)

  /** The world of board `b`, turn state `ts` and players `ps`. */
  ghost function WorldOf(b: Board, ts: TurnState, ps: set<Player>): World
    reads b, ts, ps
  {
    World(b.adjacents, b.owner, b.armies, ListsOf(ps), HandsOf(ps), ts.negotiated, ts.granted, ts.neutral)
  }

  /** Each player's list of territories. */
  ghost function ListsOf(ps: set<Player>): (r: map<Player, seq<TerritoryId>>)
    reads ps
    ensures r.Keys == ps && forall p :: p in ps ==> r[p] == p.territories
  {
    map p | p in ps :: p.territories
  }

  /** Each player's hand of cards. */
  ghost function HandsOf(ps: set<Player>): (r: map<Player, nat>)
    reads ps
    ensures r.Keys == ps && forall p :: p in ps ==> r[p] == p.cards
  {
    map p | p in ps :: p.cards
  }

  /** The order fits the world: its territories exist, and its issuer and the neutral player have records. */
  predicate Fits(o: Order, w: World)
  {
    && |w.owner| == |w.adjacents| && |w.armies| == |w.adjacents|
    && o.RefersWithin(|w.owner|)
    && w.neutral in w.lists
    && (o.issuer != null ==> o.issuer in w.lists && o.issuer in w.cards)
  }

  // ---------------------------------------------------------------------
  // validate

  /** `Deploy::validate` (Orders/Orders.cpp:231-247). */
  function ValidateDeploy(o: Order, owner: seq<Player?>): (v: Verdict)
    requires o.Deploy? && o.RefersWithin(|owner|)
    ensures v == Accepted <==>
      o.issuer != null && o.territory.Some? && o.armies > 0 && owner[o.territory.value] == o.issuer
    ensures o.issuer == null ==> v == NoIssuer
  {
    if o.issuer == null then NoIssuer
    else if o.territory.None? then NoTerritory
    else if o.armies <= 0 then NonPositiveArmies
    else if owner[o.territory.value] != o.issuer then NotOwnedByIssuer
    else Accepted
  }

  /** The Advance check that a truce is in effect against the destination's owner (Orders/Orders.cpp:369-373). */
  predicate TruceBlocks(negotiated: set<(nat, nat)>, issuer: Player?, defender: Player?)
  {
    defender != null && defender != issuer && HasNegotiation(negotiated, issuer, defender)
  }

  /** `Advance::validate` (Orders/Orders.cpp:339-374). */
  function ValidateAdvance(o: Order, adjacents: seq<seq<TerritoryId>>, owner: seq<Player?>, armies: seq<nat>,
                           negotiated: set<(nat, nat)>): (v: Verdict)
    requires o.Advance? && |owner| == |adjacents| && |armies| == |adjacents| && o.RefersWithin(|owner|)
    ensures v == Accepted <==>
      && o.issuer != null && o.source.Some? && o.destination.Some?
      && o.source.value != o.destination.value
      && 0 < o.armies <= armies[o.source.value]
      && owner[o.source.value] == o.issuer
      && IsAdjacent(adjacents, o.source.value, o.destination.value)
      && !TruceBlocks(negotiated, o.issuer, owner[o.destination.value])
  {
    if o.issuer == null then NoIssuer
    else if o.source.None? || o.destination.None? then MissingEndpoint
    else if o.source.value == o.destination.value then SameEndpoints
    else if o.armies <= 0 then NonPositiveArmies
    else if owner[o.source.value] != o.issuer then SourceNotOwned
    else if !IsAdjacent(adjacents, o.source.value, o.destination.value) then NotAdjacent
    else if o.armies > armies[o.source.value] then NotEnoughArmies
    else if TruceBlocks(negotiated, o.issuer, owner[o.destination.value]) then NegotiationInEffect
    else Accepted
  }

  /**
   * `Bomb::validate` (Orders/Orders.cpp:508-525), given the issuer's list
   * of territories `issuerList`.
   */
  function ValidateBomb(o: Order, adjacents: seq<seq<TerritoryId>>, owner: seq<Player?>, issuerList: seq<TerritoryId>): (v: Verdict)
    requires o.Bomb? && o.RefersWithin(|owner|)
    ensures v == Accepted <==>
      && o.issuer != null && o.target.Some?
      && owner[o.target.value] != null && owner[o.target.value] != o.issuer
      && TerritoryTouchesPlayer(adjacents, o.target.value, issuerList)
  {
    if o.issuer == null then NoIssuer
    else if o.target.None? then NoTarget
    else if owner[o.target.value] == null || owner[o.target.value] == o.issuer then TargetNotEnemy
    else if !TerritoryTouchesPlayer(adjacents, o.target.value, issuerList) then NoAdjacentTerritory
    else Accepted
  }

  /** The issuer's list of territories, empty when there is no issuer. */
  function IssuerList(o: Order): seq<TerritoryId>
    reads o.issuer
  {
    if o.issuer != null then o.issuer.territories else []
  }

  /** `Blockade::validate` (Orders/Orders.cpp:589-604): the target is checked before the issuer. */
  function ValidateBlockade(o: Order, owner: seq<Player?>): (v: Verdict)
    requires o.Blockade? && o.RefersWithin(|owner|)
    ensures v == Accepted <==> o.target.Some? && o.issuer != null && owner[o.target.value] == o.issuer
    ensures o.target.None? ==> v == NoTarget
  {
    if o.target.None? then NoTarget
    else if o.issuer == null then NoIssuer
    else if owner[o.target.value] != o.issuer then NotOwnedByIssuer
    else Accepted
  }

  /** `Airlift::validate` (Orders/Orders.cpp:704-725): no adjacency check, and source may equal destination. */
  function ValidateAirlift(o: Order, owner: seq<Player?>, armies: seq<nat>): (v: Verdict)
    requires o.Airlift? && |armies| == |owner| && o.RefersWithin(|owner|)
    ensures v == Accepted <==>
      && o.issuer != null && o.source.Some? && o.destination.Some?
      && 0 < o.armies <= armies[o.source.value]
      && owner[o.source.value] == o.issuer && owner[o.destination.value] == o.issuer
  {
    if o.issuer == null then NoIssuer
    else if o.source.None? || o.destination.None? then MissingEndpoint
    else if o.armies <= 0 then NonPositiveArmies
    else if owner[o.source.value] != o.issuer || owner[o.destination.value] != o.issuer then EndpointNotOwned
    else if o.armies > armies[o.source.value] then NotEnoughArmies
    else Accepted
  }

  /** `Negotiate::validate` (Orders/Orders.cpp:808-821). */
  function ValidateNegotiate(o: Order): (v: Verdict)
    requires o.Negotiate?
    ensures v == Accepted <==> o.issuer != null && o.targetPlayer != null && o.targetPlayer != o.issuer
  {
    if o.issuer == null then NoIssuer
    else if o.targetPlayer == null then NoPlayer
    else if o.targetPlayer == o.issuer then SelfNegotiation
    else Accepted
  }

  /**
   * `validate` (Orders/Orders.h:21), dispatched on the order's kind: no
   * order is accepted without an issuer, and none that moves or adds
   * armies is accepted with a count below one.
   */
  function Validate(o: Order, w: World): (v: Verdict)
    requires Fits(o, w)
    ensures v == Accepted ==> o.issuer != null
    ensures v == Accepted && (o.Deploy? || o.Advance? || o.Airlift?) ==> o.armies > 0
  {
    match o
    case Deploy(_, _, _) => ValidateDeploy(o, w.owner)
    case Advance(_, _, _, _) => ValidateAdvance(o, w.adjacents, w.owner, w.armies, w.negotiated)
    case Bomb(_, _) => ValidateBomb(o, w.adjacents, w.owner, if o.issuer != null then w.lists[o.issuer] else [])
    case Blockade(_, _) => ValidateBlockade(o, w.owner)
    case Airlift(_, _, _, _) => ValidateAirlift(o, w.owner, w.armies)
    case Negotiate(_, _) => ValidateNegotiate(o)
  }

  // ---------------------------------------------------------------------
  // Army arithmetic

  /** The armies after a conquest: `m` armies leave `s` and `held` armies hold `d`. */
  function Occupation(armies: seq<nat>, s: TerritoryId, d: TerritoryId, m: nat, held: nat): (r: seq<nat>)
    requires s < |armies| && d < |armies| && m <= armies[s]
    ensures |r| == |armies| && r[d] == held && (s != d ==> r[s] == armies[s] - m)
    ensures forall t :: 0 <= t < |armies| && t != s && t != d ==> r[t] == armies[t]
  {
    armies[s := armies[s] - m][d := held]
  }

  /** The armies after a Deploy: `m` more on `t`. */
  function AddArmies(armies: seq<nat>, t: TerritoryId, m: nat): (r: seq<nat>)
    requires t < |armies|
    ensures |r| == |armies| && r[t] == armies[t] + m
    ensures forall u :: 0 <= u < |armies| && u != t ==> r[u] == armies[u]
  {
    armies[t := armies[t] + m]
  }

  /** The armies after a Bomb: `t` keeps half its armies, rounded down. */
  function HalveArmies(armies: seq<nat>, t: TerritoryId): (r: seq<nat>)
    requires t < |armies|
    ensures |r| == |armies| && r[t] == armies[t] / 2
    ensures forall u :: 0 <= u < |armies| && u != t ==> r[u] == armies[u]
  {
    armies[t := armies[t] / 2]
  }

  /** The armies after a Blockade: `t`'s armies are doubled. */
  function DoubleArmies(armies: seq<nat>, t: TerritoryId): (r: seq<nat>)
    requires t < |armies|
    ensures |r| == |armies| && r[t] == 2 * armies[t]
    ensures forall u :: 0 <= u < |armies| && u != t ==> r[u] == armies[u]
  {
    armies[t := 2 * armies[t]]
  }

  /** Both steps of a friendly move: `m` armies leave `s`, then arrive at `d`. */
  function MoveArmies(armies: seq<nat>, s: TerritoryId, d: TerritoryId, m: nat): seq<nat>
    requires s < |armies| && d < |armies| && m <= armies[s]
  {
    var left := armies[s := armies[s] - m];
    left[d := left[d] + m]
  }

  /**
   * A move conserves the armies of the two territories and touches no
   * other; moving onto the source itself changes nothing.
   */
  lemma MoveArmiesConserves(armies: seq<nat>, s: TerritoryId, d: TerritoryId, m: nat)
    requires s < |armies| && d < |armies| && m <= armies[s]
    ensures |MoveArmies(armies, s, d, m)| == |armies|
    ensures s == d ==> MoveArmies(armies, s, d, m) == armies
    ensures s != d ==> MoveArmies(armies, s, d, m)[s] == armies[s] - m && MoveArmies(armies, s, d, m)[d] == armies[d] + m
    ensures forall t :: 0 <= t < |armies| && t != s && t != d ==> MoveArmies(armies, s, d, m)[t] == armies[t]
  {
  }

  /** The casualties of a hostile Advance of `m` armies against `d` defenders. */
  datatype Battle = Battle(attackKills: nat, defendKills: nat, defendersLeft: nat, attackersLeft: nat)

  /**
   * Combat (Orders/Orders.cpp:428-432): attackers kill 60% of the attacking
   * count, defenders kill 70% of the defending count, each capped by what
   * the other side has, with integer division.
   */
  function Fight(m: nat, d: nat): (r: Battle)
    ensures r.attackKills <= d && r.defendKills <= m
    ensures r.defendersLeft + r.attackKills == d && r.attackersLeft + r.defendKills == m
    ensures r.defendersLeft == 0 <==> m * 6 / 10 >= d
    ensures r.attackersLeft == 0 <==> d * 7 / 10 >= m
  {
    var attackKills := Min(d, (m * 6) / 10);
    var defendKills := Min(m, (d * 7) / 10);
    Battle(attackKills, defendKills, d - attackKills, m - defendKills)
  }

  /** The armies that occupy a conquered territory: the surviving attackers, at least one. */
  function Occupying(f: Battle): (r: nat)
    ensures r >= 1 && (f.attackersLeft > 0 ==> r == f.attackersLeft)
  {
    if f.attackersLeft > 0 then f.attackersLeft else 1
  }

  /** To take a defended territory the attack must outnumber the defenders. */
  lemma ConquestNeedsMoreArmies(m: nat, d: nat)
    requires d > 0 && Fight(m, d).defendersLeft == 0
    ensures m > d
  {
    assert m * 6 / 10 >= d;
    assert m * 6 >= d * 10;
  }

  /** A battle never creates armies. */
  lemma FightLosesArmies(m: nat, d: nat)
    ensures Fight(m, d).defendersLeft + Fight(m, d).attackersLeft <= m + d
    ensures Fight(m, d).defendersLeft > 0 ==> Fight(m, d).defendersLeft <= d
  {
  }

  /**
   * Defender kills depend on the number of defenders, not attackers: a
   * single defender kills no one, however large the attack.
   */
  lemma LoneDefenderKillsNone(m: nat)
    ensures Fight(m, 1).defendKills == 0
    ensures m >= 2 ==> Fight(m, 1).defendersLeft == 0
  {
  }

  // ---------------------------------------------------------------------
  // The effect of a valid order, on values

  /** Every player's list after territory `t` passes from `from` to `to`, as `Transferred` says. */
  function TransferLists(lists: map<Player, seq<TerritoryId>>, t: TerritoryId, from: Player?, to: Player)
    : (r: map<Player, seq<TerritoryId>>)
    ensures r.Keys == lists.Keys
    ensures forall p :: p in r ==> r[p] == Transferred(lists[p], p, t, from, to)
  {
    map p | p in lists :: Transferred(lists[p], p, t, from, to)
  }

  /**
   * A valid Advance into a territory the issuer does not own
   * (Orders/Orders.cpp:428-467), with `f = Fight(armies, defenders)`. If no
   * defender survives, the issuer takes the destination in both records
   * with `Occupying(f)` armies, the source loses the armies, and the issuer
   * is granted a card unless already granted this turn. Otherwise the
   * destination keeps `f.defendersLeft` and the source gets back the
   * surviving attackers.
   */
  function Attacked(o: Order, w: World): World
    requires Fits(o, w) && o.Advance? && Validate(o, w) == Accepted
  {
    var s := o.source.value;
    var d := o.destination.value;
    var f := Fight(o.armies, w.armies[d]);
    if f.defendersLeft == 0 then Conquest(w, o.issuer, s, d, o.armies)
    else w.(armies := w.armies[s := w.armies[s] - o.armies + f.attackersLeft][d := f.defendersLeft])
  }

  /**
   * The world after `issuer` takes `d` with `m` armies from `s`: the
   * territory changes hands in both records, `m` armies leave `s`, the
   * survivors occupy `d`, and the issuer is granted a card.
   */
  function Conquest(w: World, issuer: Player, s: TerritoryId, d: TerritoryId, m: nat): World
    requires s < |w.armies| && d < |w.armies| && d < |w.owner| && m <= w.armies[s] && issuer in w.cards
  {
    var grant := GrantCard<Player>(w.cards, w.granted, issuer);
    w.(owner := w.owner[d := issuer],
       armies := Occupation(w.armies, s, d, m, Occupying(Fight(m, w.armies[d]))),
       lists := TransferLists(w.lists, d, w.owner[d], issuer),
       cards := grant.0, granted := grant.1)
  }

  /** The armies and ownership part of a conquest: `d` passes to `issuer`, `m` armies leave `s` and `held` armies hold `d`. */
  function Occupied(w: World, issuer: Player, s: TerritoryId, d: TerritoryId, m: nat, held: nat): World
    requires s < |w.armies| && d < |w.armies| && d < |w.owner| && m <= w.armies[s]
  {
    w.(owner := w.owner[d := issuer],
       armies := Occupation(w.armies, s, d, m, held),
       lists := TransferLists(w.lists, d, w.owner[d], issuer))
  }

  /** The card part of a conquest: `issuer` is granted its card for the turn (`GrantCard`). */
  function CardGranted(w: World, issuer: Player): World
    requires issuer in w.cards
  {
    var grant := GrantCard<Player>(w.cards, w.granted, issuer);
    w.(cards := grant.0, granted := grant.1)
  }

  /** The map, the neutral player and who has records are the same in both worlds. */
  predicate SameShape(w: World, w': World)
  {
    && w'.adjacents == w.adjacents && w'.neutral == w.neutral
    && |w'.owner| == |w.owner| && |w'.armies| == |w.armies|
    && w'.lists.Keys == w.lists.Keys && w'.cards.Keys == w.cards.Keys
  }

  /**
   * `execute` of a valid order (Orders/Orders.cpp:268-850), on values.
   * Deploy adds its armies; Advance moves them onto the issuer's own
   * territory or attacks (`Attacked`); Bomb halves the target; Blockade
   * doubles it and hands it to the neutral player in both records; Airlift
   * moves armies between two territories of the issuer; Negotiate records
   * the pair. No order changes the map or who has records.
   */
  function Apply(o: Order, w: World): (r: World)
    requires Fits(o, w) && Validate(o, w) == Accepted
    ensures SameShape(w, r)
  {
    match o
    case Deploy(_, m, t) => w.(armies := AddArmies(w.armies, t.value, m))
    case Advance(p, m, s, d) =>
      if w.owner[d.value] == p then w.(armies := MoveArmies(w.armies, s.value, d.value, m))
      else Attacked(o, w)
    case Bomb(_, t) => w.(armies := HalveArmies(w.armies, t.value))
    case Blockade(p, t) =>
      w.(armies := DoubleArmies(w.armies, t.value),
         owner := w.owner[t.value := w.neutral],
         lists := TransferLists(w.lists, t.value, p, w.neutral))
    case Airlift(_, m, s, d) => w.(armies := MoveArmies(w.armies, s.value, d.value, m))
    case Negotiate(p, q) => w.(negotiated := w.negotiated + {MakePair(p, q)})
  }

  /** An order run by the execute phase: it takes effect when valid and changes nothing otherwise. */
  function Step(o: Order, w: World): (r: World)
    ensures SameShape(w, r)
  {
    if Fits(o, w) && Validate(o, w) == Accepted then Apply(o, w) else w
  }

  /** The orders `os` run one after another from `w`. */
  function Steps(os: seq<Order>, w: World): World
    decreases |os|
  {
    if os == [] then w else Step(os[|os| - 1], Steps(os[..|os| - 1], w))
  }

  /** Running `a` and then `b` is running `a + b`. */
  lemma {:induction false} StepsAppend(a: seq<Order>, b: seq<Order>, w: World)
    ensures Steps(a + b, w) == Steps(b, Steps(a, w))
    decreases |b|
  {
    if b == [] {
      assert a + b == a;
    } else {
      var b' := b[..|b| - 1];
      assert (a + b)[..|a + b| - 1] == a + b';
      StepsAppend(a, b', w);
    }
  }

  /** A run of orders changes neither the map nor who has records. */
  lemma {:induction false} StepsKeepShape(os: seq<Order>, w: World)
    ensures SameShape(w, Steps(os, w))
    decreases |os|
  {
    if os != [] {
      StepsKeepShape(os[..|os| - 1], w);
    }
  }

  /**
   * The two ownership records of a world agree: every owner has a list,
   * and each list holds exactly the territories its player owns.
   */
  ghost predicate Recorded(w: World)
  {
    && (forall t :: 0 <= t < |w.owner| && w.owner[t] != null ==> w.owner[t] in w.lists)
    && (forall p :: p in w.lists ==> Agrees(w.owner, p, w.lists[p]))
  }

  /** Every order keeps the two ownership records in agreement. */
  lemma StepKeepsRecords(o: Order, w: World)
    requires Recorded(w)
    ensures Recorded(Step(o, w))
  {
    if Fits(o, w) && Validate(o, w) == Accepted {
      var r := Apply(o, w);
      match o
      case Advance(p, m, s, d) =>
        if w.owner[d.value] != p && Fight(m, w.armies[d.value]).defendersLeft == 0 {
          forall q | q in w.lists
            ensures Agrees(r.owner, q, r.lists[q])
          {
            TransferKeepsAgreement(w.owner, d.value, p, q, w.lists[q]);
          }
        }
      case Blockade(p, t) =>
        forall q | q in w.lists
          ensures Agrees(r.owner, q, r.lists[q])
        {
          TransferKeepsAgreement(w.owner, t.value, w.neutral, q, w.lists[q]);
        }
      case _ =>
    }
  }

  /** Any run of orders keeps the two ownership records in agreement. */
  lemma {:induction false} StepsKeepRecords(os: seq<Order>, w: World)
    requires Recorded(w)
    ensures Recorded(Steps(os, w))
    decreases |os|
  {
    if os != [] {
      StepsKeepRecords(os[..|os| - 1], w);
      StepKeepsRecords(os[|os| - 1], Steps(os[..|os| - 1], w));
    }
  }

  /** The world of a board and players whose records are `Consistent` is `Recorded`. */
  lemma ConsistentIsRecorded(b: Board, ts: TurnState, ps: set<Player>)
    requires Consistent(b, ps)
    ensures Recorded(WorldOf(b, ts, ps))
  {
  }

  // ---------------------------------------------------------------------
  // How the objects' changes show in the world

  /** Two maps with the same keys and the same value at each key are equal. */
  lemma SameMap<K, V>(a: map<K, V>, b: map<K, V>)
    requires a.Keys == b.Keys && forall k :: k in a ==> a[k] == b[k]
    ensures a == b
  {
  }

  /** Lists that are as `m` records them are `m`. */
  lemma KeptLists(m: map<Player, seq<TerritoryId>>, ps: set<Player>)
    requires m.Keys == ps && forall p :: p in ps ==> p.territories == m[p]
    ensures ListsOf(ps) == m
  {
    SameMap(ListsOf(ps), m);
  }

  /** Hands that are as `m` records them are `m`. */
  lemma KeptHands(m: map<Player, nat>, ps: set<Player>)
    requires m.Keys == ps && forall p :: p in ps ==> p.cards == m[p]
    ensures HandsOf(ps) == m
  {
    SameMap(HandsOf(ps), m);
  }

  /** Lists and hands that are as `w` records them are `w`'s lists and hands. */
  lemma KeptRecords(w: World, ps: set<Player>)
    requires w.lists.Keys == ps && w.cards.Keys == ps
    requires forall p :: p in ps ==> p.territories == w.lists[p] && p.cards == w.cards[p]
    ensures ListsOf(ps) == w.lists && HandsOf(ps) == w.cards
  {
    SameMap(ListsOf(ps), w.lists);
    SameMap(HandsOf(ps), w.cards);
  }

  // ---------------------------------------------------------------------
  // execute

  /**
   * `Deploy::execute` (Orders/Orders.cpp:268-283): an invalid order
   * changes nothing; a valid one adds exactly `armies` to the territory.
   */
  method ExecuteDeploy(o: Order, b: Board) returns (executed: bool, effect: Effect)
    requires o.Deploy? && b.Valid() && o.RefersWithin(|b.owner|)
    modifies b`armies
    ensures executed <==> old(ValidateDeploy(o, b.owner)) == Accepted
    ensures !executed ==> effect == Rejected(old(ValidateDeploy(o, b.owner))) && b.armies == old(b.armies)
    ensures executed ==> b.armies == AddArmies(old(b.armies), o.territory.value, o.armies)
    ensures b.Valid()
  {
    var v := ValidateDeploy(o, b.owner);
    if v != Accepted {
      return false, Rejected(v);
    }
    var t := o.territory.value;
    var before := b.armies[t];
    b.armies := b.armies[t := before + o.armies];
    return true, Deployed(t, before, before + o.armies);
  }

  /** The player, if there is one. */
  function NonNull(p: Player?): set<Player>
  {
    if p != null then {p} else {}
  }

  /** The owner of the territory an order names, if it names one that has an owner. */
  function TargetOwner(t: Option<TerritoryId>, b: Board): set<Player>
    reads b
  {
    if t.Some? && t.value < |b.owner| then OwnerSet(b, t.value) else {}
  }

  /**
   * `Advance::execute` (Orders/Orders.cpp:401-470). An invalid order changes
   * nothing. Otherwise the `armies` leave the source; onto the issuer's own
   * territory they simply arrive; against anyone else (or an unowned
   * territory) they fight, and the world changes as `Attacked` says: the
   * armies, on conquest both ownership records, the issuer's hand and the
   * granted set.
   */
  method ExecuteAdvance(o: Order, b: Board, ts: TurnState, ghost ps: set<Player>) returns (executed: bool, effect: Effect)
    requires o.Advance? && o.RefersWithin(|b.owner|) && b.Valid() && Consistent(b, ps) && ts.neutral in ps
    requires o.issuer == null || o.issuer in ps
    requires o.destination.Some? ==> ValidDestination(o, b)
    modifies b, ts`granted, NonNull(o.issuer)`territories, NonNull(o.issuer)`cards, TargetOwner(o.destination, b)`territories
    ensures executed <==> old(ValidateAdvance(o, b.adjacents, b.owner, b.armies, ts.negotiated)) == Accepted
    ensures !executed ==> effect == Rejected(old(ValidateAdvance(o, b.adjacents, b.owner, b.armies, ts.negotiated)))
    ensures !executed ==> unchanged(b) && unchanged(ts) && unchanged(ps)
    ensures executed && old(b.owner[o.destination.value]) == o.issuer ==>
      WorldOf(b, ts, ps) == old(WorldOf(b, ts, ps)).(armies := MoveArmies(old(b.armies), o.source.value, o.destination.value, o.armies))
    ensures executed && old(b.owner[o.destination.value]) != o.issuer ==>
      WorldOf(b, ts, ps) == Attacked(o, old(WorldOf(b, ts, ps)))
    ensures b.Valid() && Consistent(b, ps)
  {
    var v := ValidateAdvance(o, b.adjacents, b.owner, b.armies, ts.negotiated);
    if v != Accepted {
      return false, Rejected(v);
    }
    var s := o.source.value;
    var d := o.destination.value;
    if b.owner[d] == o.issuer {
      ghost var w := WorldOf(b, ts, ps);
      var moveCount := Min(o.armies, b.armies[s]);
      b.armies := MoveArmies(b.armies, s, d, moveCount);
      KeptRecords(w, ps);
      return true, Moved(moveCount);
    }
    effect := Attack(o, b, ts, ps);
    executed := true;
  }

  /** The destination of an order is a territory of the board (needed to name its owner in a frame). */
  predicate ValidDestination(o: Order, b: Board)
    requires o.Advance? && o.destination.Some?
    reads b
  {
    o.destination.value < |b.owner|
  }

  /**
   * Combat resolution of a valid, hostile Advance (Orders/Orders.cpp:428-467):
   * the world changes as `Attacked` says.
   */
  method Attack(o: Order, b: Board, ts: TurnState, ghost ps: set<Player>) returns (effect: Effect)
    requires o.Advance? && o.RefersWithin(|b.owner|) && b.Valid() && Consistent(b, ps) && ts.neutral in ps
    requires o.issuer != null && o.issuer in ps
    requires Validate(o, WorldOf(b, ts, ps)) == Accepted && b.owner[o.destination.value] != o.issuer
    modifies b, ts`granted, o.issuer`territories, o.issuer`cards, OwnerSet(b, o.destination.value)`territories
    ensures WorldOf(b, ts, ps) == Attacked(o, old(WorldOf(b, ts, ps)))
    ensures b.Valid() && Consistent(b, ps)
  {
    var s := o.source.value;
    var d := o.destination.value;
    var moveCount := Min(o.armies, b.armies[s]);
    var f := Fight(moveCount, b.armies[d]);
    if f.defendersLeft == 0 {
      effect := Conquer(o, b, ts, ps);
    } else {
      effect := Repel(o, b, ts, ps);
    }
  }

  /** What `Conquer` and `Repel` rely on: a valid Advance against a territory the issuer does not own. */
  ghost predicate HostileAdvance(o: Order, b: Board, ts: TurnState, ps: set<Player>)
    reads b, ts, ps
  {
    && o.Advance? && o.RefersWithin(|b.owner|) && b.Valid() && Consistent(b, ps) && ts.neutral in ps
    && o.issuer != null && o.issuer in ps
    && Validate(o, WorldOf(b, ts, ps)) == Accepted && b.owner[o.destination.value] != o.issuer
  }

  /**
   * A successful attack (Orders/Orders.cpp:435-454): the armies leave the
   * source, the destination passes to the issuer in both records with the
   * surviving attackers (at least one), and the issuer is granted a card
   * (`GrantCardForConquest`).
   */
  method Conquer(o: Order, b: Board, ts: TurnState, ghost ps: set<Player>) returns (effect: Effect)
    requires HostileAdvance(o, b, ts, ps) && Fight(o.armies, b.armies[o.destination.value]).defendersLeft == 0
    modifies b, ts`granted, o.issuer`territories, o.issuer`cards, OwnerSet(b, o.destination.value)`territories
    ensures WorldOf(b, ts, ps) == Attacked(o, old(WorldOf(b, ts, ps)))
    ensures b.Valid() && Consistent(b, ps)
  {
    effect := ConquestSteps(b, ts, o.issuer, o.source.value, o.destination.value, o.armies, ps);
  }

  /** Hands that differ from `before` only by the conquest card of `issuer` are `GrantCard`'s hands. */
  lemma GrantedHands(ps: set<Player>, before: map<Player, nat>, granted: set<Player>, issuer: Player)
    requires before.Keys == ps && issuer in ps
    requires forall p :: p in ps && p != issuer ==> p.cards == before[p]
    requires issuer in granted ==> issuer.cards == before[issuer]
    requires issuer !in granted ==> issuer.cards == before[issuer] + 1
    ensures HandsOf(ps) == GrantCard<Player>(before, granted, issuer).0
  {
    KeptHands(GrantCard<Player>(before, granted, issuer).0, ps);
  }

  /** The steps of `Conquer` (Orders/Orders.cpp:406-407, 435-445) on the objects. */
  method ConquestSteps(b: Board, ts: TurnState, issuer: Player, s: TerritoryId, d: TerritoryId, m: nat, ghost ps: set<Player>)
    returns (effect: Effect)
    requires b.Valid() && Consistent(b, ps) && issuer in ps
    requires s < |b.owner| && d < |b.owner| && s != d && m <= b.armies[s]
    modifies b, ts`granted, issuer`territories, issuer`cards, OwnerSet(b, d)`territories
    ensures WorldOf(b, ts, ps) == Conquest(old(WorldOf(b, ts, ps)), issuer, s, d, m)
    ensures b.Valid() && Consistent(b, ps)
  {
    var f := Fight(m, b.armies[d]);
    Occupy(b, issuer, s, d, m, Occupying(f), ps);
    OccupiedFields(old(WorldOf(b, ts, ps)), WorldOf(b, ts, ps), issuer, s, d, m, Occupying(f));
    GrantInWorld(b, ts, issuer, ps);
    ConquestInTwoParts(old(WorldOf(b, ts, ps)), issuer, s, d, m);
    effect := Conquered(d, Occupying(f));
  }

  /** The armies and ownership steps of a conquest (Orders/Orders.cpp:406-407, 435-443). */
  method Occupy(b: Board, issuer: Player, s: TerritoryId, d: TerritoryId, m: nat, held: nat, ghost ps: set<Player>)
    requires b.Valid() && Consistent(b, ps) && issuer in ps
    requires s < |b.owner| && d < |b.owner| && s != d && m <= b.armies[s]
    modifies b, issuer`territories, OwnerSet(b, d)`territories
    ensures b.owner == old(b.owner)[d := issuer]
    ensures b.armies == Occupation(old(b.armies), s, d, m, held)
    ensures ListsOf(ps) == TransferLists(old(ListsOf(ps)), d, old(b.owner[d]), issuer)
    ensures HandsOf(ps) == old(HandsOf(ps))
    ensures b.Valid() && Consistent(b, ps)
  {
    ghost var lists, hands := ListsOf(ps), HandsOf(ps);
    b.armies := b.armies[s := b.armies[s] - m];
    ghost var from := b.owner[d];
    Transfer(b, d, issuer, ps);
    b.armies := b.armies[d := held];
    SameMap(ListsOf(ps), TransferLists(lists, d, from, issuer));
    KeptHands(hands, ps);
  }

  /** A conquest is its occupation followed by its card grant. */
  lemma ConquestInTwoParts(w: World, issuer: Player, s: TerritoryId, d: TerritoryId, m: nat)
    requires s < |w.armies| && d < |w.armies| && d < |w.owner| && m <= w.armies[s] && issuer in w.cards
    ensures Conquest(w, issuer, s, d, m) == CardGranted(Occupied(w, issuer, s, d, m, Occupying(Fight(m, w.armies[d]))), issuer)
  {
  }

  /** A world that differs from `w` in exactly the fields `Occupied` sets, and as it sets them, is `Occupied(w, ...)`. */
  lemma OccupiedFields(w: World, v: World, issuer: Player, s: TerritoryId, d: TerritoryId, m: nat, held: nat)
    requires s < |w.armies| && d < |w.armies| && d < |w.owner| && m <= w.armies[s]
    requires v.owner == w.owner[d := issuer]
    requires v.armies == Occupation(w.armies, s, d, m, held)
    requires v.lists == TransferLists(w.lists, d, w.owner[d], issuer)
    requires v.adjacents == w.adjacents && v.cards == w.cards && v.negotiated == w.negotiated
    requires v.granted == w.granted && v.neutral == w.neutral
    ensures v == Occupied(w, issuer, s, d, m, held)
  {
  }

  /** The card step of a conquest (Orders/Orders.cpp:444-445), as the world sees it. */
  method GrantInWorld(ghost b: Board, ts: TurnState, issuer: Player, ghost ps: set<Player>)
    requires issuer in ps
    modifies ts`granted, issuer`cards
    ensures WorldOf(b, ts, ps) == CardGranted(old(WorldOf(b, ts, ps)), issuer)
  {
    ghost var lists, hands := ListsOf(ps), HandsOf(ps);
    GrantCardForConquest(ts, issuer);
    KeptLists(lists, ps);
    GrantedHands(ps, hands, old(ts.granted), issuer);
  }

  /**
   * A failed attack (Orders/Orders.cpp:455-466): the armies leave the
   * source, the destination keeps the surviving defenders and the surviving
   * attackers return to the source.
   */
  method Repel(o: Order, b: Board, ts: TurnState, ghost ps: set<Player>) returns (effect: Effect)
    requires HostileAdvance(o, b, ts, ps) && Fight(o.armies, b.armies[o.destination.value]).defendersLeft > 0
    modifies b`armies
    ensures WorldOf(b, ts, ps) == Attacked(o, old(WorldOf(b, ts, ps)))
    ensures b.Valid() && Consistent(b, ps)
  {
    ghost var w := WorldOf(b, ts, ps);
    var s := o.source.value;
    var d := o.destination.value;
    var f := Fight(o.armies, b.armies[d]);
    b.armies := b.armies[s := b.armies[s] - o.armies];
    b.armies := b.armies[d := f.defendersLeft];
    if f.attackersLeft > 0 {
      b.armies := b.armies[s := b.armies[s] + f.attackersLeft];
    }
    effect := Repelled(f.defendersLeft, f.attackersLeft);
    KeptRecords(w, ps);
  }

  /**
   * `Bomb::execute` (Orders/Orders.cpp:545-559): an invalid order changes
   * nothing; a valid one halves the target's armies (rounding down).
   */
  method ExecuteBomb(o: Order, b: Board) returns (executed: bool, effect: Effect)
    requires o.Bomb? && b.Valid() && o.RefersWithin(|b.owner|)
    modifies b`armies
    ensures executed <==> old(ValidateBomb(o, b.adjacents, b.owner, IssuerList(o))) == Accepted
    ensures !executed ==> effect == Rejected(old(ValidateBomb(o, b.adjacents, b.owner, IssuerList(o)))) && b.armies == old(b.armies)
    ensures executed ==> b.armies == HalveArmies(old(b.armies), o.target.value)
    ensures b.Valid()
  {
    var v := ValidateBomb(o, b.adjacents, b.owner, IssuerList(o));
    if v != Accepted {
      return false, Rejected(v);
    }
    var t := o.target.value;
    var before := b.armies[t];
    var after := before / 2;
    b.armies := b.armies[t := after];
    return true, Bombed(before, after);
  }

  /**
   * `Blockade::execute` (Orders/Orders.cpp:629-651): an invalid order
   * changes nothing; a valid one doubles the target's armies and hands it
   * to the neutral player, in both ownership records.
   */
  method ExecuteBlockade(o: Order, b: Board, ts: TurnState, ghost ps: set<Player>) returns (executed: bool, effect: Effect)
    requires o.Blockade? && o.RefersWithin(|b.owner|) && b.Valid() && Consistent(b, ps) && ts.neutral in ps
    modifies b, ts.neutral`territories, TargetOwner(o.target, b)`territories
    ensures executed <==> old(ValidateBlockade(o, b.owner)) == Accepted
    ensures !executed ==> effect == Rejected(old(ValidateBlockade(o, b.owner)))
    ensures !executed ==> unchanged(b) && unchanged(ps)
    ensures executed ==>
      var t := o.target.value;
      && b.armies == DoubleArmies(old(b.armies), t)
      && b.owner == old(b.owner)[t := ts.neutral]
      && forall p :: p in ps ==> p.territories == Transferred(old(p.territories), p, t, o.issuer, ts.neutral)
    ensures executed ==> o.target.value !in o.issuer.territories || o.issuer == ts.neutral
    ensures forall p :: p in ps ==> p.cards == old(p.cards)
    ensures executed ==> WorldOf(b, ts, ps) == old(WorldOf(b, ts, ps)).(
      armies := b.armies, owner := b.owner, lists := TransferLists(old(ListsOf(ps)), o.target.value, o.issuer, ts.neutral))
    ensures b.Valid() && Consistent(b, ps)
  {
    var v := ValidateBlockade(o, b.owner);
    if v != Accepted {
      return false, Rejected(v);
    }
    ghost var w := WorldOf(b, ts, ps);
    var t := o.target.value;
    var before := b.armies[t];
    HandToNeutral(b, t, ts.neutral, ps);
    SameMap(ListsOf(ps), TransferLists(w.lists, t, o.issuer, w.neutral));
    SameMap(HandsOf(ps), w.cards);
    return true, Blockaded(before, before * 2);
  }

  /** The steps of a valid Blockade (Orders/Orders.cpp:636-643): double the armies, then hand the territory over. */
  method HandToNeutral(b: Board, t: TerritoryId, neutral: Player, ghost ps: set<Player>)
    requires b.Valid() && Consistent(b, ps) && neutral in ps && t < |b.owner|
    modifies b, neutral`territories, OwnerSet(b, t)`territories
    ensures b.armies == DoubleArmies(old(b.armies), t)
    ensures b.owner == old(b.owner)[t := neutral]
    ensures forall p :: p in ps ==> p.territories == Transferred(old(p.territories), p, t, old(b.owner[t]), neutral)
    ensures forall p :: p in ps ==> p.cards == old(p.cards)
    ensures b.Valid() && Consistent(b, ps)
  {
    var before := b.armies[t];
    b.armies := b.armies[t := before * 2];
    Transfer(b, t, neutral, ps);
  }

  /**
   * `Airlift::execute` (Orders/Orders.cpp:750-769): an invalid order
   * changes nothing; a valid one moves `armies` between any two territories
   * of the issuer, which leaves the counts as they were when source and
   * destination coincide.
   */
  method ExecuteAirlift(o: Order, b: Board) returns (executed: bool, effect: Effect)
    requires o.Airlift? && b.Valid() && o.RefersWithin(|b.owner|)
    modifies b`armies
    ensures executed <==> old(ValidateAirlift(o, b.owner, b.armies)) == Accepted
    ensures !executed ==> effect == Rejected(old(ValidateAirlift(o, b.owner, b.armies))) && b.armies == old(b.armies)
    ensures executed ==> b.armies == MoveArmies(old(b.armies), o.source.value, o.destination.value, o.armies)
    ensures b.Valid()
  {
    var v := ValidateAirlift(o, b.owner, b.armies);
    if v != Accepted {
      return false, Rejected(v);
    }
    var s := o.source.value;
    var d := o.destination.value;
    var moveCount := Min(o.armies, b.armies[s]);
    b.armies := MoveArmies(b.armies, s, d, moveCount);
    return true, Airlifted(moveCount);
  }

  /**
   * `Negotiate::execute` (Orders/Orders.cpp:837-850): an invalid order
   * changes nothing; a valid one records the pair of players.
   */
  method ExecuteNegotiate(o: Order, ts: TurnState) returns (executed: bool, effect: Effect)
    requires o.Negotiate?
    modifies ts`negotiated
    ensures executed <==> ValidateNegotiate(o) == Accepted
    ensures !executed ==> effect == Rejected(ValidateNegotiate(o)) && ts.negotiated == old(ts.negotiated)
    ensures executed ==> ts.negotiated == old(ts.negotiated) + {MakePair(o.issuer, o.targetPlayer)}
    ensures executed ==>
      HasNegotiation(ts.negotiated, o.issuer, o.targetPlayer) && HasNegotiation(ts.negotiated, o.targetPlayer, o.issuer)
  {
    var v := ValidateNegotiate(o);
    if v != Accepted {
      return false, Rejected(v);
    }
    ts.negotiated := ts.negotiated + {MakePair(o.issuer, o.targetPlayer)};
    NegotiationSymmetric(ts.negotiated, o.issuer, o.targetPlayer);
    return true, Negotiated;
  }

  /**
   * While two players have a truce, an Advance by either of them into a
   * territory of the other is rejected.
   */
  lemma TruceBlocksAdvance(o: Order, w: World)
    requires o.Advance? && Fits(o, w) && o.destination.Some?
    requires o.issuer != null && w.owner[o.destination.value] != null && w.owner[o.destination.value] != o.issuer
    requires HasNegotiation(w.negotiated, o.issuer, w.owner[o.destination.value])
          || HasNegotiation(w.negotiated, w.owner[o.destination.value], o.issuer)
    ensures Validate(o, w) != Accepted && Step(o, w) == w
  {
    NegotiationSymmetric(w.negotiated, o.issuer, w.owner[o.destination.value]);
  }

  /**
   * `execute` (Orders/Orders.h:21-22), dispatched on the order's kind: the
   * order takes effect exactly when `Validate` accepts it, the board, the
   * players' lists and hands and the turn's sets change as `Step` says,
   * and the records stay consistent.
   */
  method Execute(o: Order, b: Board, ts: TurnState, ghost ps: set<Player>) returns (executed: bool, effect: Effect)
    requires o.RefersWithin(|b.owner|) && b.Valid() && Consistent(b, ps) && ts.neutral in ps
    requires o.issuer == null || o.issuer in ps
    modifies b, ts, ps`territories, ps`cards
    ensures executed <==> Validate(o, old(WorldOf(b, ts, ps))) == Accepted
    ensures WorldOf(b, ts, ps) == Step(o, old(WorldOf(b, ts, ps)))
    ensures !executed ==> unchanged(b) && unchanged(ts) && unchanged(ps)
    ensures b.Valid() && Consistent(b, ps)
  {
    match o
    case Advance(_, _, _, _) =>
      executed, effect := ExecuteAdvance(o, b, ts, ps);
    case Blockade(_, _) =>
      executed, effect := ExecuteBlockade(o, b, ts, ps);
    case Negotiate(_, _) =>
      NegotiateStep(o, old(WorldOf(b, ts, ps)));
      executed, effect := ExecuteNegotiate(o, ts);
      KeptRecords(old(WorldOf(b, ts, ps)), ps);
    case _ =>
      executed, effect := ExecuteOnArmies(o, b, ts, ps);
  }

  /** A Deploy is checked by `ValidateDeploy` and, once accepted, only adds armies. */
  lemma DeployStep(o: Order, w: World)
    requires o.Deploy? && Fits(o, w)
    ensures Validate(o, w) == ValidateDeploy(o, w.owner)
    ensures Step(o, w) == if Validate(o, w) == Accepted then w.(armies := AddArmies(w.armies, o.territory.value, o.armies)) else w
  {
  }

  /** A Bomb is checked by `ValidateBomb` against the issuer's list and, once accepted, only halves armies. */
  lemma BombStep(o: Order, w: World)
    requires o.Bomb? && Fits(o, w)
    ensures Validate(o, w) == ValidateBomb(o, w.adjacents, w.owner, if o.issuer != null then w.lists[o.issuer] else [])
    ensures Step(o, w) == if Validate(o, w) == Accepted then w.(armies := HalveArmies(w.armies, o.target.value)) else w
  {
  }

  /** An Airlift is checked by `ValidateAirlift` and, once accepted, only moves armies. */
  lemma AirliftStep(o: Order, w: World)
    requires o.Airlift? && Fits(o, w)
    ensures Validate(o, w) == ValidateAirlift(o, w.owner, w.armies)
    ensures Step(o, w) == if Validate(o, w) == Accepted then w.(armies := MoveArmies(w.armies, o.source.value, o.destination.value, o.armies)) else w
  {
  }

  /** A Negotiate is checked by `ValidateNegotiate` and, once accepted, only records the truce. */
  lemma NegotiateStep(o: Order, w: World)
    requires o.Negotiate? && Fits(o, w)
    ensures Validate(o, w) == ValidateNegotiate(o)
    ensures Step(o, w) == if Validate(o, w) == Accepted then w.(negotiated := w.negotiated + {MakePair(o.issuer, o.targetPlayer)}) else w
  {
  }

  /** `Execute` for the orders that change only army counts: Deploy, Bomb and Airlift. */
  method ExecuteOnArmies(o: Order, b: Board, ts: TurnState, ghost ps: set<Player>) returns (executed: bool, effect: Effect)
    requires o.Deploy? || o.Bomb? || o.Airlift?
    requires o.RefersWithin(|b.owner|) && b.Valid() && Consistent(b, ps) && ts.neutral in ps
    requires o.issuer == null || o.issuer in ps
    modifies b`armies
    ensures executed <==> Validate(o, old(WorldOf(b, ts, ps))) == Accepted
    ensures WorldOf(b, ts, ps) == Step(o, old(WorldOf(b, ts, ps)))
    ensures !executed ==> unchanged(b)
    ensures b.Valid() && Consistent(b, ps)
  {
    match o
    case Deploy(_, _, _) =>
      DeployStep(o, old(WorldOf(b, ts, ps)));
      executed, effect := ExecuteDeploy(o, b);
    case Bomb(_, _) =>
      BombStep(o, old(WorldOf(b, ts, ps)));
      executed, effect := ExecuteBomb(o, b);
    case Airlift(_, _, _, _) =>
      AirliftStep(o, old(WorldOf(b, ts, ps)));
      executed, effect := ExecuteAirlift(o, b);
    KeptRecords(old(WorldOf(b, ts, ps)), ps);
  }
}
