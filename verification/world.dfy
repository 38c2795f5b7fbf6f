/**
 * The game world the orders act on (Orders/Orders.h, Player/Player.cpp and
 * the mutable half of Map/Map.cpp's `Territory`).
 *
 * Territory objects are modelled as an arena: `Board` holds each territory's
 * owner and army count, indexed by territory id (a loaded map's ids are its
 * insertion indices). Players are objects; an order names its issuer by
 * reference and its territories by id, and `None` stands for a null pointer.
 *
 * Ownership is recorded twice, as in the source: `Board.owner[t]` and the
 * list `Player.territories`. `Consistent` says the two agree; every order
 * keeps it (module Orders).
 */
module Game {
  import opened Wrappers
  import Maps

  type TerritoryId = nat

  function Min(a: int, b: int): (r: int)
    ensures r <= a && r <= b && (r == a || r == b)
  {
    if a < b then a else b
  }

  /** The six order kinds (Orders/Orders.h:34-133), with the fields each one carries. */
  datatype Order =
    | Deploy(issuer: Player?, armies: int, territory: Option<TerritoryId>)
    | Advance(issuer: Player?, armies: int, source: Option<TerritoryId>, destination: Option<TerritoryId>)
    | Bomb(issuer: Player?, target: Option<TerritoryId>)
    | Blockade(issuer: Player?, target: Option<TerritoryId>)
    | Airlift(issuer: Player?, armies: int, source: Option<TerritoryId>, destination: Option<TerritoryId>)
    | Negotiate(issuer: Player?, targetPlayer: Player?)
  {
    /** Every territory the order points to exists on a board of `n` territories. */
    predicate RefersWithin(n: nat)
    {
      match this
      case Deploy(_, _, t) => t.None? || t.value < n
      case Advance(_, _, s, d) => (s.None? || s.value < n) && (d.None? || d.value < n)
      case Bomb(_, t) => t.None? || t.value < n
      case Blockade(_, t) => t.None? || t.value < n
      case Airlift(_, _, s, d) => (s.None? || s.value < n) && (d.None? || d.value < n)
      case Negotiate(_, _) => true
    }
  }

  // ---------------------------------------------------------------------
  // OrdersList::remove and OrdersList::move on values

  /** `s` without its element at `i` (`vector::erase`). */
  function Removed<T>(s: seq<T>, i: nat): (r: seq<T>)
    requires i < |s|
    ensures |r| == |s| - 1
    ensures forall k :: 0 <= k < i ==> r[k] == s[k]
    ensures forall k :: i <= k < |r| ==> r[k] == s[k + 1]
  {
    s[..i] + s[i + 1..]
  }

  /** `s` with the element at `from` taken out and re-inserted at index `to`. */
  function Moved<T>(s: seq<T>, from: nat, to: nat): (r: seq<T>)
    requires from < |s| && to < |s|
  {
    var rest := Removed(s, from);
    rest[..to] + [s[from]] + rest[to..]
  }

  /** Removing one element takes exactly that element out of the multiset of orders. */
  lemma RemovedMultiset<T>(s: seq<T>, i: nat)
    requires i < |s|
    ensures multiset(Removed(s, i)) == multiset(s) - multiset{s[i]}
    ensures multiset(s) == multiset(Removed(s, i)) + multiset{s[i]}
  {
    assert s == s[..i] + [s[i]] + s[i + 1..];
    assert multiset(s) == multiset(s[..i]) + multiset{s[i]} + multiset(s[i + 1..]);
  }

  /** A move is a permutation that puts the moved element at `to` and keeps the others in order. */
  lemma MovedMeaning<T>(s: seq<T>, from: nat, to: nat)
    requires from < |s| && to < |s|
    ensures |Moved(s, from, to)| == |s|
    ensures multiset(Moved(s, from, to)) == multiset(s)
    ensures Moved(s, from, to)[to] == s[from]
    ensures Removed(Moved(s, from, to), to) == Removed(s, from)
  {
    var rest := Removed(s, from);
    var r := Moved(s, from, to);
    var front, back := rest[..to], rest[to..];
    assert r == front + [s[from]] + back;
    assert rest == front + back;
    calc {
      multiset(r);
      multiset(front) + multiset{s[from]} + multiset(back);
      multiset(rest) + multiset{s[from]};
      { RemovedMultiset(s, from); }
      multiset(s);
    }
    assert r[to] == s[from];
    assert Removed(r, to) == front + back;
  }

  /** Moving an element onto its own index changes nothing. */
  lemma MoveToSelf<T>(s: seq<T>, i: nat)
    requires i < |s|
    ensures Moved(s, i, i) == s
  {
    assert Removed(s, i)[..i] == s[..i];
    assert Removed(s, i)[i..] == s[i + 1..];
    assert s == s[..i] + [s[i]] + s[i + 1..];
  }

  /** A player's queue of orders (Orders/Orders.cpp:856-930). */
  class OrdersList {
    var orders: seq<Order>

    constructor ()
      ensures orders == []
    {
      orders := [];
    }

    /**
     * The copy constructor (Orders/Orders.cpp:861-866): each order is
     * cloned, and an order is a value here, so the copy holds the same orders.
     */
    constructor Copy(other: OrdersList)
      ensures orders == other.orders
    {
      orders := other.orders;
    }

    /** `operator=` (Orders/Orders.cpp:869-883). */
    method Assign(other: OrdersList)
      modifies this
      ensures orders == old(other.orders)
    {
      if this != other {
        orders := other.orders;
      }
    }

    /** `add` (Orders/Orders.cpp:893-895): appends at the end. */
    method Add(o: Order)
      modifies this
      ensures orders == old(orders) + [o]
    {
      orders := orders + [o];
    }

    /**
     * `remove` (Orders/Orders.cpp:898-905): an index out of range returns
     * false and changes nothing; otherwise that one order leaves the list
     * and the others keep their order.
     */
    method Remove(index: int) returns (removed: bool)
      modifies this
      ensures removed <==> 0 <= index < |old(orders)|
      ensures removed ==> orders == Removed(old(orders), index)
      ensures removed ==> multiset(orders) == multiset(old(orders)) - multiset{old(orders)[index]}
      ensures !removed ==> orders == old(orders)
    {
      if index < 0 || index >= |orders| {
        return false;
      }
      RemovedMultiset(orders, index);
      orders := Removed(orders, index);
      return true;
    }

    /**
     * `move` (Orders/Orders.cpp:908-926): both indices must be in range;
     * the order at `from` ends at `to`, the list is a permutation of the
     * old one, and `move(i, i)` changes nothing.
     */
    method Move(from: int, to: int) returns (moved: bool)
      modifies this
      ensures moved <==> 0 <= from < |old(orders)| && 0 <= to < |old(orders)|
      ensures moved ==> orders == Moved(old(orders), from, to)
      ensures moved ==> multiset(orders) == multiset(old(orders)) && orders[to] == old(orders)[from]
      ensures !moved || from == to ==> orders == old(orders)
    {
      if from < 0 || from >= |orders| {
        return false;
      }
      if to < 0 || to >= |orders| {
        return false;
      }
      MovedMeaning(orders, from, to);
      if from == to {
        MoveToSelf(orders, from);
        return true;
      }
      var item := orders[from];
      var rest := Removed(orders, from);
      orders := rest[..to] + [item] + rest[to..];
      return true;
    }
  }

  // ---------------------------------------------------------------------
  // Territories

  /** Every adjacency refers to a territory of the board. */
  predicate AdjacencyInRange(adjacents: seq<seq<TerritoryId>>)
  {
    forall t, k :: 0 <= t < |adjacents| && 0 <= k < |adjacents[t]| ==> adjacents[t][k] < |adjacents|
  }

  /** The owners and army counts of a map's territories, indexed by id. */
  class Board {
    var owner: seq<Player?>
    var armies: seq<nat>
    const adjacents: seq<seq<TerritoryId>>

    ghost predicate Valid()
      reads this
    {
      |owner| == |adjacents| && |armies| == |adjacents| && AdjacencyInRange(adjacents)
    }

    /** The territories of a loaded map as `Territory`'s constructor leaves them: no owner, no armies (Map/Map.cpp:8-9). */
    constructor (m: Maps.Map)
      requires Maps.WellFormed(m)
      ensures Valid() && adjacents == Maps.Adjacency(m)
      ensures |owner| == |m.territories| && forall t :: 0 <= t < |owner| ==> owner[t] == null
      ensures forall t :: 0 <= t < |armies| ==> armies[t] == 0
    {
      adjacents := Maps.Adjacency(m);
      owner := seq(|m.territories|, _ => null);
      armies := seq(|m.territories|, _ => 0);
    }
  }

  /** `isAdjacent` (Orders/Orders.cpp:49-59): `to` is in `from`'s adjacency list. */
  predicate IsAdjacent(adjacents: seq<seq<TerritoryId>>, from: TerritoryId, to: TerritoryId)
    requires from < |adjacents|
  {
    to in adjacents[from]
  }

  /** The loop of `isAdjacent` (Orders/Orders.cpp:49-59): `from`'s neighbours are scanned for `to`. */
  method ScanAdjacent(adjacents: seq<seq<TerritoryId>>, from: TerritoryId, to: TerritoryId) returns (found: bool)
    requires from < |adjacents|
    ensures found == IsAdjacent(adjacents, from, to)
  {
    var neighbours := adjacents[from];
    for k := 0 to |neighbours|
      invariant to !in neighbours[..k]
    {
      if neighbours[k] == to {
        return true;
      }
      assert neighbours[..k + 1] == neighbours[..k] + [neighbours[k]];
    }
    assert neighbours[..|neighbours|] == neighbours;
    return false;
  }

  // ---------------------------------------------------------------------
  // Players

  /** `removeTerritoryFromPlayer`'s effect: the first occurrence of `x` is erased. */
  function RemoveFirst(s: seq<TerritoryId>, x: TerritoryId): (r: seq<TerritoryId>)
    ensures x !in s ==> r == s
    ensures multiset(r) == multiset(s) - multiset{x}
  {
    if s == [] then []
    else if s[0] == x then assert s == [s[0]] + s[1..]; s[1..]
    else assert s == [s[0]] + s[1..]; [s[0]] + RemoveFirst(s[1..], x)
  }

  /** In a list without repeats, erasing `x` removes it entirely and keeps every other entry. */
  lemma RemoveFirstDistinct(s: seq<TerritoryId>, x: TerritoryId)
    requires Maps.Distinct(s)
    ensures Maps.Distinct(RemoveFirst(s, x))
    ensures forall y :: y in RemoveFirst(s, x) <==> y in s && y != x
  {
    var r := RemoveFirst(s, x);
    forall y
      ensures y in r <==> y in s && y != x
    {
      assert y in r <==> multiset(r)[y] > 0;
      assert y in s <==> multiset(s)[y] > 0;
      if y == x && x in s {
        DistinctOnce(s, x);
      }
    }
    forall i, j | 0 <= i < j < |r|
      ensures r[i] != r[j]
    {
      if r[i] == r[j] {
        CountTwo(r, i, j);
        assert multiset(r)[r[i]] >= 2;
        assert r[i] in s;
        DistinctOnce(s, r[i]);
        assert false;
      }
    }
  }

  lemma {:induction false} DistinctOnce(s: seq<TerritoryId>, x: TerritoryId)
    requires Maps.Distinct(s) && x in s
    ensures multiset(s)[x] == 1
  {
    assert s == [s[0]] + s[1..];
    assert multiset(s) == multiset{s[0]} + multiset(s[1..]);
    if s[0] == x {
      assert x !in s[1..];
    } else {
      assert Maps.Distinct(s[1..]);
      DistinctOnce(s[1..], x);
    }
  }

  lemma CountTwo(s: seq<TerritoryId>, i: nat, j: nat)
    requires i < j < |s| && s[i] == s[j]
    ensures multiset(s)[s[i]] >= 2
  {
    assert s == s[..j] + [s[j]] + s[j + 1..];
    assert s[i] in s[..j];
    assert multiset(s) == multiset(s[..j]) + multiset{s[j]} + multiset(s[j + 1..]);
  }

  /** The first erased occurrence is the one a left-to-right scan finds. */
  lemma {:induction false} RemoveFirstAt(s: seq<TerritoryId>, x: TerritoryId, i: nat)
    requires i < |s| && s[i] == x && x !in s[..i]
    ensures RemoveFirst(s, x) == s[..i] + s[i + 1..]
  {
    if i == 0 {
      assert RemoveFirst(s, x) == s[1..];
    } else {
      var t := s[1..];
      assert s[0] in s[..i];
      assert t[..i - 1] == s[1..i];
      assert x !in t[..i - 1] by {
        forall k | 0 <= k < i - 1
          ensures t[k] != x
        {
          assert t[k] == s[..i][k + 1];
        }
      }
      RemoveFirstAt(t, x, i - 1);
      assert RemoveFirst(s, x) == [s[0]] + (s[1..i] + s[i + 1..]);
      SplitAround(s, i);
    }
  }

  /** Cutting out position `i` of a sequence with a leading element. */
  lemma SplitAround(s: seq<TerritoryId>, i: nat)
    requires 0 < i < |s|
    ensures [s[0]] + (s[1..i] + s[i + 1..]) == s[..i] + s[i + 1..]
  {
    assert [s[0]] + s[1..i] == s[..i];
  }

  /** The territories of `adj`, in order, that `me` does not own. */
  function Hostile(adj: seq<TerritoryId>, owner: seq<Player?>, me: Player): (r: seq<TerritoryId>)
    requires forall k :: 0 <= k < |adj| ==> adj[k] < |owner|
    ensures forall x :: x in r <==> x in adj && owner[x] != me
  {
    if adj == [] then []
    else
      Hostile(adj[..|adj| - 1], owner, me) + (if owner[adj[|adj| - 1]] != me then [adj[|adj| - 1]] else [])
  }

  /** What `toAttack` collects: for each owned territory in turn, its neighbours not owned by `me`. */
  function AttackTargets(adjacents: seq<seq<TerritoryId>>, owner: seq<Player?>, mine: seq<TerritoryId>, me: Player): seq<TerritoryId>
    requires |owner| == |adjacents| && AdjacencyInRange(adjacents)
    requires forall k :: 0 <= k < |mine| ==> mine[k] < |adjacents|
  {
    if mine == [] then []
    else AttackTargets(adjacents, owner, mine[..|mine| - 1], me) + Hostile(adjacents[mine[|mine| - 1]], owner, me)
  }

  /**
   * A territory is a target exactly when it neighbours an owned territory
   * and is not owned by the player.
   */
  lemma {:induction false} AttackTargetOf(adjacents: seq<seq<TerritoryId>>, owner: seq<Player?>, mine: seq<TerritoryId>, me: Player, x: TerritoryId)
    requires |owner| == |adjacents| && AdjacencyInRange(adjacents)
    requires forall k :: 0 <= k < |mine| ==> mine[k] < |adjacents|
    ensures x in AttackTargets(adjacents, owner, mine, me) <==>
      (exists t :: t in mine && x in adjacents[t]) && x < |owner| && owner[x] != me
  {
    if mine != [] {
      var init := mine[..|mine| - 1];
      var last := mine[|mine| - 1];
      assert mine == init + [last];
      AttackTargetOf(adjacents, owner, init, me, x);
      if x in adjacents[last] {
        assert last in mine;
      }
      if exists t :: t in mine && x in adjacents[t] {
        var t :| t in mine && x in adjacents[t];
        if t != last {
          assert t in init;
        }
      }
    }
  }

  /** The index of the first listed territory holding more than one army, if any. */
  function StrongIndex(mine: seq<TerritoryId>, armies: seq<nat>, from: nat): (r: Option<nat>)
    requires from <= |mine|
    requires forall k :: 0 <= k < |mine| ==> mine[k] < |armies|
    ensures r.Some? ==> from <= r.value < |mine| && armies[mine[r.value]] > 1
    ensures r.Some? ==> forall k :: from <= k < r.value ==> armies[mine[k]] <= 1
    ensures r.None? ==> forall k :: from <= k < |mine| ==> armies[mine[k]] <= 1
    decreases |mine| - from
  {
    if from == |mine| then None
    else if armies[mine[from]] > 1 then Some(from)
    else StrongIndex(mine, armies, from + 1)
  }

  /** What `issueOrder` did. */
  datatype Issued = IssuedDeploy | IssuedAdvance | PlayedCard | NoOrder

  /** A player (Player/Player.h:12-48). The hand of cards is a count of cards. */
  class Player {
    /** Distinguishes players where the source compares addresses (`makePair`). */
    const id: nat
    const name: string
    var territories: seq<TerritoryId>
    var cards: nat
    var reinforcementPool: int
    const ordersList: OrdersList

    /** `Player(name)` (Player/Player.cpp:5-10): empty pool, list, hand and orders. */
    constructor (id: nat, name: string)
      ensures this.id == id && this.name == name
      ensures territories == [] && cards == 0 && reinforcementPool == 0
      ensures fresh(ordersList) && ordersList.orders == []
    {
      this.id := id;
      this.name := name;
      territories := [];
      cards := 0;
      reinforcementPool := 0;
      ordersList := new OrdersList();
    }

    /** `addTerritory` (Player/Player.cpp:59-61): appends, without checking for a repeat. */
    method AddTerritory(t: TerritoryId)
      modifies this`territories
      ensures territories == old(territories) + [t]
    {
      territories := territories + [t];
    }

    /** `setReinforcementPool` (Player/Player.cpp:72-74): overwrites the pool. */
    method SetReinforcementPool(amount: int)
      modifies this`reinforcementPool
      ensures reinforcementPool == amount
    {
      reinforcementPool := amount;
    }

    /** `addReinforcement` (Player/Player.cpp:76-78): adds exactly `amount`. */
    method AddReinforcement(amount: int)
      modifies this`reinforcementPool
      ensures reinforcementPool == old(reinforcementPool) + amount
    {
      reinforcementPool := reinforcementPool + amount;
    }

    /**
     * `toAttack` (Player/Player.cpp:84-94): for each owned territory in list
     * order, its neighbours not owned by this player, repeats included.
     */
    method ToAttack(b: Board) returns (attackList: seq<TerritoryId>)
      requires b.Valid()
      requires forall k :: 0 <= k < |territories| ==> territories[k] < |b.adjacents|
      ensures attackList == AttackTargets(b.adjacents, b.owner, territories, this)
      ensures forall x :: x in attackList <==>
        (exists t :: t in territories && x in b.adjacents[t]) && x < |b.owner| && b.owner[x] != this
    {
      attackList := [];
      var mine := territories;
      for i := 0 to |mine|
        invariant attackList == AttackTargets(b.adjacents, b.owner, mine[..i], this)
      {
        var found := HostileNeighbours(b, b.adjacents[mine[i]]);
        attackList := attackList + found;
        assert mine[..i + 1][..i] == mine[..i];
      }
      assert mine[..|mine|] == mine;
      forall x {
        AttackTargetOf(b.adjacents, b.owner, territories, this, x);
      }
    }

    /** The inner loop of `toAttack` (Player/Player.cpp:87-91): the neighbours in `adj` this player does not own. */
    method HostileNeighbours(b: Board, adj: seq<TerritoryId>) returns (found: seq<TerritoryId>)
      requires forall k :: 0 <= k < |adj| ==> adj[k] < |b.owner|
      ensures found == Hostile(adj, b.owner, this)
    {
      found := [];
      for j := 0 to |adj|
        invariant found == Hostile(adj[..j], b.owner, this)
      {
        assert adj[..j + 1][..j] == adj[..j];
        if b.owner[adj[j]] != this {
          found := found + [adj[j]];
        }
      }
      assert adj[..|adj|] == adj;
    }

    /**
     * `issueOrder` (Player/Player.cpp:97-147), by priority:
     *  1. with reinforcements and a territory, a Deploy of `min(3, pool)` to
     *     the first territory, taken from the pool;
     *  2. otherwise, if `toAttack()` is non-empty, an Advance of half the
     *     armies of the first territory holding more than one army, aimed at
     *     the first attack target (not necessarily adjacent to that source);
     *  3. otherwise one card leaves the hand (what playing it does is not
     *     part of this model);
     *  4. otherwise nothing.
     */
    method IssueOrder(b: Board) returns (issued: Issued)
      requires b.Valid()
      requires forall k :: 0 <= k < |territories| ==> territories[k] < |b.adjacents|
      modifies this`reinforcementPool, this`cards, ordersList
      ensures old(reinforcementPool) > 0 && territories != [] ==>
        && issued == IssuedDeploy
        && ordersList.orders == old(ordersList.orders) + [Deploy(this, Min(3, old(reinforcementPool)), Some(territories[0]))]
        && reinforcementPool == old(reinforcementPool) - Min(3, old(reinforcementPool))
      ensures !(old(reinforcementPool) > 0 && territories != []) ==> reinforcementPool == old(reinforcementPool)
      ensures (&& !(old(reinforcementPool) > 0 && territories != [])
               && AttackTargets(b.adjacents, b.owner, territories, this) != []
               && StrongIndex(territories, b.armies, 0).Some?) ==>
        var source := territories[StrongIndex(territories, b.armies, 0).value];
        && issued == IssuedAdvance
        && ordersList.orders == old(ordersList.orders) +
             [Advance(this, b.armies[source] / 2, Some(source), Some(AttackTargets(b.adjacents, b.owner, territories, this)[0]))]
        && b.armies[source] / 2 > 0
      ensures issued == IssuedDeploy <==> old(reinforcementPool) > 0 && territories != []
      ensures issued == IssuedAdvance <==>
        && !(old(reinforcementPool) > 0 && territories != [])
        && AttackTargets(b.adjacents, b.owner, territories, this) != []
        && StrongIndex(territories, b.armies, 0).Some?
      ensures issued == PlayedCard <==>
        && !(old(reinforcementPool) > 0 && territories != [])
        && (AttackTargets(b.adjacents, b.owner, territories, this) == [] || StrongIndex(territories, b.armies, 0).None?)
        && old(cards) > 0
      ensures issued == PlayedCard ==> cards == old(cards) - 1
      ensures issued != PlayedCard ==> cards == old(cards)
      ensures issued in {PlayedCard, NoOrder} ==> ordersList.orders == old(ordersList.orders)
      ensures |ordersList.orders| <= |old(ordersList.orders)| + 1
      ensures reinforcementPool <= old(reinforcementPool)
      ensures old(reinforcementPool) >= 0 ==> reinforcementPool >= 0
    {
      if reinforcementPool > 0 && territories != [] {
        var target := territories[0];
        var toDeploy := Min(3, reinforcementPool);
        ordersList.Add(Deploy(this, toDeploy, Some(target)));
        reinforcementPool := reinforcementPool - toDeploy;
        return IssuedDeploy;
      }
      issued := IssueAdvance(b);
      if issued == IssuedAdvance {
        return;
      }
      if cards > 0 {
        cards := cards - 1;
        return PlayedCard;
      }
      return NoOrder;
    }

    /** Priority 2 of `issueOrder` (Player/Player.cpp:113-134): the scan for an Advance. */
    method IssueAdvance(b: Board) returns (issued: Issued)
      requires b.Valid()
      requires forall k :: 0 <= k < |territories| ==> territories[k] < |b.adjacents|
      modifies ordersList
      ensures issued in {IssuedAdvance, NoOrder}
      ensures issued == IssuedAdvance <==>
        AttackTargets(b.adjacents, b.owner, territories, this) != [] && StrongIndex(territories, b.armies, 0).Some?
      ensures issued == IssuedAdvance ==>
        var source := territories[StrongIndex(territories, b.armies, 0).value];
        && ordersList.orders == old(ordersList.orders) +
             [Advance(this, b.armies[source] / 2, Some(source), Some(AttackTargets(b.adjacents, b.owner, territories, this)[0]))]
        && b.armies[source] / 2 > 0
      ensures issued == NoOrder ==> ordersList.orders == old(ordersList.orders)
    {
      var mine := territories;
      for i := 0 to |mine|
        invariant ordersList.orders == old(ordersList.orders)
        invariant forall k :: 0 <= k < i ==>
          b.armies[mine[k]] <= 1 || AttackTargets(b.adjacents, b.owner, mine, this) == []
      {
        var source := mine[i];
        if b.armies[source] > 1 {
          var targets := ToAttack(b);
          if targets != [] {
            var target := targets[0];
            var armiesToMove := b.armies[source] / 2;
            if armiesToMove > 0 {
              ordersList.Add(Advance(this, armiesToMove, Some(source), Some(target)));
              assert StrongIndex(mine, b.armies, 0) == Some(i);
              return IssuedAdvance;
            }
          }
        }
      }
      return NoOrder;
    }
  }

  /**
   * `removeTerritoryFromPlayer` (Orders/Orders.cpp:76-87): erases the first
   * occurrence of the territory from the player's list. Its callers never
   * pass null, so the null check is not modelled.
   */
  method RemoveTerritoryFromPlayer(player: Player, territory: TerritoryId)
    modifies player`territories
    ensures player.territories == RemoveFirst(old(player.territories), territory)
  {
    var owned := player.territories;
    var i := 0;
    while i < |owned| && owned[i] != territory
      invariant i <= |owned|
      invariant territory !in owned[..i]
    {
      assert owned[..i + 1] == owned[..i] + [owned[i]];
      i := i + 1;
    }
    if i < |owned| {
      RemoveFirstAt(owned, territory, i);
      player.territories := owned[..i] + owned[i + 1..];
    } else {
      assert owned[..i] == owned;
    }
  }

  /** `playerOwnsTerritory` (Orders/Orders.cpp:62-73): the territory is in the player's list. */
  predicate PlayerOwnsTerritory(player: Player?, territory: TerritoryId)
    reads player
  {
    player != null && territory in player.territories
  }

  /** The loop of `playerOwnsTerritory` (Orders/Orders.cpp:62-73): the player's list is scanned for the territory. */
  method ScanOwned(player: Player?, territory: TerritoryId) returns (found: bool)
    ensures found == PlayerOwnsTerritory(player, territory)
  {
    if player == null {
      return false;
    }
    var owned := player.territories;
    for k := 0 to |owned|
      invariant territory !in owned[..k]
    {
      if owned[k] == territory {
        return true;
      }
      assert owned[..k + 1] == owned[..k] + [owned[k]];
    }
    assert owned[..|owned|] == owned;
    return false;
  }

  /**
   * `territoryTouchesPlayer` (Orders/Orders.cpp:90-100) given the player's
   * list `territories`: some territory in it has the territory as a
   * neighbour. (Its null check is the first check of its one caller.)
   */
  predicate TerritoryTouchesPlayer(adjacents: seq<seq<TerritoryId>>, territory: TerritoryId, territories: seq<TerritoryId>)
  {
    exists owned :: owned in territories && owned < |adjacents| && territory in adjacents[owned]
  }

  /**
   * The loop of `territoryTouchesPlayer` (Orders/Orders.cpp:90-100): each
   * listed territory is asked, in order, whether the territory is its
   * neighbour.
   */
  method ScanTouches(adjacents: seq<seq<TerritoryId>>, territory: TerritoryId, territories: seq<TerritoryId>)
    returns (found: bool)
    requires forall t :: t in territories ==> t < |adjacents|
    ensures found == TerritoryTouchesPlayer(adjacents, territory, territories)
  {
    for k := 0 to |territories|
      invariant forall j :: 0 <= j < k ==> territories[j] < |adjacents| && territory !in adjacents[territories[j]]
    {
      assert territories[k] in territories;
      var adjacent := ScanAdjacent(adjacents, territories[k], territory);
      if adjacent {
        return true;
      }
    }
    return false;
  }

  // ---------------------------------------------------------------------
  // The two ownership records

  /**
   * A player's list and the board agree: the list has no repeats, every
   * listed territory is owned by the player, and every territory the
   * player owns is listed.
   */
  ghost predicate Agrees(owner: seq<Player?>, p: Player, list: seq<TerritoryId>)
  {
    && Maps.Distinct(list)
    && (forall t :: t in list ==> t < |owner| && owner[t] == p)
    && (forall t :: 0 <= t < |owner| && owner[t] == p ==> t in list)
  }

  /**
   * The central invariant: every owner is one of `ps`, and each player of
   * `ps` lists exactly the territories the board says it owns.
   */
  ghost predicate Consistent(b: Board, ps: set<Player>)
    reads b`owner, ps`territories
  {
    && |b.owner| == |b.adjacents|
    && (forall t :: 0 <= t < |b.owner| && b.owner[t] != null ==> b.owner[t] in ps)
    && (forall p :: p in ps ==> Agrees(b.owner, p, p.territories))
  }

  /**
   * A player's list after territory `t` changes hands from `from` to `to`
   * in the source's steps: erased from the previous owner's list, then
   * appended to the new owner's list unless already there.
   */
  function Transferred(list: seq<TerritoryId>, p: Player, t: TerritoryId, from: Player?, to: Player): seq<TerritoryId>
  {
    var kept := if p == from then RemoveFirst(list, t) else list;
    if p == to && t !in kept then kept + [t] else kept
  }

  /** Changing a territory's owner together with both lists keeps every player's records in agreement. */
  lemma TransferKeepsAgreement(owner: seq<Player?>, t: TerritoryId, to: Player, p: Player, list: seq<TerritoryId>)
    requires t < |owner| && Agrees(owner, p, list)
    ensures Agrees(owner[t := to], p, Transferred(list, p, t, owner[t], to))
  {
    var from := owner[t];
    var kept := if p == from then RemoveFirst(list, t) else list;
    if p == from {
      RemoveFirstDistinct(list, t);
    }
    assert Maps.Distinct(kept);
    assert forall u :: u in kept ==> u in list;
    assert p != from ==> t !in list;
    var r := Transferred(list, p, t, from, to);
    if p == to && t !in kept {
      forall i, j | 0 <= i < j < |r|
        ensures r[i] != r[j]
      {
        if j == |kept| {
          assert r[i] in kept;
        }
      }
    }
  }

  /** The owner of territory `t`, if it has one. */
  function OwnerSet(b: Board, t: TerritoryId): set<Player>
    requires t < |b.owner|
    reads b
  {
    if b.owner[t] != null then {b.owner[t]} else {}
  }

  /**
   * Territory `t` passes to `to` (the ownership half of a conquest or a
   * blockade, Orders/Orders.cpp:436-442 and 639-643): the board and both
   * lists change as `Transferred` says, and the records stay consistent.
   */
  method Transfer(b: Board, t: TerritoryId, to: Player, ghost ps: set<Player>)
    requires b.Valid() && Consistent(b, ps) && to in ps && t < |b.owner|
    modifies b`owner, to`territories, OwnerSet(b, t)`territories
    ensures b.owner == old(b.owner)[t := to]
    ensures forall p :: p in ps ==> p.territories == Transferred(old(p.territories), p, t, old(b.owner[t]), to)
    ensures b.Valid() && Consistent(b, ps)
  {
    var from := b.owner[t];
    if from != null {
      RemoveTerritoryFromPlayer(from, t);
    }
    b.owner := b.owner[t := to];
    if !PlayerOwnsTerritory(to, t) {
      to.AddTerritory(t);
    }
    forall p | p in ps
      ensures p.territories == Transferred(old(p.territories), p, t, from, to)
      ensures Agrees(b.owner, p, p.territories)
    {
      if p != from && p != to {
        assert p.territories == old(p.territories);
      }
      TransferKeepsAgreement(old(b.owner), t, to, p, old(p.territories));
    }
  }

  // ---------------------------------------------------------------------
  // The turn-scoped sets (Orders/Orders.cpp:25-29)

  /** The order's pair of players keyed by id, lesser first (`makePair`, Orders/Orders.cpp:32-38). */
  function MakePair(a: Player, b: Player): (r: (nat, nat))
    ensures r.0 <= r.1
    ensures {r.0, r.1} == {a.id, b.id}
  {
    if a.id < b.id then (a.id, b.id) else (b.id, a.id)
  }

  /**
   * The negotiated pairs, the players granted a card this turn, and the
   * neutral player that receives blockaded territories.
   */
  class TurnState {
    var negotiated: set<(nat, nat)>
    var granted: set<Player>
    const neutral: Player

    /** The neutral player is created eagerly here, with id 0 reserved for it. */
    constructor ()
      ensures negotiated == {} && granted == {}
      ensures fresh(neutral) && fresh(neutral.ordersList) && neutral.id == 0 && neutral.name == "Neutral"
      ensures neutral.territories == [] && neutral.cards == 0 && neutral.reinforcementPool == 0
      ensures neutral.ordersList.orders == []
    {
      negotiated := {};
      granted := {};
      neutral := new Player(0, "Neutral");
    }

    /** `resetOrderTurnState` (Orders/Orders.cpp:946-949): both sets are cleared. */
    method Reset()
      modifies this`negotiated, this`granted
      ensures negotiated == {} && granted == {}
    {
      negotiated := {};
      granted := {};
    }
  }

  /** `hasNegotiation` (Orders/Orders.cpp:41-46) over the turn's `negotiated` pairs: false when either player is null. */
  predicate HasNegotiation(negotiated: set<(nat, nat)>, a: Player?, b: Player?)
  {
    a != null && b != null && MakePair(a, b) in negotiated
  }

  /** A truce binds both players whichever of them is asked about. */
  lemma NegotiationSymmetric(negotiated: set<(nat, nat)>, a: Player?, b: Player?)
    ensures HasNegotiation(negotiated, a, b) <==> HasNegotiation(negotiated, b, a)
  {
    if a != null && b != null {
      assert MakePair(a, b) == MakePair(b, a);
    }
  }

  /**
   * `grantCardForConquest` (Orders/Orders.cpp:110-123): a player not yet
   * granted a card this turn gets one and is recorded; otherwise nothing.
   */
  method GrantCardForConquest(ts: TurnState, player: Player)
    modifies ts`granted, player`cards
    ensures player in old(ts.granted) ==> player.cards == old(player.cards) && ts.granted == old(ts.granted)
    ensures player !in old(ts.granted) ==> player.cards == old(player.cards) + 1 && ts.granted == old(ts.granted) + {player}
  {
    if player in ts.granted {
      return;
    }
    player.cards := player.cards + 1;
    ts.granted := ts.granted + {player};
  }

  /**
   * `grantCardForConquest` on values: the hands `cards` and the granted set
   * after `player` conquers.
   */
  function GrantCard<T>(cards: map<T, nat>, granted: set<T>, player: T): (r: (map<T, nat>, set<T>))
    requires player in cards
    ensures r.0.Keys == cards.Keys && r.1 == granted + {player}
    ensures player in granted ==> r.0 == cards
    ensures player !in granted ==> r.0 == cards[player := cards[player] + 1]
  {
    if player in granted then (cards, granted) else (cards[player := cards[player] + 1], granted + {player})
  }

  /** The hands and granted set after `conquerors` conquer in turn, one `GrantCard` each. */
  function GrantEach<T>(cards: map<T, nat>, granted: set<T>, conquerors: seq<T>): (map<T, nat>, set<T>)
    requires forall c :: c in conquerors ==> c in cards
    decreases |conquerors|
  {
    if conquerors == [] then (cards, granted)
    else
      var next := GrantCard(cards, granted, conquerors[0]);
      GrantEach(next.0, next.1, conquerors[1..])
  }

  /**
   * Repeated `GrantCard` hands out exactly the cards `Grants` lists: every
   * player's hand grows by its count in `Grants`.
   */
  lemma {:induction false} GrantEachCounts<T>(cards: map<T, nat>, granted: set<T>, conquerors: seq<T>, p: T)
    requires forall c :: c in conquerors ==> c in cards
    requires p in cards
    ensures p in GrantEach(cards, granted, conquerors).0
    ensures GrantEach(cards, granted, conquerors).0[p] == cards[p] + multiset(Grants(granted, conquerors))[p]
    decreases |conquerors|
  {
    if conquerors != [] {
      var c := conquerors[0];
      var next := GrantCard(cards, granted, c);
      assert forall x :: x in conquerors[1..] ==> x in conquerors;
      GrantEachCounts(next.0, next.1, conquerors[1..], p);
      if c !in granted {
        assert multiset([c] + Grants(granted + {c}, conquerors[1..])) ==
          multiset{c} + multiset(Grants(granted + {c}, conquerors[1..]));
      }
    }
  }

  /** After repeated `GrantCard` every conqueror has been granted a card this turn. */
  lemma {:induction false} GrantEachGranted<T>(cards: map<T, nat>, granted: set<T>, conquerors: seq<T>)
    requires forall c :: c in conquerors ==> c in cards
    ensures GrantEach(cards, granted, conquerors).1 == granted + set c | c in conquerors
    decreases |conquerors|
  {
    if conquerors != [] {
      var c := conquerors[0];
      var next := GrantCard(cards, granted, c);
      assert forall x :: x in conquerors[1..] ==> x in conquerors;
      GrantEachGranted(next.0, next.1, conquerors[1..]);
      assert (set x | x in conquerors) == {c} + set x | x in conquerors[1..];
    }
  }

  /** The players that get a card when `conquerors` conquer in turn, starting from the granted set `granted`. */
  function Grants<T>(granted: set<T>, conquerors: seq<T>): seq<T>
    decreases |conquerors|
  {
    if conquerors == [] then []
    else if conquerors[0] in granted then Grants(granted, conquerors[1..])
    else [conquerors[0]] + Grants(granted + {conquerors[0]}, conquerors[1..])
  }

  /**
   * However many conquests a player makes between two resets, it is granted
   * one card if it conquered at all and was not granted before, else none.
   */
  lemma {:induction false} GrantedAtMostOnce<T>(granted: set<T>, conquerors: seq<T>, p: T)
    ensures multiset(Grants(granted, conquerors))[p] == if p !in granted && p in conquerors then 1 else 0
    decreases |conquerors|
  {
    if conquerors != [] {
      var c := conquerors[0];
      if c in granted {
        GrantedAtMostOnce(granted, conquerors[1..], p);
        assert p in conquerors <==> p == c || p in conquerors[1..];
      } else {
        GrantedAtMostOnce(granted + {c}, conquerors[1..], p);
        assert multiset([c] + Grants(granted + {c}, conquerors[1..])) ==
          multiset{c} + multiset(Grants(granted + {c}, conquerors[1..]));
        assert p in conquerors <==> p == c || p in conquerors[1..];
      }
    }
  }
}
