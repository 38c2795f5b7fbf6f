/**
 * The arithmetic and the orderings behind the turn loop of
 * Game_Engine/GameEngine.cpp, as functions of values: the reinforcement
 * rule, the initial round-robin deal of territories, and which orders the
 * execute-orders phase runs, in which order, given the players' lists at
 * the start of the phase.
 */
module Schedule {
  import opened Game

  // ---------------------------------------------------------------------
  // Reinforcements (Game_Engine/GameEngine.cpp:312-313)

  /** `std::max(3, territoriesOwned / 3)`: the larger of 3 and a third of the territories. */
  function Reinforcements(owned: nat): (r: nat)
    ensures r >= 3 && r >= owned / 3
    ensures r == 3 || r == owned / 3
  {
    if owned / 3 > 3 then owned / 3 else 3
  }

  /**
   * A reinforcement phase followed by spending: each pool is at most what it
   * was plus `Reinforcements` of the territories held, and is not negative
   * when that sum is not.
   */
  predicate Reinforced(before: seq<int>, held: seq<nat>, after: seq<int>)
  {
    && |before| == |held| == |after|
    && forall j :: 0 <= j < |after| ==>
      var pool := before[j] + Reinforcements(held[j]);
      after[j] <= pool && (pool >= 0 ==> after[j] >= 0)
  }

  /** The reinforcement phase alone: each pool grows by `Reinforcements` of the territories held. */
  predicate PoolsGrown(before: seq<int>, held: seq<nat>, mid: seq<int>)
  {
    && |before| == |held| == |mid|
    && forall j :: 0 <= j < |mid| ==> mid[j] == before[j] + Reinforcements(held[j])
  }

  /** Spending alone: no pool grows, and none turns negative. */
  predicate Spent(mid: seq<int>, after: seq<int>)
  {
    && |mid| == |after|
    && forall j :: 0 <= j < |after| ==> after[j] <= mid[j] && (mid[j] >= 0 ==> after[j] >= 0)
  }

  /** Reinforcing every pool and then only spending from it is `Reinforced`. */
  lemma ReinforcedThenSpent(before: seq<int>, held: seq<nat>, mid: seq<int>, after: seq<int>)
    requires PoolsGrown(before, held, mid) && Spent(mid, after)
    ensures Reinforced(before, held, after)
  {
  }

  /**
   * Fewer than 12 territories earn the minimum of 3; from 12 on a third of
   * them, so owning more never earns less.
   */
  lemma ReinforcementsGrow(owned: nat, more: nat)
    requires owned <= more
    ensures Reinforcements(owned) == 3 <==> owned < 12
    ensures owned >= 12 ==> Reinforcements(owned) == owned / 3
    ensures Reinforcements(owned) <= Reinforcements(more)
  {
    assert owned / 3 <= more / 3;
  }

  // ---------------------------------------------------------------------
  // The initial deal (Game_Engine/GameEngine.cpp:428-434)

  /**
   * The territories among the first `count` that the deal gives to the
   * player at index `j` of `n`: those whose index is `j` modulo `n`, in
   * increasing order.
   */
  function Dealt(j: nat, n: nat, count: nat): (r: seq<TerritoryId>)
    requires n > 0
    ensures forall t: nat :: t in r <==> t < count && t % n == j
    ensures forall a :: 0 <= a < |r| ==> r[a] < count
    ensures forall a, b :: 0 <= a < b < |r| ==> r[a] < r[b]
  {
    if count == 0 then []
    else Dealt(j, n, count - 1) + (if (count - 1) % n == j then [count - 1] else [])
  }

  /** Dealing 12 territories to 3 players gives the second player territories 1, 4, 7 and 10. */
  lemma DealExample()
    ensures Dealt(1, 3, 12) == [1, 4, 7, 10]
  {
    assert Dealt(1, 3, 1) == [];
    assert Dealt(1, 3, 2) == [1];
    assert Dealt(1, 3, 5) == [1, 4];
    assert Dealt(1, 3, 8) == [1, 4, 7];
  }

  /** A player receives one territory per complete round of the deal, plus one if the last round reached them. */
  lemma {:induction false} DealtCount(j: nat, n: nat, count: nat)
    requires j < n
    ensures |Dealt(j, n, count)| == count / n + (if count % n > j then 1 else 0)
  {
    if count > 0 {
      var c := count - 1;
      DealtCount(j, n, c);
      DivModStep(c, n);
    }
  }

  /** Division and remainder by `n` when one is added. */
  lemma DivModStep(c: nat, n: nat)
    requires n > 0
    ensures c % n == n - 1 ==> (c + 1) / n == c / n + 1 && (c + 1) % n == 0
    ensures c % n < n - 1 ==> (c + 1) / n == c / n && (c + 1) % n == c % n + 1
  {
    var q, r := c / n, c % n;
    assert c == q * n + r;
    if r == n - 1 {
      assert c + 1 == (q + 1) * n + 0;
      DivModUnique(c + 1, n, q + 1, 0);
    } else {
      assert c + 1 == q * n + (r + 1);
      DivModUnique(c + 1, n, q, r + 1);
    }
  }

  /** Euclidean division is the only way to write `x` as `q * n + r` with `0 <= r < n`. */
  lemma DivModUnique(x: nat, n: nat, q: nat, r: nat)
    requires n > 0 && r < n && x == q * n + r
    ensures x / n == q && x % n == r
  {
    var q0, r0 := x / n, x % n;
    assert q0 * n + r0 == q * n + r;
    if q0 < q {
      assert (q - q0) * n == r0 - r;
      MulAtLeast(q - q0, n);
    } else if q < q0 {
      assert (q0 - q) * n == r - r0;
      MulAtLeast(q0 - q, n);
    }
  }

  lemma MulAtLeast(k: nat, n: nat)
    requires k >= 1
    ensures k * n >= n
  {
    assert k * n == (k - 1) * n + n;
  }

  /**
   * The deal is fair: an earlier player receives as many territories as a
   * later one, or one more.
   */
  lemma DealIsFair(i: nat, j: nat, n: nat, count: nat)
    requires i < j < n
    ensures |Dealt(j, n, count)| <= |Dealt(i, n, count)| <= |Dealt(j, n, count)| + 1
  {
    DealtCount(i, n, count);
    DealtCount(j, n, count);
  }

  // ---------------------------------------------------------------------
  // The execute-orders phase (Game_Engine/GameEngine.cpp:381-417)

  /** The Deploy orders of a list, in list order. */
  function Deploys(s: seq<Order>): (r: seq<Order>)
    ensures forall k :: 0 <= k < |r| ==> r[k].Deploy?
  {
    if s == [] then []
    else Deploys(s[..|s| - 1]) + (if s[|s| - 1].Deploy? then [s[|s| - 1]] else [])
  }

  /** The other orders of a list, in list order: what the first loop leaves behind. */
  function NonDeploys(s: seq<Order>): (r: seq<Order>)
    ensures forall k :: 0 <= k < |r| ==> !r[k].Deploy?
  {
    if s == [] then []
    else NonDeploys(s[..|s| - 1]) + (if s[|s| - 1].Deploy? then [] else [s[|s| - 1]])
  }

  /** Splitting a list into its Deploys and the rest loses and adds nothing. */
  lemma {:induction false} DeploysPartition(s: seq<Order>)
    ensures multiset(Deploys(s)) + multiset(NonDeploys(s)) == multiset(s)
  {
    if s != [] {
      var init, last := s[..|s| - 1], s[|s| - 1];
      DeploysPartition(init);
      assert s == init + [last];
      assert multiset(s) == multiset(init) + multiset{last};
      if last.Deploy? {
        assert multiset(Deploys(s)) == multiset(Deploys(init)) + multiset{last};
        assert NonDeploys(s) == NonDeploys(init);
      } else {
        assert Deploys(s) == Deploys(init);
        assert multiset(NonDeploys(s)) == multiset(NonDeploys(init)) + multiset{last};
      }
    }
  }

  /** A list without Deploys is left as it is. */
  lemma {:induction false} NoDeploysKept(s: seq<Order>)
    requires forall k :: 0 <= k < |s| ==> !s[k].Deploy?
    ensures NonDeploys(s) == s && Deploys(s) == []
  {
    if s != [] {
      NoDeploysKept(s[..|s| - 1]);
    }
  }

  /** Both filters work piecewise, so each keeps the relative order of what it keeps. */
  lemma FiltersAppend(a: seq<Order>, b: seq<Order>)
    ensures Deploys(a + b) == Deploys(a) + Deploys(b)
    ensures NonDeploys(a + b) == NonDeploys(a) + NonDeploys(b)
  {
    DeploysAppend(a, b);
    NonDeploysAppend(a, b);
  }

  lemma {:induction false} DeploysAppend(a: seq<Order>, b: seq<Order>)
    ensures Deploys(a + b) == Deploys(a) + Deploys(b)
    decreases |b|
  {
    if b == [] {
      assert a + b == a;
    } else {
      var ab, init, last := a + b, b[..|b| - 1], b[|b| - 1];
      DeploysAppend(a, init);
      assert ab[..|ab| - 1] == a + init && ab[|ab| - 1] == last;
      assert Deploys(ab) == Deploys(a + init) + (if last.Deploy? then [last] else []);
      assert Deploys(b) == Deploys(init) + (if last.Deploy? then [last] else []);
    }
  }

  lemma {:induction false} NonDeploysAppend(a: seq<Order>, b: seq<Order>)
    ensures NonDeploys(a + b) == NonDeploys(a) + NonDeploys(b)
    decreases |b|
  {
    if b == [] {
      assert a + b == a;
    } else {
      var ab, init, last := a + b, b[..|b| - 1], b[|b| - 1];
      NonDeploysAppend(a, init);
      assert ab[..|ab| - 1] == a + init && ab[|ab| - 1] == last;
      assert NonDeploys(ab) == NonDeploys(a + init) + (if last.Deploy? then [] else [last]);
      assert NonDeploys(b) == NonDeploys(init) + (if last.Deploy? then [] else [last]);
    }
  }

  /** The Deploy orders of all lists, list by list: what the first loop runs. */
  function DeployPass(ls: seq<seq<Order>>): seq<Order>
  {
    if ls == [] then [] else DeployPass(ls[..|ls| - 1]) + Deploys(ls[|ls| - 1])
  }

  /** Every list without its Deploys: what the first loop leaves. */
  function WithoutDeploys(ls: seq<seq<Order>>): (r: seq<seq<Order>>)
    ensures |r| == |ls| && forall i :: 0 <= i < |ls| ==> r[i] == NonDeploys(ls[i])
  {
    seq(|ls|, i requires 0 <= i < |ls| => NonDeploys(ls[i]))
  }

  /** Every list is empty. */
  predicate AllEmpty(ls: seq<seq<Order>>)
  {
    forall i :: 0 <= i < |ls| ==> ls[i] == []
  }

  /** The number of orders in all lists. */
  function Total(ls: seq<seq<Order>>): nat
  {
    if ls == [] then 0 else Total(ls[..|ls| - 1]) + |ls[|ls| - 1]|
  }

  /** All orders of all lists, counted with repetition. */
  function Everything(ls: seq<seq<Order>>): multiset<Order>
  {
    if ls == [] then multiset{} else Everything(ls[..|ls| - 1]) + multiset(ls[|ls| - 1])
  }

  /** One round of the second loop: the first order of each non-empty list, in player order. */
  function Heads(ls: seq<seq<Order>>): seq<Order>
  {
    if ls == [] then []
    else Heads(ls[..|ls| - 1]) + (if ls[|ls| - 1] == [] then [] else [ls[|ls| - 1][0]])
  }

  /** The lists after one round: each non-empty list loses its first order. */
  function Tails(ls: seq<seq<Order>>): (r: seq<seq<Order>>)
    ensures |r| == |ls| && forall i :: 0 <= i < |ls| ==> r[i] == if ls[i] == [] then [] else ls[i][1..]
  {
    seq(|ls|, i requires 0 <= i < |ls| => if ls[i] == [] then [] else ls[i][1..])
  }

  /**
   * A round runs one order per non-empty list and removes exactly those
   * orders, so it runs something unless every list is empty.
   */
  lemma RoundTakesHeads(ls: seq<seq<Order>>)
    ensures Total(ls) == |Heads(ls)| + Total(Tails(ls))
    ensures Everything(ls) == multiset(Heads(ls)) + Everything(Tails(ls))
    ensures Heads(ls) == [] <==> AllEmpty(ls)
  {
    RoundCounts(ls);
    RoundMultiset(ls);
    RoundEmpty(ls);
  }

  lemma {:induction false} RoundCounts(ls: seq<seq<Order>>)
    ensures Total(ls) == |Heads(ls)| + Total(Tails(ls))
  {
    if ls != [] {
      var init, last := ls[..|ls| - 1], ls[|ls| - 1];
      RoundCounts(init);
      var tl := Tails(ls);
      assert tl[..|ls| - 1] == Tails(init);
    }
  }

  lemma {:induction false} RoundMultiset(ls: seq<seq<Order>>)
    ensures Everything(ls) == multiset(Heads(ls)) + Everything(Tails(ls))
  {
    if ls != [] {
      var init, last := ls[..|ls| - 1], ls[|ls| - 1];
      RoundMultiset(init);
      TailsOfLast(ls);
      var h := if last == [] then [] else [last[0]];
      assert multiset(Heads(ls)) == multiset(Heads(init)) + multiset(h);
      HeadAndTail(last);
    }
  }

  /** `Tails` taken on all lists but the last, then on the last. */
  lemma TailsOfLast(ls: seq<seq<Order>>)
    requires ls != []
    ensures Everything(Tails(ls)) == Everything(Tails(ls[..|ls| - 1])) + multiset(Tails(ls)[|ls| - 1])
  {
    assert Tails(ls)[..|ls| - 1] == Tails(ls[..|ls| - 1]);
  }

  /** A list is its first order and the rest. */
  lemma HeadAndTail(s: seq<Order>)
    ensures multiset(s) == multiset(if s == [] then [] else [s[0]]) + multiset(if s == [] then [] else s[1..])
  {
    if s != [] {
      assert s == [s[0]] + s[1..];
    }
  }

  lemma {:induction false} RoundEmpty(ls: seq<seq<Order>>)
    ensures Heads(ls) == [] <==> AllEmpty(ls)
  {
    if ls != [] {
      RoundEmpty(ls[..|ls| - 1]);
      assert AllEmpty(ls) <==> AllEmpty(ls[..|ls| - 1]) && ls[|ls| - 1] == [];
    }
  }

  /** A round over the first `i + 1` lists: the round over the first `i`, then list `i`. */
  lemma HeadsStep(ls: seq<seq<Order>>, i: nat)
    requires i < |ls|
    ensures Heads(ls[..i + 1]) == Heads(ls[..i]) + (if ls[i] == [] then [] else [ls[i][0]])
    ensures AllEmpty(ls[..i + 1]) <==> AllEmpty(ls[..i]) && ls[i] == []
  {
    assert ls[..i + 1][..i] == ls[..i];
  }

  /**
   * The first loop after `i` players: it has run `DeployPass` of their
   * lists, which it has replaced by `WithoutDeploys`; the later lists are
   * as they were.
   */
  predicate DeployPassSoFar(start: seq<seq<Order>>, i: nat, now: seq<seq<Order>>, ran: seq<Order>)
  {
    && i <= |start|
    && now == WithoutDeploys(start)[..i] + start[i..]
    && ran == DeployPass(start[..i])
  }

  /** Handling the Deploys of player `i` extends the first loop by one player. */
  lemma DeployPassStep(start: seq<seq<Order>>, i: nat, now: seq<seq<Order>>, ran: seq<Order>, more: seq<Order>)
    requires DeployPassSoFar(start, i, now, ran) && i < |start|
    requires more == Deploys(now[i])
    ensures now[i] == start[i]
    ensures DeployPassSoFar(start, i + 1, now[i := NonDeploys(now[i])], ran + more)
  {
    assert start[i..] == [start[i]] + start[i + 1..];
    assert start[..i + 1][..i] == start[..i];
  }

  /** After the last player the first loop has run every Deploy and left every list without them. */
  lemma DeployPassDone(start: seq<seq<Order>>, now: seq<seq<Order>>, ran: seq<Order>)
    requires DeployPassSoFar(start, |start|, now, ran)
    ensures now == WithoutDeploys(start) && ran == DeployPass(start)
  {
    assert start[..|start|] == start;
    assert WithoutDeploys(start)[..|start|] + start[|start|..] == WithoutDeploys(start);
  }

  /**
   * A round of the second loop after `i` players: it has run `Heads` of
   * their lists, which it has replaced by `Tails`; the later lists are as
   * they were.
   */
  predicate RunRoundSoFar(start: seq<seq<Order>>, i: nat, now: seq<seq<Order>>, ran: seq<Order>, hasOrders: bool)
  {
    && i <= |start|
    && now == Tails(start)[..i] + start[i..]
    && ran == Heads(start[..i])
    && (hasOrders <==> !AllEmpty(start[..i]))
  }

  /** The turn of player `i` extends a round by one player. */
  lemma RunRoundStep(start: seq<seq<Order>>, i: nat, now: seq<seq<Order>>, ran: seq<Order>, hasOrders: bool)
    requires RunRoundSoFar(start, i, now, ran, hasOrders) && i < |start|
    ensures now[i] == start[i]
    ensures now[i] != [] ==>
      RunRoundSoFar(start, i + 1, now[i := now[i][1..]], ran + [now[i][0]], true)
    ensures now[i] == [] ==>
      RunRoundSoFar(start, i + 1, now, ran, hasOrders)
  {
    var t := Tails(start);
    var next := t[..i + 1] + start[i + 1..];
    assert now[i] == start[i] by {
      assert now[i] == start[i..][0];
    }
    var stepped := if now[i] == [] then now else now[i := now[i][1..]];
    forall k | 0 <= k < |start|
      ensures stepped[k] == next[k]
    {
      if k < i {
        assert stepped[k] == now[k] == t[k];
      } else if k > i {
        assert stepped[k] == now[k] == start[k];
      }
    }
    assert |stepped| == |next|;
    assert stepped == next;
    HeadsStep(start, i);
  }

  /** After the last player a round has run `Heads` of every list and left `Tails`. */
  lemma RunRoundDone(start: seq<seq<Order>>, now: seq<seq<Order>>, ran: seq<Order>, hasOrders: bool)
    requires RunRoundSoFar(start, |start|, now, ran, hasOrders)
    ensures now == Tails(start) && ran == Heads(start) && (hasOrders <==> !AllEmpty(start))
  {
    assert start[..|start|] == start;
    assert Tails(start)[..|start|] + start[|start|..] == Tails(start);
  }

  /** Removing the first order of a non-empty list leaves its tail. */
  lemma RemovedFirst(s: seq<Order>)
    requires s != []
    ensures Removed(s, 0) == s[1..]
  {
  }

  /** The orders the second loop runs: round after round until every list is empty. */
  function RoundRobin(ls: seq<seq<Order>>): seq<Order>
    decreases Total(ls)
  {
    if AllEmpty(ls) then []
    else
      RoundTakesHeads(ls);
      Heads(ls) + RoundRobin(Tails(ls))
  }

  /**
   * The second loop so far: the orders run, followed by the round robin
   * of what is left, are the Deploys followed by the round robin of the
   * lists the first loop left; once a round finds no orders, nothing is left.
   */
  predicate RobinSoFar(deploys: seq<Order>, rest: seq<seq<Order>>, now: seq<seq<Order>>, ran: seq<Order>, hasOrders: bool)
  {
    && ran + RoundRobin(now) == deploys + RoundRobin(rest)
    && (!hasOrders ==> AllEmpty(now))
  }

  /**
   * One more round keeps the second loop on course, and either runs some
   * orders or finds that none are left.
   */
  lemma RobinStep(deploys: seq<Order>, rest: seq<seq<Order>>, now: seq<seq<Order>>, ran: seq<Order>, hasOrders: bool)
    requires RobinSoFar(deploys, rest, now, ran, true)
    requires hasOrders <==> !AllEmpty(now)
    ensures RobinSoFar(deploys, rest, Tails(now), ran + Heads(now), hasOrders)
    ensures hasOrders ==> Total(Tails(now)) < Total(now)
    ensures !hasOrders ==> Total(Tails(now)) == Total(now)
  {
    RoundTakesHeads(now);
    if hasOrders {
      RoundRobinUnfolds(now, ran);
    } else {
      IdleRound(now);
    }
  }

  /** A round that finds orders runs their heads ahead of the rest of the round robin. */
  lemma RoundRobinUnfolds(now: seq<seq<Order>>, ran: seq<Order>)
    requires !AllEmpty(now)
    ensures (ran + Heads(now)) + RoundRobin(Tails(now)) == ran + RoundRobin(now)
  {
    assert RoundRobin(now) == Heads(now) + RoundRobin(Tails(now));
  }

  /** A round over empty lists runs nothing and changes nothing. */
  lemma IdleRound(now: seq<seq<Order>>)
    requires AllEmpty(now)
    ensures Tails(now) == now && Heads(now) == []
  {
    RoundEmpty(now);
    forall i | 0 <= i < |now|
      ensures Tails(now)[i] == now[i]
    {
      assert now[i] == [];
    }
  }

  /** The round robin runs every order of every list exactly once. */
  lemma {:induction false} RoundRobinRunsEverything(ls: seq<seq<Order>>)
    ensures multiset(RoundRobin(ls)) == Everything(ls)
    ensures |RoundRobin(ls)| == Total(ls)
    decreases Total(ls)
  {
    RoundTakesHeads(ls);
    if AllEmpty(ls) {
      EmptyHasNothing(ls);
    } else {
      RoundRobinRunsEverything(Tails(ls));
    }
  }

  /** Empty lists hold no orders. */
  lemma {:induction false} EmptyHasNothing(ls: seq<seq<Order>>)
    requires AllEmpty(ls)
    ensures Everything(ls) == multiset{} && Total(ls) == 0
  {
    if ls != [] {
      EmptyHasNothing(ls[..|ls| - 1]);
    }
  }

  /** With a single list the round robin runs it front to back. */
  lemma {:induction false} RoundRobinSingle(s: seq<Order>)
    ensures RoundRobin([s]) == s
    decreases |s|
  {
    if s == [] {
      assert AllEmpty([s]);
    } else {
      assert [s][0] != [];
      assert Tails([s]) == [s[1..]];
      assert Heads([s]) == [s[0]] by {
        assert [s][..0] == [];
      }
      RoundRobinSingle(s[1..]);
      assert RoundRobin([s]) == [s[0]] + s[1..];
    }
  }

  /** The two passes together run every order of every list exactly once. */
  lemma {:induction false} PhaseRunsEverything(ls: seq<seq<Order>>)
    ensures multiset(DeployPass(ls)) + multiset(RoundRobin(WithoutDeploys(ls))) == Everything(ls)
  {
    RoundRobinRunsEverything(WithoutDeploys(ls));
    DeployPassSplits(ls);
  }

  lemma {:induction false} DeployPassSplits(ls: seq<seq<Order>>)
    ensures multiset(DeployPass(ls)) + Everything(WithoutDeploys(ls)) == Everything(ls)
    ensures forall k :: 0 <= k < |DeployPass(ls)| ==> DeployPass(ls)[k].Deploy?
  {
    if ls != [] {
      var init := ls[..|ls| - 1];
      DeployPassSplits(init);
      assert WithoutDeploys(ls)[..|ls| - 1] == WithoutDeploys(init);
      DeploysPartition(ls[|ls| - 1]);
    }
  }

  /** A list without Deploy orders. */
  predicate NoDeploys(s: seq<Order>)
  {
    forall k :: 0 <= k < |s| ==> !s[k].Deploy?
  }

  /**
   * Every Deploy order runs before every other order: the first pass runs
   * only Deploys, and the round robin over what it leaves runs none.
   */
  lemma DeploysRunFirst(ls: seq<seq<Order>>)
    ensures forall k :: 0 <= k < |DeployPass(ls)| ==> DeployPass(ls)[k].Deploy?
    ensures NoDeploys(RoundRobin(WithoutDeploys(ls)))
  {
    DeployPassSplits(ls);
    RoundRobinAvoids(WithoutDeploys(ls));
  }

  lemma {:induction false} RoundRobinAvoids(ls: seq<seq<Order>>)
    requires forall i :: 0 <= i < |ls| ==> NoDeploys(ls[i])
    ensures NoDeploys(RoundRobin(ls))
    decreases Total(ls)
  {
    RoundTakesHeads(ls);
    if !AllEmpty(ls) {
      HeadsAvoid(ls);
      RoundRobinAvoids(Tails(ls));
    }
  }

  lemma {:induction false} HeadsAvoid(ls: seq<seq<Order>>)
    requires forall i :: 0 <= i < |ls| ==> NoDeploys(ls[i])
    ensures NoDeploys(Heads(ls))
  {
    if ls != [] {
      HeadsAvoid(ls[..|ls| - 1]);
    }
  }
}
