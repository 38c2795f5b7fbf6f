/**
 * The map of Map/Map.cpp and its validation: connectivity of the whole
 * territory graph, connectivity of each continent, and every territory
 * belonging to one continent only.
 *
 * Territory pointers are modelled by territory ids. The loader gives each
 * territory its insertion index as id (Map/Map.cpp:295), so `territories[i].id == i`
 * in every map it builds, and an adjacency list holds the ids of the neighbours.
 */
module Maps {
  import opened Wrappers

  datatype Territory = Territory(id: nat, name: string, continent: nat, adjacents: seq<nat>)

  /** A continent with the ids of its member territories, in insertion order. */
  datatype Continent = Continent(name: string, members: seq<nat>)

  datatype Map = Map(continents: seq<Continent>, territories: seq<Territory>)

  /** The shape every loaded map has: ids are indices and every reference resolves. */
  ghost predicate WellFormed(m: Map)
  {
    && (forall i :: 0 <= i < |m.territories| ==> m.territories[i].id == i)
    && (forall i :: 0 <= i < |m.territories| ==> m.territories[i].continent < |m.continents|)
    && (forall i, k :: 0 <= i < |m.territories| && 0 <= k < |m.territories[i].adjacents| ==>
          m.territories[i].adjacents[k] < |m.territories|)
    && (forall c, k :: 0 <= c < |m.continents| && 0 <= k < |m.continents[c].members| ==>
          m.continents[c].members[k] < |m.territories|)
  }

  /** The adjacency lists indexed by territory id. */
  function Adjacency(m: Map): (adj: seq<seq<nat>>)
    ensures |adj| == |m.territories|
    ensures forall i :: 0 <= i < |adj| ==> adj[i] == m.territories[i].adjacents
  {
    seq(|m.territories|, i requires 0 <= i < |m.territories| => m.territories[i].adjacents)
  }

  /** The ids of all territories, in map order. */
  function TerritoryIds(m: Map): (ids: seq<nat>)
    ensures |ids| == |m.territories|
    ensures forall i :: 0 <= i < |ids| ==> ids[i] == m.territories[i].id
  {
    seq(|m.territories|, i requires 0 <= i < |m.territories| => m.territories[i].id)
  }

  // ---------------------------------------------------------------------
  // getTerritory

  /** Index of the first territory with the given id, if any. */
  function FindId(ts: seq<Territory>, id: nat, from: nat): (r: Option<nat>)
    requires from <= |ts|
    ensures r.Some? ==> from <= r.value < |ts| && ts[r.value].id == id
    ensures r.Some? ==> forall j :: from <= j < r.value ==> ts[j].id != id
    ensures r.None? ==> forall j :: from <= j < |ts| ==> ts[j].id != id
    decreases |ts| - from
  {
    if from == |ts| then None
    else if ts[from].id == id then Some(from)
    else FindId(ts, id, from + 1)
  }

  /** `Map::getTerritory` (Map/Map.cpp:105-110): the first territory with that id, or none. */
  function GetTerritory(m: Map, id: nat): (r: Option<Territory>)
    ensures r.Some? ==> r.value.id == id && r.value in m.territories
    ensures r.Some? ==> exists i :: 0 <= i < |m.territories| && m.territories[i] == r.value &&
                                    forall j :: 0 <= j < i ==> m.territories[j].id != id
    ensures r.None? <==> forall j :: 0 <= j < |m.territories| ==> m.territories[j].id != id
  {
    match FindId(m.territories, id, 0)
    case Some(i) => Some(m.territories[i])
    case None => None
  }

  /** In a loaded map the territory with id `i` is the `i`-th one. */
  lemma GetTerritoryByIndex(m: Map, i: nat)
    requires WellFormed(m) && i < |m.territories|
    ensures GetTerritory(m, i) == Some(m.territories[i])
  {
    var r := FindId(m.territories, i, 0);
    assert m.territories[i].id == i;
    assert r.Some?;
    assert m.territories[r.value].id == i;
  }

  // ---------------------------------------------------------------------
  // Reachability inside an induced subgraph

  /** Every element of `s` occurs once. */
  predicate Distinct(s: seq<nat>)
  {
    forall i, j :: 0 <= i < j < |s| ==> s[i] != s[j]
  }

  /** A walk along adjacency edges that stays inside `allowed`. */
  ghost predicate IsPath(adj: seq<seq<nat>>, allowed: set<nat>, p: seq<nat>)
  {
    && |p| >= 1
    && (forall i :: 0 <= i < |p| ==> p[i] in allowed)
    && (forall i :: 0 <= i < |p| - 1 ==> p[i] < |adj| && p[i + 1] in adj[p[i]])
  }

  ghost predicate Reachable(adj: seq<seq<nat>>, allowed: set<nat>, from: nat, to: nat)
  {
    exists p :: IsPath(adj, allowed, p) && p[0] == from && p[|p| - 1] == to
  }

  /** The ids reachable from `from` using only edges between ids in `allowed`. */
  ghost function ReachSet(adj: seq<seq<nat>>, allowed: set<nat>, from: nat): set<nat>
  {
    set v | v in allowed && Reachable(adj, allowed, from, v)
  }

  /** The set of ids listed in `nodes` (the `allowed` set of the search). */
  function Elements(nodes: seq<nat>): (r: set<nat>)
    ensures forall v :: v in r <==> v in nodes
  {
    set v | v in nodes
  }

  /**
   * What `isTerritoriesConnected` computes: true for an empty list, and
   * otherwise whether as many ids are reachable from the first node as
   * there are nodes.
   */
  ghost predicate SearchConnected(adj: seq<seq<nat>>, nodes: seq<nat>)
  {
    |nodes| == 0 || |ReachSet(adj, Elements(nodes), nodes[0])| == |nodes|
  }

  /** What that check is meant to decide: every listed node can be reached from the first one. */
  ghost predicate AllReachable(adj: seq<seq<nat>>, nodes: seq<nat>)
  {
    |nodes| == 0 || forall k :: 0 <= k < |nodes| ==> Reachable(adj, Elements(nodes), nodes[0], nodes[k])
  }

  /** A set closed under the allowed edges holds everything reachable from inside it. */
  lemma {:induction false} ClosedHoldsPath(adj: seq<seq<nat>>, allowed: set<nat>, s: set<nat>, p: seq<nat>)
    requires IsPath(adj, allowed, p) && p[0] in s
    requires forall v, n :: v in s && v < |adj| && n in adj[v] && n in allowed ==> n in s
    ensures p[|p| - 1] in s
    decreases |p|
  {
    if |p| > 1 {
      var q := p[..|p| - 1];
      assert IsPath(adj, allowed, q);
      ClosedHoldsPath(adj, allowed, s, q);
      assert p[|p| - 2] in s;
    }
  }

  /** Extending a path by one allowed edge. */
  lemma ExtendPath(adj: seq<seq<nat>>, allowed: set<nat>, from: nat, v: nat, n: nat)
    requires Reachable(adj, allowed, from, v)
    requires v < |adj| && n in adj[v] && n in allowed
    ensures Reachable(adj, allowed, from, n)
  {
    var p :| IsPath(adj, allowed, p) && p[0] == from && p[|p| - 1] == v;
    var p' := p + [n];
    assert IsPath(adj, allowed, p');
    assert p'[0] == from && p'[|p'| - 1] == n;
  }

  /** A subset of a set of the same size is the whole set. */
  lemma SubsetSameSize(a: set<nat>, b: set<nat>)
    requires a <= b && |a| == |b|
    ensures a == b
  {
    var rest := b - a;
    assert b == a + rest;
    assert a !! rest;
    assert |b| == |a| + |rest|;
    assert |rest| == 0;
  }

  /** A subset is no larger than the set that holds it. */
  lemma SubsetSize(a: set<nat>, b: set<nat>)
    requires a <= b
    ensures |a| <= |b|
  {
    assert b == a + (b - a);
  }

  /** A sequence without repetitions has as many distinct elements as entries. */
  lemma {:induction false} DistinctSize(s: seq<nat>)
    requires Distinct(s)
    ensures |Elements(s)| == |s|
  {
    if s != [] {
      var t := s[..|s| - 1];
      assert Distinct(t);
      DistinctSize(t);
      assert Elements(s) == Elements(t) + {s[|s| - 1]};
      assert s[|s| - 1] !in Elements(t);
    }
  }

  /**
   * For distinct ids, the count comparison the search makes decides exactly
   * whether every listed node is reachable from the first.
   */
  lemma SearchConnectedMeaning(adj: seq<seq<nat>>, nodes: seq<nat>)
    requires Distinct(nodes)
    ensures SearchConnected(adj, nodes) <==> AllReachable(adj, nodes)
  {
    if |nodes| > 0 {
      var allowed := Elements(nodes);
      var r := ReachSet(adj, allowed, nodes[0]);
      DistinctSize(nodes);
      assert r <= allowed;
      if |r| == |nodes| {
        SubsetSameSize(r, allowed);
        forall k | 0 <= k < |nodes|
          ensures Reachable(adj, allowed, nodes[0], nodes[k])
        {
          assert nodes[k] in allowed;
        }
      }
      if AllReachable(adj, nodes) {
        forall v | v in allowed
          ensures v in r
        {
          var k :| 0 <= k < |nodes| && nodes[k] == v;
        }
        assert r == allowed;
      }
    }
  }

  /** The first loop of `isTerritoriesConnected` (Map/Map.cpp:125-131): the set of listed ids. */
  method CollectIds(nodes: seq<nat>) returns (allowed: set<nat>)
    ensures allowed == Elements(nodes)
  {
    allowed := {};
    for k := 0 to |nodes|
      invariant allowed == Elements(nodes[..k])
    {
      assert nodes[..k + 1] == nodes[..k] + [nodes[k]];
      allowed := allowed + {nodes[k]};
    }
    assert nodes[..|nodes|] == nodes;
  }

  /**
   * The inner loop of the search in `isTerritoriesConnected`
   * (Map/Map.cpp:139-150): every allowed neighbour of `cur` ends up
   * visited, and the ones visited for the first time join the queue; all
   * of them are reachable from `start` since `cur` is.
   */
  method VisitNeighbours(adj: seq<seq<nat>>, allowed: set<nat>, start: nat, cur: nat, visited: set<nat>, q: seq<nat>)
    returns (visited': set<nat>, q': seq<nat>)
    requires cur < |adj| && Reachable(adj, allowed, start, cur) && visited <= allowed
    requires forall v :: v in visited ==> Reachable(adj, allowed, start, v)
    requires forall v :: v in q ==> v in visited
    ensures visited <= visited' <= allowed
    ensures forall v :: v in q ==> v in q'
    ensures forall v :: v in q' ==> v in visited'
    ensures forall v :: v in visited' ==> Reachable(adj, allowed, start, v)
    ensures forall v :: v in visited' && v !in visited ==> v in q'
    ensures forall n :: n in adj[cur] && n in allowed ==> n in visited'
    ensures |q'| == |q| + |visited'| - |visited|
  {
    visited', q' := visited, q;
    for j := 0 to |adj[cur]|
      invariant visited <= visited' <= allowed
      invariant forall v :: v in q ==> v in q'
      invariant forall v :: v in q' ==> v in visited'
      invariant forall v :: v in visited' ==> Reachable(adj, allowed, start, v)
      invariant forall v :: v in visited' && v !in visited ==> v in q'
      invariant forall i :: 0 <= i < j && adj[cur][i] in allowed ==> adj[cur][i] in visited'
      invariant |q'| == |q| + |visited'| - |visited|
    {
      var n := adj[cur][j];
      if n in allowed && n !in visited' {
        ExtendPath(adj, allowed, start, cur, n);
        visited' := visited' + {n};
        q' := q' + [n];
      }
    }
  }

  /**
   * The breadth-first search of `isTerritoriesConnected`
   * (Map/Map.cpp:133-152): it visits exactly the allowed ids reachable
   * from `start`.
   */
  method Search(adj: seq<seq<nat>>, allowed: set<nat>, start: nat) returns (visited: set<nat>)
    requires start in allowed && forall v :: v in allowed ==> v < |adj|
    ensures visited == ReachSet(adj, allowed, start)
  {
    visited := {start};
    var q: seq<nat> := [start];
    assert IsPath(adj, allowed, [start]);
    while q != []
      invariant start in visited
      invariant visited <= allowed && |visited| <= |allowed|
      invariant forall v :: v in q ==> v in visited
      invariant forall v :: v in visited ==> Reachable(adj, allowed, start, v)
      invariant forall v :: v in visited && v !in q ==>
                  forall n :: n in adj[v] && n in allowed ==> n in visited
      decreases |allowed| - |visited|, |q|
    {
      var cur := q[0];
      assert cur in visited by {
        assert q[0] in q;
      }
      q := q[1..];
      ghost var visited0 := visited;
      visited, q := VisitNeighbours(adj, allowed, start, cur, visited, q);
      SubsetSize(visited, allowed);
      SubsetSize(visited0, visited);
    }
    forall v | v in allowed && Reachable(adj, allowed, start, v)
      ensures v in visited
    {
      var p :| IsPath(adj, allowed, p) && p[0] == start && p[|p| - 1] == v;
      ClosedHoldsPath(adj, allowed, visited, p);
    }
  }

  /**
   * `isTerritoriesConnected` (Map/Map.cpp:123-154): breadth-first search
   * from the first node that only follows edges to listed ids; connected
   * when the number of visited ids equals the number of nodes.
   */
  method IsTerritoriesConnected(adj: seq<seq<nat>>, nodes: seq<nat>) returns (connected: bool)
    requires forall k :: 0 <= k < |nodes| ==> nodes[k] < |adj|
    ensures connected == SearchConnected(adj, nodes)
    ensures Distinct(nodes) ==> (connected <==> AllReachable(adj, nodes))
  {
    if |nodes| == 0 {
      return true;
    }
    var allowed := CollectIds(nodes);
    var visited := Search(adj, allowed, nodes[0]);
    connected := |visited| == |nodes|;
    if Distinct(nodes) {
      SearchConnectedMeaning(adj, nodes);
    }
  }

  // ---------------------------------------------------------------------
  // continentsAreConnected, territoriesHaveUniqueContinent, validate

  /** What `continentsAreConnected` computes: no continent is empty and the search succeeds on each. */
  ghost predicate ContinentsConnected(m: Map)
  {
    forall c :: 0 <= c < |m.continents| ==>
      |m.continents[c].members| > 0 && SearchConnected(Adjacency(m), m.continents[c].members)
  }

  /**
   * `Map::continentsAreConnected` (Map/Map.cpp:162-172): false at the first
   * continent that is empty or whose territories are not connected among
   * themselves.
   */
  method ContinentsAreConnected(m: Map) returns (ok: bool)
    requires WellFormed(m)
    ensures ok == ContinentsConnected(m)
    ensures !ok <==> exists c :: 0 <= c < |m.continents| &&
                      (|m.continents[c].members| == 0 || !SearchConnected(Adjacency(m), m.continents[c].members))
  {
    var adj := Adjacency(m);
    var c := 0;
    while c < |m.continents|
      invariant 0 <= c <= |m.continents|
      invariant forall d :: 0 <= d < c ==>
                  |m.continents[d].members| > 0 && SearchConnected(adj, m.continents[d].members)
    {
      var members := m.continents[c].members;
      if |members| == 0 {
        return false;
      }
      var connected := IsTerritoriesConnected(adj, members);
      if !connected {
        return false;
      }
      c := c + 1;
    }
    return true;
  }

  /** The member lists of all continents, one after the other. */
  function AllMembers(cs: seq<Continent>): (r: seq<nat>)
    ensures |cs| > 0 ==> r == AllMembers(cs[..|cs| - 1]) + cs[|cs| - 1].members
  {
    if cs == [] then [] else AllMembers(cs[..|cs| - 1]) + cs[|cs| - 1].members
  }

  /** The members of the first `k` continents come first in the list of all members. */
  lemma {:induction false} AllMembersPrefix(cs: seq<Continent>, k: nat)
    requires k <= |cs|
    ensures AllMembers(cs[..k]) <= AllMembers(cs)
    decreases |cs|
  {
    if k < |cs| {
      var init := cs[..|cs| - 1];
      assert init[..k] == cs[..k];
      AllMembersPrefix(init, k);
    } else {
      assert cs[..k] == cs;
    }
  }

  /** A list with a repetition stays one when extended. */
  lemma RepeatInPrefix(s: seq<nat>, t: seq<nat>)
    requires s <= t && !Distinct(s)
    ensures !Distinct(t)
  {
    var i, j :| 0 <= i < j < |s| && s[i] == s[j];
    assert t[i] == t[j];
  }

  /** Both halves of a list without repetitions are without repetitions. */
  lemma DistinctParts(a: seq<nat>, b: seq<nat>)
    requires Distinct(a + b)
    ensures Distinct(a) && Distinct(b)
  {
    forall i, j | 0 <= i < j < |a|
      ensures a[i] != a[j]
    {
      assert a[i] == (a + b)[i] && a[j] == (a + b)[j];
    }
    forall i, j | 0 <= i < j < |b|
      ensures b[i] != b[j]
    {
      assert b[i] == (a + b)[|a| + i] && b[j] == (a + b)[|a| + j];
    }
  }

  /** When no id is repeated across continents, none is repeated inside one. */
  lemma {:induction false} MembersDistinct(cs: seq<Continent>, c: nat)
    requires c < |cs| && Distinct(AllMembers(cs))
    ensures Distinct(cs[c].members)
    decreases |cs|
  {
    var init := cs[..|cs| - 1];
    DistinctParts(AllMembers(init), cs[|cs| - 1].members);
    if c < |cs| - 1 {
      assert init[c] == cs[c];
      MembersDistinct(init, c);
    }
  }

  /**
   * The inner loop of `Map::territoriesHaveUniqueContinent`
   * (Map/Map.cpp:177-180) over one continent's members, with the ids of
   * the earlier continents in `ids`: false as soon as an id is met a
   * second time; otherwise `ids` grows by the members.
   */
  method AddMembers(ghost before: seq<nat>, members: seq<nat>, ids: set<nat>) returns (ok: bool, ids': set<nat>)
    requires ids == Elements(before) && Distinct(before)
    ensures ok <==> Distinct(before + members)
    ensures ok ==> ids' == Elements(before + members)
  {
    ids' := ids;
    for t := 0 to |members|
      invariant ids' == Elements(before + members[..t]) && Distinct(before + members[..t])
    {
      var x := members[t];
      assert members[..t + 1] == members[..t] + [x];
      assert before + members[..t + 1] == (before + members[..t]) + [x];
      if x in ids' {
        ghost var k :| 0 <= k < |before + members[..t]| && (before + members[..t])[k] == x;
        assert !Distinct(before + members[..t + 1]) by {
          assert (before + members[..t + 1])[k] == x;
          assert (before + members[..t + 1])[|before| + t] == x;
        }
        assert before + members[..t + 1] <= before + members;
        RepeatInPrefix(before + members[..t + 1], before + members);
        return false, ids';
      }
      ids' := ids' + {x};
    }
    assert members[..|members|] == members;
    return true, ids';
  }

  /**
   * `Map::territoriesHaveUniqueContinent` (Map/Map.cpp:175-183): false as
   * soon as a territory id is met a second time across the continents'
   * member lists.
   */
  method TerritoriesHaveUniqueContinent(m: Map) returns (ok: bool)
    ensures ok <==> Distinct(AllMembers(m.continents))
  {
    var cs := m.continents;
    var ids: set<nat> := {};
    for c := 0 to |cs|
      invariant ids == Elements(AllMembers(cs[..c])) && Distinct(AllMembers(cs[..c]))
    {
      ghost var before := AllMembers(cs[..c]);
      assert cs[..c + 1][..c] == cs[..c];
      assert AllMembers(cs[..c + 1]) == before + cs[c].members;
      var unique;
      unique, ids := AddMembers(before, cs[c].members, ids);
      if !unique {
        AllMembersPrefix(cs, c + 1);
        RepeatInPrefix(before + cs[c].members, AllMembers(cs));
        return false;
      }
    }
    assert cs[..|cs|] == cs;
    return true;
  }

  /** What `Map::validate` computes: the conjunction of the three checks. */
  ghost predicate ValidMap(m: Map)
  {
    && SearchConnected(Adjacency(m), TerritoryIds(m))
    && ContinentsConnected(m)
    && Distinct(AllMembers(m.continents))
  }

  /**
   * `Map::validate` (Map/Map.cpp:116-121): all three checks are run and the
   * map is valid when all of them hold.
   */
  method Validate(m: Map) returns (ok: bool)
    requires WellFormed(m)
    ensures ok == ValidMap(m)
  {
    var graphConnected := IsTerritoriesConnected(Adjacency(m), TerritoryIds(m));
    var continentConnected := ContinentsAreConnected(m);
    var uniqueContinents := TerritoriesHaveUniqueContinent(m);
    ok := graphConnected && continentConnected && uniqueContinents;
  }

  /**
   * What a valid map means: every territory is reachable from the first
   * listed territory through the adjacency graph, every continent is
   * non-empty and each of its territories is reachable from its first
   * listed member using its own territories only, and no territory is
   * listed in two continents (or twice in one).
   */
  lemma ValidMapMeaning(m: Map)
    requires WellFormed(m)
    ensures ValidMap(m) <==>
      && AllReachable(Adjacency(m), TerritoryIds(m))
      && (forall c :: 0 <= c < |m.continents| ==>
            |m.continents[c].members| > 0 && AllReachable(Adjacency(m), m.continents[c].members))
      && Distinct(AllMembers(m.continents))
  {
    var adj := Adjacency(m);
    var ids := TerritoryIds(m);
    assert Distinct(ids);
    SearchConnectedMeaning(adj, ids);
    if Distinct(AllMembers(m.continents)) {
      forall c | 0 <= c < |m.continents|
        ensures SearchConnected(adj, m.continents[c].members) <==> AllReachable(adj, m.continents[c].members)
      {
        MembersDistinct(m.continents, c);
        SearchConnectedMeaning(adj, m.continents[c].members);
      }
    }
  }
}
