/**
 * The line-level rules of the map-file parser (`MapLoader::parseFile`) and
 * `MapLoader::loadMap` of Map/Map.cpp.
 *
 * A map file is given as the sequence of its lines; opening and reading the
 * file are left out. Whether `std::stoi` accepts a string is the parameter
 * `isNumeric`.
 */
module MapLoader {
  import opened Wrappers
  import opened Text
  import opened Maps

  /** Which section header was seen last. */
  datatype Section = Outside | InContinents | InTerritories

  /** A trimmed line that is neither empty nor a section header. */
  predicate IsContent(line: string)
  {
    line != "" && line != "[Continents]" && line != "[Territories]"
  }

  /** Position of the first occurrence of `c` in `s` (`std::string::find`). */
  function IndexOf(s: string, c: char): (r: Option<nat>)
    ensures r.Some? ==> r.value < |s| && s[r.value] == c && c !in s[..r.value]
    ensures r.None? <==> c !in s
  {
    if s == [] then None
    else if s[0] == c then Some(0)
    else match IndexOf(s[1..], c)
      case None => None
      case Some(k) =>
        assert s[..k + 1] == [s[0]] + s[1..][..k];
        Some(k + 1)
  }

  /**
   * The continent name a continent-section line declares, or None when the
   * line is rejected: it has no '=', ends with it, or its bonus is not a
   * number (Map/Map.cpp:246-265).
   */
  function ContinentEntry(line: string, isNumeric: string -> bool): Option<string>
  {
    match IndexOf(line, '=')
    case None => None
    case Some(pos) =>
      if pos == |line| - 1 then None
      else if !isNumeric(Trim(line[pos + 1..])) then None
      else Some(Trim(line[..pos]))
  }

  /**
   * A continent line is accepted exactly when its first '=' has text after
   * it and that text is a number; the name is then the trimmed text before
   * the '='.
   */
  lemma ContinentEntryMeaning(line: string, isNumeric: string -> bool)
    ensures ContinentEntry(line, isNumeric).Some? <==>
              exists pos :: 0 <= pos < |line| - 1 && line[pos] == '=' && '=' !in line[..pos] &&
                            isNumeric(Trim(line[pos + 1..]))
    ensures forall pos ::
              (0 <= pos < |line| - 1 && line[pos] == '=' && '=' !in line[..pos] && isNumeric(Trim(line[pos + 1..]))) ==>
              ContinentEntry(line, isNumeric) == Some(Trim(line[..pos]))
  {
    var first := IndexOf(line, '=');
    if first.Some? {
      forall p | 0 <= p < |line| && line[p] == '=' && '=' !in line[..p]
        ensures p == first.value
      {
        FirstIndexUnique(line, '=', p, first.value);
      }
    }
  }

  /** There is only one first occurrence of a character. */
  lemma FirstIndexUnique(s: string, c: char, p: nat, q: nat)
    requires p < |s| && q < |s| && s[p] == c && s[q] == c && c !in s[..p] && c !in s[..q]
    ensures p == q
  {
  }

  /**
   * Whether a territory line with these comma-separated tokens is accepted:
   * at least four tokens, numeric coordinates, and a continent declared on an
   * earlier line (Map/Map.cpp:269-293).
   */
  predicate TerritoryTokensOk(tokens: seq<string>, known: set<string>, isNumeric: string -> bool)
  {
    |tokens| >= 4 && isNumeric(tokens[1]) && isNumeric(tokens[2]) && tokens[3] in known
  }

  /** The section after a trimmed line: a header switches it, any other line keeps it. */
  function NextSection(section: Section, line: string): Section
  {
    if line == "[Continents]" then InContinents
    else if line == "[Territories]" then InTerritories
    else section
  }

  /** Whether a trimmed line read in `section` lets the parse go on, given the continent names known so far. */
  predicate LineAccepted(line: string, section: Section, known: set<string>, isNumeric: string -> bool)
  {
    !IsContent(line) ||
    match section
    case Outside => true
    case InContinents => ContinentEntry(line, isNumeric).Some?
    case InTerritories => TerritoryTokensOk(SplitSpec(line, ','), known, isNumeric)
  }

  /** The continent names known after a trimmed line read in `section`. */
  function NextNames(line: string, section: Section, known: set<string>, isNumeric: string -> bool): set<string>
  {
    var entry := ContinentEntry(line, isNumeric);
    if IsContent(line) && section == InContinents && entry.Some? then known + {entry.value} else known
  }

  /** Every line with its boundary whitespace removed, as the parser reads it. */
  function TrimLines(lines: seq<string>): (r: seq<string>)
    ensures |r| == |lines| && forall i :: 0 <= i < |lines| ==> r[i] == Trim(lines[i])
  {
    seq(|lines|, i requires 0 <= i < |lines| => Trim(lines[i]))
  }

  /** The section the `i`-th of the trimmed lines `tls` belongs to. */
  function SectionBefore(tls: seq<string>, i: nat): Section
    requires i <= |tls|
  {
    if i == 0 then Outside else NextSection(SectionBefore(tls, i - 1), tls[i - 1])
  }

  /** The names of the continents declared by the accepted lines before line `i`. */
  function ContinentNames(tls: seq<string>, i: nat, isNumeric: string -> bool): set<string>
    requires i <= |tls|
  {
    if i == 0 then {}
    else NextNames(tls[i - 1], SectionBefore(tls, i - 1), ContinentNames(tls, i - 1, isNumeric), isNumeric)
  }

  /** Whether line `i` lets the parse go on. Lines outside both sections are ignored. */
  predicate LineOk(tls: seq<string>, i: nat, isNumeric: string -> bool)
    requires i < |tls|
  {
    LineAccepted(tls[i], SectionBefore(tls, i), ContinentNames(tls, i, isNumeric), isNumeric)
  }

  /** Whether all of the first `n` lines let the parse go on. */
  predicate LinesOk(tls: seq<string>, n: nat, isNumeric: string -> bool)
    requires n <= |tls|
  {
    forall j :: 0 <= j < n ==> LineOk(tls, j, isNumeric)
  }

  /** A line that lets the parse go on extends the accepted prefix by one. */
  lemma LinesOkExtend(tls: seq<string>, n: nat, isNumeric: string -> bool)
    requires n < |tls| && LinesOk(tls, n, isNumeric) && LineOk(tls, n, isNumeric)
    ensures LinesOk(tls, n + 1, isNumeric)
  {
    forall j | 0 <= j < n + 1
      ensures LineOk(tls, j, isNumeric)
    {
      if j == n {
      } else {
        assert 0 <= j < n;
      }
    }
  }

  /** Every adjacency is recorded in both directions. */
  ghost predicate SymmetricAdjacency(ts: seq<Territory>)
  {
    forall a, b :: 0 <= a < |ts| && 0 <= b < |ts| ==> (b in ts[a].adjacents <==> a in ts[b].adjacents)
  }

  /** Each territory is listed by the continent it points to, and only there. */
  ghost predicate MembershipAgrees(m: Map)
  {
    && (forall t :: 0 <= t < |m.territories| && m.territories[t].continent < |m.continents| ==>
          t in m.continents[m.territories[t].continent].members)
    && (forall c, k ::
          0 <= c < |m.continents| && 0 <= k < |m.continents[c].members| && m.continents[c].members[k] < |m.territories|
          ==> m.territories[m.continents[c].members[k]].continent == c)
  }

  /**
   * The parser's working state: the map built so far, the name lookups
   * (`continentMap`, `territoryMap`) and the adjacency lines kept for the
   * second pass.
   */
  datatype ParseState = ParseState(
    continents: seq<Continent>,
    territories: seq<Territory>,
    continentMap: map<string, nat>,
    territoryMap: map<string, nat>,
    adjacencyData: seq<(string, seq<string>)>)

  /** What holds of the state between two lines of the first pass. */
  ghost predicate Building(st: ParseState)
  {
    && (forall n :: n in st.continentMap ==> st.continentMap[n] < |st.continents|)
    && (forall n :: n in st.territoryMap ==> st.territoryMap[n] < |st.territories|)
    && (forall t :: 0 <= t < |st.territories| ==>
          st.territories[t].id == t && st.territories[t].continent < |st.continents| &&
          st.territories[t].adjacents == [])
    && (forall c, k :: 0 <= c < |st.continents| && 0 <= k < |st.continents[c].members| ==>
          st.continents[c].members[k] < |st.territories|)
    && MembershipAgrees(Map(st.continents, st.territories))
    && (forall e :: e in st.adjacencyData ==> e.0 in st.territoryMap)
  }

  /** A continent line: a new, empty continent that the name now refers to (Map/Map.cpp:258-260). */
  function AddContinent(st: ParseState, name: string): (r: ParseState)
    requires Building(st)
    ensures Building(r)
    ensures r.continentMap.Keys == st.continentMap.Keys + {name}
    ensures |r.continents| == |st.continents| + 1 && r.continents[|st.continents|] == Continent(name, [])
    ensures r.continents[..|st.continents|] == st.continents && r.continentMap[name] == |st.continents|
    ensures r.territories == st.territories
  {
    st.(continentMap := st.continentMap[name := |st.continents|],
        continents := st.continents + [Continent(name, [])])
  }

  /**
   * A territory line: a territory whose id is the number of territories so
   * far, listed by its continent and found by its name; its adjacency names
   * are kept for later (Map/Map.cpp:295-304).
   */
  function AddTerritory(st: ParseState, tokens: seq<string>): (r: ParseState)
    requires Building(st) && |tokens| >= 4 && tokens[3] in st.continentMap
    ensures Building(r)
    ensures r.continentMap == st.continentMap
    ensures |r.territories| == |st.territories| + 1 && r.territories[..|st.territories|] == st.territories
    ensures r.territories[|st.territories|] ==
              Territory(|st.territories|, tokens[0], st.continentMap[tokens[3]], [])
    ensures r.territoryMap == st.territoryMap[tokens[0] := |st.territories|]
  {
    var id := |st.territories|;
    var c := st.continentMap[tokens[3]];
    var continents := st.continents[c := st.continents[c].(members := st.continents[c].members + [id])];
    var territories := st.territories + [Territory(id, tokens[0], c, [])];
    var data := if |tokens| > 4 then st.adjacencyData + [(tokens[0], tokens[4..])] else st.adjacencyData;
    var r := ParseState(continents, territories, st.continentMap, st.territoryMap[tokens[0] := id], data);
    assert MembershipAgrees(Map(r.continents, r.territories)) by {
      forall t | 0 <= t < |territories| && territories[t].continent < |continents|
        ensures t in continents[territories[t].continent].members
      {
        if t < id {
          assert t in st.continents[st.territories[t].continent].members;
        } else {
          assert continents[c].members[|st.continents[c].members|] == id;
        }
      }
    }
    r
  }

  /** The section the two flags of the parser stand for; they are never both set. */
  function SectionOf(inContinents: bool, inTerritories: bool): Section
  {
    if inContinents then InContinents else if inTerritories then InTerritories else Outside
  }

  /**
   * The state after an accepted trimmed line read in `section`: a continent
   * line adds its continent, a territory line its territory, and any other
   * line leaves the state as it was (Map/Map.cpp:236-305).
   */
  function ReadLineState(line: string, section: Section, st: ParseState, isNumeric: string -> bool): (r: ParseState)
    requires Building(st) && LineAccepted(line, section, st.continentMap.Keys, isNumeric)
    ensures Building(r) && r.continentMap.Keys == NextNames(line, section, st.continentMap.Keys, isNumeric)
  {
    if !IsContent(line) then st
    else match section
      case Outside => st
      case InContinents => AddContinent(st, ContinentEntry(line, isNumeric).value)
      case InTerritories => AddTerritory(st, SplitSpec(line, ','))
  }

  /** The state the first pass leaves after the first `i` of the trimmed lines `tls`, all accepted. */
  function Parsed(tls: seq<string>, i: nat, isNumeric: string -> bool): (r: ParseState)
    requires i <= |tls| && LinesOk(tls, i, isNumeric)
    ensures Building(r) && r.continentMap.Keys == ContinentNames(tls, i, isNumeric)
  {
    if i == 0 then ParseState([], [], map[], map[], [])
    else
      assert LineOk(tls, i - 1, isNumeric);
      ReadLineState(tls[i - 1], SectionBefore(tls, i - 1), Parsed(tls, i - 1, isNumeric), isNumeric)
  }

  /**
   * One line of the first pass of `MapLoader::parseFile` (Map/Map.cpp:232-305):
   * `ok` is false when the line aborts the parse; otherwise the flags follow
   * the headers and accepted continent and territory lines are added.
   */
  method ParseLine(raw: string, inContinents: bool, inTerritories: bool, st: ParseState, isNumeric: string -> bool)
    returns (ok: bool, inContinents': bool, inTerritories': bool, st': ParseState)
    requires Building(st) && !(inContinents && inTerritories)
    ensures ok == LineAccepted(Trim(raw), SectionOf(inContinents, inTerritories), st.continentMap.Keys, isNumeric)
    ensures ok ==> && Building(st') && !(inContinents' && inTerritories')
                   && SectionOf(inContinents', inTerritories') == NextSection(SectionOf(inContinents, inTerritories), Trim(raw))
                   && st' == ReadLineState(Trim(raw), SectionOf(inContinents, inTerritories), st, isNumeric)
  {
    ok, inContinents', inTerritories', st' := true, inContinents, inTerritories, st;
    var line := Trim(raw);
    if line == "" {
      return;
    }
    if line == "[Continents]" {
      inContinents', inTerritories' := true, false;
      return;
    } else if line == "[Territories]" {
      inContinents', inTerritories' := false, true;
      return;
    }
    if inContinents {
      ok, st' := ParseContinentLine(line, st, isNumeric);
      if !ok {
        return false, inContinents, inTerritories, st;
      }
    }
    if inTerritories {
      ok, st' := ParseTerritoryLine(line, st, isNumeric);
      if !ok {
        return false, inContinents, inTerritories, st;
      }
    }
  }

  /**
   * A line of the continents section (Map/Map.cpp:245-266): rejected without
   * an '=' that has text after it, or with a bonus that is not a number;
   * otherwise the continent named by the text before the '=' is added.
   */
  method ParseContinentLine(line: string, st: ParseState, isNumeric: string -> bool) returns (ok: bool, st': ParseState)
    requires Building(st)
    ensures ok == ContinentEntry(line, isNumeric).Some?
    ensures ok ==> st' == AddContinent(st, ContinentEntry(line, isNumeric).value)
  {
    st' := st;
    var pos := IndexOf(line, '=');
    if pos.None? || pos.value == |line| - 1 {
      return false, st;
    }
    var name := Trim(line[..pos.value]);
    var bonusStr := Trim(line[pos.value + 1..]);
    if !isNumeric(bonusStr) {
      return false, st;
    }
    ok, st' := true, AddContinent(st, name);
  }

  /**
   * A line of the territories section (Map/Map.cpp:268-305): rejected with
   * fewer than four tokens, non-numeric coordinates or an unknown continent;
   * otherwise the territory is added.
   */
  method ParseTerritoryLine(line: string, st: ParseState, isNumeric: string -> bool) returns (ok: bool, st': ParseState)
    requires Building(st)
    ensures ok == TerritoryTokensOk(SplitSpec(line, ','), st.continentMap.Keys, isNumeric)
    ensures ok ==> st' == AddTerritory(st, SplitSpec(line, ','))
  {
    st' := st;
    var tokens := Split(line, ',');
    if |tokens| < 4 {
      return false, st;
    }
    if !isNumeric(tokens[1]) || !isNumeric(tokens[2]) {
      return false, st;
    }
    if tokens[3] !in st.continentMap {
      return false, st;
    }
    ok, st' := true, AddTerritory(st, tokens);
  }

  /** Every adjacency names a territory of the list. */
  ghost predicate AdjacencyInRange(ts: seq<Territory>)
  {
    forall t, k :: 0 <= t < |ts| && 0 <= k < |ts[t].adjacents| ==> ts[t].adjacents[k] < |ts|
  }

  /** `ts` is `base` with possibly other adjacency lists. */
  ghost predicate SameButAdjacents(base: seq<Territory>, ts: seq<Territory>)
  {
    |ts| == |base| && forall t :: 0 <= t < |ts| ==> ts[t] == base[t].(adjacents := ts[t].adjacents)
  }

  /** The territories that the names of `names` refer to. */
  function Targets(names: seq<string>, territoryMap: map<string, nat>): set<nat>
  {
    set n | n in names && n in territoryMap :: territoryMap[n]
  }

  /**
   * `ts` after territory `a` is linked, in both directions and in the order
   * of `names`, with each name that names a territory.
   */
  function LinkNames(ts: seq<Territory>, a: nat, names: seq<string>, territoryMap: map<string, nat>): (r: seq<Territory>)
    requires a < |ts| && forall n :: n in territoryMap ==> territoryMap[n] < |ts|
    ensures SameButAdjacents(ts, r)
    decreases |names|
  {
    if names == [] then ts
    else
      var prev := LinkNames(ts, a, names[..|names| - 1], territoryMap);
      var last := names[|names| - 1];
      if last in territoryMap then Link(prev, a, territoryMap[last]) else prev
  }

  /** Territory `t` of `ts` lists `n` as adjacent. */
  ghost predicate HasAdjacent(ts: seq<Territory>, t: int, n: nat)
  {
    0 <= t < |ts| && n in ts[t].adjacents
  }

  /** Linking adds exactly the adjacencies between `a` and the `Targets` of the names. */
  lemma {:induction false} LinkNamesAdjacents(ts: seq<Territory>, a: nat, names: seq<string>, territoryMap: map<string, nat>)
    requires a < |ts| && forall n :: n in territoryMap ==> territoryMap[n] < |ts|
    ensures forall t, n ::
              HasAdjacent(LinkNames(ts, a, names, territoryMap), t, n) <==>
                HasAdjacent(ts, t, n) || (t == a && n in Targets(names, territoryMap)) ||
                (n == a && t in Targets(names, territoryMap))
    decreases |names|
  {
    if names == [] {
      assert Targets(names, territoryMap) == {};
    } else {
      var front := names[..|names| - 1];
      var last := names[|names| - 1];
      assert names == front + [last];
      assert Targets(names, territoryMap) ==
               Targets(front, territoryMap) + (if last in territoryMap then {territoryMap[last]} else {});
      LinkNamesAdjacents(ts, a, front, territoryMap);
      var prev := LinkNames(ts, a, front, territoryMap);
      var r := LinkNames(ts, a, names, territoryMap);
      assert r == if last in territoryMap then Link(prev, a, territoryMap[last]) else prev;
      forall t, n
        ensures HasAdjacent(r, t, n) <==>
                  HasAdjacent(ts, t, n) || (t == a && n in Targets(names, territoryMap)) ||
                  (n == a && t in Targets(names, territoryMap))
      {
        assert HasAdjacent(prev, t, n) <==>
                 HasAdjacent(ts, t, n) || (t == a && n in Targets(front, territoryMap)) ||
                 (n == a && t in Targets(front, territoryMap));
      }
    }
  }

  /**
   * `ts` after the second pass over the kept adjacency lines `data`, in
   * order: each line links the territory its own name refers to with its
   * names (`LinkNames`).
   */
  function LinkAll(ts: seq<Territory>, data: seq<(string, seq<string>)>, territoryMap: map<string, nat>): (r: seq<Territory>)
    requires forall n :: n in territoryMap ==> territoryMap[n] < |ts|
    requires forall e :: e in data ==> e.0 in territoryMap
    ensures SameButAdjacents(ts, r)
    decreases |data|
  {
    if data == [] then ts
    else
      var front := data[..|data| - 1];
      var last := data[|data| - 1];
      assert forall e :: e in front ==> e in data;
      LinkNames(LinkAll(ts, front, territoryMap), territoryMap[last.0], last.1, territoryMap)
  }

  /**
   * The second pass keeps every adjacency it starts from and records, for
   * each kept line, every name that names a territory in the list of the
   * line's own territory.
   */
  lemma {:induction false} LinkAllAdjacents(ts: seq<Territory>, data: seq<(string, seq<string>)>, territoryMap: map<string, nat>)
    requires forall n :: n in territoryMap ==> territoryMap[n] < |ts|
    requires forall e :: e in data ==> e.0 in territoryMap
    ensures forall t, n :: HasAdjacent(ts, t, n) ==> HasAdjacent(LinkAll(ts, data, territoryMap), t, n)
    ensures forall e, k :: 0 <= e < |data| && 0 <= k < |data[e].1| && data[e].1[k] in territoryMap ==>
              && HasAdjacent(LinkAll(ts, data, territoryMap), territoryMap[data[e].0], territoryMap[data[e].1[k]])
              && HasAdjacent(LinkAll(ts, data, territoryMap), territoryMap[data[e].1[k]], territoryMap[data[e].0])
    decreases |data|
  {
    if data != [] {
      var front := data[..|data| - 1];
      var last := data[|data| - 1];
      assert forall e :: e in front ==> e in data;
      LinkAllAdjacents(ts, front, territoryMap);
      var prev := LinkAll(ts, front, territoryMap);
      var a := territoryMap[last.0];
      LinkNamesAdjacents(prev, a, last.1, territoryMap);
      var r := LinkAll(ts, data, territoryMap);
      assert r == LinkNames(prev, a, last.1, territoryMap);
      forall e, k | 0 <= e < |data| && 0 <= k < |data[e].1| && data[e].1[k] in territoryMap
        ensures HasAdjacent(r, territoryMap[data[e].0], territoryMap[data[e].1[k]])
        ensures HasAdjacent(r, territoryMap[data[e].1[k]], territoryMap[data[e].0])
      {
        if e < |front| {
          assert data[e] == front[e];
          assert HasAdjacent(prev, territoryMap[data[e].0], territoryMap[data[e].1[k]]);
          assert HasAdjacent(prev, territoryMap[data[e].1[k]], territoryMap[data[e].0]);
        } else {
          assert data[e].1[k] in last.1;
          assert territoryMap[data[e].1[k]] in Targets(last.1, territoryMap);
        }
      }
    }
  }

  /**
   * One kept adjacency line of the second pass (Map/Map.cpp:312-318): each
   * name that names a territory is linked, in both directions, with
   * territory `a`; names of no territory are skipped.
   */
  method LinkLine(ts: seq<Territory>, a: nat, names: seq<string>, territoryMap: map<string, nat>)
    returns (ts': seq<Territory>)
    requires a < |ts| && forall n :: n in territoryMap ==> territoryMap[n] < |ts|
    requires AdjacencyInRange(ts) && SymmetricAdjacency(ts)
    ensures AdjacencyInRange(ts') && SymmetricAdjacency(ts')
    ensures ts' == LinkNames(ts, a, names, territoryMap)
  {
    ts' := ts;
    for k := 0 to |names|
      invariant AdjacencyInRange(ts') && SymmetricAdjacency(ts')
      invariant ts' == LinkNames(ts, a, names[..k], territoryMap)
    {
      assert names[..k + 1][..k] == names[..k];
      if names[k] in territoryMap {
        ts' := Link(ts', a, territoryMap[names[k]]);
      }
    }
    assert names[..|names|] == names;
  }

  /**
   * The second pass of `MapLoader::parseFile` (Map/Map.cpp:309-320): each
   * kept adjacency name that names a territory links it, in both directions,
   * with the territory the line's own name refers to.
   */
  method LinkAdjacencies(st: ParseState) returns (territories: seq<Territory>)
    requires Building(st)
    ensures territories == LinkAll(st.territories, st.adjacencyData, st.territoryMap)
    ensures AdjacencyInRange(territories) && SymmetricAdjacency(territories)
  {
    territories := st.territories;
    for e := 0 to |st.adjacencyData|
      invariant AdjacencyInRange(territories) && SymmetricAdjacency(territories)
      invariant territories == LinkAll(st.territories, st.adjacencyData[..e], st.territoryMap)
    {
      assert st.adjacencyData[e] in st.adjacencyData;
      assert st.adjacencyData[..e + 1][..e] == st.adjacencyData[..e];
      var a := st.territoryMap[st.adjacencyData[e].0];
      territories := LinkLine(territories, a, st.adjacencyData[e].1, st.territoryMap);
    }
    assert st.adjacencyData[..|st.adjacencyData|] == st.adjacencyData;
  }

  /**
   * What the first pass keeps after the first `i` lines: the flags give
   * the section, the continent names are those the lines declared, and the
   * state is well built.
   */
  ghost predicate ReadSoFar(tls: seq<string>, i: nat, inContinents: bool, inTerritories: bool,
                            st: ParseState, isNumeric: string -> bool)
    requires i <= |tls|
  {
    && !(inContinents && inTerritories)
    && SectionOf(inContinents, inTerritories) == SectionBefore(tls, i)
    && st.continentMap.Keys == ContinentNames(tls, i, isNumeric)
    && Building(st)
  }

  /**
   * Line `i` of the first pass, read with the flags and names that the lines
   * before it leave: `ok` says whether the line lets the parse go on.
   */
  method ReadLine(lines: seq<string>, ghost tls: seq<string>, i: nat, inContinents: bool, inTerritories: bool,
                  st: ParseState, isNumeric: string -> bool)
    returns (ok: bool, inContinents': bool, inTerritories': bool, st': ParseState)
    requires tls == TrimLines(lines) && i < |lines|
    requires ReadSoFar(tls, i, inContinents, inTerritories, st, isNumeric)
    requires LinesOk(tls, i, isNumeric) && st == Parsed(tls, i, isNumeric)
    ensures ok ==> ReadSoFar(tls, i + 1, inContinents', inTerritories', st', isNumeric)
    ensures ok ==> LinesOk(tls, i + 1, isNumeric) && st' == Parsed(tls, i + 1, isNumeric)
    ensures !ok ==> !LinesOk(tls, |tls|, isNumeric)
  {
    assert tls[i] == Trim(lines[i]);
    ok, inContinents', inTerritories', st' := ParseLine(lines[i], inContinents, inTerritories, st, isNumeric);
    if ok {
      LinesOkExtend(tls, i, isNumeric);
    } else {
      assert !LineOk(tls, i, isNumeric);
    }
  }

  /**
   * The first pass of `MapLoader::parseFile` (Map/Map.cpp:226-307): it
   * succeeds exactly when every line is accepted, and then leaves the
   * continents, the territories and the kept adjacency lines that the lines,
   * read in order, add (`Parsed`).
   */
  method FirstPass(lines: seq<string>, isNumeric: string -> bool) returns (ok: bool, st: ParseState)
    ensures ok <==> LinesOk(TrimLines(lines), |lines|, isNumeric)
    ensures ok ==> st == Parsed(TrimLines(lines), |lines|, isNumeric)
  {
    st := ParseState([], [], map[], map[], []);
    var inContinents := false;
    var inTerritories := false;
    ghost var tls := TrimLines(lines);
    for i := 0 to |lines|
      invariant ReadSoFar(tls, i, inContinents, inTerritories, st, isNumeric)
      invariant LinesOk(tls, i, isNumeric) && st == Parsed(tls, i, isNumeric)
    {
      ok, inContinents, inTerritories, st := ReadLine(lines, tls, i, inContinents, inTerritories, st, isNumeric);
      if !ok {
        return;
      }
    }
    ok := true;
  }

  /**
   * The map that the accepted trimmed lines `tls` describe: the continents
   * of the first pass and its territories with every kept adjacency line
   * linked.
   */
  ghost function ParsedMap(tls: seq<string>, isNumeric: string -> bool): Map
    requires LinesOk(tls, |tls|, isNumeric)
  {
    var p := Parsed(tls, |tls|, isNumeric);
    Map(p.continents, LinkAll(p.territories, p.adjacencyData, p.territoryMap))
  }

  /**
   * `MapLoader::parseFile` (Map/Map.cpp:218-323) over the file's lines. The
   * parse fails exactly when some line is rejected; otherwise it returns the
   * map the lines describe (`ParsedMap`). That map numbers its territories
   * by insertion order, resolves every reference, lists each territory in
   * its own continent, and records every adjacency in both directions.
   */
  method ParseFile(lines: seq<string>, isNumeric: string -> bool) returns (r: Option<Map>)
    ensures r.Some? <==> LinesOk(TrimLines(lines), |lines|, isNumeric)
    ensures r.Some? ==> r.value == ParsedMap(TrimLines(lines), isNumeric)
    ensures r.Some? ==> WellFormed(r.value) && SymmetricAdjacency(r.value.territories)
    ensures r.Some? ==> MembershipAgrees(r.value)
  {
    var ok, st := FirstPass(lines, isNumeric);
    if !ok {
      return None;
    }
    var territories := LinkAdjacencies(st);
    r := Some(Map(st.continents, territories));
    assert MembershipAgrees(r.value) by {
      assert forall t :: 0 <= t < |territories| ==> territories[t].continent == st.territories[t].continent;
    }
  }

  /**
   * Records an adjacency in both directions: `b` joins the list of `a`, then
   * `a` joins the list of `b` (Map/Map.cpp:316-317).
   */
  function Link(ts: seq<Territory>, a: nat, b: nat): (r: seq<Territory>)
    requires a < |ts| && b < |ts|
    ensures |r| == |ts|
    ensures forall t :: 0 <= t < |ts| ==> r[t].id == ts[t].id && r[t].name == ts[t].name &&
                                          r[t].continent == ts[t].continent
    ensures forall t, n :: 0 <= t < |ts| ==>
              (n in r[t].adjacents <==> n in ts[t].adjacents || (t == a && n == b) || (t == b && n == a))
    ensures SymmetricAdjacency(ts) ==> SymmetricAdjacency(r)
  {
    var ts1 := ts[a := ts[a].(adjacents := ts[a].adjacents + [b])];
    ts1[b := ts1[b].(adjacents := ts1[b].adjacents + [a])]
  }

  /**
   * `MapLoader::loadMap` (Map/Map.cpp:187-196): a map is returned exactly
   * when the file exists, every line is accepted and the parsed map
   * (`ParsedMap`) validates, and it is that map.
   */
  method LoadMap(files: map<string, seq<string>>, filename: string, isNumeric: string -> bool)
    returns (r: Option<Map>)
    ensures filename !in files ==> r.None?
    ensures r.Some? ==> filename in files && LinesOk(TrimLines(files[filename]), |files[filename]|, isNumeric)
    ensures r.Some? ==> WellFormed(r.value) && ValidMap(r.value) && SymmetricAdjacency(r.value.territories)
    ensures filename in files ==>
      (r.Some? <==> LinesOk(TrimLines(files[filename]), |files[filename]|, isNumeric) &&
                    ValidMap(ParsedMap(TrimLines(files[filename]), isNumeric)))
    ensures r.Some? ==> r.value == ParsedMap(TrimLines(files[filename]), isNumeric)
  {
    if filename !in files {
      return None;
    }
    var parsed := ParseFile(files[filename], isNumeric);
    if parsed.None? {
      return None;
    }
    var valid := Validate(parsed.value);
    if valid {
      r := parsed;
    } else {
      r := None;
    }
  }
}
