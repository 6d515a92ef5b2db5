/**
 * The orbit map of src/y2019/day06.rs: edges `center)orbiter` become a map from each center
 * to its orbiters, or, with every edge also reversed, an undirected graph.
 */
module Day06Orbits {

  type Name = string

  /** An edge `center)orbiter`. */
  type Edge = (Name, Name)

  datatype Option<T> = None | Some(value: T)

  /** The orbiters of c, in the order their edges appear. */
  function Orbiters(edges: seq<Edge>, c: Name): seq<Name>
    decreases |edges|
  {
    if |edges| == 0 then []
    else Orbiters(edges[..|edges| - 1], c) + (if edges[|edges| - 1].0 == c then [edges[|edges| - 1].1] else [])
  }

  /** x orbits c in the list exactly when some edge says so. */
  lemma {:induction false} OrbitersMembers(edges: seq<Edge>, c: Name, x: Name)
    ensures x in Orbiters(edges, c) <==> exists i | 0 <= i < |edges| :: edges[i] == (c, x)
    decreases |edges|
  {
    if |edges| > 0 {
      var front := edges[..|edges| - 1];
      OrbitersMembers(front, c, x);
      if x in Orbiters(front, c) {
        var i :| 0 <= i < |front| && front[i] == (c, x);
        assert edges[i] == (c, x);
      }
      if exists i | 0 <= i < |edges| :: edges[i] == (c, x) {
        var i :| 0 <= i < |edges| && edges[i] == (c, x);
        if i < |front| {
          assert front[i] == (c, x);
        }
      }
    }
  }

  /** Every name that appears as a center. */
  function Centers(edges: seq<Edge>): set<Name>
  {
    set i | 0 <= i < |edges| :: edges[i].0
  }

  /** The map `build_tree` returns, as a value. */
  ghost function Tree(edges: seq<Edge>): map<Name, seq<Name>>
  {
    map c | c in Centers(edges) :: Orbiters(edges, c)
  }

  /** A name that is no center has no orbiters. */
  lemma OrbitersOutside(edges: seq<Edge>, c: Name)
    requires c !in Centers(edges)
    ensures Orbiters(edges, c) == []
  {
    if Orbiters(edges, c) != [] {
      OrbitersMembers(edges, c, Orbiters(edges, c)[0]);
    }
  }

  lemma CentersStep(edges: seq<Edge>, k: nat)
    requires k < |edges|
    ensures Centers(edges[..k + 1]) == Centers(edges[..k]) + {edges[k].0}
  {
    var e, f := edges[..k + 1], edges[..k];
    forall c | c in Centers(e) ensures c in Centers(f) + {edges[k].0} {
      var i :| 0 <= i < k + 1 && e[i].0 == c;
      if i < k {
        assert f[i].0 == c;
      }
    }
    forall c | c in Centers(f) ensures c in Centers(e) {
      var i :| 0 <= i < k && f[i].0 == c;
      assert e[i].0 == c;
    }
    assert e[k].0 == edges[k].0;
  }

  lemma OrbitersStep(edges: seq<Edge>, k: nat, c: Name)
    requires k < |edges|
    ensures Orbiters(edges[..k + 1], c) == Orbiters(edges[..k], c) + (if edges[k].0 == c then [edges[k].1] else [])
  {
    assert edges[..k + 1][..k] == edges[..k];
  }

  /** Adding an edge appends its orbiter to its center's list, creating the entry if needed. */
  lemma TreeStep(edges: seq<Edge>, k: nat)
    requires k < |edges|
    ensures Tree(edges[..k + 1]) == Tree(edges[..k])[edges[k].0 :=
      (if edges[k].0 in Tree(edges[..k]) then Tree(edges[..k])[edges[k].0] else []) + [edges[k].1]]
  {
    var e, f := edges[..k + 1], edges[..k];
    var center := edges[k].0;
    var u := Tree(f)[center := (if center in Tree(f) then Tree(f)[center] else []) + [edges[k].1]];
    CentersStep(edges, k);
    if center !in Centers(f) {
      OrbitersOutside(f, center);
    }
    forall c | c in Centers(e) ensures Tree(e)[c] == u[c] {
      OrbitersStep(edges, k, c);
    }
    assert Tree(e).Keys == u.Keys;
  }

  /** `build_tree`: one entry per center, listing its orbiters in edge order. */
  method BuildTree(edges: seq<Edge>) returns (m: map<Name, seq<Name>>)
    ensures forall c :: c in m <==> exists i | 0 <= i < |edges| :: edges[i].0 == c
    ensures forall c | c in m :: m[c] == Orbiters(edges, c)
  {
    m := map[];
    for k := 0 to |edges|
      invariant m == Tree(edges[..k])
    {
      var (center, orb) := edges[k];
      var orbits := if center in m then m[center] else [];
      TreeStep(edges, k);
      m := m[center := orbits + [orb]];
    }
    assert edges[..|edges|] == edges;
  }

  /** The edges, each followed by its reverse: the `flat_map` of `build_graph`. */
  function Both(edges: seq<Edge>): (r: seq<Edge>)
    ensures |r| == 2 * |edges|
    ensures forall i | 0 <= i < |edges| :: r[2 * i] == edges[i] && r[2 * i + 1] == (edges[i].1, edges[i].0)
  {
    if |edges| == 0 then []
    else [edges[0], (edges[0].1, edges[0].0)] + Both(edges[1..])
  }

  /** An edge of the doubled list is an edge of the input or its reverse. */
  lemma BothMembers(edges: seq<Edge>, e: Edge)
    ensures (exists j | 0 <= j < |Both(edges)| :: Both(edges)[j] == e)
        <==> exists i | 0 <= i < |edges| :: edges[i] == e || (edges[i].1, edges[i].0) == e
  {
    var r := Both(edges);
    if exists j | 0 <= j < |r| :: r[j] == e {
      var j :| 0 <= j < |r| && r[j] == e;
      var i := j / 2;
      assert j == 2 * i || j == 2 * i + 1;
    }
    if exists i | 0 <= i < |edges| :: edges[i] == e || (edges[i].1, edges[i].0) == e {
      var i :| 0 <= i < |edges| && (edges[i] == e || (edges[i].1, edges[i].0) == e);
      if edges[i] == e {
        assert 0 <= 2 * i < |Both(edges)| && Both(edges)[2 * i] == e;
      } else {
        assert 0 <= 2 * i + 1 < |Both(edges)| && Both(edges)[2 * i + 1] == e;
      }
    }
  }

  /** Every name that appears in an edge. */
  function Endpoints(edges: seq<Edge>): set<Name>
  {
    (set i | 0 <= i < |edges| :: edges[i].0) + (set i | 0 <= i < |edges| :: edges[i].1)
  }

  /** The centers of the doubled list are the endpoints of the edges. */
  lemma BothCenters(edges: seq<Edge>)
    ensures Centers(Both(edges)) == Endpoints(edges)
  {
    var r := Both(edges);
    forall c | c in Centers(r) ensures c in Endpoints(edges) {
      var j :| 0 <= j < |r| && r[j].0 == c;
      var i := j / 2;
      assert j == 2 * i || j == 2 * i + 1;
      assert edges[i].0 == c || edges[i].1 == c;
    }
    forall c | c in Endpoints(edges) ensures c in Centers(r) {
      if c in (set i | 0 <= i < |edges| :: edges[i].0) {
        var i :| 0 <= i < |edges| && edges[i].0 == c;
        assert r[2 * i].0 == c;
      } else {
        var i :| 0 <= i < |edges| && edges[i].1 == c;
        assert r[2 * i + 1].0 == c;
      }
    }
  }

  /** `build_graph`: `build_tree` over every edge and its reverse; every endpoint gets an entry. */
  method BuildGraph(edges: seq<Edge>) returns (g: map<Name, seq<Name>>)
    ensures g.Keys == Endpoints(edges)
    ensures forall c | c in g :: g[c] == Orbiters(Both(edges), c)
  {
    g := BuildTree(Both(edges));
    BothCenters(edges);
  }

  /** The graph `build_graph` returns, as a value. */
  ghost function GraphOf(edges: seq<Edge>): map<Name, seq<Name>>
  {
    map c | c in Endpoints(edges) :: Orbiters(Both(edges), c)
  }

  /** A map with the keys and lists of `build_graph`'s contract is GraphOf. */
  lemma IsGraphOf(edges: seq<Edge>, g: map<Name, seq<Name>>)
    requires g.Keys == Endpoints(edges)
    requires forall c | c in g :: g[c] == Orbiters(Both(edges), c)
    ensures g == GraphOf(edges)
  {
  }

  /** In the graph, b is a neighbour of a exactly when an edge joins them, in either direction. */
  lemma GraphNeighbours(edges: seq<Edge>, a: Name, b: Name)
    ensures b in Orbiters(Both(edges), a) <==> exists i | 0 <= i < |edges| :: edges[i] == (a, b) || edges[i] == (b, a)
    ensures b in Orbiters(Both(edges), a) <==> a in Orbiters(Both(edges), b)
  {
    OrbitersMembers(Both(edges), a, b);
    OrbitersMembers(Both(edges), b, a);
    BothMembers(edges, (a, b));
    BothMembers(edges, (b, a));
  }

  // ---------------------------------------------------------------- counting orbits

  /**
   * `count_orbits(orbits, source, current)`: current for a node with no entry, otherwise
   * current plus the counts of its orbiters one level deeper.  The source recurses without
   * bound on a cyclic map; fuel bounds the depth and None means it ran out.
   */
  function CountOrbits(orbits: map<Name, seq<Name>>, source: Name, current: nat, fuel: nat): Option<nat>
    decreases fuel, 1
  {
    if source !in orbits then Some(current)
    else if fuel == 0 then None
    else match SumOrbits(orbits, orbits[source], current + 1, fuel - 1)
      case None => None
      case Some(x) => Some(x + current)
  }

  /** The `sum` of the counts of others. */
  function SumOrbits(orbits: map<Name, seq<Name>>, others: seq<Name>, current: nat, fuel: nat): Option<nat>
    decreases fuel, 2, |others|
  {
    if |others| == 0 then Some(0)
    else match CountOrbits(orbits, others[0], current, fuel)
      case None => None
      case Some(x) =>
        match SumOrbits(orbits, others[1..], current, fuel)
        case None => None
        case Some(y) => Some(x + y)
  }

  /** How many nodes the walk below source visits, source included. */
  function Nodes(orbits: map<Name, seq<Name>>, source: Name, fuel: nat): Option<nat>
    decreases fuel, 1
  {
    if source !in orbits then Some(1)
    else if fuel == 0 then None
    else match SumNodes(orbits, orbits[source], fuel - 1)
      case None => None
      case Some(x) => Some(x + 1)
  }

  function SumNodes(orbits: map<Name, seq<Name>>, others: seq<Name>, fuel: nat): Option<nat>
    decreases fuel, 2, |others|
  {
    if |others| == 0 then Some(0)
    else match Nodes(orbits, others[0], fuel)
      case None => None
      case Some(x) =>
        match SumNodes(orbits, others[1..], fuel)
        case None => None
        case Some(y) => Some(x + y)
  }

  /**
   * Starting the count at depth c instead of 0 adds c once per node below source, and the
   * count is defined for the same fuel as the node count.
   */
  lemma {:induction false} CountShift(orbits: map<Name, seq<Name>>, source: Name, c: nat, fuel: nat)
    ensures CountOrbits(orbits, source, c, fuel).Some? <==> Nodes(orbits, source, fuel).Some?
    ensures Nodes(orbits, source, fuel).Some? ==>
      && CountOrbits(orbits, source, 0, fuel).Some? && CountOrbits(orbits, source, c, fuel).Some?
      && CountOrbits(orbits, source, c, fuel).value
           == CountOrbits(orbits, source, 0, fuel).value + c * Nodes(orbits, source, fuel).value
    decreases fuel, 1
  {
    if source in orbits && fuel > 0 {
      var others := orbits[source];
      SumShift(orbits, others, c + 1, fuel - 1);
      SumShift(orbits, others, 1, fuel - 1);
      if SumNodes(orbits, others, fuel - 1).Some? {
        ShiftArith(c, SumNodes(orbits, others, fuel - 1).value, SumOrbits(orbits, others, 0, fuel - 1).value);
      }
    }
  }

  /** Depth c + 1 below a node of n descendants, plus c for the node itself, is c per node more. */
  lemma ShiftArith(c: nat, n: nat, z: nat)
    ensures z + (c + 1) * n + c == (z + 1 * n) + c * (n + 1)
  {
    assert (c + 1) * n == c * n + n;
    assert c * (n + 1) == c * n + c;
  }

  lemma {:induction false} SumShift(orbits: map<Name, seq<Name>>, others: seq<Name>, c: nat, fuel: nat)
    ensures SumOrbits(orbits, others, c, fuel).Some? <==> SumNodes(orbits, others, fuel).Some?
    ensures SumNodes(orbits, others, fuel).Some? ==>
      && SumOrbits(orbits, others, 0, fuel).Some? && SumOrbits(orbits, others, c, fuel).Some?
      && SumOrbits(orbits, others, c, fuel).value
           == SumOrbits(orbits, others, 0, fuel).value + c * SumNodes(orbits, others, fuel).value
    decreases fuel, 2, |others|
  {
    if |others| > 0 {
      CountShift(orbits, others[0], c, fuel);
      CountShift(orbits, others[0], 0, fuel);
      SumShift(orbits, others[1..], c, fuel);
      SumShift(orbits, others[1..], 0, fuel);
      if SumNodes(orbits, others, fuel).Some? {
        var a := Nodes(orbits, others[0], fuel).value;
        var b := SumNodes(orbits, others[1..], fuel).value;
        Distribute(c, a, b);
      }
    }
  }

  lemma Distribute(c: nat, a: nat, b: nat)
    ensures c * (a + b) == c * a + c * b
  {
  }

  // ---------------------------------------------------------------- depths

  /** The node just above position k of a chain e hanging below source. */
  function Above(source: Name, e: seq<Name>, k: nat): Name
    requires k < |e|
  {
    if k == 0 then source else e[k - 1]
  }

  /** e lists nodes each orbiting the one before it, the first orbiting source: a node at depth |e|. */
  ghost predicate IsChain(orbits: map<Name, seq<Name>>, source: Name, e: seq<Name>)
  {
    forall k | 0 <= k < |e| :: Above(source, e, k) in orbits && e[k] in orbits[Above(source, e, k)]
  }

  /** Each chain with o put in front of it. */
  function Below(o: Name, w: seq<seq<Name>>): (r: seq<seq<Name>>)
    ensures |r| == |w| && forall i | 0 <= i < |w| :: r[i] == [o] + w[i]
  {
    seq(|w|, i requires 0 <= i < |w| => [o] + w[i])
  }

  /**
   * The walk below source: one chain per node visited, in the order `count_orbits` visits
   * them; source itself is the empty chain.  None when fuel runs out.
   */
  ghost function Walk(orbits: map<Name, seq<Name>>, source: Name, fuel: nat): Option<seq<seq<Name>>>
    decreases fuel, 1
  {
    if source !in orbits then Some([[]])
    else if fuel == 0 then None
    else match WalkAll(orbits, orbits[source], fuel - 1)
      case None => None
      case Some(w) => Some([[]] + w)
  }

  /** The walks below each of others, each chain led by the orbiter it hangs from. */
  ghost function WalkAll(orbits: map<Name, seq<Name>>, others: seq<Name>, fuel: nat): Option<seq<seq<Name>>>
    decreases fuel, 2, |others|
  {
    if |others| == 0 then Some([])
    else match Walk(orbits, others[0], fuel)
      case None => None
      case Some(w) =>
        match WalkAll(orbits, others[1..], fuel)
        case None => None
        case Some(v) => Some(Below(others[0], w) + v)
  }

  /** The sum over the chains of c plus the chain's depth. */
  function DepthSum(w: seq<seq<Name>>, c: nat): nat
  {
    if |w| == 0 then 0 else c + |w[0]| + DepthSum(w[1..], c)
  }

  lemma {:induction false} DepthSumAppend(a: seq<seq<Name>>, b: seq<seq<Name>>, c: nat)
    ensures DepthSum(a + b, c) == DepthSum(a, c) + DepthSum(b, c)
  {
    if |a| == 0 {
      assert a + b == b;
    } else {
      DepthSumAppend(a[1..], b, c);
      assert (a + b)[0] == a[0] && (a + b)[1..] == a[1..] + b;
    }
  }

  /** Putting o in front makes every chain one deeper. */
  lemma {:induction false} DepthSumBelow(o: Name, w: seq<seq<Name>>, c: nat)
    ensures DepthSum(Below(o, w), c) == DepthSum(w, c + 1)
  {
    if |w| > 0 {
      DepthSumBelow(o, w[1..], c);
      assert Below(o, w)[1..] == Below(o, w[1..]);
    }
  }

  /**
   * `count_orbits(orbits, source, c)` is the sum, over the nodes of the walk below source,
   * of c plus the node's depth below source; it runs out of fuel exactly when the walk does.
   */
  lemma {:induction false} CountIsDepthSum(orbits: map<Name, seq<Name>>, source: Name, c: nat, fuel: nat)
    ensures CountOrbits(orbits, source, c, fuel).Some? <==> Walk(orbits, source, fuel).Some?
    ensures Walk(orbits, source, fuel).Some? ==>
      CountOrbits(orbits, source, c, fuel).value == DepthSum(Walk(orbits, source, fuel).value, c)
    decreases fuel, 1
  {
    if source !in orbits {
      var single: seq<seq<Name>> := [[]];
      assert single[1..] == [];
    } else if fuel > 0 {
      SumIsDepthSum(orbits, orbits[source], c, fuel - 1);
      var w := WalkAll(orbits, orbits[source], fuel - 1);
      if w.Some? {
        assert ([[]] + w.value)[0] == [] && ([[]] + w.value)[1..] == w.value;
      }
    }
  }

  /** The `sum` one level deeper: c + 1 for each orbiter is c plus one more step of depth. */
  lemma {:induction false} SumIsDepthSum(orbits: map<Name, seq<Name>>, others: seq<Name>, c: nat, fuel: nat)
    ensures SumOrbits(orbits, others, c + 1, fuel).Some? <==> WalkAll(orbits, others, fuel).Some?
    ensures WalkAll(orbits, others, fuel).Some? ==>
      SumOrbits(orbits, others, c + 1, fuel).value == DepthSum(WalkAll(orbits, others, fuel).value, c)
    decreases fuel, 2, |others|
  {
    if |others| > 0 {
      CountIsDepthSum(orbits, others[0], c + 1, fuel);
      SumIsDepthSum(orbits, others[1..], c, fuel);
      var w, v := Walk(orbits, others[0], fuel), WalkAll(orbits, others[1..], fuel);
      if w.Some? && v.Some? {
        DepthSumAppend(Below(others[0], w.value), v.value, c);
        DepthSumBelow(others[0], w.value, c);
      }
    }
  }

  /** A chain below an orbiter of s is a chain below s once the orbiter is put in front. */
  lemma ChainCons(orbits: map<Name, seq<Name>>, s: Name, e: seq<Name>)
    requires |e| > 0 && s in orbits && e[0] in orbits[s] && IsChain(orbits, e[0], e[1..])
    ensures IsChain(orbits, s, e)
  {
    forall k | 0 < k < |e|
      ensures Above(s, e, k) in orbits && e[k] in orbits[Above(s, e, k)]
    {
      assert Above(e[0], e[1..], k - 1) == e[k - 1] && e[1..][k - 1] == e[k];
    }
  }

  /** Every entry of the walk is an orbit chain from source, so its length is a node's depth. */
  lemma {:induction false} WalkChains(orbits: map<Name, seq<Name>>, source: Name, fuel: nat)
    ensures Walk(orbits, source, fuel).Some? ==>
      forall e | e in Walk(orbits, source, fuel).value :: IsChain(orbits, source, e)
    decreases fuel, 1
  {
    if source in orbits && fuel > 0 {
      WalkAllChains(orbits, orbits[source], fuel - 1);
      var w := WalkAll(orbits, orbits[source], fuel - 1);
      if w.Some? {
        forall e | e in [[]] + w.value
          ensures IsChain(orbits, source, e)
        {
          if e != [] {
            ChainCons(orbits, source, e);
          }
        }
      }
    }
  }

  /** Every entry of the walks below others starts with one of them and is a chain below it. */
  lemma {:induction false} WalkAllChains(orbits: map<Name, seq<Name>>, others: seq<Name>, fuel: nat)
    ensures WalkAll(orbits, others, fuel).Some? ==>
      forall e | e in WalkAll(orbits, others, fuel).value :: |e| > 0 && e[0] in others && IsChain(orbits, e[0], e[1..])
    decreases fuel, 2, |others|
  {
    if |others| > 0 {
      var o := others[0];
      WalkChains(orbits, o, fuel);
      WalkAllChains(orbits, others[1..], fuel);
      var w, v := Walk(orbits, o, fuel), WalkAll(orbits, others[1..], fuel);
      if w.Some? && v.Some? {
        forall e | e in Below(o, w.value) + v.value
          ensures |e| > 0 && e[0] in others && IsChain(orbits, e[0], e[1..])
        {
          if e in Below(o, w.value) {
            var i :| 0 <= i < |w.value| && Below(o, w.value)[i] == e;
            assert e[1..] == w.value[i] && e[0] == o;
          } else {
            assert e in v.value;
            assert e[0] in others[1..];
          }
        }
      }
    }
  }

  /** The walk of the small tree COM)B, B)C, B)D: chains of depths 0, 1, 2 and 2. */
  lemma WalkExample()
    ensures Walk(map["COM" := ["B"], "B" := ["C", "D"]], "COM", 2) == Some([[], ["B"], ["B", "C"], ["B", "D"]])
  {
    var orbits := map["COM" := ["B"], "B" := ["C", "D"]];
    var leaf: seq<seq<Name>> := [[]];
    var none: seq<seq<Name>> := [];
    assert Walk(orbits, "C", 0) == Some(leaf) && Walk(orbits, "D", 0) == Some(leaf);
    var top: seq<Name> := [];
    assert Below("C", leaf) == [["C"]] by {
      assert Below("C", leaf)[0] == ["C"] + top == ["C"];
    }
    assert Below("D", leaf) == [["D"]] by {
      assert Below("D", leaf)[0] == ["D"] + top == ["D"];
    }
    assert WalkAll(orbits, ["D"], 0) == Some([["D"]] + none) by {
      assert ["D"][1..] == [];
    }
    assert WalkAll(orbits, ["C", "D"], 0) == Some([["C"]] + [["D"]]) by {
      assert ["C", "D"][1..] == ["D"];
      assert [["D"]] + none == [["D"]];
    }
    var below := [[], ["C"], ["D"]];
    assert Walk(orbits, "B", 1) == Some(below) by {
      assert leaf + ([["C"]] + [["D"]]) == below;
    }
    assert Below("B", below) == [["B"], ["B", "C"], ["B", "D"]] by {
      assert Below("B", below)[0] == ["B"] + top == ["B"];
      assert Below("B", below)[1] == ["B"] + ["C"] == ["B", "C"];
      assert Below("B", below)[2] == ["B"] + ["D"] == ["B", "D"];
    }
    assert WalkAll(orbits, ["B"], 1) == Some([["B"], ["B", "C"], ["B", "D"]] + none) by {
      assert ["B"][1..] == [];
    }
    assert leaf + ([["B"], ["B", "C"], ["B", "D"]] + none) == [[], ["B"], ["B", "C"], ["B", "D"]];
  }

  /** A small tree: COM)B, B)C, B)D has depths 0, 1, 2 and 2. */
  lemma CountExample()
    ensures CountOrbits(map["COM" := ["B"], "B" := ["C", "D"]], "COM", 0, 2) == Some(5)
    ensures CountOrbits(map["COM" := ["B"], "B" := ["C", "D"]], "COM", 0, 1) == None
  {
    var orbits := map["COM" := ["B"], "B" := ["C", "D"]];
    assert SumOrbits(orbits, ["C", "D"], 2, 0) == Some(4) by {
      assert CountOrbits(orbits, "C", 2, 0) == Some(2);
      assert CountOrbits(orbits, "D", 2, 0) == Some(2);
      assert ["C", "D"][1..] == ["D"];
    }
    assert CountOrbits(orbits, "B", 1, 1) == Some(5);
    assert SumOrbits(orbits, ["B"], 1, 1) == Some(5);
    assert CountOrbits(orbits, "B", 1, 0) == None;
  }
}

/**
 * `shortest_path` of src/y2019/day06.rs: Dijkstra's search with unit weights over a
 * `BinaryHeap` of `State`s whose order is reversed on cost, so the heap pops the cheapest state.
 */
module Day06Transfers {
  import opened Day06Orbits

  datatype Ordering = Less | Equal | Greater

  function Flip(o: Ordering): Ordering
  {
    match o
    case Less => Greater
    case Equal => Equal
    case Greater => Less
  }

  function CmpNat(a: nat, b: nat): Ordering
  {
    if a < b then Less else if a > b then Greater else Equal
  }

  /** `String::cmp`: lexicographic, a proper prefix first. */
  function CmpStr(a: string, b: string): Ordering
    decreases |a|
  {
    if |a| == 0 then (if |b| == 0 then Equal else Less)
    else if |b| == 0 then Greater
    else if a[0] < b[0] then Less
    else if a[0] > b[0] then Greater
    else CmpStr(a[1..], b[1..])
  }

  lemma {:induction false} CmpStrFlip(a: string, b: string)
    ensures CmpStr(b, a) == Flip(CmpStr(a, b))
    ensures CmpStr(a, b) == Equal <==> a == b
    decreases |a|
  {
    if |a| > 0 && |b| > 0 && a[0] == b[0] {
      CmpStrFlip(a[1..], b[1..]);
      assert a == [a[0]] + a[1..] && b == [b[0]] + b[1..];
    }
  }

  lemma {:induction false} CmpStrTrans(a: string, b: string, c: string)
    requires CmpStr(a, b) != Less && CmpStr(b, c) != Less
    ensures CmpStr(a, c) != Less
    decreases |a|
  {
    if |a| > 0 && |b| > 0 && |c| > 0 && a[0] == b[0] == c[0] {
      CmpStrTrans(a[1..], b[1..], c[1..]);
    }
  }

  /** A heap entry: a node and the cost of the path that reached it. */
  datatype State = State(cost: nat, node: Name)

  /** `State::cmp`: cost reversed, then node. */
  function Cmp(s: State, other: State): Ordering
  {
    match CmpNat(other.cost, s.cost)
    case Equal => CmpStr(s.node, other.node)
    case Less => Less
    case Greater => Greater
  }

  /** The order is reversed on cost and total, so a heap of states has a greatest state. */
  lemma CmpIsOrder(a: State, b: State, c: State)
    ensures Cmp(a, b) != Less <==> a.cost < b.cost || (a.cost == b.cost && CmpStr(a.node, b.node) != Less)
    ensures Cmp(b, a) == Flip(Cmp(a, b))
    ensures Cmp(a, b) == Equal <==> a == b
    ensures Cmp(a, b) != Less && Cmp(b, c) != Less ==> Cmp(a, c) != Less
  {
    CmpStrFlip(a.node, b.node);
    if Cmp(a, b) != Less && Cmp(b, c) != Less && a.cost == b.cost == c.cost {
      CmpStrTrans(a.node, b.node, c.node);
    }
  }

  /** The state `BinaryHeap::pop` returns: no state of the heap is greater. */
  predicate IsMax(s: State, heap: multiset<State>)
  {
    s in heap && forall t | t in heap :: Cmp(s, t) != Less
  }

  lemma {:induction false} MaxExists(heap: multiset<State>)
    requires |heap| > 0
    ensures exists s :: IsMax(s, heap)
    decreases |heap|
  {
    var x :| x in heap;
    var rest := heap - multiset{x};
    CmpIsOrder(x, x, x);
    if |rest| == 0 {
      assert heap == multiset{x};
      assert IsMax(x, heap);
    } else {
      MaxExists(rest);
      var m :| IsMax(m, rest);
      if Cmp(m, x) != Less {
        assert IsMax(m, heap);
      } else {
        CmpIsOrder(m, x, x);
        forall t | t in heap ensures Cmp(x, t) != Less {
          if t != x {
            CmpIsOrder(x, m, t);
          }
        }
        assert IsMax(x, heap);
      }
    }
  }

  /** The heap pops the lowest cost first, and the greatest node among equal costs. */
  lemma PopsCheapest(s: State, heap: multiset<State>)
    requires IsMax(s, heap)
    ensures forall t | t in heap :: s.cost < t.cost || (s.cost == t.cost && CmpStr(s.node, t.node) != Less)
  {
    forall t | t in heap ensures s.cost < t.cost || (s.cost == t.cost && CmpStr(s.node, t.node) != Less) {
      CmpIsOrder(s, t, t);
    }
  }

  // ---------------------------------------------------------------- walks

  type Graph = map<Name, seq<Name>>

  /** A walk: each node after the first is a neighbour of the one before. */
  ghost predicate Walk(g: Graph, p: seq<Name>)
  {
    |p| >= 1 && forall i | 0 <= i < |p| - 1 :: p[i] in g && p[i + 1] in g[p[i]]
  }

  /** A walk from source to k with len steps. */
  ghost predicate WalkTo(g: Graph, source: Name, p: seq<Name>, k: Name, len: nat)
  {
    Walk(g, p) && p[0] == source && p[|p| - 1] == k && |p| - 1 == len
  }

  /** Some walk of len steps leads from source to k. */
  ghost predicate Reaches(g: Graph, source: Name, k: Name, len: nat)
  {
    exists p :: WalkTo(g, source, p, k, len)
  }

  /** Every neighbour of k is recorded no farther than one step beyond k. */
  ghost predicate Settled(g: Graph, d: map<Name, nat>, k: Name)
    requires k in d
  {
    k in g && forall nb | nb in g[k] :: nb in d && d[nb] <= d[k] + 1
  }

  /**
   * What holds between pops: the source is at 0, every heap entry names a recorded node at
   * no less than its distance, every recorded node is either waiting in the heap at its
   * distance or settled, and a walk of exactly the recorded length reaches every recorded node.
   */
  ghost predicate Inv(g: Graph, source: Name, d: map<Name, nat>, heap: multiset<State>, paths: map<Name, seq<Name>>)
  {
    && source in d && d[source] == 0
    && (forall s | s in heap :: s.node in d && d[s.node] <= s.cost)
    && (forall k | k in d :: State(d[k], k) in heap || Settled(g, d, k))
    && WalksFor(g, source, d, paths)
  }

  /** paths holds, for every recorded node, a walk of exactly its recorded length. */
  ghost predicate WalksFor(g: Graph, source: Name, d: map<Name, nat>, paths: map<Name, seq<Name>>)
  {
    paths.Keys == d.Keys && forall k | k in d :: WalkTo(g, source, paths[k], k, d[k])
  }

  /** What `shortest_path` ends with. */
  datatype Search = Found(dists: map<Name, nat>) | MissingEntry(node: Name) | OutOfFuel

  /** The distances are those of shortest walks from source, and cover every reachable node. */
  ghost predicate ShortestFrom(g: Graph, source: Name, d: map<Name, nat>)
  {
    && source in d && d[source] == 0
    && (forall k | k in d :: Reaches(g, source, k, d[k]))
    && (forall p | Walk(g, p) && p[0] == source :: p[|p| - 1] in d && d[p[|p| - 1]] <= |p| - 1)
  }

  /**
   * `shortest_path`.  The source loops until the heap is empty; fuel bounds the number of
   * pops.  Whatever order the heap pops in, the distances it returns are those of shortest
   * walks; a popped node with no entry is the `unwrap` that panics.
   */
  method ShortestPath(graph: Graph, source: Name, fuel: nat) returns (r: Search)
    ensures r.Found? ==> ShortestFrom(graph, source, r.dists)
    ensures r.MissingEntry? ==> r.node !in graph && Reachable(graph, source, r.node)
  {
    var dists := map[source := 0];
    var heap := multiset{State(0, source)};
    ghost var paths := map[source := [source]];
    var steps := 0;
    while |heap| > 0
      invariant steps <= fuel
      invariant Inv(graph, source, dists, heap, paths)
      decreases fuel - steps
    {
      if steps == fuel {
        return OutOfFuel;
      }
      steps := steps + 1;
      var missing;
      missing, dists, heap, paths := Step(graph, source, dists, heap, paths);
      if missing.Some? {
        return MissingEntry(missing.value);
      }
    }
    Finish(graph, source, dists, paths);
    r := Found(dists);
  }

  /**
   * One turn of the loop: pop the greatest state; skip it when stale; otherwise look up
   * its node's neighbours (None-less `unwrap`) and relax them.
   */
  method Step(graph: Graph, source: Name, dists: map<Name, nat>, heap: multiset<State>, ghost paths: map<Name, seq<Name>>)
    returns (missing: Option<Name>, d': map<Name, nat>, heap': multiset<State>, ghost paths': map<Name, seq<Name>>)
    requires |heap| > 0 && Inv(graph, source, dists, heap, paths)
    ensures missing.None? ==> Inv(graph, source, d', heap', paths')
    ensures missing.Some? ==> missing.value !in graph && Reachable(graph, source, missing.value)
  {
    MaxExists(heap);
    var top :| IsMax(top, heap);
    var rest := heap - multiset{top};
    assert heap == rest + multiset{top};
    var cost, node := top.cost, top.node;
    if node in dists && cost > dists[node] {
      PopStale(graph, source, dists, rest, paths, top);
      return None, dists, rest, paths;
    }
    if node !in graph {
      assert WalkTo(graph, source, paths[node], node, dists[node]);
      return Some(node), dists, rest, paths;
    }
    var nbs := graph[node];
    d', heap', paths' := Relax(graph, source, node, cost, nbs, dists, rest, paths);
    PopRelaxed(graph, source, node, cost, dists, rest, paths, top, d', heap', paths');
    missing := None;
  }

  /** A stale entry (cost above the recorded distance) leaves every waiting entry in place. */
  lemma PopStale(g: Graph, source: Name, d: map<Name, nat>, heap: multiset<State>,
                 paths: map<Name, seq<Name>>, top: State)
    requires Inv(g, source, d, heap + multiset{top}, paths)
    requires top.node in d && top.cost > d[top.node]
    ensures Inv(g, source, d, heap, paths)
  {
    forall k | k in d ensures State(d[k], k) in heap || Settled(g, d, k) {
      if State(d[k], k) in heap + multiset{top} && State(d[k], k) != top {
        assert State(d[k], k) in heap;
      }
    }
  }

  /**
   * The inner loop over the neighbours of node, reached at cost: a neighbour whose recorded
   * distance is above cost + 1 (or that has none) gets cost + 1 and is pushed.
   */
  method Relax(g: Graph, source: Name, node: Name, cost: nat, nbs: seq<Name>,
               d: map<Name, nat>, heap: multiset<State>, ghost paths: map<Name, seq<Name>>)
    returns (d': map<Name, nat>, heap': multiset<State>, ghost paths': map<Name, seq<Name>>)
    requires node in g && nbs == g[node] && node in d && d[node] == cost
    requires WalksFor(g, source, d, paths)
    ensures Relaxed(g, source, node, cost, d, heap, d', heap', paths')
  {
    d', heap', paths' := d, heap, paths;
    for i := 0 to |nbs|
      invariant RelaxedOver(nbs[..i], cost, d, heap, d', heap')
      invariant WalksFor(g, source, d', paths')
    {
      var next := State(cost + 1, nbs[i]);
      if next.node !in d' || next.cost < d'[next.node] {
        RelaxPush(nbs, i, cost, d, heap, d', heap');
        ExtendWalk(g, source, node, cost, nbs[i], d', paths[node], paths');
        d' := d'[next.node := next.cost];
        heap' := heap' + multiset{next};
        paths' := paths'[next.node := paths[node] + [next.node]];
      } else {
        RelaxKeep(nbs, i, cost, d, heap, d', heap');
      }
    }
    assert nbs[..|nbs|] == nbs;
  }

  /**
   * After relaxing the neighbours nbs from d and heap: recorded distances only decrease,
   * new keys are neighbours, every neighbour is within cost + 1, every changed distance
   * is cost + 1 and pushed, and the heap only gains such entries.
   */
  ghost predicate RelaxedOver(nbs: seq<Name>, cost: nat, d: map<Name, nat>, heap: multiset<State>,
                              d': map<Name, nat>, heap': multiset<State>)
  {
    && (forall k | k in d :: k in d' && d'[k] <= d[k])
    && (forall k | k in d' :: k in d || k in nbs)
    && (forall nb | nb in nbs :: nb in d' && d'[nb] <= cost + 1)
    && (forall k | k in d' && (k !in d || d'[k] < d[k]) :: d'[k] == cost + 1 && State(cost + 1, k) in heap')
    && heap <= heap'
    && (forall s | s in heap' :: s in heap || (s.node in d' && d'[s.node] == cost + 1 && s.cost == cost + 1))
  }

  lemma RelaxKeep(nbs: seq<Name>, i: nat, cost: nat, d: map<Name, nat>, heap: multiset<State>,
                  d': map<Name, nat>, heap': multiset<State>)
    requires i < |nbs| && RelaxedOver(nbs[..i], cost, d, heap, d', heap')
    requires nbs[i] in d' && d'[nbs[i]] <= cost + 1
    ensures RelaxedOver(nbs[..i + 1], cost, d, heap, d', heap')
  {
    assert nbs[..i + 1] == nbs[..i] + [nbs[i]];
  }

  lemma RelaxPush(nbs: seq<Name>, i: nat, cost: nat, d: map<Name, nat>, heap: multiset<State>,
                  d': map<Name, nat>, heap': multiset<State>)
    requires i < |nbs| && RelaxedOver(nbs[..i], cost, d, heap, d', heap')
    requires nbs[i] !in d' || cost + 1 < d'[nbs[i]]
    ensures RelaxedOver(nbs[..i + 1], cost, d, heap, d'[nbs[i] := cost + 1], heap' + multiset{State(cost + 1, nbs[i])})
  {
    assert nbs[..i + 1] == nbs[..i] + [nbs[i]];
  }

  /** A walk to node at cost, extended by one neighbour, reaches it at cost + 1. */
  lemma ExtendWalk(g: Graph, source: Name, node: Name, cost: nat, nb: Name,
                   d': map<Name, nat>, paths: seq<Name>, paths': map<Name, seq<Name>>)
    requires node in g && nb in g[node]
    requires WalkTo(g, source, paths, node, cost)
    requires WalksFor(g, source, d', paths')
    ensures WalksFor(g, source, d'[nb := cost + 1], paths'[nb := paths + [nb]])
  {
    var p := paths + [nb];
    assert p[|p| - 2] == node;
    assert WalkTo(g, source, p, nb, cost + 1);
  }

  /** What one relaxation of node at cost guarantees. */
  ghost predicate Relaxed(g: Graph, source: Name, node: Name, cost: nat, d: map<Name, nat>, heap: multiset<State>,
                          d': map<Name, nat>, heap': multiset<State>, paths': map<Name, seq<Name>>)
    requires node in g
  {
    RelaxedOver(g[node], cost, d, heap, d', heap') && WalksFor(g, source, d', paths')
  }

  /** Popping a current entry and relaxing its node keeps the invariant, with the node settled. */
  lemma PopRelaxed(g: Graph, source: Name, node: Name, cost: nat, d: map<Name, nat>, heap: multiset<State>,
                   paths: map<Name, seq<Name>>, top: State,
                   d': map<Name, nat>, heap': multiset<State>, paths': map<Name, seq<Name>>)
    requires top == State(cost, node) && node in g
    requires Inv(g, source, d, heap + multiset{top}, paths) && node in d && d[node] == cost
    requires Relaxed(g, source, node, cost, d, heap, d', heap', paths')
    ensures Inv(g, source, d', heap', paths')
  {
    PendingOrSettled(g, node, cost, d, heap, top, d', heap');
    HeapSound(g, node, cost, d, heap, top, d', heap');
  }

  lemma PendingOrSettled(g: Graph, node: Name, cost: nat, d: map<Name, nat>, heap: multiset<State>, top: State,
                         d': map<Name, nat>, heap': multiset<State>)
    requires top == State(cost, node) && node in g && node in d && d[node] == cost
    requires forall k | k in d :: State(d[k], k) in heap + multiset{top} || Settled(g, d, k)
    requires RelaxedOver(g[node], cost, d, heap, d', heap')
    ensures forall k | k in d' :: State(d'[k], k) in heap' || Settled(g, d', k)
  {
    assert d'[node] == cost;
    forall k | k in d' ensures State(d'[k], k) in heap' || Settled(g, d', k) {
      if k !in d || d'[k] < d[k] {
      } else if k == node {
        assert Settled(g, d', k);
      } else if State(d[k], k) in heap + multiset{top} {
        assert State(d[k], k) in heap;
      } else {
        assert Settled(g, d, k);
      }
    }
  }

  lemma HeapSound(g: Graph, node: Name, cost: nat, d: map<Name, nat>, heap: multiset<State>, top: State,
                  d': map<Name, nat>, heap': multiset<State>)
    requires node in g
    requires forall s | s in heap + multiset{top} :: s.node in d && d[s.node] <= s.cost
    requires RelaxedOver(g[node], cost, d, heap, d', heap')
    ensures forall s | s in heap' :: s.node in d' && d'[s.node] <= s.cost
  {
    forall s | s in heap' ensures s.node in d' && d'[s.node] <= s.cost {
      if s in heap {
        assert s in heap + multiset{top};
      }
    }
  }

  /** With the heap empty, every recorded node is settled, so the distances are the shortest. */
  lemma Finish(g: Graph, source: Name, d: map<Name, nat>, paths: map<Name, seq<Name>>)
    requires Inv(g, source, d, multiset{}, paths)
    ensures ShortestFrom(g, source, d)
  {
    forall k | k in d ensures Reaches(g, source, k, d[k]) {
      assert WalkTo(g, source, paths[k], k, d[k]);
    }
    forall p | Walk(g, p) && p[0] == source ensures p[|p| - 1] in d && d[p[|p| - 1]] <= |p| - 1 {
      WalkBound(g, source, d, p, |p| - 1);
    }
  }

  /** Along a walk from source through settled nodes, the j-th node is recorded within j. */
  lemma {:induction false} WalkBound(g: Graph, source: Name, d: map<Name, nat>, p: seq<Name>, j: nat)
    requires source in d && d[source] == 0 && forall k | k in d :: Settled(g, d, k)
    requires Walk(g, p) && p[0] == source && j < |p|
    ensures p[j] in d && d[p[j]] <= j
  {
    if j > 0 {
      WalkBound(g, source, d, p, j - 1);
      assert Settled(g, d, p[j - 1]);
      assert p[j] in g[p[j - 1]];
    }
  }

  /** What `answer2` reports: the orbital transfers, or why it panics. */
  datatype Transfers = Transfers(count: nat) | SantaUnreached | TooClose | SearchFailed(why: Search)

  /** No walk from source to target is shorter than len. */
  ghost predicate NoShorter(g: Graph, source: Name, target: Name, len: nat)
  {
    forall p | Walk(g, p) && p[0] == source && p[|p| - 1] == target :: len <= |p| - 1
  }

  /** Some walk leads from source to target. */
  ghost predicate Reachable(g: Graph, source: Name, target: Name)
  {
    exists p :: Walk(g, p) && p[0] == source && p[|p| - 1] == target
  }

  /** From shortest distances out of source, a target's entry is its shortest walk. */
  lemma TargetDistance(g: Graph, source: Name, d: map<Name, nat>, target: Name, len: nat)
    requires ShortestFrom(g, source, d) && target in d && d[target] == len
    ensures Reaches(g, source, target, len) && NoShorter(g, source, target, len)
  {
  }

  /** From shortest distances out of source, a missing entry means no walk reaches the target. */
  lemma TargetMissing(g: Graph, source: Name, d: map<Name, nat>, target: Name)
    requires ShortestFrom(g, source, d) && target !in d
    ensures !Reachable(g, source, target)
  {
  }

  /**
   * `answer2` on the edges: the shortest walk from YOU to SAN, minus the two edges to the
   * objects they orbit.  `unwrap` on a missing SAN and the `usize` subtraction below 2 panic.
   */
  method OrbitTransfers(edges: seq<Edge>, fuel: nat) returns (r: Transfers)
    ensures r.Transfers? ==>
      Reaches(GraphOf(edges), "YOU", "SAN", r.count + 2) && NoShorter(GraphOf(edges), "YOU", "SAN", r.count + 2)
    ensures r.SantaUnreached? ==> !Reachable(GraphOf(edges), "YOU", "SAN")
  {
    var graph := BuildGraph(edges);
    IsGraphOf(edges, graph);
    r := TransfersIn(graph, fuel);
  }

  /** The part of `answer2` after the graph is built. */
  method TransfersIn(graph: Graph, fuel: nat) returns (r: Transfers)
    ensures r.Transfers? ==> Reaches(graph, "YOU", "SAN", r.count + 2) && NoShorter(graph, "YOU", "SAN", r.count + 2)
    ensures r.SantaUnreached? ==> !Reachable(graph, "YOU", "SAN")
  {
    var search := ShortestPath(graph, "YOU", fuel);
    if !search.Found? {
      return SearchFailed(search);
    }
    var d := search.dists;
    if "SAN" !in d {
      TargetMissing(graph, "YOU", d, "SAN");
      return SantaUnreached;
    }
    if d["SAN"] < 2 {
      return TooClose;
    }
    r := Transfers(d["SAN"] - 2);
    TargetDistance(graph, "YOU", d, "SAN", r.count + 2);
  }
}
