/**
 * The background grid: a dense n x n x n array of nodes, each holding a
 * momentum (turned into a velocity in place by the grid update) and a mass.
 * Nodes are stored in one flat array; node (a, b, c) lives at index
 * (a * n + b) * n + c.
 */
module Grid {
  import opened Vectors
  import opened Config

  /** One grid node: `grid_v` (momentum, later velocity) and `grid_m`. */
  datatype GridNode = GridNode(v: Vec3, m: real)

  const ZERO_NODE: GridNode := GridNode(ZERO3, 0.0)

  function AddNode(a: GridNode, d: GridNode): GridNode
  {
    GridNode(Add(a.v, d.v), a.m + d.m)
  }

  predicate InGrid(n: nat, a: int, b: int, c: int)
  {
    0 <= a < n && 0 <= b < n && 0 <= c < n
  }

  lemma MulAddBound(q: int, r: int, n: int, m: int)
    requires 0 <= q < m && 0 <= r < n
    ensures 0 <= q * n + r < m * n
  {
    assert q * n <= (m - 1) * n by {
      assert (m - 1) * n - q * n == (m - 1 - q) * n;
    }
  }

  lemma MulAddUnique(q: int, r: int, q2: int, r2: int, n: int)
    requires 0 <= r < n && 0 <= r2 < n
    requires q * n + r == q2 * n + r2
    ensures q == q2 && r == r2
  {
    var d := q2 - q;
    assert d * n == r - r2;
  }

  /** Flat index of node (a, b, c); it is a valid index of an n^3 array. */
  function NodeIndex(n: nat, a: int, b: int, c: int): (r: int)
    requires InGrid(n, a, b, c)
    ensures 0 <= r < n * n * n
  {
    MulAddBound(a, b, n, n);
    MulAddBound(a * n + b, c, n, n * n);
    (a * n + b) * n + c
  }

  /** Distinct nodes have distinct flat indices. */
  lemma NodeIndexInjective(n: nat, a: int, b: int, c: int, a2: int, b2: int, c2: int)
    requires InGrid(n, a, b, c) && InGrid(n, a2, b2, c2)
    requires NodeIndex(n, a, b, c) == NodeIndex(n, a2, b2, c2)
    ensures a == a2 && b == b2 && c == c2
  {
    MulAddUnique(a * n + b, c, a2 * n + b2, c2, n);
    MulAddUnique(a, b, a2, b2, n);
  }

  /** Contrapositive of injectivity: different nodes, different flat indices. */
  lemma NodeIndexDistinct(n: nat, a: int, b: int, c: int, a2: int, b2: int, c2: int)
    requires InGrid(n, a, b, c) && InGrid(n, a2, b2, c2)
    requires a != a2 || b != b2 || c != c2
    ensures NodeIndex(n, a, b, c) != NodeIndex(n, a2, b2, c2)
  {
    if NodeIndex(n, a, b, c) == NodeIndex(n, a2, b2, c2) {
      NodeIndexInjective(n, a, b, c, a2, b2, c2);
    }
  }

  /** Euclidean division by n is determined by the quotient and a remainder in [0, n). */
  lemma DivModUnique(q: int, n: int, x: int, r: int)
    requires n > 0 && q == x * n + r && 0 <= r < n
    ensures q / n == x && q % n == r
  {
    MulAddUnique(x, r, q / n, q % n, n);
  }

  /** The coordinates of the node stored at flat index q: a = q / n / n, b = q / n % n, c = q % n. */
  function NodeA(n: nat, q: int): int
    requires n > 0
  {
    q / n / n
  }

  function NodeB(n: nat, q: int): int
    requires n > 0
  {
    q / n % n
  }

  function NodeC(n: nat, q: int): int
    requires n > 0
  {
    q % n
  }

  /** Decoding the flat index of node (a, b, c) gives back a, b and c. */
  lemma NodeIndexDecode(n: nat, a: int, b: int, c: int)
    requires InGrid(n, a, b, c)
    ensures NodeA(n, NodeIndex(n, a, b, c)) == a && NodeB(n, NodeIndex(n, a, b, c)) == b
    ensures NodeC(n, NodeIndex(n, a, b, c)) == c
  {
    var q := NodeIndex(n, a, b, c);
    DivModUnique(q, n, a * n + b, c);
    DivModUnique(a * n + b, n, a, b);
  }

  lemma DivBelow(q: int, n: int, m: int)
    requires n > 0 && 0 <= q < m * n
    ensures 0 <= q / n < m
  {
    assert (q / n) * n <= q;
  }

  /** Every index of an n^3 array stores some node of the grid, found by decoding. */
  lemma NodeDecodeInGrid(n: nat, q: int)
    requires n > 0 && 0 <= q < n * n * n
    ensures InGrid(n, NodeA(n, q), NodeB(n, q), NodeC(n, q))
    ensures NodeIndex(n, NodeA(n, q), NodeB(n, q), NodeC(n, q)) == q
  {
    assert n * n * n == (n * n) * n;
    DivBelow(q, n, n * n);
    DivBelow(q / n, n, n);
  }

  /** A grid of the given size with every node cleared. */
  function ClearedGrid(size: nat): (s: seq<GridNode>)
    ensures |s| == size && forall i :: 0 <= i < size ==> s[i] == ZERO_NODE
  {
    seq(size, _ => ZERO_NODE)
  }

  /** Total mass of a sequence of nodes. */
  ghost function TotalMass(s: seq<GridNode>): real
  {
    if |s| == 0 then 0.0 else TotalMass(s[..|s| - 1]) + s[|s| - 1].m
  }

  /** Total momentum of a sequence of nodes. */
  ghost function TotalMomentum(s: seq<GridNode>): Vec3
  {
    if |s| == 0 then ZERO3 else Add(TotalMomentum(s[..|s| - 1]), s[|s| - 1].v)
  }

  /** Adding d to one node adds d's mass and momentum to the totals. */
  lemma {:induction false} TotalsAddAt(s: seq<GridNode>, i: int, d: GridNode)
    requires 0 <= i < |s|
    ensures TotalMass(s[i := AddNode(s[i], d)]) == TotalMass(s) + d.m
    ensures TotalMomentum(s[i := AddNode(s[i], d)]) == Add(TotalMomentum(s), d.v)
  {
    var s2 := s[i := AddNode(s[i], d)];
    var last := |s| - 1;
    if i == last {
      assert s2[..last] == s[..last];
    } else {
      assert s2[..last] == s[..last][i := AddNode(s[i], d)];
      TotalsAddAt(s[..last], i, d);
    }
  }

  /** Sequences with the same masses have the same total mass. */
  lemma {:induction false} TotalMassOfSameMasses(s: seq<GridNode>, s2: seq<GridNode>)
    requires |s| == |s2|
    requires forall i :: 0 <= i < |s| ==> s[i].m == s2[i].m
    ensures TotalMass(s) == TotalMass(s2)
  {
    if |s| > 0 {
      TotalMassOfSameMasses(s[..|s| - 1], s2[..|s2| - 1]);
    }
  }

  /** A cleared grid carries no mass and no momentum. */
  lemma {:induction false} TotalsOfClearedGrid(s: seq<GridNode>)
    requires forall i :: 0 <= i < |s| ==> s[i] == ZERO_NODE
    ensures TotalMass(s) == 0.0 && TotalMomentum(s) == ZERO3
  {
    if |s| > 0 {
      TotalsOfClearedGrid(s[..|s| - 1]);
    }
  }

  /** No node carries a negative mass. */
  predicate NonNegativeMasses(s: seq<GridNode>)
  {
    forall i :: 0 <= i < |s| ==> s[i].m >= 0.0
  }

  /** Adding a non-negative mass to one node keeps all masses non-negative. */
  lemma NonNegativeMassesAddAt(s: seq<GridNode>, i: int, d: GridNode)
    requires 0 <= i < |s| && NonNegativeMasses(s) && d.m >= 0.0
    ensures NonNegativeMasses(s[i := AddNode(s[i], d)])
  {
  }

  // ----- The grid update (`grid_op`) of one node -----

  function Min(a: real, b: real): real
  {
    if a < b then a else b
  }

  function Max(a: real, b: real): real
  {
    if a > b then a else b
  }

  /**
   * The boundary rule on one axis for a node whose coordinate on that axis
   * is idx: above n - 5 the component is replaced by min(u, 0), then below
   * 5 by max(., 0). Its effect: exactly an outward-pointing component
   * inside a boundary layer is zeroed; everything else is kept.
   */
  function ClampAxis(n: int, idx: int, u: real): (r: real)
    ensures r == if (n - BOUNDARY < idx && u > 0.0) || (idx < BOUNDARY && u < 0.0) then 0.0 else u
  {
    var high := if n - BOUNDARY < idx then Min(u, 0.0) else u;
    if idx < BOUNDARY then Max(high, 0.0) else high
  }

  /**
   * The velocity of a node before the boundary rule: for a node with
   * positive mass, momentum / mass plus dt * gravity on the vertical axis;
   * a node without positive mass is not divided and gets no gravity.
   */
  function GridVelocity(node: GridNode): Vec3
  {
    if node.m > 0.0 then
      var inv := 1.0 / node.m;
      Vec3(node.v.x * inv, node.v.y * inv + DT * GRAVITY, node.v.z * inv)
    else
      node.v
  }

  /**
   * What GridVelocity means: with positive mass, velocity times mass gives
   * back the momentum (less the gravity increment on the vertical axis);
   * without it, the node's value is kept.
   */
  lemma GridVelocityMomentum(node: GridNode)
    ensures var u := GridVelocity(node);
      && (node.m > 0.0 ==> u.x * node.m == node.v.x)
      && (node.m > 0.0 ==> (u.y - DT * GRAVITY) * node.m == node.v.y)
      && (node.m > 0.0 ==> u.z * node.m == node.v.z)
      && (node.m <= 0.0 ==> u == node.v)
  {
  }

  /** Node (a, b, c) after the grid update: clamped velocity, mass unchanged. */
  function SolvedNode(n: nat, a: int, b: int, c: int, node: GridNode): GridNode
  {
    var u := GridVelocity(node);
    GridNode(Vec3(ClampAxis(n, a, u.x), ClampAxis(n, b, u.y), ClampAxis(n, c, u.z)), node.m)
  }

  /**
   * The boundary rule stated on node indices: past n - 5 on an axis the
   * component is not positive, below 5 it is not negative, in between it is
   * the computed velocity; mass is untouched.
   */
  lemma GridUpdateBoundary(n: nat, a: int, b: int, c: int, node: GridNode)
    ensures var r := SolvedNode(n, a, b, c, node); var u := GridVelocity(node);
      && r.m == node.m
      && (a > n - BOUNDARY ==> r.v.x <= 0.0) && (a < BOUNDARY ==> r.v.x >= 0.0)
      && (b > n - BOUNDARY ==> r.v.y <= 0.0) && (b < BOUNDARY ==> r.v.y >= 0.0)
      && (c > n - BOUNDARY ==> r.v.z <= 0.0) && (c < BOUNDARY ==> r.v.z >= 0.0)
      && (BOUNDARY <= a <= n - BOUNDARY ==> r.v.x == u.x)
      && (BOUNDARY <= b <= n - BOUNDARY ==> r.v.y == u.y)
      && (BOUNDARY <= c <= n - BOUNDARY ==> r.v.z == u.z)
  {
  }
}
