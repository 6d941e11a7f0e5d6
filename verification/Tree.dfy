/** Draft trees as parent arrays: what a valid one is, its ancestor matrix computed two ways, and
    the greedy walk that accepts a path. */
module Tree {
  import opened Decode
  import opened Indices

  /** The k-th node on the way up from i; -1 once past a root (or off the array). */
  function Up(par: seq<int>, i: int, k: nat): int
    decreases k
  {
    if k == 0 then i
    else if 0 <= i < |par| then Up(par, par[i], k - 1)
    else -1
  }

  /** A forest over M nodes with true root distances: from every node exactly dep[i] steps up lead
      to a root. */
  predicate Forest(M: int, par: seq<int>, dep: seq<int>) {
    && M >= 1 && |par| == |dep| == M
    && forall i :: 0 <= i < M ==> RootAt(par, i, dep[i])
  }

  predicate RootAt(par: seq<int>, i: int, d: int) {
    && d >= 0 && Up(par, i, d + 1) == -1
    && forall k :: 0 <= k <= d ==> 0 <= Up(par, i, k) < |par|
  }

  /** The stage's own check: parents in range and not the node itself, depths one more than the
      parent's. */
  predicate Valid(M: int, par: seq<int>, dep: seq<int>) {
    && M >= 1 && |par| == |dep| == M
    && forall i :: 0 <= i < M ==> ChildDepth(par, dep, i)
  }

  predicate ChildDepth(par: seq<int>, dep: seq<int>, i: nat)
    requires |par| == |dep| && i < |par|
  {
    -1 <= par[i] < |par| && par[i] != i && dep[i] == if par[i] == -1 then 0 else dep[par[i]] + 1
  }

  lemma {:induction false} RootUnique(par: seq<int>, i: int, d: int, e: int)
    requires RootAt(par, i, d) && RootAt(par, i, e)
    ensures d == e
  {
    assert Up(par, i, Min(d, e) + 1) == -1;
  }

  lemma {:induction false} RootOfParent(par: seq<int>, i: nat, d: int)
    requires i < |par| && d >= 1
    ensures RootAt(par, i, d) <==> RootAt(par, par[i], d - 1)
  {
    if RootAt(par, i, d) {
      forall k | 0 <= k <= d - 1 ensures 0 <= Up(par, par[i], k) < |par| {
        assert Up(par, i, k + 1) == Up(par, par[i], k);
      }
    }
    if RootAt(par, par[i], d - 1) {
      forall k | 0 <= k <= d ensures 0 <= Up(par, i, k) < |par| {
        assert k > 0 ==> Up(par, i, k) == Up(par, par[i], k - 1);
      }
    }
  }

  lemma {:induction false} ValidRoots(M: int, par: seq<int>, dep: seq<int>, i: nat)
    requires Valid(M, par, dep) && i < M && forall j :: 0 <= j < M ==> dep[j] >= 0
    ensures RootAt(par, i, dep[i])
    decreases dep[i]
  {
    assert ChildDepth(par, dep, i);
    if par[i] != -1 {
      ValidRoots(M, par, dep, par[i]);
      RootOfParent(par, i, dep[i]);
    } else {
      assert Up(par, i, 1) == Up(par, -1, 0);
    }
  }

  lemma {:induction false} ForestLinked(M: int, par: seq<int>, dep: seq<int>, i: nat)
    requires Forest(M, par, dep) && i < M
    ensures ChildDepth(par, dep, i)
  {
    assert RootAt(par, i, dep[i]);
    var d := dep[i];
    assert Up(par, i, 1) == par[i] by { assert Up(par, par[i], 0) == par[i]; }
    if d >= 1 {
      assert 0 <= Up(par, i, 1) < |par|;
      RootOfParent(par, i, d);
      assert RootAt(par, par[i], dep[par[i]]);
      RootUnique(par, par[i], d - 1, dep[par[i]]);
    }
  }

  /** Depths that are non-negative and linked are exactly the forests with true root distances, in
      any node order: depth consistency alone rules out cycles. */
  lemma {:induction false} ValidIsForest(M: int, par: seq<int>, dep: seq<int>)
    ensures Forest(M, par, dep) <==> Valid(M, par, dep) && forall i :: 0 <= i < M ==> dep[i] >= 0
  {
    if Valid(M, par, dep) && forall i :: 0 <= i < M ==> dep[i] >= 0 {
      forall i | 0 <= i < M ensures RootAt(par, i, dep[i]) {
        ValidRoots(M, par, dep, i);
      }
    }
    if Forest(M, par, dep) {
      forall i | 0 <= i < M ensures ChildDepth(par, dep, i) && dep[i] >= 0 {
        ForestLinked(M, par, dep, i);
        assert RootAt(par, i, dep[i]);
      }
    }
  }

  /** Accept or reject a tree before any parent walk. */
  method ValidateTree(M: int, par: seq<int>, dep: seq<int>) returns (ok: bool)
    ensures ok <==> Forest(M, par, dep)
  {
    hide Forest;
    ValidIsForest(M, par, dep);
    if M < 1 || |par| != M || |dep| != M {
      return false;
    }
    for i := 0 to M
      invariant forall k :: 0 <= k < i ==> -1 <= par[k] < M && par[k] != k && dep[k] >= 0
    {
      var p, d := par[i], dep[i];
      if !(-1 <= p < M) || p == i || d < 0 {
        assert !ChildDepth(par, dep, i) || dep[i] < 0;
        return false;
      }
    }
    for i := 0 to M
      invariant forall k :: 0 <= k < i ==> ChildDepth(par, dep, k)
    {
      var want := if par[i] == -1 then 0 else dep[par[i]] + 1;
      if dep[i] != want {
        assert !ChildDepth(par, dep, i);
        return false;
      }
    }
    return true;
  }

  /** j is i itself or one of the nodes on its way up. */
  predicate Ancestor(par: seq<int>, dep: seq<int>, i: nat, j: nat)
    requires i < |dep|
  {
    exists k :: 0 <= k <= dep[i] && Up(par, i, k) == j
  }

  lemma {:induction false} AncestorStep(M: int, par: seq<int>, dep: seq<int>, i: nat, j: nat)
    requires Forest(M, par, dep) && i < M && j < M
    ensures -1 <= par[i] < M && dep[i] == (if par[i] == -1 then 0 else dep[par[i]] + 1)
    ensures Ancestor(par, dep, i, j) <==> j == i || (par[i] != -1 && Ancestor(par, dep, par[i], j))
  {
    ForestLinked(M, par, dep, i);
    assert RootAt(par, i, dep[i]);
    if Ancestor(par, dep, i, j) && j != i {
      var k :| 0 <= k <= dep[i] && Up(par, i, k) == j;
      assert Up(par, par[i], k - 1) == j;
    }
    if par[i] != -1 && Ancestor(par, dep, par[i], j) {
      var k :| 0 <= k <= dep[par[i]] && Up(par, par[i], k) == j;
      assert Up(par, i, k + 1) == j;
    }
    if j == i {
      assert Up(par, i, 0) == j;
    }
  }

  lemma {:induction false} NodeFacts(M: int, par: seq<int>, dep: seq<int>, i: nat)
    requires Forest(M, par, dep) && i < M
    ensures -1 <= par[i] < M && dep[i] >= 0 && dep[i] == (if par[i] == -1 then 0 else dep[par[i]] + 1)
  {
    ForestLinked(M, par, dep, i);
    assert RootAt(par, i, dep[i]);
  }

  datatype Shape = Shape(par: seq<int>, dep: seq<int>)

  /** A tree that has passed the check. */
  type Topology = t: Shape | Forest(|t.par|, t.par, t.dep) witness Shape([-1], [0])

  function Size(t: Topology): (n: nat)
    ensures n >= 1
  {
    |t.par|
  }

  function Depth(t: Topology, i: nat): nat
    requires i < Size(t)
  {
    assert RootAt(t.par, i, t.dep[i]);
    t.dep[i]
  }

  /** The parent of a node, if it is not a root. */
  function Above(t: Topology, i: nat): (p: int)
    requires i < Size(t)
    ensures -1 <= p < Size(t)
    ensures Depth(t, i) == if p == -1 then 0 else Depth(t, p) + 1
  {
    NodeFacts(|t.par|, t.par, t.dep, i);
    t.par[i]
  }

  predicate IsAncestor(t: Topology, i: nat, j: nat)
    requires i < Size(t)
  {
    Ancestor(t.par, t.dep, i, j)
  }

  /** The nodes from the root down to i. */
  function Chain(t: Topology, i: nat): (c: seq<nat>)
    requires i < Size(t)
    ensures |c| == Depth(t, i) + 1 && c[Depth(t, i)] == i
    ensures forall k :: 0 <= k < |c| ==> c[k] < Size(t) && Depth(t, c[k]) == k
    decreases Depth(t, i)
  {
    var p := Above(t, i);
    if p == -1 then [i] else Chain(t, p) + [i]
  }

  /** The text a node stands for: the prefix, then the tokens or rows of its chain. */
  function Text<T>(pre: seq<T>, xs: seq<T>, t: Topology, i: nat): (text: seq<T>)
    requires |xs| == Size(t) && i < Size(t)
    ensures |text| == |pre| + Depth(t, i) + 1
  {
    pre + Picked(xs, Chain(t, i))
  }

  /** Every node on the way down has the chain so far as its own. */
  lemma {:induction false} ChainPrefix(t: Topology, i: nat, k: nat)
    requires i < Size(t) && k <= Depth(t, i)
    ensures Chain(t, Chain(t, i)[k]) == Chain(t, i)[..k + 1]
    decreases Depth(t, i)
  {
    hide Depth;
    var c, p := Chain(t, i), Above(t, i);
    if k == Depth(t, i) {
      assert c[..k + 1] == c;
    } else {
      ChainPrefix(t, p, k);
      assert c[..k + 1] == Chain(t, p)[..k + 1];
    }
  }

  lemma {:induction false} AncestorInChain(t: Topology, i: nat, j: nat)
    requires i < Size(t) && j < Size(t)
    ensures IsAncestor(t, i, j) <==> j in Chain(t, i)
    decreases Depth(t, i)
  {
    hide RootAt, Ancestor, Depth;
    AncestorStep(|t.par|, t.par, t.dep, i, j);
    var p := Above(t, i);
    if p != -1 {
      AncestorInChain(t, p, j);
    }
  }

  /** The ancestor matrix by walking up from every node; each walk takes dep[i] + 1 steps. */
  method AncestorsByWalk(M: nat, par: seq<int>, dep: seq<int>, anc: array2<bool>)
    requires Forest(M, par, dep) && anc.Length0 == anc.Length1 == M
    requires forall i, j :: 0 <= i < M && 0 <= j < M ==> !anc[i, j]
    modifies anc
    ensures forall i, j :: 0 <= i < M && 0 <= j < M ==> (anc[i, j] <==> Ancestor(par, dep, i, j))
  {
    hide RootAt, Ancestor;
    for i := 0 to M
      invariant forall a, j :: 0 <= a < i && 0 <= j < M ==> (anc[a, j] <==> Ancestor(par, dep, a, j))
      invariant forall a, j :: i <= a < M && 0 <= j < M ==> !anc[a, j]
    {
      var node := i;
      while node != -1
        invariant -1 <= node < M
        invariant forall a, j :: 0 <= a < i && 0 <= j < M ==> (anc[a, j] <==> Ancestor(par, dep, a, j))
        invariant forall a, j :: i < a < M && 0 <= j < M ==> !anc[a, j]
        invariant forall j :: 0 <= j < M ==>
                                (Ancestor(par, dep, i, j) <==> anc[i, j] || (node != -1 && Ancestor(par, dep, node, j)))
        decreases if node == -1 then 0 else dep[node] + 1
      {
        NodeFacts(M, par, dep, node);
        forall j | 0 <= j < M
          ensures Ancestor(par, dep, node, j) <==> j == node || (par[node] != -1 && Ancestor(par, dep, par[node], j))
        {
          AncestorStep(M, par, dep, node, j);
        }
        anc[i, node] := true;
        node := par[node];
      }
    }
  }

  /** The same matrix in one pass, each node inheriting its parent's row; parents come first. */
  method AncestorsByInheritance(M: nat, par: seq<int>, ghost dep: seq<int>, attend: array2<bool>)
    requires Forest(M, par, dep) && attend.Length0 == attend.Length1 == M
    requires forall i :: 0 <= i < M ==> par[i] < i
    requires forall i, j :: 0 <= i < M && 0 <= j < M ==> (attend[i, j] <==> i == j)
    modifies attend
    ensures forall i, j :: 0 <= i < M && 0 <= j < M ==> (attend[i, j] <==> Ancestor(par, dep, i, j))
  {
    hide RootAt, Ancestor;
    for i := 0 to M
      invariant forall a, j :: 0 <= a < i && 0 <= j < M ==> (attend[a, j] <==> Ancestor(par, dep, a, j))
      invariant forall a, j :: i <= a < M && 0 <= j < M ==> (attend[a, j] <==> a == j)
    {
      var p := par[i];
      NodeFacts(M, par, dep, i);
      forall j | 0 <= j < M
        ensures Ancestor(par, dep, i, j) <==> j == i || (p != -1 && Ancestor(par, dep, p, j))
      {
        AncestorStep(M, par, dep, i, j);
      }
      if p >= 0 {
        for j := 0 to M
          invariant forall a, c :: 0 <= a < i && 0 <= c < M ==> (attend[a, c] <==> Ancestor(par, dep, a, c))
          invariant forall a, c :: i < a < M && 0 <= c < M ==> (attend[a, c] <==> a == c)
          invariant forall c :: 0 <= c < j ==> (attend[i, c] <==> c == i || Ancestor(par, dep, p, c))
          invariant forall c :: j <= c < M ==> (attend[i, c] <==> c == i)
        {
          attend[i, j] := attend[i, j] || attend[p, j];
        }
      }
    }
  }
}
