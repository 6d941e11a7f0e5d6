/** Many drafters' trees at once: their heaps advance in lockstep and each round's expansions go
    through the head together. Every drafter gets the tree of its own serial run.

    Each fork is either between two steps of its own search or halfway through one, waiting for an
    expansion; a round takes every waiting fork through exactly one step. */
module LockstepTrees {
  import opened Decode
  import opened Options
  import opened Indices
  import opened BestFirst
  import opened EagleTree

  datatype Fork = Fork(v: Vars, pend: Option<Pend>)

  /** Where a fork's search stands: about to expand the anchor, between pops, or halfway through one. */
  datatype Phase = Fresh | Ready(s: State) | Halfway(s: State)

  ghost predicate ForkOk(A: Anchor, m: nat, maxDepth: nat, f: Fork, ph: Phase) {
    match ph
    case Fresh => f == Fork(EmptyVars(m), Some(AnchorPend(A)))
    case Ready(s) => f.pend.None? && Mirrors(A, m, s, f.v) && OnCourse(A, m, maxDepth, s)
    case Halfway(s) => f.pend.Some? && Half(A, m, maxDepth, s, f.v, f.pend.value) && OnCourse(A, m, maxDepth, s)
  }

  /** The serial run passes through this state. */
  ghost predicate OnCourse(A: Anchor, m: nat, maxDepth: nat, s: State) {
    Paths(A, s) && Search(A, m, Max(1, maxDepth), s) == Best(A, m, Max(1, maxDepth))
  }

  predicate Finished(f: Fork, m: nat) {
    f.pend.None? && (f.v.heap == [] || |f.v.tokens| >= m)
  }

  /** Advance one fork's heap until it needs an expansion or its tree is complete. */
  method Advance(f0: Fork, m: nat, maxDepth: nat, ghost A: Anchor, ghost ph0: Phase) returns (f: Fork, ghost ph: Phase)
    requires ForkOk(A, m, maxDepth, f0, ph0) && (ph0.Ready? || ph0.Fresh?)
    ensures ForkOk(A, m, maxDepth, f, ph) && !(ph.Ready? && !Finished(f, m))
    ensures ph0.Fresh? ==> ph.Fresh?
    ensures ph.Fresh? ==> ph0.Fresh?
    ensures ph.Halfway? ==> |f0.v.tokens| < |f.v.tokens| < m
    ensures ph0.Ready? && Finished(f0, m) ==> ph.Ready?
  {
    hide Mirrors, Half, OnCourse, Pop;
    f, ph := f0, ph0;
    if f.pend.Some? || Finished(f, m) { return; }
    while f.pend.None? && f.v.heap != [] && |f.v.tokens| < m
      invariant ForkOk(A, m, maxDepth, f, ph) && !ph.Fresh?
      invariant |f0.v.tokens| <= |f.v.tokens|
      invariant ph.Halfway? ==> |f0.v.tokens| < |f.v.tokens| < m
      decreases f.pend.None?, m - |f.v.tokens|
    {
      ghost var s := ph.s;
      StepOnCourse(A, m, maxDepth, s, f.v);
      var v, p := TakeBest(f.v, m, maxDepth, A, s);
      f := Fork(v, p);
      if p.Some? {
        HalfRoom(A, m, maxDepth, s, v, p.value);
        ph := Halfway(s);
      } else {
        ph := Ready(Pop(A, m, maxDepth, s));
      }
    }
  }

  lemma {:induction false} HalfRoom(A: Anchor, m: nat, D: nat, s: State, v: Vars, p: Pend)
    requires Half(A, m, D, s, v, p)
    ensures |v.tokens| < m
  {
  }

  /** A pop stays on the serial run's course. */
  lemma {:induction false} StepOnCourse(A: Anchor, m: nat, maxDepth: nat, s: State, v: Vars)
    requires Mirrors(A, m, s, v) && OnCourse(A, m, maxDepth, s) && v.heap != [] && |v.tokens| < m
    ensures Paths(A, s) && s.cands != [] && OnCourse(A, m, maxDepth, Pop(A, m, maxDepth, s))
  {
    hide Mirrors, Pop, Search;
    MirrorFacts(A, m, s, v);
    MirrorPaths(A, m, s, v);
    PopDepth(A, m, maxDepth, s);
    SearchSteps(A, m, Max(1, maxDepth), s);
  }

  /** An expansion and the side table after it. */
  datatype Answer = Answer(e: Expansion, side: seq<Slot>)

  ghost predicate Answers(A: Anchor, p: Pend, side: seq<Slot>, a: Answer)
    requires Within(p.anc, |side|) && -1 <= p.own < |side|
  {
    var slot := A.head.project(p.tok, p.h, Pos(A, p.depth));
    && a.side == (if p.own == -1 then side else side[p.own := slot])
    && a.e == A.head.forward(A.ctx + Picked(side, p.anc) + (if p.own == -1 then [] else [slot]), p.tok, p.h,
                             Pos(A, p.depth))
  }

  /** A pending fork may be expanded in the scratch it has. */
  lemma {:induction false} PendFits(A: Anchor, m: nat, maxDepth: nat, f: Fork, ph: Phase)
    requires ForkOk(A, m, maxDepth, f, ph) && !ph.Ready?
    ensures f.pend.Some? && Within(f.pend.value.anc, |f.v.side|) && -1 <= f.pend.value.own < |f.v.side|
    ensures |f.pend.value.anc| <= maxDepth
  {
    hide Half, OnCourse;
    if ph.Halfway? {
      HalfExpands(A, m, maxDepth, ph.s, f.v, f.pend.value);
    }
  }

  /** Give a fork its own row of the round's results. */
  method FeedBack(f0: Fork, a: Answer, ghost A: Anchor, ghost m: nat, ghost maxDepth: nat, ghost ph0: Phase)
    returns (f: Fork, ghost ph: Phase)
    requires ForkOk(A, m, maxDepth, f0, ph0) && !ph0.Ready? && f0.pend.Some?
    requires Within(f0.pend.value.anc, |f0.v.side|) && -1 <= f0.pend.value.own < |f0.v.side|
    requires Answers(A, f0.pend.value, f0.v.side, a)
    ensures ForkOk(A, m, maxDepth, f, ph) && ph.Ready? && |f.v.tokens| == |f0.v.tokens|
  {
    hide Mirrors, Half, OnCourse, Pop;
    var p := f0.pend.value;
    var v := Feed(f0.v, p, a.e);
    v := v.(side := a.side);
    f := Fork(v, None);
    if ph0.Fresh? {
      assert Picked(f0.v.side, []) == [];
      Seeded(A, m, a.e, v);
      ph := Ready(Seed(A));
      SeedOnCourse(A, m, maxDepth);
    } else {
      var s := ph0.s;
      HalfExpands(A, m, maxDepth, s, f0.v, p);
      FeedStep(A, m, maxDepth, s, f0.v, p, a.e, a.side, v);
      HalfOnCourse(A, m, maxDepth, s, f0.v, p);
      ph := Ready(Pop(A, m, maxDepth, s));
    }
  }

  lemma {:induction false} SeedOnCourse(A: Anchor, m: nat, maxDepth: nat)
    requires Paths(A, Seed(A))
    ensures OnCourse(A, m, maxDepth, Seed(A))
  {
    hide Search, Paths;
  }

  lemma {:induction false} HalfOnCourse(A: Anchor, m: nat, maxDepth: nat, s: State, v: Vars, p: Pend)
    requires Half(A, m, maxDepth, s, v, p) && OnCourse(A, m, maxDepth, s)
    ensures Paths(A, s) && s.cands != [] && OnCourse(A, m, maxDepth, Pop(A, m, maxDepth, s))
  {
    hide Pop, Search, IsPath;
    assert |s.cands[Least(s.cands)].path| < maxDepth;
    SearchSteps(A, m, Max(1, maxDepth), s);
  }

  // ----- the forks -----

  /** Distinct drafters with distinct buffers. */
  ghost predicate Separate(ds: seq<EagleDrafter>)
    reads ds
  {
    && (forall j :: 0 <= j < |ds| ==> ds[j].Valid())
    && forall i, j :: 0 <= i < j < |ds| ==> ds[i] != ds[j] && ds[i].kbuf != ds[j].kbuf
  }

  ghost function Buffers(ds: seq<EagleDrafter>): set<object>
    reads ds
  {
    set j | 0 <= j < |ds| :: ds[j].kbuf
  }

  /** Every fork's committed context is what it was. */
  ghost predicate Contexts(ds: seq<EagleDrafter>, As: seq<Anchor>)
    reads ds, Buffers(ds)
  {
    |As| == |ds| && forall j :: 0 <= j < |ds| ==> ds[j].Valid() && ds[j].Context() == As[j]
  }

  /** A fork between rounds: unfinished ones have at least one node a round, after the anchor's. */
  ghost predicate Between(A: Anchor, m: nat, maxDepth: nat, f: Fork, ph: Phase, rounds: nat) {
    ForkOk(A, m, maxDepth, f, ph) &&
    if rounds == 0 then ph.Fresh? else ph.Ready? && (Finished(f, m) || rounds <= |f.v.tokens| + 1)
  }

  /** A fork inside a round: finished, or awaiting its expansion. */
  ghost predicate Awaiting(A: Anchor, m: nat, maxDepth: nat, f: Fork, ph: Phase, rounds: nat) {
    && ForkOk(A, m, maxDepth, f, ph) && (ph.Ready? ==> Finished(f, m)) && (ph.Fresh? <==> rounds == 0)
    && (ph.Halfway? ==> rounds <= |f.v.tokens| < m)
  }

  ghost predicate AllBetween(As: seq<Anchor>, m: nat, maxDepth: nat, fs: seq<Fork>, phs: seq<Phase>, live: seq<nat>,
                             rounds: nat) {
    |fs| == |phs| == |As| && forall i :: 0 <= i < |live| ==>
      live[i] < |As| && Between(As[live[i]], m, maxDepth, fs[live[i]], phs[live[i]], rounds)
  }

  ghost predicate AllAwaiting(As: seq<Anchor>, m: nat, maxDepth: nat, fs: seq<Fork>, phs: seq<Phase>, live: seq<nat>,
                              rounds: nat) {
    |fs| == |phs| == |As| && forall i :: 0 <= i < |live| ==>
      live[i] < |As| && Awaiting(As[live[i]], m, maxDepth, fs[live[i]], phs[live[i]], rounds)
  }

  predicate Distinct(live: seq<nat>) {
    forall i, j :: 0 <= i < j < |live| ==> live[i] != live[j]
  }

  /** The round's heap phase. */
  method AdvanceAll(fs0: seq<Fork>, live: seq<nat>, m: nat, maxDepth: nat, ghost As: seq<Anchor>,
                    ghost phs0: seq<Phase>, ghost rounds: nat)
    returns (fs: seq<Fork>, ghost phs: seq<Phase>, reqs: seq<nat>)
    requires AllBetween(As, m, maxDepth, fs0, phs0, live, rounds) && Distinct(live)
    ensures AllAwaiting(As, m, maxDepth, fs, phs, live, rounds)
    ensures forall i :: 0 <= i < |live| ==> (live[i] in reqs <==> !phs[live[i]].Ready?)
    ensures Distinct(reqs) && forall r :: 0 <= r < |reqs| ==> reqs[r] in live
  {
    hide ForkOk;
    fs, phs, reqs := fs0, phs0, [];
    for i := 0 to |live|
      invariant |fs| == |phs| == |As|
      invariant forall k :: 0 <= k < i ==> Awaiting(As[live[k]], m, maxDepth, fs[live[k]], phs[live[k]], rounds)
      invariant forall k :: i <= k < |live| ==> fs[live[k]] == fs0[live[k]] && phs[live[k]] == phs0[live[k]]
      invariant forall k :: 0 <= k < i ==> (live[k] in reqs <==> !phs[live[k]].Ready?)
      invariant Distinct(reqs) && forall r :: 0 <= r < |reqs| ==> reqs[r] in live[..i]
    {
      var j := live[i];
      assert Between(As[j], m, maxDepth, fs[j], phs[j], rounds);
      ghost var ph;
      var f;
      f, ph := Advance(fs[j], m, maxDepth, As[j], phs[j]);
      PendKnown(As[j], m, maxDepth, f, ph);
      fs, phs := fs[j := f], phs[j := ph];
      assert j !in reqs by { assert forall r :: 0 <= r < |reqs| ==> reqs[r] in live[..i]; }
      if f.pend.Some? {
        reqs := reqs + [j];
      }
      assert live[..i + 1] == live[..i] + [j];
    }
    assert live[..|live|] == live;
  }

  lemma {:induction false} PendKnown(A: Anchor, m: nat, maxDepth: nat, f: Fork, ph: Phase)
    requires ForkOk(A, m, maxDepth, f, ph)
    ensures f.pend.None? <==> ph.Ready?
  {
    hide Mirrors, Half, OnCourse;
  }

  ghost predicate Answered(A: Anchor, f: Fork, a: Answer) {
    f.pend.Some? && Within(f.pend.value.anc, |f.v.side|) && -1 <= f.pend.value.own < |f.v.side| &&
    Answers(A, f.pend.value, f.v.side, a)
  }

  /** The round's batched forward, one row a fork; each attends its own context and scratch. */
  method ExpandAll(ds: seq<EagleDrafter>, fs: seq<Fork>, reqs: seq<nat>, ghost As: seq<Anchor>, ghost phs: seq<Phase>,
                   ghost live: seq<nat>, m: nat, maxDepth: nat, ghost rounds: nat)
    returns (answers: seq<Answer>)
    requires Separate(ds) && Contexts(ds, As) && AllAwaiting(As, m, maxDepth, fs, phs, live, rounds)
    requires forall i :: 0 <= i < |live| ==>
                           live[i] < |ds| && ds[live[i]].ctxLen + maxDepth + 1 <= ds[live[i]].kbuf.Length
    requires forall r :: 0 <= r < |reqs| ==> reqs[r] in live && !phs[reqs[r]].Ready?
    modifies Buffers(ds)
    ensures Separate(ds) && Contexts(ds, As) && |answers| == |reqs|
    ensures forall r :: 0 <= r < |reqs| ==> Answered(As[reqs[r]], fs[reqs[r]], answers[r])
  {
    hide ForkOk, Answers;
    answers := [];
    for r := 0 to |reqs|
      invariant Separate(ds) && Contexts(ds, As) && |answers| == r
      invariant forall k :: 0 <= k < r ==> Answered(As[reqs[k]], fs[reqs[k]], answers[k])
    {
      var j := reqs[r];
      ghost var i :| 0 <= i < |live| && live[i] == j;
      assert Awaiting(As[j], m, maxDepth, fs[j], phs[j], rounds);
      PendFits(As[j], m, maxDepth, fs[j], phs[j]);
      var a := ExpandOne(ds, j, As, fs[j].pend.value, fs[j].v.side);
      answers := answers + [a];
    }
  }

  method ExpandOne(ds: seq<EagleDrafter>, j: nat, ghost As: seq<Anchor>, p: Pend, side: seq<Slot>) returns (a: Answer)
    requires Separate(ds) && Contexts(ds, As) && j < |ds| && ds[j].ctxLen + |p.anc| + 1 <= ds[j].kbuf.Length
    requires Within(p.anc, |side|) && -1 <= p.own < |side|
    modifies Buffers(ds)
    ensures Separate(ds) && Contexts(ds, As) && Answers(As[j], p, side, a)
  {
    var d := ds[j];
    assert d.kbuf in Buffers(ds);
    var e, side' := d.Expand(p, side);
    a := Answer(e, side');
    forall i | 0 <= i < |ds| ensures ds[i].Valid() && ds[i].Context() == As[i] {
      assert i != j ==> ds[i].kbuf != d.kbuf;
    }
  }

  method FeedAll(fs0: seq<Fork>, live: seq<nat>, reqs: seq<nat>, answers: seq<Answer>, ghost As: seq<Anchor>, m: nat,
                 maxDepth: nat, ghost phs0: seq<Phase>, ghost rounds: nat)
    returns (fs: seq<Fork>, ghost phs: seq<Phase>)
    requires AllAwaiting(As, m, maxDepth, fs0, phs0, live, rounds) && |answers| == |reqs| && Distinct(reqs)
    requires forall i :: 0 <= i < |live| ==> (live[i] in reqs <==> !phs0[live[i]].Ready?)
    requires forall r :: 0 <= r < |reqs| ==> reqs[r] in live && Answered(As[reqs[r]], fs0[reqs[r]], answers[r])
    ensures AllBetween(As, m, maxDepth, fs, phs, live, rounds + 1)
  {
    hide ForkOk, Answers;
    fs, phs := fs0, phs0;
    for r := 0 to |reqs|
      invariant |fs| == |phs| == |As|
      invariant forall k :: 0 <= k < r ==> Between(As[reqs[k]], m, maxDepth, fs[reqs[k]], phs[reqs[k]], rounds + 1)
      invariant forall j :: 0 <= j < |As| && j !in reqs[..r] ==> fs[j] == fs0[j] && phs[j] == phs0[j]
    {
      var j := reqs[r];
      ghost var i :| 0 <= i < |live| && live[i] == j;
      assert Awaiting(As[j], m, maxDepth, fs0[j], phs0[j], rounds);
      assert j !in reqs[..r];
      var f;
      ghost var ph;
      f, ph := FeedBack(fs[j], answers[r], As[j], m, maxDepth, phs[j]);
      fs, phs := fs[j := f], phs[j := ph];
      assert reqs[..r + 1] == reqs[..r] + [j];
    }
    forall i | 0 <= i < |live| ensures Between(As[live[i]], m, maxDepth, fs[live[i]], phs[live[i]], rounds + 1) {
      var j := live[i];
      assert Awaiting(As[j], m, maxDepth, fs0[j], phs0[j], rounds);
      if j in reqs {
        var r :| 0 <= r < |reqs| && reqs[r] == j;
      } else {
        assert j !in reqs[..|reqs|];
      }
    }
  }

  method EnsureAll(ds: seq<EagleDrafter>, live: seq<nat>, extra: nat)
    requires Separate(ds) && Distinct(live) && forall i :: 0 <= i < |live| ==> live[i] < |ds|
    modifies ds
    ensures Separate(ds)
    ensures forall As :: old(Contexts(ds, As)) ==> Contexts(ds, As)
    ensures forall j :: 0 <= j < |ds| ==> ds[j].ctxLen == old(ds[j].ctxLen)
    ensures fresh(Buffers(ds) - old(Buffers(ds)))
    ensures forall i :: 0 <= i < |live| ==> ds[live[i]].ctxLen + extra <= ds[live[i]].kbuf.Length
  {
    for i := 0 to |live|
      invariant Separate(ds)
      invariant forall j :: 0 <= j < |ds| ==>
                              ds[j].Context() == old(ds[j].Context()) && ds[j].ctxLen == old(ds[j].ctxLen)
      invariant forall j :: 0 <= j < |ds| ==> ds[j].kbuf == old(ds[j].kbuf) || fresh(ds[j].kbuf)
      invariant forall k :: 0 <= k < i ==> ds[live[k]].ctxLen + extra <= ds[live[k]].kbuf.Length
    {
      var d := ds[live[i]];
      assert d in ds;
      d.EnsureCap(d.ctxLen + extra);
    }
  }

  /** One tree for every drafter, in at most m rounds of batched expansions: each is exactly the tree of
      the drafter's own serial run, and no committed context changes. */
  method ProposeTreeB(ds: seq<EagleDrafter>, m: int, maxDepth: nat) returns (out: seq<DraftedTree>, rounds: nat)
    requires Separate(ds)
    modifies ds, Buffers(ds)
    ensures Separate(ds) && |out| == |ds| && rounds <= Max(0, m)
    ensures forall j :: 0 <= j < |ds| ==> ds[j].Context() == old(ds[j].Context())
    ensures forall j :: 0 <= j < |ds| ==>
                          if ds[j].ctxLen == 0 || m <= 0 then out[j] == DraftedTree([], [], [])
                          else Reports(ds[j].Context(), Best(ds[j].Context(), m, Max(1, maxDepth)), out[j])
  {
    hide Reports, AllAwaiting, Contexts, Best, Separate, Distinct;
    out := seq(|ds|, j => DraftedTree([], [], []));
    rounds := 0;
    var live := Live(ds, m);
    if live == [] { return; }
    ghost var As := ContextsOf(ds);
    EnsureAll(ds, live, maxDepth + 1);
    out, rounds := Drive(ds, live, m, maxDepth, As);
    ContextsAre(ds, As);
  }

  method Drive(ds: seq<EagleDrafter>, live: seq<nat>, m: nat, maxDepth: nat, ghost As: seq<Anchor>)
    returns (out: seq<DraftedTree>, rounds: nat)
    requires Separate(ds) && Contexts(ds, As) && Distinct(live) && m > 0
    requires forall i :: 0 <= i < |live| ==>
                           live[i] < |ds| && ds[live[i]].ctxLen + maxDepth + 1 <= ds[live[i]].kbuf.Length
    modifies Buffers(ds)
    ensures Separate(ds) && Contexts(ds, As) && |out| == |ds| == |As| && rounds <= m
    ensures forall j :: 0 <= j < |ds| ==> if j in live then Reports(As[j], Best(As[j], m, Max(1, maxDepth)), out[j])
                                          else out[j] == DraftedTree([], [], [])
  {
    hide Reports, AllAwaiting, Best, Separate, Distinct;
    var fs;
    ghost var phs;
    fs, phs, rounds := Rounds(ds, live, m, maxDepth, As);
    out := Collect(fs, live, |ds|, As, phs, m, maxDepth, rounds);
  }

  ghost function ContextsOf(ds: seq<EagleDrafter>): (As: seq<Anchor>)
    requires Separate(ds)
    reads ds, Buffers(ds)
    ensures Contexts(ds, As) && forall j :: 0 <= j < |ds| ==> As[j] == ds[j].Context()
  {
    seq(|ds|, j requires 0 <= j < |ds| && ds[j].Valid() reads ds, Buffers(ds) => ds[j].Context())
  }

  lemma {:induction false} ContextsAre(ds: seq<EagleDrafter>, As: seq<Anchor>)
    requires Contexts(ds, As)
    ensures |As| == |ds| && forall j :: 0 <= j < |ds| ==> ds[j].Valid() && ds[j].Context() == As[j]
  {
  }

  /** The finished forks' trees; the others' stay empty. */
  method Collect(fs: seq<Fork>, live: seq<nat>, n: nat, ghost As: seq<Anchor>, ghost phs: seq<Phase>, ghost m: nat,
                 ghost maxDepth: nat, ghost rounds: nat)
    returns (out: seq<DraftedTree>)
    requires |fs| == |phs| == |As| == n && AllAwaiting(As, m, maxDepth, fs, phs, live, rounds) && Distinct(live)
    requires forall i :: 0 <= i < |live| ==> live[i] < n && phs[live[i]].Ready?
    ensures |out| == n
    ensures forall j :: 0 <= j < n ==> if j in live then Reports(As[j], Best(As[j], m, Max(1, maxDepth)), out[j])
                                       else out[j] == DraftedTree([], [], [])
  {
    hide Reports, AllAwaiting, Best;
    out := seq(n, j => DraftedTree([], [], []));
    for i := 0 to |live|
      invariant |out| == n && forall k :: 0 <= k < i ==>
                                            Reports(As[live[k]], Best(As[live[k]], m, Max(1, maxDepth)), out[live[k]])
      invariant forall j :: 0 <= j < n && j !in live ==> out[j] == DraftedTree([], [], [])
    {
      FinishedReports(As, m, maxDepth, fs, phs, live, rounds, i);
      var j, v := live[i], fs[live[i]].v;
      out := out[j := DraftedTree(v.tokens, v.parents, v.depths)];
    }
  }

  /** The forks with a context to draft from. */
  method Live(ds: seq<EagleDrafter>, m: int) returns (live: seq<nat>)
    ensures Distinct(live) && forall k :: 0 <= k < |ds| ==> (k in live <==> ds[k].ctxLen != 0 && m > 0)
    ensures forall i :: 0 <= i < |live| ==> live[i] < |ds|
    ensures live != [] ==> m > 0
  {
    live := [];
    for j := 0 to |ds|
      invariant forall i :: 0 <= i < |live| ==> live[i] < j
      invariant Distinct(live) && forall k :: 0 <= k < j ==> (k in live <==> ds[k].ctxLen != 0 && m > 0)
      invariant live != [] ==> m > 0
    {
      if ds[j].ctxLen != 0 && m > 0 {
        live := live + [j];
      }
    }
  }

  /** Lockstep rounds until no fork needs an expansion. */
  method Rounds(ds: seq<EagleDrafter>, live: seq<nat>, m: nat, maxDepth: nat, ghost As: seq<Anchor>)
    returns (fs: seq<Fork>, ghost phs: seq<Phase>, rounds: nat)
    requires Separate(ds) && Contexts(ds, As) && Distinct(live) && m > 0
    requires forall i :: 0 <= i < |live| ==>
                           live[i] < |ds| && ds[live[i]].ctxLen + maxDepth + 1 <= ds[live[i]].kbuf.Length
    modifies Buffers(ds)
    ensures Separate(ds) && Contexts(ds, As) && rounds <= m
    ensures AllAwaiting(As, m, maxDepth, fs, phs, live, rounds) && |fs| == |phs| == |As|
    ensures forall i :: 0 <= i < |live| ==> live[i] < |As| && phs[live[i]].Ready?
  {
    hide ForkOk, AllBetween, AllAwaiting, Answered, Contexts, Separate;
    fs, phs := StartForks(ds, live, m, maxDepth, As);
    rounds := 0;
    while true
      invariant Separate(ds) && Contexts(ds, As) && rounds <= m
      invariant AllBetween(As, m, maxDepth, fs, phs, live, rounds)
      decreases m - rounds
    {
      var reqs;
      fs, phs, reqs := AdvanceAll(fs, live, m, maxDepth, As, phs, rounds);
      AwaitingSizes(As, m, maxDepth, fs, phs, live, rounds);
      if reqs == [] {
        return;
      }
      assert reqs[0] in live && !phs[reqs[0]].Ready? by {
        var i :| 0 <= i < |live| && live[i] == reqs[0];
      }
      RoundsBounded(As, m, maxDepth, fs, phs, live, rounds, reqs[0]);
      forall r | 0 <= r < |reqs| ensures reqs[r] in live && reqs[r] < |phs| && !phs[reqs[r]].Ready? {
        assert reqs[r] in reqs;
        var i :| 0 <= i < |live| && live[i] == reqs[r];
      }
      var answers := ExpandAll(ds, fs, reqs, As, phs, live, m, maxDepth, rounds);
      fs, phs := FeedAll(fs, live, reqs, answers, As, m, maxDepth, phs, rounds);
      rounds := rounds + 1;
    }
  }

  lemma {:induction false} AwaitingSizes(As: seq<Anchor>, m: nat, maxDepth: nat, fs: seq<Fork>, phs: seq<Phase>,
                                         live: seq<nat>, rounds: nat)
    requires AllAwaiting(As, m, maxDepth, fs, phs, live, rounds)
    ensures |fs| == |phs| == |As| && forall i :: 0 <= i < |live| ==> live[i] < |As|
  {
  }

  method StartForks(ds: seq<EagleDrafter>, ghost live: seq<nat>, m: nat, ghost maxDepth: nat, ghost As: seq<Anchor>)
    returns (fs: seq<Fork>, ghost phs: seq<Phase>)
    requires Contexts(ds, As) && forall i :: 0 <= i < |live| ==> live[i] < |ds|
    ensures AllBetween(As, m, maxDepth, fs, phs, live, 0)
  {
    hide AllBetween;
    fs := [];
    for j := 0 to |ds|
      invariant |fs| == j && forall k :: 0 <= k < j ==> fs[k] == Fork(EmptyVars(m), Some(AnchorPend(As[k])))
    {
      var d := ds[j];
      assert d.Context() == As[j];
      fs := fs + [Fork(EmptyVars(m), Some(Pend(d.lastTok, d.lastH, 0, [], -1, 0.0)))];
    }
    phs := seq(|ds|, j => Fresh);
    AllFresh(As, m, maxDepth, fs, phs, live);
  }

  lemma {:induction false} AllFresh(As: seq<Anchor>, m: nat, maxDepth: nat, fs: seq<Fork>, phs: seq<Phase>,
                                    live: seq<nat>)
    requires |fs| == |phs| == |As| && forall i :: 0 <= i < |live| ==> live[i] < |As|
    requires forall j :: 0 <= j < |As| ==> phs[j] == Fresh && fs[j] == Fork(EmptyVars(m), Some(AnchorPend(As[j])))
    ensures AllBetween(As, m, maxDepth, fs, phs, live, 0)
  {
  }

  lemma {:induction false} RoundsBounded(As: seq<Anchor>, m: nat, maxDepth: nat, fs: seq<Fork>, phs: seq<Phase>,
                                         live: seq<nat>, rounds: nat, j: nat)
    requires AllAwaiting(As, m, maxDepth, fs, phs, live, rounds) && j in live && m > 0
    requires j < |phs| && !phs[j].Ready?
    ensures rounds < m
  {
    hide ForkOk;
    var i :| 0 <= i < |live| && live[i] == j;
    assert Awaiting(As[j], m, maxDepth, fs[j], phs[j], rounds);
  }

  lemma {:induction false} FinishedReports(As: seq<Anchor>, m: nat, maxDepth: nat, fs: seq<Fork>, phs: seq<Phase>,
                                           live: seq<nat>, rounds: nat, i: nat)
    requires AllAwaiting(As, m, maxDepth, fs, phs, live, rounds) && i < |live| && live[i] < |phs| && phs[live[i]].Ready?
    ensures live[i] < |As| == |fs|
    ensures var A, v := As[live[i]], fs[live[i]].v;
            Reports(A, Best(A, m, Max(1, maxDepth)), DraftedTree(v.tokens, v.parents, v.depths))
  {
    hide Mirrors, Search, Reports;
    var j := live[i];
    assert Awaiting(As[j], m, maxDepth, fs[j], phs[j], rounds);
    var s := phs[j].s;
    MirrorFacts(As[j], m, s, fs[j].v);
    SearchEnds(As[j], m, Max(1, maxDepth), s);
    MirrorReports(As[j], m, s, fs[j].v);
  }
}
