/** No chunk starts past the end of the cache it meets, at any stage, in any run: a crop-and-append
    cache never gets a hole. */
module GaplessRing {
  import opened Decode
  import opened TargetModel
  import opened KvCache
  import opened Ring
  import opened CropRing
  import opened Pipeline
  import opened RingSystem

  // ----- a property of every meeting of a cache and a message -----

  /** A stage that works its link off meets every message in a good state. */
  predicate StageMeets<C, M>(good: (C, M) -> bool, f: Step<C, M>, c: C, ms: seq<M>) {
    ms == [] || (good(c, ms[0]) && StageMeets(good, f, f(c, ms[0]).0, ms[1..]))
  }

  /** So does every stage, if the ring runs dry. */
  predicate Meets<C, M>(good: (C, M) -> bool, steps: seq<Step<C, M>>, caches: seq<C>, queues: seq<seq<M>>)
    requires |caches| == |steps| && |queues| == |steps| + 1
    decreases |steps|
  {
    steps == [] ||
    (StageMeets(good, steps[0], caches[0], queues[0]) &&
     Meets(good, steps[1..], caches[1..], Downstream(queues, RunStage(steps[0], caches[0], queues[0]).1)))
  }

  predicate PassMeets<C, M>(good: (C, M) -> bool, steps: seq<Step<C, M>>, caches: seq<C>, m: M)
    requires |caches| == |steps|
    decreases |steps|
  {
    steps == [] || (good(caches[0], m) && PassMeets(good, steps[1..], caches[1..], steps[0](caches[0], m).1))
  }

  lemma {:induction false} StageMeetsMore<C, M>(good: (C, M) -> bool, f: Step<C, M>, c: C, ms: seq<M>, m: M)
    requires StageMeets(good, f, c, ms) && good(RunStage(f, c, ms).0, m)
    ensures StageMeets(good, f, c, ms + [m])
    decreases |ms|
  {
    if ms == [] {
      assert [m][1..] == [];
    } else {
      StageMeetsMore(good, f, f(c, ms[0]).0, ms[1..], m);
      assert (ms + [m])[1..] == ms[1..] + [m];
    }
  }

  lemma {:induction false} ProceedMeets<C, M>(good: (C, M) -> bool, steps: seq<Step<C, M>>, r: Ring<C, M>, s: nat)
    requires Shaped(steps, r) && Busy(steps, r, s) && Meets(good, steps, r.caches, r.queues)
    ensures var r' := Proceed(steps, r, s); Meets(good, steps, r'.caches, r'.queues)
    decreases |steps|
  {
    hide StageMeets;
    var r' := Proceed(steps, r, s);
    var outs := RunStage(steps[0], r.caches[0], r.queues[0]).1;
    var rest := Ring(r.caches[1..], Downstream(r.queues, outs));
    if s == 0 {
      var (c, m) := steps[0](r.caches[0], r.queues[0][0]);
      var outs' := RunStage(steps[0], c, r.queues[0][1..]).1;
      WorkedOff(good, steps[0], r.caches[0], r.queues[0]);
      assert r.queues[1] + ([m] + outs') == (r.queues[1] + [m]) + outs';
      assert r'.caches[1..] == r.caches[1..] && Downstream(r'.queues, outs') == Downstream(r.queues, outs);
    } else {
      ProceedRest(steps, r, s);
      ProceedMeets(good, steps[1..], rest, s - 1);
    }
  }

  lemma {:induction false} WorkedOff<C, M>(good: (C, M) -> bool, f: Step<C, M>, c: C, ms: seq<M>)
    requires ms != [] && StageMeets(good, f, c, ms)
    ensures StageMeets(good, f, f(c, ms[0]).0, ms[1..])
    ensures RunStage(f, c, ms).1 == [f(c, ms[0]).1] + RunStage(f, f(c, ms[0]).0, ms[1..]).1
  {
  }

  lemma {:induction false} SendMeets<C, M>(good: (C, M) -> bool, steps: seq<Step<C, M>>, r: Ring<C, M>, m: M)
    requires Shaped(steps, r) && Meets(good, steps, r.caches, r.queues) &&
             PassMeets(good, steps, DrainOf(steps, r).0, m)
    ensures Meets(good, steps, Send(r, m).caches, Send(r, m).queues)
    decreases |steps|
  {
    if steps != [] {
      var first := RunStage(steps[0], r.caches[0], r.queues[0]);
      var m' := steps[0](first.0, m).1;
      var rest := Ring(r.caches[1..], Downstream(r.queues, first.1));
      assert DrainOf(steps, r).0[1..] == DrainOf(steps[1..], rest).0;
      SendMeets(good, steps[1..], rest, m');
      StageMeetsMore(good, steps[0], r.caches[0], r.queues[0], m);
      RunStageAppend(steps[0], r.caches[0], r.queues[0], m);
      assert r.queues[1] + (first.1 + [m']) == (r.queues[1] + first.1) + [m'];
      assert Downstream(Send(r, m).queues, first.1 + [m']) == Send(rest, m').queues;
    }
  }

  lemma {:induction false} ReceiveMeets<C, M>(good: (C, M) -> bool, steps: seq<Step<C, M>>, r: Ring<C, M>)
    requires Shaped(steps, r) && Replies(r) != [] && Meets(good, steps, r.caches, r.queues)
    ensures Meets(good, steps, Receive(r).caches, Receive(r).queues)
    decreases |steps|
  {
    if steps != [] {
      var first := RunStage(steps[0], r.caches[0], r.queues[0]);
      var rest := Ring(r.caches[1..], Downstream(r.queues, first.1));
      var n := |steps|;
      assert n == 1 ==> Replies(r) + first.1 == Replies(rest) &&
                        (Replies(r) + first.1)[1..] == Replies(r)[1..] + first.1;
      assert n > 1 ==> Replies(rest) == Replies(r);
      ReceiveMeets(good, steps[1..], rest);
      assert Downstream(Receive(r).queues, first.1) == Receive(rest).queues;
    }
  }

  lemma {:induction false} MeetsHead<C, M>(good: (C, M) -> bool, steps: seq<Step<C, M>>, r: Ring<C, M>, s: nat)
    requires Shaped(steps, r) && Meets(good, steps, r.caches, r.queues) && Busy(steps, r, s)
    ensures good(r.caches[s], r.queues[s][0])
    decreases |steps|
  {
    if s > 0 {
      var outs := RunStage(steps[0], r.caches[0], r.queues[0]).1;
      var rest := Ring(r.caches[1..], Downstream(r.queues, outs));
      assert rest.queues[s - 1] == if s == 1 then r.queues[1] + outs else r.queues[s];
      MeetsHead(good, steps[1..], rest, s - 1);
    }
  }

  lemma {:induction false} IdleMeets<C, M>(good: (C, M) -> bool, steps: seq<Step<C, M>>, r: Ring<C, M>)
    requires Shaped(steps, r) && Idle(r)
    ensures Meets(good, steps, r.caches, r.queues)
    decreases |steps|
  {
    if steps != [] {
      var rest := Ring(r.caches[1..], Downstream(r.queues, []));
      assert r.queues[1] + [] == [];
      forall k | 0 <= k < |rest.queues| ensures rest.queues[k] == [] {
        assert rest.queues[k] == r.queues[k + 1];
      }
      IdleMeets(good, steps[1..], rest);
    }
  }

  // ----- no holes -----

  /** The chunk starts a new prompt, or within what every layer's cache holds. */
  predicate Abuts(c: Caches, p: Packet) {
    p.start == 0 || forall i :: 0 <= i < |c| ==> p.start <= |c[i]|
  }

  predicate Gapless(n: Net, r: RingState)
    requires ShapedFor(n, r)
  {
    Meets((c: Caches, p: Packet) => Abuts(c, p), n.nodes, r.caches, r.queues)
  }

  lemma {:induction false} HoldsReaches(ls: seq<Layer>, caches: Caches, xs: seq<Row>)
    requires |caches| == |ls| && Holds(ls, caches, xs)
    ensures forall i :: 0 <= i < |caches| ==> |xs| <= |caches[i]|
    decreases ls
  {
    if ls != [] {
      HoldsReaches(ls[1..], caches[1..], LayerRows(ls[0], xs));
      forall i | 0 <= i < |caches| ensures |xs| <= |caches[i]| {
        if i > 0 { assert caches[i] == caches[1..][i - 1]; }
      }
    }
  }

  /** A chunk no further on than what every cache will hold abuts each of them when it arrives. */
  lemma {:induction false} PassAbuts(stages: seq<seq<Layer>>, nodes: seq<Step<Caches, Packet>>, caches: seq<Caches>,
                                     xs: seq<Row>, p: Packet)
    requires Serves(stages, nodes) && |caches| == |stages| && HoldsAll(stages, caches, xs) && p.start <= |xs|
    ensures PassMeets((c: Caches, p: Packet) => Abuts(c, p), nodes, caches, p)
    decreases |stages|
  {
    hide Holds, BlockRows, BlockStep;
    if stages != [] {
      HoldsReaches(stages[0], caches[0], xs);
      assert nodes[0](caches[0], p) == NodeReply(stages[0], caches[0], p);
      ServesTail(stages, nodes);
      PassAbuts(stages[1..], nodes[1..], caches[1..], BlockRows(stages[0], xs), nodes[0](caches[0], p).1);
    }
  }

  lemma {:induction false} SendGapless(n: Net, r: RingState, text: seq<Token>, sent: Packet)
    requires Faithful(n) && ShapedFor(n, r) && Gapless(n, r) && WillHold(n, r, text) && sent.start <= |text|
    ensures ShapedFor(n, Send(r, sent)) && Gapless(n, Send(r, sent))
  {
    hide Meets, PassMeets, HoldsAll;
    var good := (c: Caches, p: Packet) => Abuts(c, p);
    PassAbuts(n.model.stages, n.nodes, DrainOf(n.nodes, r).0, Embed(n.model, text), sent);
    SendMeets(good, n.nodes, r, sent);
  }

  lemma {:induction false} StepGapless(n: Net, ids: seq<Token>, s: Sys, e: Event, s': Sys)
    requires Faithful(n) && SysInv(n, ids, s) && Gapless(n, s.ring) && SysStep(n, ids, s, e, s')
    ensures ShapedFor(n, s'.ring) && Gapless(n, s'.ring)
  {
    hide Meets, Faithful, WillHold;
    var good := (c: Caches, p: Packet) => Abuts(c, p);
    match e
    case Stage(k) => ProceedMeets(good, n.nodes, s.ring, k);
    case FirstToken => ReceiveMeets(good, n.nodes, s.ring);
    case Issue(ds) => SendGapless(n, s.ring, Held(s.phase.pipe), ChunkOf(n, s.phase.pipe, ds));
    case ReadReply => ReceiveMeets(good, n.nodes, s.ring);
  }

  /** In every reachable state, the chunk at the head of any stage's link starts a new prompt or within
      that stage's caches. */
  lemma {:induction false} NoChunkStartsPastItsCache(n: Net, ids: seq<Token>, r0: RingState, states: seq<Sys>,
                                                     events: seq<Event>, i: nat, k: nat)
    requires Faithful(n) && IsRun(n, ids, states, events) && Init(n, ids, r0, states[0]) && i < |states|
    requires ShapedFor(n, states[i].ring) && Busy(n.nodes, states[i].ring, k)
    ensures Abuts(states[i].ring.caches[k], states[i].ring.queues[k][0])
  {
    RunGapless(n, ids, r0, states, events, i);
    MeetsHead((c: Caches, p: Packet) => Abuts(c, p), n.nodes, states[i].ring, k);
  }

  lemma {:induction false} RunGapless(n: Net, ids: seq<Token>, r0: RingState, states: seq<Sys>, events: seq<Event>,
                                      i: nat)
    requires Faithful(n) && IsRun(n, ids, states, events) && Init(n, ids, r0, states[0]) && i < |states|
    ensures ShapedFor(n, states[i].ring) && Gapless(n, states[i].ring)
    decreases i
  {
    hide SysInv, SysStep, Faithful, Meets, Gapless, WillHold;
    if i == 0 {
      ReadyGapless(n, r0);
      SendGapless(n, r0, [], ChunkPacket(n.model, 0, ids));
    } else {
      RunGapless(n, ids, r0, states, events, i - 1);
      RunInv(n, ids, r0, states, events, i - 1);
      assert StepAt(n, ids, states, events, i - 1);
      StepGapless(n, ids, states[i - 1], events[i - 1], states[i]);
    }
  }

  lemma {:induction false} ReadyGapless(n: Net, r: RingState)
    requires Ready(n, r)
    ensures Gapless(n, r) && WillHold(n, r, [])
  {
    IdleMeets((c: Caches, p: Packet) => Abuts(c, p), n.nodes, r);
    ReadyOwesNothing(n, r);
  }
}
