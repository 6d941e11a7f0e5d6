/** A chain of stages joined by FIFO links, each stage a deterministic machine that runs whenever it likes. */
module Ring {

  type Step<!C, !M> = (C, M) -> (C, M)

  /** queues[s] is the link into stage s; the last link carries replies to the coordinator. */
  datatype Ring<C, M> = Ring(caches: seq<C>, queues: seq<seq<M>>)

  predicate Shaped<C, M>(steps: seq<Step<C, M>>, r: Ring<C, M>) {
    |r.caches| == |steps| && |r.queues| == |steps| + 1
  }

  // ----- the transitions -----

  function Send<C, M>(r: Ring<C, M>, m: M): Ring<C, M>
    requires r.queues != []
  {
    r.(queues := [r.queues[0] + [m]] + r.queues[1..])
  }

  predicate Busy<C, M>(steps: seq<Step<C, M>>, r: Ring<C, M>, s: nat)
    requires Shaped(steps, r)
  {
    s < |steps| && r.queues[s] != []
  }

  /** Stage `s` processes the message at the head of its link. */
  function Proceed<C, M>(steps: seq<Step<C, M>>, r: Ring<C, M>, s: nat): Ring<C, M>
    requires Shaped(steps, r) && Busy(steps, r, s)
  {
    var (c, m) := steps[s](r.caches[s], r.queues[s][0]);
    Ring(r.caches[s := c], r.queues[s := r.queues[s][1..]][s + 1 := r.queues[s + 1] + [m]])
  }

  function Replies<C, M>(r: Ring<C, M>): seq<M>
    requires r.queues != []
  {
    r.queues[|r.queues| - 1]
  }

  function Receive<C, M>(r: Ring<C, M>): Ring<C, M>
    requires r.queues != [] && Replies(r) != []
  {
    r.(queues := r.queues[|r.queues| - 1 := Replies(r)[1..]])
  }

  // ----- the outcome of running dry -----

  function RunStage<C, M>(f: Step<C, M>, c: C, ms: seq<M>): (r: (C, seq<M>))
    ensures |r.1| == |ms|
  {
    if ms == [] then (c, [])
    else
      var (c', m') := f(c, ms[0]);
      var rest := RunStage(f, c', ms[1..]);
      (rest.0, [m'] + rest.1)
  }

  /** Final caches and all replies still to come, upstream stages first. No stage step changes this, so
      every reply is fixed the moment its message is sent. */
  function Drain<C, M>(steps: seq<Step<C, M>>, caches: seq<C>, queues: seq<seq<M>>): (r: (seq<C>, seq<M>))
    requires |caches| == |steps| && |queues| == |steps| + 1
    ensures |r.0| == |steps|
    decreases |steps|
  {
    if steps == [] then ([], queues[0])
    else
      var first := RunStage(steps[0], caches[0], queues[0]);
      var rest := Drain(steps[1..], caches[1..], Downstream(queues, first.1));
      ([first.0] + rest.0, rest.1)
  }

  /** The downstream links once stage 0 has emitted `outs`. */
  function Downstream<M>(queues: seq<seq<M>>, outs: seq<M>): seq<seq<M>>
    requires |queues| > 1
  {
    [queues[1] + outs] + queues[2..]
  }

  function DrainOf<C, M>(steps: seq<Step<C, M>>, r: Ring<C, M>): (d: (seq<C>, seq<M>))
    requires Shaped(steps, r)
    ensures |d.0| == |steps|
  {
    Drain(steps, r.caches, r.queues)
  }

  /** One message carried through every stage in turn. */
  function Pass<C, M>(steps: seq<Step<C, M>>, caches: seq<C>, m: M): (r: (seq<C>, M))
    requires |caches| == |steps|
    ensures |r.0| == |steps|
    decreases |steps|
  {
    if steps == [] then ([], m)
    else
      var (c, m') := steps[0](caches[0], m);
      var rest := Pass(steps[1..], caches[1..], m');
      ([c] + rest.0, rest.1)
  }

  /** A later stage's step, seen from the stages after the first. */
  lemma {:induction false} ProceedRest<C, M>(steps: seq<Step<C, M>>, r: Ring<C, M>, s: nat)
    requires Shaped(steps, r) && Busy(steps, r, s) && s > 0
    ensures var outs := RunStage(steps[0], r.caches[0], r.queues[0]).1;
            var rest, r' := Ring(r.caches[1..], Downstream(r.queues, outs)), Proceed(steps, r, s);
            Busy(steps[1..], rest, s - 1) && r'.caches[0] == r.caches[0] && r'.queues[0] == r.queues[0] &&
            Proceed(steps[1..], rest, s - 1) == Ring(r'.caches[1..], Downstream(r'.queues, outs))
  {
    var outs := RunStage(steps[0], r.caches[0], r.queues[0]).1;
    var rest, r', t := Ring(r.caches[1..], Downstream(r.queues, outs)), Proceed(steps, r, s), s - 1;
    assert rest.queues[t] == if t == 0 then r.queues[1] + outs else r.queues[s];
    assert rest.queues[t][0] == r.queues[s][0] && steps[1..][t] == steps[s] && rest.caches[t] == r.caches[s];
    var p := Proceed(steps[1..], rest, t);
    assert r'.caches[1..] == p.caches;
    assert s == 1 ==> (r.queues[1] + outs)[1..] == r.queues[1][1..] + outs;
    assert forall k {:trigger p.queues[k]} :: 0 <= k < |steps| ==> Downstream(r'.queues, outs)[k] == p.queues[k];
    assert Downstream(r'.queues, outs) == p.queues;
  }

  /** Running dry never depends on the schedule: a stage step leaves the outcome unchanged. */
  lemma {:induction false} ProceedKeepsDrain<C, M>(steps: seq<Step<C, M>>, r: Ring<C, M>, s: nat)
    requires Shaped(steps, r) && Busy(steps, r, s)
    ensures DrainOf(steps, Proceed(steps, r, s)) == DrainOf(steps, r)
    decreases |steps|
  {
    var r' := Proceed(steps, r, s);
    var first := RunStage(steps[0], r.caches[0], r.queues[0]);
    var rest := Ring(r.caches[1..], Downstream(r.queues, first.1));
    if s == 0 {
      var (c, m) := steps[0](r.caches[0], r.queues[0][0]);
      var first' := RunStage(steps[0], c, r.queues[0][1..]);
      assert r.queues[1] + ([m] + first'.1) == (r.queues[1] + [m]) + first'.1;
      assert r'.caches[1..] == r.caches[1..];
      assert Downstream(r'.queues, first'.1) == Downstream(r.queues, first.1);
    } else {
      ProceedRest(steps, r, s);
      ProceedKeepsDrain(steps[1..], rest, s - 1);
    }
  }

  lemma {:induction false} RunStageAppend<C, M>(f: Step<C, M>, c: C, ms: seq<M>, m: M)
    ensures var a := RunStage(f, c, ms);
            var (c', m') := f(a.0, m);
            RunStage(f, c, ms + [m]) == (c', a.1 + [m'])
    decreases |ms|
  {
    if ms == [] {
      assert ms + [m] == [m] && [m][1..] == [];
      var (c', m') := f(c, m);
      assert RunStage(f, c', []) == (c', []);
      assert [m'] + [] == [] + [m'];
    } else {
      var (c1, m1) := f(c, ms[0]);
      RunStageAppend(f, c1, ms[1..], m);
      assert (ms + [m])[1..] == ms[1..] + [m];
      var rest := RunStage(f, c1, ms[1..]);
      var last := f(rest.0, m);
      assert [m1] + (rest.1 + [last.1]) == ([m1] + rest.1) + [last.1];
    }
  }

  /** Sending appends one reply, computed from the caches as everything sent earlier leaves them. */
  lemma {:induction false} SendDrains<C, M>(steps: seq<Step<C, M>>, r: Ring<C, M>, m: M)
    requires Shaped(steps, r)
    ensures var d := DrainOf(steps, r);
            var p := Pass(steps, d.0, m);
            DrainOf(steps, Send(r, m)) == (p.0, d.1 + [p.1])
    decreases |steps|
  {
    if steps != [] {
      var first := RunStage(steps[0], r.caches[0], r.queues[0]);
      RunStageAppend(steps[0], r.caches[0], r.queues[0], m);
      var (c, m') := steps[0](first.0, m);
      var rest := Ring(r.caches[1..], Downstream(r.queues, first.1));
      SendDrains(steps[1..], rest, m');
      assert r.queues[1] + (first.1 + [m']) == (r.queues[1] + first.1) + [m'];
      assert Downstream(Send(r, m).queues, first.1 + [m']) == Send(rest, m').queues;
      var d := DrainOf(steps, r);
      assert d.0[1..] == DrainOf(steps[1..], rest).0;
    }
  }

  /** A reply read is the next reply of the outcome. */
  lemma {:induction false} ReceiveDrains<C, M>(steps: seq<Step<C, M>>, r: Ring<C, M>)
    requires Shaped(steps, r) && Replies(r) != []
    ensures var d := DrainOf(steps, r);
            d.1 != [] && Replies(r)[0] == d.1[0] && DrainOf(steps, Receive(r)) == (d.0, d.1[1..])
    decreases |steps|
  {
    if steps != [] {
      var first := RunStage(steps[0], r.caches[0], r.queues[0]);
      var rest := Ring(r.caches[1..], Downstream(r.queues, first.1));
      ReceiveDrains(steps[1..], rest);
      var n := |steps|;
      assert n == 1 ==> Replies(r) + first.1 == Replies(rest) &&
                        (Replies(r) + first.1)[1..] == Replies(r)[1..] + first.1;
      assert n > 1 ==> Replies(rest) == Replies(r);
      assert Downstream(Receive(r).queues, first.1) == Receive(rest).queues;
    }
  }

  // ----- progress -----

  /** How many stage steps are left. */
  function Work<M>(queues: seq<seq<M>>): nat
    requires queues != []
  {
    if |queues| == 1 then 0 else |queues[0]| * (|queues| - 1) + Work(queues[1..])
  }

  lemma {:induction false} ProceedWorks<C, M>(steps: seq<Step<C, M>>, r: Ring<C, M>, s: nat)
    requires Shaped(steps, r) && Busy(steps, r, s)
    ensures Work(Proceed(steps, r, s).queues) == Work(r.queues) - 1
    decreases |steps|
  {
    var r' := Proceed(steps, r, s);
    var n := |steps|;
    if s == 0 {
      assert r'.queues[1..][0] == r.queues[1] + [r'.queues[1][|r.queues[1]|]];
      assert r'.queues[1..][1..] == r.queues[1..][1..];
      assert (|r.queues[0]| - 1) * n == |r.queues[0]| * n - n;
      if n > 1 {
        assert (|r.queues[1]| + 1) * (n - 1) == |r.queues[1]| * (n - 1) + (n - 1);
      }
    } else {
      var rest := Ring(r.caches[1..], r.queues[1..]);
      ProceedWorks(steps[1..], rest, s - 1);
      assert r'.queues[1..] == Proceed(steps[1..], rest, s - 1).queues;
    }
  }

  /** An undelivered reply keeps some stage busy: the ring cannot deadlock. */
  lemma {:induction false} SomeStageBusy<C, M>(steps: seq<Step<C, M>>, r: Ring<C, M>)
    requires Shaped(steps, r) && Replies(r) == [] && DrainOf(steps, r).1 != []
    ensures exists s :: 0 <= s < |steps| && r.queues[s] != []
    decreases |steps|
  {
    if r.queues[0] == [] {
      var rest := Ring(r.caches[1..], r.queues[1..]);
      assert r.queues[1] + [] == r.queues[1];
      assert Downstream(r.queues, []) == rest.queues;
      SomeStageBusy(steps[1..], rest);
      var s :| 0 <= s < |steps[1..]| && rest.queues[s] != [];
      assert r.queues[s + 1] == rest.queues[s];
    }
  }

  /** Nothing on any link. */
  predicate Idle<C, M>(r: Ring<C, M>) {
    forall s :: 0 <= s < |r.queues| ==> r.queues[s] == []
  }

  lemma {:induction false} IdleDrain<C, M>(steps: seq<Step<C, M>>, r: Ring<C, M>)
    requires Shaped(steps, r)
    ensures Idle(r) ==> DrainOf(steps, r) == (r.caches, [])
    decreases |steps|
  {
    if steps != [] && Idle(r) {
      var rest := Ring(r.caches[1..], Downstream(r.queues, []));
      assert r.queues[1] + [] == [];
      assert r.queues[0] == [];
      IdleDrain(steps[1..], rest);
      assert [r.caches[0]] + r.caches[1..] == r.caches;
    }
  }

  function Total<M>(queues: seq<seq<M>>): nat {
    if queues == [] then 0 else |queues[0]| + Total(queues[1..])
  }

  /** One reply is owed for every message anywhere in the ring. */
  lemma {:induction false} DrainCounts<C, M>(steps: seq<Step<C, M>>, r: Ring<C, M>)
    requires Shaped(steps, r)
    ensures |DrainOf(steps, r).1| == Total(r.queues)
    decreases |steps|
  {
    if steps == [] {
      assert r.queues[1..] == [];
    } else {
      var first := RunStage(steps[0], r.caches[0], r.queues[0]);
      var rest := Ring(r.caches[1..], Downstream(r.queues, first.1));
      DrainCounts(steps[1..], rest);
      assert rest.queues[1..] == r.queues[1..][1..];
    }
  }

  lemma {:induction false} NothingOwedIsIdle<C, M>(steps: seq<Step<C, M>>, r: Ring<C, M>)
    requires Shaped(steps, r) && DrainOf(steps, r).1 == []
    ensures Idle(r)
  {
    DrainCounts(steps, r);
    EmptyTotal(r.queues);
  }

  lemma {:induction false} EmptyTotal<M>(queues: seq<seq<M>>)
    requires Total(queues) == 0
    ensures forall s :: 0 <= s < |queues| ==> queues[s] == []
    decreases |queues|
  {
    if queues != [] {
      EmptyTotal(queues[1..]);
      forall s | 0 <= s < |queues| ensures queues[s] == [] {
        assert s > 0 ==> queues[s] == queues[1..][s - 1];
      }
    }
  }
}
