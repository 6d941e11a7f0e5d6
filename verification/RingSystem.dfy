/** Coordinator and ring as one state machine: any schedule, drafts, chunk lengths and depth. */
module RingSystem {
  import opened Decode
  import opened TargetModel
  import opened Ring
  import opened CropRing
  import opened Pipeline

  datatype Phase = Prefilling | Decoding(pipe: Pipe)

  datatype Sys = Sys(phase: Phase, ring: RingState)

  datatype Event = Stage(s: nat) | FirstToken | Issue(drafts: seq<Token>) | ReadReply

  /** The prompt has just been sent, at position 0, into an idle ring holding anything. */
  predicate Init(n: Net, ids: seq<Token>, r0: RingState, s: Sys) {
    ids != [] && Ready(n, r0) && s == Sys(Prefilling, Send(r0, ChunkPacket(n.model, 0, ids)))
  }

  function ChunkOf(n: Net, p: Pipe, ds: seq<Token>): Packet
    requires p.stream != []
  {
    ChunkPacket(n.model, |p.stream| - 1, [p.stream[|p.stream| - 1]] + ds)
  }

  /** Stage `k` processes the message at the head of its link. */
  predicate StageStep(n: Net, s: Sys, k: nat, s': Sys) {
    ShapedFor(n, s.ring) && Busy(n.nodes, s.ring, k) &&
    s' == s.(ring := Proceed(n.nodes, s.ring, k))
  }

  /** The prompt's reply arrives; its last verdict is the first generated token. */
  predicate FirstStep(n: Net, ids: seq<Token>, s: Sys, s': Sys) {
    ShapedFor(n, s.ring) && s.phase.Prefilling? && Replies(s.ring) != [] &&
    var r := Tokens(n.model, Replies(s.ring)[0]);
    r != [] && s' == Sys(Decoding(Started(ids, r[|r| - 1])), Receive(s.ring))
  }

  /** A chunk of the last stream token and the drafts `ds` is sent at that token's position. */
  predicate IssueStep(n: Net, s: Sys, ds: seq<Token>, s': Sys) {
    ShapedFor(n, s.ring) && s.phase.Decoding? && s.phase.pipe.stream != [] &&
    s' == Sys(Decoding(Sent(s.phase.pipe, ds)), Send(s.ring, ChunkOf(n, s.phase.pipe, ds)))
  }

  /** A chunk's reply arrives and is skipped as stale, accepted whole, or cut at its divergence. */
  predicate ReadStep(n: Net, ids: seq<Token>, s: Sys, s': Sys) {
    ShapedFor(n, s.ring) && s.phase.Decoding? && Replies(s.ring) != [] &&
    var p, r := s.phase.pipe, Tokens(n.model, Replies(s.ring)[0]);
    p.inflight != [] && (p.discard == 0 ==> |p.inflight[0].drafts| < |r|) &&
    s' == Sys(Decoding(Read(ids, p, r)), Receive(s.ring))
  }

  predicate SysStep(n: Net, ids: seq<Token>, s: Sys, e: Event, s': Sys) {
    match e
    case Stage(k) => StageStep(n, s, k, s')
    case FirstToken => FirstStep(n, ids, s, s')
    case Issue(ds) => IssueStep(n, s, ds, s')
    case ReadReply => ReadStep(n, ids, s, s')
  }

  /** The bookkeeping matches what the ring owes and will hold. */
  predicate Linked(n: Net, ids: seq<Token>, p: Pipe, r: RingState) {
    ShapedFor(n, r) && Inv(n.next, ids, p, Owed(n, r)) && WillHold(n, r, Held(p))
  }

  lemma {:induction false} LinkedSend(n: Net, ids: seq<Token>, p: Pipe, r: RingState, ds: seq<Token>)
    requires Faithful(n)
    requires Linked(n, ids, p, r)
    ensures Linked(n, ids, Sent(p, ds), Send(r, ChunkOf(n, p, ds)))
    ensures var r' := Send(r, ChunkOf(n, p, ds)); ShapedFor(n, r') && |Owed(n, r')| == |Owed(n, r)| + 1
  {
    SendFromHeld(n, p, r, ds);
    SentInv(n.next, ids, p, Owed(n, r), ds);
  }

  lemma {:induction false} SendFromHeld(n: Net, p: Pipe, r: RingState, ds: seq<Token>)
    requires Faithful(n) && ShapedFor(n, r) && p.stream != [] && WillHold(n, r, Held(p))
    ensures var r', p' := Send(r, ChunkOf(n, p, ds)), Sent(p, ds);
            ShapedFor(n, r') && WillHold(n, r', p'.stream) &&
            Owed(n, r') == Owed(n, r) + [Verdicts(n.next, p'.stream, |p.stream| - 1)]
  {
    var text, start := p.stream + ds, |p.stream| - 1;
    assert text[start..] == [p.stream[start]] + ds;
    assert text[..start] == p.stream[..start];
    WillHoldPrefix(n, r, Held(p), text[..start]);
    SendVerdicts(n, r, text, start);
  }

  /** Any ring that owes one reply less, with the same final caches, matches the bookkeeping
      after that reply is read. */
  lemma {:induction false} LinkedRead(n: Net, ids: seq<Token>, p: Pipe, r: RingState, r': RingState)
    requires Linked(n, ids, p, r) && p.inflight != [] && ShapedFor(n, r')
    requires Owed(n, r') == Owed(n, r)[1..] && DrainOf(n.nodes, r').0 == DrainOf(n.nodes, r).0
    ensures p.discard == 0 ==> |Owed(n, r)[0]| == |p.inflight[0].drafts| + 1
    ensures var p' := Read(ids, p, Owed(n, r)[0]); Linked(n, ids, p', r') && p.out <= p'.out
  {
    ReadInv(n.next, ids, p, Owed(n, r));
    var p' := Read(ids, p, Owed(n, r)[0]);
    assert WillHold(n, r', Held(p));
    WillHoldPrefix(n, r', Held(p), Held(p'));
  }

  lemma {:induction false} LinkedReceive(n: Net, ids: seq<Token>, p: Pipe, r: RingState)
    requires Linked(n, ids, p, r) && Replies(r) != []
    ensures p.inflight != [] && Tokens(n.model, Replies(r)[0]) == Owed(n, r)[0]
    ensures p.discard == 0 ==> |Replies(r)[0].rows| == |p.inflight[0].drafts| + 1
    ensures var p' := Read(ids, p, Tokens(n.model, Replies(r)[0]));
            Linked(n, ids, p', Receive(r)) && p.out <= p'.out
  {
    ReceiveOwes(n, r);
    LinkedRead(n, ids, p, r, Receive(r));
  }

  /** The first reply to a prompt sent into a ready ring starts the bookkeeping. */
  lemma {:induction false} LinkedStart(n: Net, ids: seq<Token>, r: RingState)
    requires ids != [] && ShapedFor(n, r) && Owed(n, r) == [] && WillHold(n, r, ids)
    ensures Linked(n, ids, Started(ids, n.next(ids)), r)
  {
    StartedInv(n.next, ids);
  }

  lemma {:induction false} LinkedGreedy(n: Net, ids: seq<Token>, p: Pipe, r: RingState)
    requires Linked(n, ids, p, r)
    ensures ids != [] && p.out != [] && p.out == Greedy(n.next, ids, |p.out|)
    ensures |Owed(n, r)| == |p.inflight|
  {
  }

  lemma {:induction false} LinkedOverlays(n: Net, ids: seq<Token>, p: Pipe, r: RingState)
    requires Linked(n, ids, p, r) && p.inflight != []
    ensures p.discard == 0 ==> Overlays(ids, p)
  {
    if p.discard == 0 {
      FreshOverlays(n.next, ids, p, Owed(n, r));
    }
  }

  /** A fresh chunk's reply is the target's verdicts on the stream. */
  lemma {:induction false} LinkedAnswers(n: Net, ids: seq<Token>, p: Pipe, r: RingState)
    requires Linked(n, ids, p, r) && p.inflight != []
    ensures |Owed(n, r)| == |p.inflight|
    ensures p.discard == 0 ==> Answers(n.next, p.stream, p.inflight[0], Owed(n, r)[0])
  {
    if p.discard == 0 {
      assert p.inflight[0..] == p.inflight && Owed(n, r)[0..] == Owed(n, r);
    }
  }

  lemma {:induction false} LinkedProceed(n: Net, ids: seq<Token>, p: Pipe, r: RingState, s: nat)
    requires Linked(n, ids, p, r) && Busy(n.nodes, r, s)
    ensures Linked(n, ids, p, Proceed(n.nodes, r, s))
  {
    ProceedOwes(n, r, s);
  }

  predicate SysInv(n: Net, ids: seq<Token>, s: Sys) {
    && ids != [] && ShapedFor(n, s.ring)
    && match s.phase
       case Prefilling => Owed(n, s.ring) == [Verdicts(n.next, ids, 0)] && WillHold(n, s.ring, ids)
       case Decoding(p) => Linked(n, ids, p, s.ring)
  }

  lemma {:induction false} InitInv(n: Net, ids: seq<Token>, r0: RingState, s: Sys)
    requires Faithful(n)
    requires Init(n, ids, r0, s)
    ensures SysInv(n, ids, s)
  {
    ReadyOwesNothing(n, r0);
    assert ids[..0] == [] && ids[0..] == ids;
    SendVerdicts(n, r0, ids, 0);
  }

  lemma {:induction false} StageInv(n: Net, ids: seq<Token>, s: Sys, k: nat, s': Sys)
    requires SysInv(n, ids, s) && StageStep(n, s, k, s')
    ensures SysInv(n, ids, s')
  {
    match s.phase
    case Prefilling => ProceedOwes(n, s.ring, k);
    case Decoding(p) => LinkedProceed(n, ids, p, s.ring, k);
  }

  lemma {:induction false} FirstInv(n: Net, ids: seq<Token>, s: Sys, s': Sys)
    requires SysInv(n, ids, s) && FirstStep(n, ids, s, s')
    ensures SysInv(n, ids, s')
  {
    ReceiveOwes(n, s.ring);
    assert ids[..0 + (|ids| - 1) + 1] == ids;
    StartedInv(n.next, ids);
  }

  lemma {:induction false} StepInv(n: Net, ids: seq<Token>, s: Sys, e: Event, s': Sys)
    requires Faithful(n)
    requires SysInv(n, ids, s) && SysStep(n, ids, s, e, s')
    ensures SysInv(n, ids, s')
  {
    match e
    case Stage(k) => StageInv(n, ids, s, k, s');
    case FirstToken => FirstInv(n, ids, s, s');
    case Issue(ds) => LinkedSend(n, ids, s.phase.pipe, s.ring, ds);
    case ReadReply => LinkedReceive(n, ids, s.phase.pipe, s.ring);
  }

  lemma {:induction false} StepOnlyCommits(n: Net, ids: seq<Token>, s: Sys, e: Event, s': Sys)
    requires SysInv(n, ids, s) && SysStep(n, ids, s, e, s') && s.phase.Decoding?
    ensures s'.phase.Decoding? && s.phase.pipe.out <= s'.phase.pipe.out
  {
    if e.ReadReply? {
      LinkedReceive(n, ids, s.phase.pipe, s.ring);
    }
  }

  /** A finite behaviour: states joined by events. */
  predicate IsRun(n: Net, ids: seq<Token>, states: seq<Sys>, events: seq<Event>) {
    |states| == |events| + 1 && forall i :: 0 <= i < |events| ==> StepAt(n, ids, states, events, i)
  }

  predicate StepAt(n: Net, ids: seq<Token>, states: seq<Sys>, events: seq<Event>, i: nat)
    requires i < |events| < |states|
  {
    SysStep(n, ids, states[i], events[i], states[i + 1])
  }

  lemma {:induction false} RunInv(n: Net, ids: seq<Token>, r0: RingState, states: seq<Sys>,
                                  events: seq<Event>, i: nat)
    requires Faithful(n)
    requires IsRun(n, ids, states, events) && Init(n, ids, r0, states[0]) && i < |states|
    ensures SysInv(n, ids, states[i])
    decreases i
  {
    hide SysInv, SysStep, Init, Faithful;
    if i == 0 {
      InitInv(n, ids, r0, states[0]);
    } else {
      RunInv(n, ids, r0, states, events, i - 1);
      assert StepAt(n, ids, states, events, i - 1);
      StepInv(n, ids, states[i - 1], events[i - 1], states[i]);
    }
  }

  /** Safety over whole runs: whatever the schedule, drafts, chunk lengths and depth, everything
      committed is the target's plain greedy decode of the prompt. */
  lemma {:induction false} PipelineLossless(n: Net, ids: seq<Token>, r0: RingState, states: seq<Sys>,
                                            events: seq<Event>, i: nat)
    requires Faithful(n)
    requires IsRun(n, ids, states, events) && Init(n, ids, r0, states[0])
    requires i < |states| && states[i].phase.Decoding?
    ensures var out := states[i].phase.pipe.out; out != [] && out == Greedy(n.next, ids, |out|)
  {
    RunInv(n, ids, r0, states, events, i);
  }

  /** Committed text is never taken back. */
  lemma {:induction false} CommitsAreFinal(n: Net, ids: seq<Token>, r0: RingState, states: seq<Sys>, events: seq<Event>,
                                           i: nat, j: nat)
    requires Faithful(n)
    requires IsRun(n, ids, states, events) && Init(n, ids, r0, states[0])
    requires i <= j < |states| && states[i].phase.Decoding?
    ensures states[j].phase.Decoding? && states[i].phase.pipe.out <= states[j].phase.pipe.out
    decreases j
  {
    if i < j {
      CommitsAreFinal(n, ids, r0, states, events, i, j - 1);
      NextStateCommits(n, ids, r0, states, events, j - 1);
    }
  }

  lemma {:induction false} NextStateCommits(n: Net, ids: seq<Token>, r0: RingState, states: seq<Sys>,
                                            events: seq<Event>, i: nat)
    requires Faithful(n)
    requires IsRun(n, ids, states, events) && Init(n, ids, r0, states[0])
    requires i < |events| && states[i].phase.Decoding?
    ensures states[i + 1].phase.Decoding? && states[i].phase.pipe.out <= states[i + 1].phase.pipe.out
  {
    RunInv(n, ids, r0, states, events, i);
    assert StepAt(n, ids, states, events, i);
    StepOnlyCommits(n, ids, states[i], events[i], states[i + 1]);
  }

  lemma {:induction false} QuietHolds(n: Net, ids: seq<Token>, p: Pipe, r: RingState)
    requires Linked(n, ids, p, r) && Idle(r)
    ensures var text := ids + p.out; HoldsAll(n.model.stages, r.caches, Embed(n.model, text[..|text| - 1]))
  {
    IdleDrain(n.nodes, r);
    assert p.inflight == [];
    assert p.stream == ids + p.out;
  }

  /** Whenever the links are empty, every node's cache holds the committed text before its last
      token: stale chunks have left nothing behind that a later chunk could see. */
  lemma {:induction false} QuietCachesHoldCommitted(n: Net, ids: seq<Token>, r0: RingState, states: seq<Sys>,
                                                    events: seq<Event>, i: nat)
    requires Faithful(n)
    requires IsRun(n, ids, states, events) && Init(n, ids, r0, states[0]) && i < |states|
    requires states[i].phase.Decoding? && Idle(states[i].ring)
    ensures ShapedFor(n, states[i].ring)
    ensures var text := ids + states[i].phase.pipe.out;
            HoldsAll(n.model.stages, states[i].ring.caches, Embed(n.model, text[..|text| - 1]))
  {
    RunInv(n, ids, r0, states, events, i);
    QuietHolds(n, ids, states[i].phase.pipe, states[i].ring);
  }

  lemma {:induction false} StageCanRun(n: Net, s: Sys)
    requires ShapedFor(n, s.ring) && Replies(s.ring) == [] && Owed(n, s.ring) != []
    ensures exists k: nat, s' :: StageStep(n, s, k, s')
  {
    SomeStageBusy(n.nodes, s.ring);
    var k :| 0 <= k < |n.model.stages| && s.ring.queues[k] != [];
    assert StageStep(n, s, k, s.(ring := Proceed(n.nodes, s.ring, k)));
  }

  /** The machine cannot get stuck waiting: while a reply is owed, a stage can run or the reply
      can be read. */
  lemma {:induction false} NoDeadlock(n: Net, ids: seq<Token>, s: Sys)
    requires SysInv(n, ids, s)
    requires s.phase.Decoding? ==> s.phase.pipe.inflight != []
    ensures (exists k: nat, s' :: StageStep(n, s, k, s')) ||
            (exists s' :: FirstStep(n, ids, s, s')) || (exists s' :: ReadStep(n, ids, s, s'))
  {
    if Replies(s.ring) == [] {
      StageCanRun(n, s);
    } else if s.phase.Prefilling? {
      ReceiveOwes(n, s.ring);
      var r := Tokens(n.model, Replies(s.ring)[0]);
      assert FirstStep(n, ids, s, Sys(Decoding(Started(ids, r[|r| - 1])), Receive(s.ring)));
    } else {
      LinkedReceive(n, ids, s.phase.pipe, s.ring);
      var r := Tokens(n.model, Replies(s.ring)[0]);
      assert ReadStep(n, ids, s, Sys(Decoding(Read(ids, s.phase.pipe, r)), Receive(s.ring)));
    }
  }
}
