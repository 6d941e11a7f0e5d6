/** The pipelined coordinator over fixed-buffer nodes: chunked prefill kept in flight, one
    outstanding draft request, final drain, and resume after an edge dies. */
module SpecPipe {
  import opened Decode
  import opened TargetModel
  import opened Ring
  import opened FastVerify
  import opened ServeRing
  import opened Pipeline
  import opened StopRule
  import opened CommitLog
  import opened Counting
  import opened NgramDrafter
  import opened PipeConfig

  // ----- bookkeeping against the ring -----

  predicate Backed(n: Net, ids: seq<Token>, p: Pipe, r: RingState) {
    ShapedFor(n, r) && Inv(n.next, ids, p, Owed(n, r)) && WillHold(n, r, Held(p), false)
  }

  lemma {:induction false} BackedSend(n: Net, ids: seq<Token>, p: Pipe, r: RingState, ds: seq<Token>, tail: Token)
    requires Faithful(n) && Backed(n, ids, p, r) && tail == p.stream[|p.stream| - 1] && |p.stream| + |ds| <= n.maxlen
    ensures var r' := Send(r, ChunkMsg(n.model, |p.stream| - 1, [tail] + ds, false));
            Backed(n, ids, Sent(p, ds), r') && ShapedFor(n, r') && |Owed(n, r')| == |Owed(n, r)| + 1
  {
    hide HoldsAll, Faithful, Chained, Truthful;
    SendFromHeld(n, p, r, ds, tail);
    SentInv(n.next, ids, p, Owed(n, r), ds);
  }

  lemma {:induction false} SendFromHeld(n: Net, p: Pipe, r: RingState, ds: seq<Token>, tail: Token)
    requires Faithful(n) && ShapedFor(n, r) && p.stream != [] && WillHold(n, r, Held(p), false)
    requires tail == p.stream[|p.stream| - 1] && |p.stream| + |ds| <= n.maxlen
    ensures var r', p' := Send(r, ChunkMsg(n.model, |p.stream| - 1, [tail] + ds, false)), Sent(p, ds);
            ShapedFor(n, r') && WillHold(n, r', p'.stream, false) &&
            Owed(n, r') == Owed(n, r) + [Verdicts(n.next, p'.stream, |p.stream| - 1)]
  {
    hide WillHold, Faithful;
    var text, start := p.stream + ds, |p.stream| - 1;
    assert text[start..] == [tail] + ds;
    assert text[..start] == p.stream[..start];
    WillHoldPrefix(n, r, Held(p), false, text[..start]);
    SendVerdicts(n, r, text, start, false, false);
  }

  lemma {:induction false} BackedRead(n: Net, ids: seq<Token>, p: Pipe, r: RingState, r': RingState)
    requires Backed(n, ids, p, r) && p.inflight != [] && ShapedFor(n, r')
    requires Owed(n, r') == Owed(n, r)[1..] && DrainOf(n.nodes, r').0 == DrainOf(n.nodes, r).0
    ensures p.discard == 0 ==> |Owed(n, r)[0]| == |p.inflight[0].drafts| + 1 && Overlays(ids, p) &&
                               Answers(n.next, p.stream, p.inflight[0], Owed(n, r)[0])
    ensures var p' := Read(ids, p, Owed(n, r)[0]); Backed(n, ids, p', r') && p.out <= p'.out
  {
    hide HoldsAll;
    ReadInv(n.next, ids, p, Owed(n, r));
    if p.discard == 0 {
      FreshOverlays(n.next, ids, p, Owed(n, r));
    }
    var p' := Read(ids, p, Owed(n, r)[0]);
    assert WillHold(n, r', Held(p), false);
    WillHoldPrefix(n, r', Held(p), false, Held(p'));
  }

  lemma {:induction false} BackedFacts(n: Net, ids: seq<Token>, p: Pipe, r: RingState)
    requires Backed(n, ids, p, r)
    ensures ids != [] && p.out != [] && p.out == Greedy(n.next, ids, |p.out|) && p.stream != [] &&
            ids + p.out <= p.stream
    ensures ShapedFor(n, r) && |Owed(n, r)| == |p.inflight|
  {
  }

  /** Decoding resumes where a greedy run left off. */
  lemma {:induction false} BackedStart(n: Net, prompt: seq<Token>, resume: seq<Token>, cur: Token, r: RingState)
    requires prompt != [] && resume == Greedy(n.next, prompt, |resume|) && cur == n.next(prompt + resume)
    requires ShapedFor(n, r) && Owed(n, r) == [] && WillHold(n, r, prompt + resume, false)
    ensures Backed(n, prompt, Pipe(resume + [cur], prompt + resume + [cur], [], 0), r)
  {
    hide WillHold, Inv, ShapedFor, Owed;
    ResumeInv(n.next, prompt, resume, cur);
  }

  lemma {:induction false} ResumeInv(next: Target, prompt: seq<Token>, resume: seq<Token>, cur: Token)
    requires prompt != [] && resume == Greedy(next, prompt, |resume|) && cur == next(prompt + resume)
    ensures var p := Pipe(resume + [cur], prompt + resume + [cur], [], 0);
            Inv(next, prompt, p, []) && Held(p) == prompt + resume
  {
    var p := Pipe(resume + [cur], prompt + resume + [cur], [], 0);
    assert Greedy(next, prompt, |resume| + 1) == resume + [cur];
    assert prompt + (resume + [cur]) == p.stream;
    assert p.stream[..|p.stream| - 1] == prompt + resume;
    assert p.inflight[0..] == [];
  }

  // ----- edges and the draft channel -----

  /** How many more edge operations succeed before an edge dies. */
  datatype Fate = Never | After(n: nat)

  class FastLink {
    const net: Net
    var ring: RingState
    var fate: Fate

    ghost predicate Valid()
      reads this
    {
      Faithful(net) && ShapedFor(net, ring)
    }

    constructor (net: Net, ring: RingState, fate: Fate)
      requires Faithful(net) && Ready(net, ring)
      ensures Valid() && this.net == net && this.ring == ring && this.fate == fate
    {
      this.net, this.ring, this.fate := net, ring, fate;
    }

    /** One edge operation. */
    method Tick() returns (alive: bool)
      modifies this`fate
      ensures alive <==> old(fate) != After(0)
      ensures old(fate).Never? ==> fate.Never?
    {
      if fate == After(0) {
        return false;
      }
      if fate.After? {
        fate := After(fate.n - 1);
      }
      return true;
    }

    /** Send a chunk; one that no buffer can take tears the edge. */
    method SendChunk(start: nat, toks: seq<Token>, prefill: bool) returns (alive: bool)
      requires Valid()
      modifies this
      ensures Valid() && (old(fate).Never? ==> fate.Never?)
      ensures alive <==> old(fate) != After(0) && start + |toks| <= net.maxlen
      ensures ring == if alive then Send(old(ring), ChunkMsg(net.model, start, toks, prefill)) else old(ring)
    {
      alive := Tick();
      if start + |toks| > net.maxlen {
        return false;
      }
      if alive {
        ring := Send(ring, ChunkMsg(net.model, start, toks, prefill));
      }
    }

    method SendReset() returns (alive: bool)
      requires Valid()
      modifies this
      ensures Valid() && (old(fate).Never? ==> fate.Never? && alive)
      ensures ring == if alive then Send(old(ring), Reset) else old(ring)
    {
      alive := Tick();
      if alive {
        ring := Send(ring, Reset);
      }
    }

    /** Wait for the next reply while busy nodes run in any order. */
    method RecvReply() returns (alive: bool, reply: Msg)
      requires Valid() && Coming(net, ring) != []
      modifies this
      ensures Valid() && (old(fate).Never? ==> fate.Never? && alive)
      ensures alive ==> reply == old(Coming(net, ring))[0] && Coming(net, ring) == old(Coming(net, ring))[1..]
      ensures alive ==> DrainOf(net.nodes, ring).0 == old(DrainOf(net.nodes, ring).0)
    {
      hide Faithful;
      reply := Broken;
      alive := Tick();
      if !alive { return; }
      while Replies(ring) == []
        invariant Valid() && DrainOf(net.nodes, ring) == old(DrainOf(net.nodes, ring))
        invariant old(fate).Never? ==> fate.Never?
        decreases Work(ring.queues)
      {
        SomeStageBusy(net.nodes, ring);
        var s :| 0 <= s < |net.nodes| && ring.queues[s] != [];
        ProceedOwes(net, ring, s);
        ProceedWorks(net.nodes, ring, s);
        ring := Proceed(net.nodes, ring, s);
      }
      ReceiveDrains(net.nodes, ring);
      reply := Replies(ring)[0];
      ring := Receive(ring);
    }

    /** The next reply's greedy tokens. */
    method Recv() returns (alive: bool, r: seq<Token>)
      requires Valid() && Owed(net, ring) != []
      modifies this
      ensures Valid() && (old(fate).Never? ==> fate.Never? && alive)
      ensures alive ==> r == old(Owed(net, ring))[0] && Owed(net, ring) == old(Owed(net, ring))[1..]
      ensures alive ==> DrainOf(net.nodes, ring).0 == old(DrainOf(net.nodes, ring).0)
    {
      hide Faithful;
      var reply;
      alive, reply := RecvReply();
      r := Tokens(net.model, reply);
    }

    /** Read one decode reply against the bookkeeping. */
    method Fetch(ghost ids: seq<Token>, ghost p: Pipe) returns (alive: bool, r: seq<Token>)
      requires Valid() && Backed(net, ids, p, ring) && p.inflight != []
      modifies this
      ensures Valid() && (old(fate).Never? ==> fate.Never? && alive)
      ensures alive && p.discard == 0 ==> |r| == |p.inflight[0].drafts| + 1 && Overlays(ids, p) &&
                                          Answers(net.next, p.stream, p.inflight[0], r)
      ensures alive ==> var p' := Read(ids, p, r); Backed(net, ids, p', ring) && p.out <= p'.out
    {
      hide Backed, Faithful, Owed;
      ghost var was := ring;
      BackedFacts(net, ids, p, ring);
      alive, r := Recv();
      if alive {
        BackedRead(net, ids, p, was, ring);
      }
    }
  }

  /** The draft source: requests queue up, each is answered once, with exactly k tokens. */
  class DraftChannel {
    const propose: (nat, seq<Token>, nat) -> seq<Token>
    var pending: seq<(seq<Token>, nat)>
    var served: nat
    ghost var asked: seq<seq<Token>>

    ghost predicate Valid()
      reads this
    {
      && (forall i, ids, k :: |propose(i, ids, k)| == k)
      && served + |pending| == |asked| && forall i :: 0 <= i < |pending| ==> pending[i].0 == asked[served + i]
    }

    constructor (propose: (nat, seq<Token>, nat) -> seq<Token>)
      requires forall i, ids, k :: |propose(i, ids, k)| == k
      ensures Valid() && pending == [] && asked == []
    {
      this.propose, pending, served, asked := propose, [], 0, [];
    }

    method Request(ids: seq<Token>, k: nat)
      requires Valid()
      modifies this
      ensures Valid() && pending == old(pending) + [(ids, k)] && asked == old(asked) + [ids]
    {
      pending, asked := pending + [(ids, k)], asked + [ids];
    }

    /** Collect the oldest outstanding request's draft; with none outstanding it would hang. */
    method Fetch() returns (ds: seq<Token>)
      requires Valid() && pending != []
      modifies this
      ensures Valid() && pending == old(pending)[1..] && |ds| == old(pending)[0].1 && asked == old(asked)
      ensures RequestAnswered(propose, asked, old(pending)[0].0, old(pending)[0].1, ds)
    {
      assert pending[0].0 == asked[served];
      ds := propose(served, pending[0].0, pending[0].1);
      pending, served := pending[1..], served + 1;
    }
  }

  /** The reply to one of the requests, which was for this query. */
  ghost predicate RequestAnswered(propose: (nat, seq<Token>, nat) -> seq<Token>, asked: seq<seq<Token>>,
                                  query: seq<Token>, k: nat, ds: seq<Token>) {
    exists j :: 0 <= j < |asked| && asked[j] == query && ds == propose(j, query, k)
  }

  /** Drafts that are the channel's reply to a request for this text. */
  ghost predicate Replied(propose: (nat, seq<Token>, nat) -> seq<Token>, asked: seq<seq<Token>>, cfg: Config,
                          text: seq<Token>, ds: seq<Token>) {
    RequestAnswered(propose, asked, DraftQuery(cfg, text), cfg.K, ds)
  }

  ghost predicate ChunkReplied(propose: (nat, seq<Token>, nat) -> seq<Token>, asked: seq<seq<Token>>, cfg: Config,
                               c: Chunk, stream: seq<Token>) {
    c.start < |stream| && Replied(propose, asked, cfg, stream[..c.start + 1], c.drafts)
  }

  /** Every chunk not yet stale holds the channel's reply to a request for the stream it was cut from. */
  ghost predicate AllReplied(propose: (nat, seq<Token>, nat) -> seq<Token>, asked: seq<seq<Token>>, cfg: Config,
                             inflight: seq<Chunk>, discard: nat, stream: seq<Token>) {
    forall k :: discard <= k < |inflight| ==> ChunkReplied(propose, asked, cfg, inflight[k], stream)
  }

  lemma {:induction false} RepliedLater(propose: (nat, seq<Token>, nat) -> seq<Token>, asked: seq<seq<Token>>,
                                        more: seq<seq<Token>>, cfg: Config, text: seq<Token>, ds: seq<Token>)
    requires Replied(propose, asked, cfg, text, ds) && asked <= more
    ensures Replied(propose, more, cfg, text, ds)
  {
    hide DraftQuery;
    var q := DraftQuery(cfg, text);
    var j :| 0 <= j < |asked| && asked[j] == q && ds == propose(j, q, cfg.K);
    assert more[j] == asked[j];
  }

  lemma {:induction false} AllRepliedLater(propose: (nat, seq<Token>, nat) -> seq<Token>, asked: seq<seq<Token>>,
                                           more: seq<seq<Token>>, cfg: Config, inflight: seq<Chunk>, discard: nat,
                                           stream: seq<Token>)
    requires AllReplied(propose, asked, cfg, inflight, discard, stream) && asked <= more
    ensures AllReplied(propose, more, cfg, inflight, discard, stream)
  {
    hide Replied;
    forall k | discard <= k < |inflight| ensures ChunkReplied(propose, more, cfg, inflight[k], stream) {
      assert ChunkReplied(propose, asked, cfg, inflight[k], stream);
      RepliedLater(propose, asked, more, cfg, stream[..inflight[k].start + 1], inflight[k].drafts);
    }
  }

  lemma {:induction false} AllRepliedMore(propose: (nat, seq<Token>, nat) -> seq<Token>, asked: seq<seq<Token>>,
                                          cfg: Config, inflight: seq<Chunk>, discard: nat, stream: seq<Token>,
                                          ds: seq<Token>)
    requires AllReplied(propose, asked, cfg, inflight, discard, stream) && stream != []
    requires RequestAnswered(propose, asked, DraftQuery(cfg, stream), cfg.K, ds)
    ensures AllReplied(propose, asked, cfg, inflight + [Chunk(|stream| - 1, ds)], discard, stream + ds)
  {
    hide ChunkReplied, RequestAnswered, DraftQuery;
    var more := inflight + [Chunk(|stream| - 1, ds)];
    ChunkRepliedNow(propose, asked, cfg, stream, ds);
    forall k | discard <= k < |more| ensures ChunkReplied(propose, asked, cfg, more[k], stream + ds) {
      if k < |inflight| {
        ChunkRepliedMore(propose, asked, cfg, inflight[k], stream, ds);
      }
    }
  }

  lemma {:induction false} ChunkRepliedNow(propose: (nat, seq<Token>, nat) -> seq<Token>, asked: seq<seq<Token>>,
                                           cfg: Config, stream: seq<Token>, ds: seq<Token>)
    requires RequestAnswered(propose, asked, DraftQuery(cfg, stream), cfg.K, ds) && stream != []
    ensures ChunkReplied(propose, asked, cfg, Chunk(|stream| - 1, ds), stream + ds)
  {
    hide RequestAnswered, DraftQuery;
    assert (stream + ds)[..|stream|] == stream;
  }

  lemma {:induction false} ChunkRepliedMore(propose: (nat, seq<Token>, nat) -> seq<Token>, asked: seq<seq<Token>>,
                                            cfg: Config, c: Chunk, stream: seq<Token>, ds: seq<Token>)
    requires ChunkReplied(propose, asked, cfg, c, stream)
    ensures ChunkReplied(propose, asked, cfg, c, stream + ds)
  {
    hide Replied;
    assert (stream + ds)[..c.start + 1] == stream[..c.start + 1];
  }

  lemma {:induction false} AllRepliedRead(propose: (nat, seq<Token>, nat) -> seq<Token>, asked: seq<seq<Token>>,
                                          cfg: Config, inflight: seq<Chunk>, discard: nat, stream: seq<Token>)
    requires AllReplied(propose, asked, cfg, inflight, discard, stream) && inflight != []
    ensures AllReplied(propose, asked, cfg, inflight[1..], Max(0, discard - 1), stream)
    ensures discard == 0 ==> ChunkReplied(propose, asked, cfg, inflight[0], stream)
  {
    hide ChunkReplied;
  }

  lemma {:induction false} AllStale(propose: (nat, seq<Token>, nat) -> seq<Token>, asked: seq<seq<Token>>, cfg: Config,
                                    inflight: seq<Chunk>, stream: seq<Token>)
    ensures AllReplied(propose, asked, cfg, inflight, |inflight|, stream)
  {
  }

  // ----- the course of a run -----

  /** The tokens that end a text. */
  function Enders(cfg: Config, eos: Token): set<Token> {
    if cfg.ignoreEos then {} else {eos}
  }

  ghost predicate RepliedAt(propose: (nat, seq<Token>, nat) -> seq<Token>, asked: seq<seq<Token>>, cfg: Config,
                            prompt: seq<Token>, out: seq<Token>, log: Log, i: nat)
    requires i < |log.drafts| && i < |log.ends|
  {
    log.ends[i] <= |out| && Replied(propose, asked, cfg, prompt + out[..log.ends[i]], log.drafts[i])
  }

  /** What a run has committed: the resumed tokens and one more, then reply by reply what the target makes of
      the drafts its channel gave for the text so far, up to the first that meets the stop rule. */
  ghost predicate Course(next: Target, propose: (nat, seq<Token>, nat) -> seq<Token>, asked: seq<seq<Token>>,
                         cfg: Config, prompt: seq<Token>, resume: nat, budget: nat, eos: Token, out: seq<Token>,
                         log: Log, done: bool) {
    && prompt != [] && Records(next, prompt, resume + 1, out, log, false)
    && Stopping(AnyToken, out, log, budget, Enders(cfg, eos), done)
    && forall i :: 0 <= i < |log.drafts| ==> RepliedAt(propose, asked, cfg, prompt, out, log, i)
  }

  lemma {:induction false} CourseStart(next: Target, propose: (nat, seq<Token>, nat) -> seq<Token>,
                                       asked: seq<seq<Token>>, cfg: Config, prompt: seq<Token>, resume: seq<Token>,
                                       budget: nat, eos: Token, cur: Token)
    requires prompt != []
    ensures Course(next, propose, asked, cfg, prompt, |resume|, budget, eos, resume + [cur],
                   Log([|resume| + 1], []), false)
    ensures forall stream :: AllReplied(propose, asked, cfg, [], 0, stream)
  {
    RecordsStart(AnyToken, next, prompt, resume + [cur], false, budget, Enders(cfg, eos));
  }

  lemma {:induction false} CourseMore(next: Target, propose: (nat, seq<Token>, nat) -> seq<Token>,
                                      asked: seq<seq<Token>>, cfg: Config, prompt: seq<Token>, resume: nat,
                                      budget: nat, eos: Token, out: seq<Token>, log: Log, ds: seq<Token>,
                                      ys: seq<Token>)
    requires Course(next, propose, asked, cfg, prompt, resume, budget, eos, out, log, false)
    requires Replied(propose, asked, cfg, prompt + out, ds) && CommitOf(next, prompt + out, ds, ys, false)
    ensures Course(next, propose, asked, cfg, prompt, resume, budget, eos, out + ys, More(log, out + ys, ds),
                   budget <= |out + ys| || (!cfg.ignoreEos && eos in ys))
  {
    hide CommitOf, Records, Stopping, Replied;
    RecordsShape(next, prompt, resume + 1, out, log, false);
    RecordsMore(AnyToken, next, prompt, resume + 1, out, log, false, budget, Enders(cfg, eos), ds, ys);
    var all, log' := out + ys, More(log, out + ys, ds);
    assert all[..|out|] == out;
    forall i | 0 <= i < |log'.drafts| ensures RepliedAt(propose, asked, cfg, prompt, all, log', i) {
      if i < |log.drafts| {
        assert RepliedAt(propose, asked, cfg, prompt, out, log, i);
        assert all[..log.ends[i]] == out[..log.ends[i]];
      }
    }
    assert Closes(AnyToken, ys, Enders(cfg, eos)) <==> !cfg.ignoreEos && eos in ys;
  }

  lemma {:induction false} CourseLater(next: Target, propose: (nat, seq<Token>, nat) -> seq<Token>,
                                       asked: seq<seq<Token>>, more: seq<seq<Token>>, cfg: Config, prompt: seq<Token>,
                                       resume: nat, budget: nat, eos: Token, out: seq<Token>, log: Log, done: bool)
    requires Course(next, propose, asked, cfg, prompt, resume, budget, eos, out, log, done) && asked <= more
    ensures Course(next, propose, more, cfg, prompt, resume, budget, eos, out, log, done)
  {
    hide CommitOf, Records, Stopping, Replied;
    RecordsShape(next, prompt, resume + 1, out, log, false);
    forall i | 0 <= i < |log.drafts| ensures RepliedAt(propose, more, cfg, prompt, out, log, i) {
      assert RepliedAt(propose, asked, cfg, prompt, out, log, i);
      RepliedLater(propose, asked, more, cfg, prompt + out[..log.ends[i]], log.drafts[i]);
    }
  }

  // ----- the coordinator -----

  /** A finished generation, or the committed tokens to resume from when an edge died. */
  datatype Outcome = Done(out: seq<Token>) | Failed(committed: seq<Token>)

  /** Exactly one request is outstanding, and it is for the text the next draft will extend. */
  ghost predicate Primed(d: DraftChannel, cfg: Config, longest: nat, text: seq<Token>, committed: seq<Token>)
    reads d
  {
    d.Valid() && d.pending == [(DraftQuery(cfg, text), cfg.K)] && Asks(d.asked, cfg, longest, committed)
  }

  /** No query outgrows the window; as long as no text does, all but the last Lag(cfg) tokens of each query
      is committed text. */
  predicate Asks(asked: seq<seq<Token>>, cfg: Config, longest: nat, committed: seq<Token>) {
    && (cfg.draftCtx != 0 ==> forall i :: 0 <= i < |asked| ==> |asked[i]| <= cfg.draftCtx)
    && (cfg.draftCtx == 0 || longest <= cfg.draftCtx ==>
          && Settled(asked, Lag(cfg))
          && (forall i :: 0 <= i < |asked| ==> |asked[i]| <= longest)
          && forall i :: 0 <= i < |asked| ==> Stem(asked[i], Lag(cfg)) <= committed)
  }

  lemma {:induction false} AsksNext(asked: seq<seq<Token>>, cfg: Config, longest: nat, committed: seq<Token>,
                                    text: seq<Token>)
    requires Asks(asked, cfg, longest, committed) && committed <= text && |text| <= |committed| + Lag(cfg) &&
             |text| <= longest
    ensures Asks(asked + [DraftQuery(cfg, text)], cfg, longest, committed)
  {
    if cfg.draftCtx == 0 || longest <= cfg.draftCtx {
      var lag := Lag(cfg);
      var more := asked + [text];
      forall i | 0 <= i < |more| ensures Stem(more[i], lag) <= committed {
        if i == |asked| {
          assert text[..|committed|] == committed;
        }
      }
    }
  }

  lemma {:induction false} AsksNothing(cfg: Config, committed: seq<Token>)
    ensures forall longest: nat, text :: committed <= text ==> Asks([], cfg, longest, text)
    ensures forall margin: nat :: Settled([], margin)
    ensures forall c: Params, text :: Indexes(c, [], text)
  {
  }

  /** Whatever has been asked, a suitable margin keeps only what later queries repeat. */
  lemma {:induction false} AsksSettled(asked: seq<seq<Token>>, cfg: Config, longest: nat, committed: seq<Token>)
    requires Asks(asked, cfg, longest, committed)
    ensures forall margin: nat :: Settles(cfg, Lag(cfg), margin, longest) ==>
                                    Settled(asked, margin) && AllStems(asked, margin, committed)
  {
    forall margin: nat | Settles(cfg, Lag(cfg), margin, longest)
      ensures Settled(asked, margin) && AllStems(asked, margin, committed)
    {
      if (cfg.draftCtx == 0 || longest <= cfg.draftCtx) && Lag(cfg) <= margin {
        SettledWider(asked, Lag(cfg), margin);
        StemsWider(asked, Lag(cfg), margin, committed);
      } else {
        assert forall i :: 0 <= i < |asked| ==> Stem(asked[i], margin) == [];
      }
    }
  }

  /** What a margin keeps of every query is the start of the text. */
  predicate AllStems(queries: seq<seq<Token>>, margin: nat, text: seq<Token>) {
    forall i :: 0 <= i < |queries| ==> Stem(queries[i], margin) <= text
  }

  lemma {:induction false} StemsWider(queries: seq<seq<Token>>, lag: nat, margin: nat, text: seq<Token>)
    requires AllStems(queries, lag, text) && lag <= margin
    ensures AllStems(queries, margin, text)
  {
    forall i | 0 <= i < |queries| ensures Stem(queries[i], margin) <= text {
      assert Stem(queries[i], margin) <= Stem(queries[i], lag) <= text;
    }
  }

  /** The index grown over these queries files positions of this text only, each under its own key. */
  predicate Indexes(c: Params, queries: seq<seq<Token>>, text: seq<Token>) {
    var upto := Horizon(queries, c.margin);
    upto <= |text| && IndexOf(c, queries) == Anchors(text, c.ng, upto)
  }

  /** Whatever has been asked, an index with a suitable margin holds nothing but committed text. */
  lemma {:induction false} AsksIndexed(asked: seq<seq<Token>>, cfg: Config, longest: nat, committed: seq<Token>)
    requires Asks(asked, cfg, longest, committed)
    ensures forall c: Params :: Settles(cfg, Lag(cfg), c.margin, longest) ==> Indexes(c, asked, committed)
  {
    hide Lag, Settled, Asks, Anchors, Horizon;
    AsksSettled(asked, cfg, longest, committed);
    forall c: Params | Settles(cfg, Lag(cfg), c.margin, longest) ensures Indexes(c, asked, committed) {
      IndexExact(c, asked, committed);
    }
  }

  lemma {:induction false} AsksGrow(asked: seq<seq<Token>>, cfg: Config, longest: nat, committed: seq<Token>,
                                    more: seq<Token>)
    requires Asks(asked, cfg, longest, committed) && committed <= more
    ensures Asks(asked, cfg, longest, more)
  {
  }

  /** A wider margin keeps what a narrower one settles. */
  lemma {:induction false} SettledWider(queries: seq<seq<Token>>, lag: nat, margin: nat)
    requires Settled(queries, lag) && lag <= margin
    ensures Settled(queries, margin)
  {
    forall i, j | 0 <= i <= j < |queries| ensures Stem(queries[i], margin) <= queries[j] {
      assert Stem(queries[i], margin) <= Stem(queries[i], lag);
    }
  }

  /** Every text of a run fits the buffers. */
  predicate Fits(n: Net, cfg: Config, maxNew: nat, prompt: nat, resume: nat) {
    Longest(cfg, maxNew, prompt, resume) <= n.maxlen
  }

  lemma {:induction false} FitsText(n: Net, cfg: Config, maxNew: nat, prompt: nat, resume: nat)
    ensures Fits(n, cfg, maxNew, prompt, resume) ==> prompt + resume <= n.maxlen
  {
  }

  /** Rebuild every node's buffers over `gen`: in one message, or in chunks kept in flight. */
  method Prefill(link: FastLink, gen: seq<Token>, cfg: Config) returns (alive: bool, row: Row, replies: nat)
    requires link.Valid() && Coming(link.net, link.ring) == [] && WillHold(link.net, link.ring, [], true) && gen != []
    modifies link
    ensures link.Valid() && (old(link.fate).Never? ==> link.fate.Never?)
    ensures alive ==> replies == PrefillReplies(|gen|, cfg)
    ensures alive ==> row == LastRow(link.net.model, gen) && Coming(link.net, link.ring) == [] &&
                      WillHold(link.net, link.ring, gen, false)
    ensures old(link.fate).Never? && |gen| <= link.net.maxlen ==> alive
  {
    hide WillHold, Faithful, LastRow;
    row, replies := [], 0;
    var r;
    if cfg.prefillChunk > 0 && |gen| > cfg.prefillChunk {
      ghost var peak;
      alive, r, replies, peak := PrefillChunks(link, gen, cfg);
    } else {
      assert gen[..0] == [] && gen[0..] == gen;
      if |gen| <= link.net.maxlen {
        SendRows(link.net, link.ring, gen, 0, true, false);
      }
      alive := link.SendChunk(0, gen, false);
      if !alive { return; }
      ghost var was := link.ring;
      alive, r := link.RecvReply();
      replies := 1;
      if alive {
        WillHoldDrain(link.net, was, link.ring, gen, false);
      }
    }
    if alive {
      row := r.rows[|r.rows| - 1];
    }
  }

  /** How many replies a prefill reads. */
  function PrefillReplies(gen: nat, cfg: Config): (n: nat)
    ensures n >= 1
    ensures 0 < cfg.prefillChunk < gen ==> (n - 1) * cfg.prefillChunk < gen <= n * cfg.prefillChunk
    ensures cfg.prefillChunk == 0 || gen <= cfg.prefillChunk ==> n == 1
  {
    if cfg.prefillChunk > 0 && gen > cfg.prefillChunk then (gen + cfg.prefillChunk - 1) / cfg.prefillChunk else 1
  }

  /** Where the i-th prefill chunk ends. */
  function ChunkEnd(gen: seq<Token>, chunk: nat, i: nat): (e: nat)
    ensures e <= |gen|
  {
    Min((i + 1) * chunk, |gen|)
  }

  /** A prefill reply carries one row, the recomputed one at the text's end. */
  predicate EndsIn(m: Model, reply: Msg, text: seq<Token>) {
    text != [] && reply.Verify? && reply.rows == [LastRow(m, text)]
  }

  /** The reply owed to prefill chunk i: the row at the end of everything up to its end. */
  ghost predicate OwesChunks(n: Net, r: RingState, gen: seq<Token>, chunk: nat, read: nat, sent: nat) {
    ShapedFor(n, r) && read <= sent && |Coming(n, r)| == sent - read &&
    forall i {:trigger ChunkEnd(gen, chunk, i)} ::
      read <= i < sent ==> EndsIn(n.model, Coming(n, r)[i - read], gen[..ChunkEnd(gen, chunk, i)])
  }

  method SendPrefill(link: FastLink, gen: seq<Token>, chunk: nat, ghost read: nat, sent: nat) returns (alive: bool)
    requires link.Valid() && chunk > 0 && sent * chunk < |gen|
    requires OwesChunks(link.net, link.ring, gen, chunk, read, sent)
    requires WillHold(link.net, link.ring, gen[..sent * chunk], sent == 0)
    modifies link
    ensures link.Valid() && (old(link.fate).Never? ==> link.fate.Never?)
    ensures alive ==> OwesChunks(link.net, link.ring, gen, chunk, read, sent + 1) &&
                      WillHold(link.net, link.ring, gen[..ChunkEnd(gen, chunk, sent)], false)
    ensures old(link.fate).Never? && |gen| <= link.net.maxlen ==> alive
  {
    hide WillHold, Faithful, Coming, LastRow;
    var start, end := sent * chunk, ChunkEnd(gen, chunk, sent);
    assert start < end by { assert (sent + 1) * chunk == start + chunk; }
    ghost var text := gen[..end];
    assert text[..start] == gen[..start] && text[start..] == gen[start..end];
    if |text| <= link.net.maxlen {
      SendRows(link.net, link.ring, text, start, sent == 0, true);
    }
    ghost var was := link.ring;
    alive := link.SendChunk(start, gen[start..end], true);
    if alive {
      assert Coming(link.net, link.ring) == Coming(link.net, was) + [Reply(link.net.model, text, start, true, true)];
    }
  }

  /** Keep up to `prefillDepth` prefill chunks in flight; only the last reply is used. */
  method PrefillChunks(link: FastLink, gen: seq<Token>,
                       cfg: Config)
    returns (alive: bool, r: Msg, replies: nat, ghost peak: nat)
    requires link.Valid() && Coming(link.net, link.ring) == [] && WillHold(link.net, link.ring, [], true)
    requires 0 < cfg.prefillChunk < |gen|
    modifies link
    ensures link.Valid() && (old(link.fate).Never? ==> link.fate.Never?)
    ensures alive ==> replies == PrefillReplies(|gen|, cfg) && peak == Min(Max(cfg.prefillDepth, 1), replies)
    ensures alive ==> EndsIn(link.net.model, r, gen) && Coming(link.net, link.ring) == [] &&
                      WillHold(link.net, link.ring, gen, false)
    ensures old(link.fate).Never? && |gen| <= link.net.maxlen ==> alive
  {
    hide WillHold, Faithful, Coming, OwesChunks, ChunkEnd, EndsIn;
    var chunk := cfg.prefillChunk;
    var total := PrefillReplies(|gen|, cfg);
    ChunksCover(|gen|, chunk, total);
    var d := Min(Max(cfg.prefillDepth, 1), total);
    var sent, read := 0, 0;
    replies, peak := 0, 0;
    r := Broken;
    assert gen[..0 * chunk] == [];
    OwesNoChunks(link.net, link.ring, gen, chunk);
    while sent < d
      invariant 0 <= sent <= d <= total && link.Valid() && (old(link.fate).Never? ==> link.fate.Never?)
      invariant OwesChunks(link.net, link.ring, gen, chunk, 0, sent)
      invariant WillHold(link.net, link.ring, gen[..Min(sent * chunk, |gen|)], sent == 0)
    {
      ChunkStarts(gen, chunk, total, sent);
      alive := SendPrefill(link, gen, chunk, 0, sent);
      if !alive { return; }
      sent := sent + 1;
    }
    OwesCount(link.net, link.ring, gen, chunk, 0, sent);
    peak := |Coming(link.net, link.ring)|;
    while read < total
      invariant 0 <= read <= sent <= total && replies == read && link.Valid() &&
                (old(link.fate).Never? ==> link.fate.Never?)
      invariant sent < total ==> read < sent
      invariant OwesChunks(link.net, link.ring, gen, chunk, read, sent)
      invariant WillHold(link.net, link.ring, gen[..Min(sent * chunk, |gen|)], sent == 0)
      invariant read > 0 ==> EndsIn(link.net.model, r, gen[..ChunkEnd(gen, chunk, read - 1)])
    {
      assert read < sent;
      ghost var was := link.ring;
      OwesFirst(link.net, was, gen, chunk, read, sent);
      alive, r := link.RecvReply();
      if !alive { return; }
      replies := replies + 1;
      OwesRest(link.net, was, link.ring, gen, chunk, read, sent);
      WillHoldDrain(link.net, was, link.ring, gen[..Min(sent * chunk, |gen|)], sent == 0);
      read := read + 1;
      if sent < total {
        ChunkStarts(gen, chunk, total, sent);
        alive := SendPrefill(link, gen, chunk, read, sent);
        if !alive { return; }
        sent := sent + 1;
      }
    }
    alive := true;
    ChunkLast(gen, chunk, total);
    OwesFirst(link.net, link.ring, gen, chunk, total, total);
  }

  lemma {:induction false} OwesCount(n: Net, r: RingState, gen: seq<Token>, chunk: nat, read: nat, sent: nat)
    requires OwesChunks(n, r, gen, chunk, read, sent)
    ensures |Coming(n, r)| == sent - read
  {
  }

  lemma {:induction false} OwesNoChunks(n: Net, r: RingState, gen: seq<Token>, chunk: nat)
    requires ShapedFor(n, r) && Coming(n, r) == []
    ensures OwesChunks(n, r, gen, chunk, 0, 0)
  {
  }

  lemma {:induction false} OwesFirst(n: Net, r: RingState, gen: seq<Token>, chunk: nat, read: nat, sent: nat)
    requires OwesChunks(n, r, gen, chunk, read, sent)
    ensures if read < sent
            then Coming(n, r) != [] && EndsIn(n.model, Coming(n, r)[0], gen[..ChunkEnd(gen, chunk, read)])
            else Coming(n, r) == []
  {
    hide EndsIn;
  }

  lemma {:induction false} OwesRest(n: Net, r: RingState, r': RingState, gen: seq<Token>, chunk: nat, read: nat,
                                    sent: nat)
    requires OwesChunks(n, r, gen, chunk, read, sent) && read < sent && ShapedFor(n, r')
    requires Coming(n, r') == Coming(n, r)[1..]
    ensures OwesChunks(n, r', gen, chunk, read + 1, sent)
  {
    hide Coming, EndsIn;
  }

  lemma {:induction false} WillHoldDrain(n: Net, r: RingState, r': RingState, text: seq<Token>, first: bool)
    requires ShapedFor(n, r) && ShapedFor(n, r') && DrainOf(n.nodes, r').0 == DrainOf(n.nodes, r).0
    requires WillHold(n, r, text, first)
    ensures WillHold(n, r', text, first)
  {
  }

  /** Chunks of size c tile a text of length g: the last of them ends at its end. */
  lemma {:induction false} ChunksCover(g: nat, c: nat, total: nat)
    requires 0 < c < g && total == (g + c - 1) / c
    ensures total >= 1 && (total - 1) * c < g <= total * c
  {
  }

  lemma {:induction false} ChunkStarts(gen: seq<Token>, c: nat, total: nat, i: nat)
    requires 0 < c && (total - 1) * c < |gen| && i < total
    ensures i * c < |gen| && Min(i * c, |gen|) == i * c && ChunkEnd(gen, c, i) == Min((i + 1) * c, |gen|)
  {
    assert i * c <= (total - 1) * c;
  }

  lemma {:induction false} ChunkLast(gen: seq<Token>, c: nat, total: nat)
    requires total >= 1 && |gen| <= total * c
    ensures gen[..ChunkEnd(gen, c, total - 1)] == gen && gen[..Min(total * c, |gen|)] == gen
  {
    assert gen[..|gen|] == gen;
  }

  // ----- the decode loop -----

  /** The run's local variables; `dprefix` is the text the draft extends. */
  datatype Vars = Vars(out: seq<Token>, pos: nat, inflight: seq<Chunk>, discard: nat, sendPos: nat,
                       dprefix: seq<Token>, done: bool)

  predicate LoopInv(prompt: seq<Token>, cfg: Config, budget: nat, eos: Token, resume: seq<Token>, p: Pipe, v: Vars) {
    && p == Pipe(v.out, v.dprefix, v.inflight, v.discard) && v.discard <= |v.inflight| <= cfg.depth
    && resume <= v.out && |resume| < |v.out| && v.pos + 1 == |prompt| + |v.out| && v.sendPos + 1 == |v.dprefix|
    && v.sendPos <= v.pos + Times(|v.inflight| - v.discard, cfg.K)
    && (forall i :: 0 <= i < |v.inflight| ==> |v.inflight[i].drafts| == cfg.K)
    && (v.done ==> budget <= |v.out| || exists i :: 0 <= i < |v.out| && v.out[i] == eos)
    && (!v.done ==> |v.out| < budget || |v.out| == |resume| + 1)
  }

  /** Reset the ring and prefill it. */
  method Rebuild(link: FastLink, gen: seq<Token>, cfg: Config) returns (alive: bool, row: Row, replies: nat)
    requires link.Valid() && Ready(link.net, link.ring) && gen != []
    modifies link
    ensures link.Valid() && (old(link.fate).Never? ==> link.fate.Never?)
    ensures alive ==> replies == PrefillReplies(|gen|, cfg)
    ensures alive ==> row == LastRow(link.net.model, gen) && Coming(link.net, link.ring) == [] &&
                      WillHold(link.net, link.ring, gen, false)
    ensures alive ==> link.net.model.head(row) == link.net.next(gen)
    ensures old(link.fate).Never? && |gen| <= link.net.maxlen ==> alive
  {
    hide WillHold, Ready, Serves, LastRow;
    row, replies := [], 0;
    SendReset(link.net, link.ring);
    alive := link.SendReset();
    if !alive { return; }
    ghost var was := link.ring;
    var ok;
    alive, ok := link.RecvReply();
    if !alive { return; }
    WillHoldDrain(link.net, was, link.ring, [], true);
    alive, row, replies := Prefill(link, gen, cfg);
    RowAnswers(link.net, gen);
  }

  /** The row at a text's end, read by the head. */
  lemma {:induction false} RowAnswers(n: Net, text: seq<Token>)
    requires Faithful(n) && text != []
    ensures n.model.head(LastRow(n.model, text)) == n.next(text)
  {
  }

  /** The course of a finished run, or of one cut short: after it had stopped, or before. */
  ghost predicate Coursed(next: Target, propose: (nat, seq<Token>, nat) -> seq<Token>, asked: seq<seq<Token>>,
                          cfg: Config, prompt: seq<Token>, resume: nat, maxNew: nat, eos: Token, out: seq<Token>,
                          log: Log, finished: bool) {
    var budget := Budget(cfg, maxNew, |prompt|, resume);
    || Course(next, propose, asked, cfg, prompt, resume, budget, eos, out, log, true)
    || (!finished && Course(next, propose, asked, cfg, prompt, resume, budget, eos, out, log, false))
  }

  /** The loop's state between two replies. */
  ghost predicate Running(link: FastLink, draft: DraftChannel, prompt: seq<Token>, resume: seq<Token>, cfg: Config,
                          maxNew: nat, eos: Token, p: Pipe, v: Vars, log: Log)
    reads link, draft
  {
    var budget := Budget(cfg, maxNew, |prompt|, |resume|);
    && link.Valid() && Backed(link.net, prompt, p, link.ring)
    && Primed(draft, cfg, Longest(cfg, maxNew, |prompt|, |resume|), v.dprefix, prompt + v.out)
    && LoopInv(prompt, cfg, budget, eos, resume, p, v)
    && Course(link.net.next, draft.propose, draft.asked, cfg, prompt, |resume|, budget, eos, v.out, log, v.done)
    && AllReplied(draft.propose, draft.asked, cfg, v.inflight, v.discard, v.dprefix)
    && (v.done ==> log.drafts != [])
  }

  /** What an edge failure leaves of it. */
  ghost predicate Halfway(link: FastLink, draft: DraftChannel, prompt: seq<Token>, resume: seq<Token>, cfg: Config,
                          maxNew: nat, eos: Token, v: Vars, log: Log)
    reads link, draft
  {
    var budget := Budget(cfg, maxNew, |prompt|, |resume|);
    && prompt != [] && resume <= v.out && v.out == Greedy(link.net.next, prompt, |v.out|)
    && Course(link.net.next, draft.propose, draft.asked, cfg, prompt, |resume|, budget, eos, v.out, log, v.done)
    && Asks(draft.asked, cfg, Longest(cfg, maxNew, |prompt|, |resume|), prompt + v.out)
  }

  /** Rebuild the ring on the resumed text, and ask for the first draft. */
  method Start(link: FastLink, draft: DraftChannel, prompt: seq<Token>, resume: seq<Token>, cfg: Config,
               ghost maxNew: nat, ghost eos: Token)
    returns (alive: bool, ghost p: Pipe, v: Vars, ghost log: Log)
    requires link.Valid() && Ready(link.net, link.ring) && draft.Valid() && draft.pending == [] && draft.asked == []
    requires prompt != [] && resume == Greedy(link.net.next, prompt, |resume|) && cfg.depth >= 1
    modifies link, draft
    ensures alive ==> Running(link, draft, prompt, resume, cfg, maxNew, eos, p, v, log) && !v.done
    ensures !alive ==> draft.asked == []
    ensures old(link.fate).Never? ==> link.fate.Never?
    ensures old(link.fate).Never? && Fits(link.net, cfg, maxNew, |prompt|, |resume|) ==> alive
  {
    hide Backed, Faithful, Ready, LoopInv, Greedy, Budget, Asks, DraftQuery, Fits, Reached, Course, AllReplied;
    AsksNothing(cfg, prompt);
    FitsText(link.net, cfg, maxNew, |prompt|, |resume|);
    ghost var longest := Longest(cfg, maxNew, |prompt|, |resume|);
    ghost var budget := Budget(cfg, maxNew, |prompt|, |resume|);
    var gen := prompt + resume;
    var row, replies;
    v, p, log := Vars([], 0, [], 0, 0, [], false), Pipe([], [], [], 0), Log([], []);
    alive, row, replies := Rebuild(link, gen, cfg);
    if !alive { return; }
    var cur := link.net.model.head(row);
    BackedStart(link.net, prompt, resume, cur, link.ring);
    v := Vars(resume + [cur], |gen|, [], 0, |gen|, gen + [cur], false);
    p := Pipe(resume + [cur], gen + [cur], [], 0);
    LoopStart(prompt, cfg, budget, eos, resume, cur);
    FirstText(prompt, cfg, budget, resume, cur);
    AsksNext([], cfg, longest, prompt + v.out, v.dprefix);
    draft.Request(DraftQuery(cfg, v.dprefix), cfg.K);
    log := Log([|resume| + 1], []);
    CourseStart(link.net.next, draft.propose, draft.asked, cfg, prompt, resume, budget, eos, cur);
  }

  method CoordinatePipe(link: FastLink, draft: DraftChannel, prompt: seq<Token>, resume: seq<Token>, cfg: Config,
                        maxNew: nat, eos: Token)
    returns (res: Outcome, ghost committed: seq<Token>, ghost log: Log)
    requires link.Valid() && Ready(link.net, link.ring) && draft.Valid() && draft.pending == [] && draft.asked == []
    requires prompt != [] && resume == Greedy(link.net.next, prompt, |resume|)
    requires cfg.K >= 1 && cfg.depth >= 1
    modifies link, draft
    ensures resume <= committed == Greedy(link.net.next, prompt, |committed|)
    ensures res == Failed(committed) || res == Done(UpToEos(committed, {eos}))
    ensures res.Done? ==> var budget := Budget(cfg, maxNew, |prompt|, |resume|);
                          CutCap(res.out, {eos}, budget) == Answer(link.net.next, prompt, {eos}, budget) &&
                          eos !in res.out && draft.pending == [] && ShapedFor(link.net, link.ring) && Idle(link.ring)
    ensures res.Done? && Whole(cfg, maxNew, |prompt|, |resume|) ==>
              CutCap(res.out, {eos}, maxNew) == Answer(link.net.next, prompt, {eos}, maxNew)
    ensures committed != resume ==>
              Coursed(link.net.next, draft.propose, draft.asked, cfg, prompt, |resume|, maxNew, eos, committed, log,
                      res.Done?)
    ensures res.Done? ==> committed != resume && log.drafts != []
    ensures old(link.fate).Never? && Fits(link.net, cfg, maxNew, |prompt|, |resume|) ==> res.Done?
    ensures forall margin: nat :: Suits(cfg, margin, maxNew, |prompt|, |resume|) ==> Settled(draft.asked, margin)
    ensures forall c: Params :: Suits(cfg, c.margin, maxNew, |prompt|, |resume|) ==>
                                  Indexes(c, draft.asked, prompt + committed)
  {
    hide Backed, WillHold, Faithful, Owed, Ready, LoopInv, Greedy, CutCap, Answer, Budget, UpToEos, Sent, Read;
    hide Asks, Settled, Lag, DraftQuery, Fits, Reached, Settles, Indexes, Course, AllReplied, CommitOf, Whole;
    hide Running, Halfway, Coursed, Longest;
    committed, log := resume, Log([], []);
    WholeBudget(cfg, maxNew, |prompt|, |resume|);
    AsksNothing(cfg, prompt);
    ghost var budget := Budget(cfg, maxNew, |prompt|, |resume|);
    var alive, v;
    ghost var p;
    alive, p, v, log := Start(link, draft, prompt, resume, cfg, maxNew, eos);
    if !alive { return Failed(resume), committed, log; }
    while !v.done
      invariant Running(link, draft, prompt, resume, cfg, maxNew, eos, p, v, log)
      invariant old(link.fate).Never? ==> link.fate.Never?
      decreases !v.done, Max(0, budget - |v.out|), v.discard
    {
      alive, p, v, log := Turn(link, draft, prompt, resume, p, cfg, maxNew, eos, v, log);
      if !alive {
        FailedFacts(link, draft, prompt, resume, cfg, maxNew, eos, v, log);
        committed := v.out;
        return Failed(v.out), committed, log;
      }
    }
    RunningFacts(link, draft, prompt, resume, cfg, maxNew, eos, p, v, log);
    FailedFacts(link, draft, prompt, resume, cfg, maxNew, eos, v, log);
    var _ := draft.Fetch();
    committed := v.out;
    alive := Drain(link, prompt, p, |v.inflight|);
    if !alive { return Failed(v.out), committed, log; }
    FinalCut(link.net.next, prompt, v.out, eos, budget);
    return Done(UpToEos(v.out, {eos})), committed, log;
  }

  lemma {:induction false} RunningFacts(link: FastLink, draft: DraftChannel, prompt: seq<Token>, resume: seq<Token>,
                                        cfg: Config, maxNew: nat, eos: Token, p: Pipe, v: Vars, log: Log)
    requires Running(link, draft, prompt, resume, cfg, maxNew, eos, p, v, log)
    ensures var budget := Budget(cfg, maxNew, |prompt|, |resume|);
            && link.Valid() && Backed(link.net, prompt, p, link.ring) && p.inflight == v.inflight
            && draft.Valid() && |draft.pending| == 1
            && Halfway(link, draft, prompt, resume, cfg, maxNew, eos, v, log) && v.out != resume
            && (v.done ==> log.drafts != [] && (budget <= |v.out| || exists i :: 0 <= i < |v.out| && v.out[i] == eos))
  {
    hide Course, AllReplied, Asks;
  }

  /** What the index and the queries are then good for. */
  lemma {:induction false} FailedFacts(link: FastLink, draft: DraftChannel, prompt: seq<Token>, resume: seq<Token>,
                                       cfg: Config, maxNew: nat, eos: Token, v: Vars, log: Log)
    requires Halfway(link, draft, prompt, resume, cfg, maxNew, eos, v, log)
    ensures resume <= v.out && v.out == Greedy(link.net.next, prompt, |v.out|)
    ensures Coursed(link.net.next, draft.propose, draft.asked, cfg, prompt, |resume|, maxNew, eos, v.out, log, v.done)
    ensures Coursed(link.net.next, draft.propose, draft.asked, cfg, prompt, |resume|, maxNew, eos, v.out, log, false)
    ensures forall margin: nat :: Suits(cfg, margin, maxNew, |prompt|, |resume|) ==> Settled(draft.asked, margin)
    ensures forall c: Params :: Suits(cfg, c.margin, maxNew, |prompt|, |resume|) ==>
                                  Indexes(c, draft.asked, prompt + v.out)
  {
    hide Course, Settled, Indexes, Asks, Settles, Longest;
    AsksSettled(draft.asked, cfg, Longest(cfg, maxNew, |prompt|, |resume|), prompt + v.out);
    AsksIndexed(draft.asked, cfg, Longest(cfg, maxNew, |prompt|, |resume|), prompt + v.out);
  }

  /** Fill the pipeline, read one reply, take it. */
  method Turn(link: FastLink, draft: DraftChannel, prompt: seq<Token>, resume: seq<Token>, ghost p0: Pipe, cfg: Config,
              maxNew: nat, eos: Token, v0: Vars, ghost log0: Log)
    returns (alive: bool, ghost p: Pipe, v: Vars, ghost log: Log)
    requires Running(link, draft, prompt, resume, cfg, maxNew, eos, p0, v0, log0) && !v0.done
    requires prompt != [] && cfg.K >= 1 && cfg.depth >= 1
    modifies link, draft
    ensures alive ==> Running(link, draft, prompt, resume, cfg, maxNew, eos, p, v, log)
    ensures alive ==> v.done || (v.discard < v0.discard && v.out == v0.out) ||
                      |v0.out| < |v.out| < Budget(cfg, maxNew, |prompt|, |resume|)
    ensures !alive ==> Halfway(link, draft, prompt, resume, cfg, maxNew, eos, v, log)
    ensures old(link.fate).Never? ==> link.fate.Never?
    ensures old(link.fate).Never? && Fits(link.net, cfg, maxNew, |prompt|, |resume|) ==> alive
  {
    hide Backed, Faithful, LoopInv, Fits, Asks, Lag, DraftQuery, Reached, AllReplied, Course, CommitOf, Read, Overlays;
    hide Answers, Replied, Budget, Greedy;
    ghost var asked := draft.asked;
    log := log0;
    var budget := Budget(cfg, maxNew, |prompt|, |resume|);
    alive, p, v := Fill(link, draft, prompt, resume, p0, cfg, maxNew, eos, v0);
    LoopOut(link.net, prompt, cfg, budget, eos, resume, p, v, link.ring);
    CourseLater(link.net.next, draft.propose, asked, draft.asked, cfg, prompt, |resume|, budget, eos, v.out, log,
                false);
    if !alive { return; }
    var r;
    alive, r := link.Fetch(prompt, p);
    if !alive { return; }
    ghost var was := v;
    asked := draft.asked;
    v := Take(link.net.next, draft, prompt, resume, p, cfg, budget, eos, v, r);
    if was.discard == 0 {
      CourseMore(link.net.next, draft.propose, asked, cfg, prompt, |resume|, budget, eos, was.out, log,
                 was.inflight[0].drafts, v.out[|was.out|..]);
      assert was.out + v.out[|was.out|..] == v.out;
      log := More(log, v.out, was.inflight[0].drafts);
    }
    CourseLater(link.net.next, draft.propose, asked, draft.asked, cfg, prompt, |resume|, budget, eos, v.out, log,
                v.done);
    p := Read(prompt, p, r);
  }

  lemma {:induction false} FinalCut(next: Target, prompt: seq<Token>, out: seq<Token>, eos: Token, budget: nat)
    requires prompt != [] && out == Greedy(next, prompt, |out|)
    requires budget <= |out| || exists i :: 0 <= i < |out| && out[i] == eos
    ensures var res := UpToEos(out, {eos});
            CutCap(res, {eos}, budget) == Answer(next, prompt, {eos}, budget) && eos !in res
  {
    assert budget <= |out| || exists i :: 0 <= i < |out| && out[i] in {eos};
    StoppedRunAnswers(next, prompt, out, {eos}, budget);
    CutAgain(out, {eos}, budget);
  }

  lemma {:induction false} LoopStart(prompt: seq<Token>, cfg: Config, budget: nat, eos: Token, resume: seq<Token>,
                                     cur: Token)
    requires cfg.depth >= 1
    ensures var gen := prompt + resume;
            LoopInv(prompt, cfg, budget, eos, resume, Pipe(resume + [cur], gen + [cur], [], 0),
                    Vars(resume + [cur], |gen|, [], 0, |gen|, gen + [cur], false))
  {
  }

  lemma {:induction false} FirstText(prompt: seq<Token>, cfg: Config, budget: nat, resume: seq<Token>, cur: Token)
    ensures |prompt + resume + [cur]| <= Reached(cfg, budget, |prompt|, |resume|)
    ensures prompt + (resume + [cur]) == prompt + resume + [cur]
  {
  }

  /** What an edge failure hands back: a longer greedy run than it was given. */
  lemma {:induction false} LoopOut(n: Net, prompt: seq<Token>, cfg: Config, budget: nat, eos: Token, resume: seq<Token>,
                                   p: Pipe, v: Vars, r: RingState)
    requires LoopInv(prompt, cfg, budget, eos, resume, p, v) && Backed(n, prompt, p, r)
    ensures resume <= v.out && v.out == Greedy(n.next, prompt, |v.out|) && p.inflight == v.inflight
    ensures v.done ==> budget <= |v.out| || exists i :: 0 <= i < |v.out| && v.out[i] == eos
  {
  }

  /** Collect the ready draft, send its chunk, and ask for the next one, until `depth` are in flight. */
  method Fill(link: FastLink, draft: DraftChannel, prompt: seq<Token>, resume: seq<Token>, ghost p0: Pipe, cfg: Config,
              maxNew: nat, eos: Token, v0: Vars)
    returns (alive: bool, ghost p: Pipe, v: Vars)
    requires link.Valid() && Backed(link.net, prompt, p0, link.ring) &&
             Primed(draft, cfg, Longest(cfg, maxNew, |prompt|, |resume|), v0.dprefix, prompt + v0.out)
    requires cfg.K >= 1 && cfg.depth >= 1 && !v0.done
    requires LoopInv(prompt, cfg, Budget(cfg, maxNew, |prompt|, |resume|), eos, resume, p0, v0)
    requires AllReplied(draft.propose, draft.asked, cfg, v0.inflight, v0.discard, v0.dprefix)
    modifies link, draft
    ensures link.Valid() && Backed(link.net, prompt, p, link.ring)
    ensures LoopInv(prompt, cfg, Budget(cfg, maxNew, |prompt|, |resume|), eos, resume, p, v)
    ensures !v.done && v.out == v0.out && v.discard == v0.discard &&
            Asks(draft.asked, cfg, Longest(cfg, maxNew, |prompt|, |resume|), prompt + v.out)
    ensures alive ==> Primed(draft, cfg, Longest(cfg, maxNew, |prompt|, |resume|), v.dprefix, prompt + v.out) &&
                      p.inflight != [] && |v.inflight| == cfg.depth
    ensures old(draft.asked) <= draft.asked &&
            AllReplied(draft.propose, draft.asked, cfg, v.inflight, v.discard, v.dprefix)
    ensures old(link.fate).Never? ==> link.fate.Never?
    ensures old(link.fate).Never? && Fits(link.net, cfg, maxNew, |prompt|, |resume|) ==> alive
  {
    hide Backed, Faithful, LoopInv, Fits, AllReplied, Longest, Budget, Primed, Asks;
    p, v, alive := p0, v0, true;
    LoopFacts(prompt, cfg, Budget(cfg, maxNew, |prompt|, |resume|), eos, resume, p, v);
    PrimedFacts(draft, cfg, Longest(cfg, maxNew, |prompt|, |resume|), v.dprefix, prompt + v.out);
    while |v.inflight| < cfg.depth
      invariant link.Valid() && Backed(link.net, prompt, p, link.ring)
      invariant Primed(draft, cfg, Longest(cfg, maxNew, |prompt|, |resume|), v.dprefix, prompt + v.out)
      invariant LoopInv(prompt, cfg, Budget(cfg, maxNew, |prompt|, |resume|), eos, resume, p, v)
      invariant !v.done && v.out == v0.out && v.discard == v0.discard && |v.inflight| == |p.inflight| <= cfg.depth
      invariant old(draft.asked) <= draft.asked
      invariant Asks(draft.asked, cfg, Longest(cfg, maxNew, |prompt|, |resume|), prompt + v.out)
      invariant AllReplied(draft.propose, draft.asked, cfg, v.inflight, v.discard, v.dprefix)
      invariant old(link.fate).Never? ==> link.fate.Never?
    {
      alive, p, v := FillOne(link, draft, prompt, resume, p, cfg, maxNew, eos, v);
      if !alive { return; }
    }
  }

  lemma {:induction false} PrimedFacts(d: DraftChannel, cfg: Config, longest: nat, text: seq<Token>,
                                       committed: seq<Token>)
    requires Primed(d, cfg, longest, text, committed)
    ensures Asks(d.asked, cfg, longest, committed)
  {
  }

  method FillOne(link: FastLink, draft: DraftChannel, prompt: seq<Token>, resume: seq<Token>, ghost p0: Pipe,
                 cfg: Config, maxNew: nat, eos: Token, v0: Vars)
    returns (alive: bool, ghost p: Pipe, v: Vars)
    requires link.Valid() && Backed(link.net, prompt, p0, link.ring) &&
             Primed(draft, cfg, Longest(cfg, maxNew, |prompt|, |resume|), v0.dprefix, prompt + v0.out)
    requires cfg.K >= 1 && |v0.inflight| < cfg.depth && !v0.done
    requires LoopInv(prompt, cfg, Budget(cfg, maxNew, |prompt|, |resume|), eos, resume, p0, v0)
    requires AllReplied(draft.propose, draft.asked, cfg, v0.inflight, v0.discard, v0.dprefix)
    modifies link, draft
    ensures link.Valid() && Backed(link.net, prompt, p, link.ring)
    ensures LoopInv(prompt, cfg, Budget(cfg, maxNew, |prompt|, |resume|), eos, resume, p, v)
    ensures !v.done && v.out == v0.out && v.discard == v0.discard &&
            Asks(draft.asked, cfg, Longest(cfg, maxNew, |prompt|, |resume|), prompt + v.out)
    ensures alive ==> Primed(draft, cfg, Longest(cfg, maxNew, |prompt|, |resume|), v.dprefix, prompt + v.out) &&
                      |v.inflight| == |p.inflight| == |v0.inflight| + 1
    ensures old(draft.asked) <= draft.asked &&
            AllReplied(draft.propose, draft.asked, cfg, v.inflight, v.discard, v.dprefix)
    ensures old(link.fate).Never? ==> link.fate.Never?
    ensures old(link.fate).Never? && Fits(link.net, cfg, maxNew, |prompt|, |resume|) ==> alive
  {
    hide Backed, Faithful, LoopInv, Fits, Asks, Lag, DraftQuery, Reached, AllReplied, RequestAnswered, Replied, Sent;
    ghost var longest := Longest(cfg, maxNew, |prompt|, |resume|);
    ghost var budget := Budget(cfg, maxNew, |prompt|, |resume|);
    p, v := p0, v0;
    LoopFacts(prompt, cfg, budget, eos, resume, p, v);
    var ds := draft.Fetch();
    AllRepliedMore(draft.propose, draft.asked, cfg, v.inflight, v.discard, v.dprefix, ds);
    LoopSend(link.net, prompt, cfg, maxNew, eos, resume, p, v, ds);
    var tail := v.dprefix[|v.dprefix| - 1];
    if |v.dprefix| + cfg.K <= link.net.maxlen {
      BackedSend(link.net, prompt, p, link.ring, ds, tail);
    }
    alive := link.SendChunk(v.sendPos, [tail] + ds, false);
    if !alive { return; }
    p := Sent(p, ds);
    v := v.(inflight := v.inflight + [Chunk(v.sendPos, ds)], dprefix := v.dprefix + ds, sendPos := v.sendPos + cfg.K);
    LoopFacts(prompt, cfg, budget, eos, resume, p, v);
    BackedFacts(link.net, prompt, p, link.ring);
    AsksNext(draft.asked, cfg, longest, prompt + v.out, v.dprefix);
    ghost var asked := draft.asked;
    draft.Request(DraftQuery(cfg, v.dprefix), cfg.K);
    AllRepliedLater(draft.propose, asked, draft.asked, cfg, v.inflight, v.discard, v.dprefix);
  }

  lemma {:induction false} LoopFacts(prompt: seq<Token>, cfg: Config, budget: nat, eos: Token, resume: seq<Token>,
                                     p: Pipe, v: Vars)
    requires LoopInv(prompt, cfg, budget, eos, resume, p, v)
    ensures p.stream == v.dprefix && |v.dprefix| == v.sendPos + 1 && |v.inflight| == |p.inflight| <= cfg.depth
    ensures p.out == v.out && |v.dprefix| <= |prompt + v.out| + Lag(cfg)
    ensures !v.done ==> |v.dprefix| <= Reached(cfg, budget, |prompt|, |resume|)
  {
    SlotBound(|v.inflight| - v.discard, v.discard, cfg.depth, cfg.K);
  }

  lemma {:induction false} LoopSend(n: Net, prompt: seq<Token>, cfg: Config, maxNew: nat, eos: Token,
                                    resume: seq<Token>, p: Pipe, v: Vars, ds: seq<Token>)
    requires |v.inflight| < cfg.depth && !v.done && |ds| == cfg.K && p.stream != []
    requires LoopInv(prompt, cfg, Budget(cfg, maxNew, |prompt|, |resume|), eos, resume, p, v)
    ensures LoopInv(prompt, cfg, Budget(cfg, maxNew, |prompt|, |resume|), eos, resume, Sent(p, ds),
                    v.(inflight := v.inflight + [Chunk(v.sendPos, ds)], dprefix := v.dprefix + ds,
                       sendPos := v.sendPos + cfg.K))
    ensures Fits(n, cfg, maxNew, |prompt|, |resume|) ==> v.sendPos + 1 + cfg.K <= n.maxlen
  {
    hide Times;
    TimesStep(|v.inflight| - v.discard, cfg.K);
    SlotBound(|v.inflight| - v.discard + 1, v.discard, cfg.depth, cfg.K);
  }

  /** The stop rule for what one reply has committed. */
  predicate Stops(cfg: Config, budget: nat, eos: Token, out: seq<Token>, committed: seq<Token>) {
    budget <= |out| || (!cfg.ignoreEos && eos in committed)
  }

  lemma {:induction false} StopsEnds(cfg: Config, budget: nat, eos: Token, out: seq<Token>, committed: seq<Token>)
    requires Stops(cfg, budget, eos, out + committed, committed)
    ensures budget <= |out + committed| || exists i :: 0 <= i < |out + committed| && (out + committed)[i] == eos
  {
    if eos in committed {
      var i :| 0 <= i < |committed| && committed[i] == eos;
      assert (out + committed)[|out| + i] == eos;
    }
  }

  lemma {:induction false} TakeFacts(prompt: seq<Token>, cfg: Config, budget: nat, eos: Token, resume: seq<Token>,
                                     p: Pipe, v: Vars)
    requires LoopInv(prompt, cfg, budget, eos, resume, p, v) && p.inflight != []
    ensures p.inflight == v.inflight && p.discard == v.discard <= |v.inflight| && p.out == v.out
    ensures p.stream == v.dprefix && |v.inflight[0].drafts| == cfg.K
    ensures cfg.depth >= 1 && (!v.done ==> |v.out| <= Max(|resume| + 1, budget - 1))
  {
  }

  lemma {:induction false} StaleKeeps(prompt: seq<Token>, cfg: Config, budget: nat, eos: Token, resume: seq<Token>,
                                      p: Pipe, v: Vars, r: seq<Token>)
    requires LoopInv(prompt, cfg, budget, eos, resume, p, v) && p.inflight != [] && v.discard > 0
    ensures LoopInv(prompt, cfg, budget, eos, resume, Read(prompt, p, r),
                    v.(inflight := v.inflight[1..], discard := v.discard - 1))
  {
    hide Times;
  }

  lemma {:induction false} FullKeeps(prompt: seq<Token>, cfg: Config, budget: nat, eos: Token, resume: seq<Token>,
                                     p: Pipe, v: Vars, r: seq<Token>)
    requires LoopInv(prompt, cfg, budget, eos, resume, p, v) && p.inflight != [] && v.discard == 0 && !v.done
    requires |r| == |p.inflight[0].drafts| + 1 && Agreed(p.inflight[0].drafts, r) == cfg.K >= 1
    ensures var out := v.out + v.inflight[0].drafts;
            LoopInv(prompt, cfg, budget, eos, resume, Read(prompt, p, r),
                    v.(inflight := v.inflight[1..], out := out, pos := v.pos + cfg.K,
                       done := Stops(cfg, budget, eos, out, v.inflight[0].drafts)))
  {
    hide Times, Agreed;
    TimesStep(|v.inflight| - 1, cfg.K);
    if Stops(cfg, budget, eos, v.out + v.inflight[0].drafts, v.inflight[0].drafts) {
      StopsEnds(cfg, budget, eos, v.out, v.inflight[0].drafts);
    }
  }

  lemma {:induction false} DivergedKeeps(prompt: seq<Token>, cfg: Config, budget: nat, eos: Token, resume: seq<Token>,
                                         p: Pipe, v: Vars, r: seq<Token>)
    requires LoopInv(prompt, cfg, budget, eos, resume, p, v) && p.inflight != [] && v.discard == 0 && !v.done
    requires |r| == |p.inflight[0].drafts| + 1 && Agreed(p.inflight[0].drafts, r) < cfg.K
    ensures var n := Agreed(p.inflight[0].drafts, r);
            var committed := v.inflight[0].drafts[..n] + [r[n]];
            var out, rest := v.out + committed, v.inflight[1..];
            LoopInv(prompt, cfg, budget, eos, resume, Read(prompt, p, r),
                    Vars(out, v.pos + n + 1, rest, |rest|, v.pos + n + 1, prompt + out,
                         Stops(cfg, budget, eos, out, committed)))
  {
    hide Times, Agreed;
    TimesStep(0, cfg.K);
    var n := Agreed(p.inflight[0].drafts, r);
    var committed := v.inflight[0].drafts[..n] + [r[n]];
    if Stops(cfg, budget, eos, v.out + committed, committed) {
      StopsEnds(cfg, budget, eos, v.out, committed);
    }
  }

  /** Skip a stale reply, commit a fully accepted chunk, or commit up to the divergence: then the
      outstanding draft is dropped and the next one requested for the corrected text. */
  method Take(ghost next: Target, draft: DraftChannel, prompt: seq<Token>, ghost resume: seq<Token>, ghost p: Pipe,
              cfg: Config, budget: nat, eos: Token, v0: Vars, r: seq<Token>)
    returns (v: Vars)
    requires cfg.K >= 1 && LoopInv(prompt, cfg, budget, eos, resume, p, v0) && p.inflight != [] && !v0.done
    requires p.discard == 0 ==> |r| == |p.inflight[0].drafts| + 1 && Overlays(prompt, p) &&
                                Answers(next, p.stream, p.inflight[0], r)
    requires prompt != [] && AllReplied(draft.propose, draft.asked, cfg, v0.inflight, v0.discard, v0.dprefix)
    requires Primed(draft, cfg, Reached(cfg, budget, |prompt|, |resume|), v0.dprefix, prompt + v0.out)
    modifies draft
    ensures LoopInv(prompt, cfg, budget, eos, resume, Read(prompt, p, r), v) &&
            Primed(draft, cfg, Reached(cfg, budget, |prompt|, |resume|), v.dprefix, prompt + v.out)
    ensures v.done || (v.discard < v0.discard && v.out == v0.out) || |v0.out| < |v.out| < budget
    ensures v0.out <= v.out && (v0.discard > 0 ==> v.out == v0.out)
    ensures v.done <==> v0.discard == 0 && (budget <= |v.out| || (!cfg.ignoreEos && eos in v.out[|v0.out|..]))
    ensures v0.inflight != [] &&
            (v0.discard == 0 ==> var ds := v0.inflight[0].drafts;
                                 Replied(draft.propose, old(draft.asked), cfg, prompt + v0.out, ds) &&
                                 CommitOf(next, prompt + v0.out, ds, v.out[|v0.out|..], false))
    ensures old(draft.asked) <= draft.asked &&
            AllReplied(draft.propose, draft.asked, cfg, v.inflight, v.discard, v.dprefix)
  {
    hide Times, Agreed, Asks, Lag, DraftQuery, AllReplied, CommitOf, Replied, RequestAnswered, Overlays, Answers;
    hide LoopInv, Read, ChunkReplied, Reached;
    TakeFacts(prompt, cfg, budget, eos, resume, p, v0);
    AllRepliedRead(draft.propose, draft.asked, cfg, v0.inflight, v0.discard, v0.dprefix);
    ghost var longest := Reached(cfg, budget, |prompt|, |resume|);
    v := v0.(inflight := v0.inflight[1..]);
    var ds := v0.inflight[0].drafts;
    if v.discard > 0 {
      v := v.(discard := v.discard - 1);
      StaleKeeps(prompt, cfg, budget, eos, resume, p, v0, r);
    } else {
      HeadCommits(next, draft.propose, draft.asked, cfg, prompt, p, r);
      var n := CountAgreed(ds, r);
      var committed, cur;
      if n == cfg.K {
        committed, cur := ds, ds[cfg.K - 1];
        v := v.(out := v.out + ds, pos := v.pos + cfg.K);
        AsksGrow(draft.asked, cfg, longest, prompt + v0.out, prompt + v.out);
        FullKeeps(prompt, cfg, budget, eos, resume, p, v0, r);
      } else {
        committed, cur := ds[..n] + [r[n]], r[n];
        v := v.(out := v.out + committed, pos := v.pos + n + 1, discard := |v.inflight|);
        var _ := draft.Fetch();
        v := v.(dprefix := prompt + v.out, sendPos := v.pos);
        DivergedKeeps(prompt, cfg, budget, eos, resume, p, v0, r);
        AskAgain(draft, cfg, budget, longest, prompt, resume, v0.out, v);
      }
      assert v.out == v0.out + committed && v.out[|v0.out|..] == committed;
      v := v.(done := |v.out| >= budget || (!cfg.ignoreEos && (cur == eos || eos in committed)));
    }
  }

  /** Request a draft for the corrected text; everything in flight is stale. */
  method AskAgain(draft: DraftChannel, cfg: Config, ghost budget: nat, ghost longest: nat, ghost prompt: seq<Token>,
                  ghost resume: seq<Token>, ghost out0: seq<Token>, v: Vars)
    requires draft.Valid() && draft.pending == [] && Asks(draft.asked, cfg, longest, prompt + out0)
    requires out0 <= v.out && v.dprefix == prompt + v.out && v.discard == |v.inflight|
    requires longest == Reached(cfg, budget, |prompt|, |resume|) && |v.out| <= Max(|resume| + 1, budget - 1) + cfg.K
    requires cfg.depth >= 1
    modifies draft
    ensures Primed(draft, cfg, longest, v.dprefix, prompt + v.out) && old(draft.asked) <= draft.asked
    ensures AllReplied(draft.propose, draft.asked, cfg, v.inflight, v.discard, v.dprefix)
  {
    hide Asks, DraftQuery, AllReplied, Lag;
    LagCovers(cfg);
    AsksGrow(draft.asked, cfg, longest, prompt + out0, prompt + v.out);
    AsksNext(draft.asked, cfg, longest, prompt + v.out, v.dprefix);
    draft.Request(DraftQuery(cfg, v.dprefix), cfg.K);
    AllStale(draft.propose, draft.asked, cfg, v.inflight, v.dprefix);
  }

  /** What a fresh reply commits, and where its drafts came from. */
  lemma {:induction false} HeadCommits(next: Target, propose: (nat, seq<Token>, nat) -> seq<Token>,
                                       asked: seq<seq<Token>>, cfg: Config, ids: seq<Token>, p: Pipe, r: seq<Token>)
    requires ids != [] && p.inflight != [] && Overlays(ids, p) && Answers(next, p.stream, p.inflight[0], r)
    requires ChunkReplied(propose, asked, cfg, p.inflight[0], p.stream)
    ensures |r| == |p.inflight[0].drafts| + 1
    ensures var text, ds := ids + p.out, p.inflight[0].drafts;
            var n := Agreed(ds, r);
            Replied(propose, asked, cfg, text, ds) &&
            (n < |ds| ==> CommitOf(next, text, ds, ds[..n] + [r[n]], false)) &&
            (n == |ds| && ds != [] ==> CommitOf(next, text, ds, ds, false))
  {
    hide Replied, Judged, CommitOf, Agreed;
    HeadJudged(next, ids, p, r);
    CommitsAre(next, ids + p.out, p.inflight[0].drafts, r);
    assert p.stream[..|ids| + |p.out|] == ids + p.out;
  }

  /** Read the replies still on their way, so the edges are clean for the next generation. */
  method Drain(link: FastLink, ghost prompt: seq<Token>, ghost p: Pipe, count: nat) returns (alive: bool)
    requires link.Valid() && Backed(link.net, prompt, p, link.ring) && count == |p.inflight|
    modifies link
    ensures link.Valid() && (old(link.fate).Never? ==> link.fate.Never? && alive)
    ensures alive ==> Idle(link.ring)
  {
    hide Backed, Faithful, Owed;
    BackedFacts(link.net, prompt, p, link.ring);
    alive := true;
    for i := 0 to count
      invariant link.Valid() && |Owed(link.net, link.ring)| == count - i
      invariant old(link.fate).Never? ==> link.fate.Never?
    {
      var stale;
      alive, stale := link.Recv();
      if !alive { return; }
    }
    OwesNothing(link.net, link.ring);
  }

  lemma {:induction false} OwesNothing(n: Net, r: RingState)
    requires ShapedFor(n, r) && |Owed(n, r)| == 0
    ensures Idle(r)
  {
    NothingOwedIsIdle(n.nodes, r);
  }

  // ----- heal and resume -----

  /** Run a request to its end over a succession of rings, each of whose edges may die at any
      operation; every failure hands its committed tokens to the next attempt. */
  method Generate(net: Net, rings: seq<RingState>, fates: seq<Fate>, propose: (nat, seq<Token>, nat) -> seq<Token>,
                  prompt: seq<Token>, cfg: Config, maxNew: nat, eos: Token)
    returns (dumps: seq<seq<Token>>, res: Outcome)
    requires Faithful(net) && |rings| == |fates| >= 1 && forall i :: 0 <= i < |rings| ==> Ready(net, rings[i])
    requires forall i, ids, k :: |propose(i, ids, k)| == k
    requires prompt != [] && cfg.K >= 1 && cfg.depth >= 1
    ensures HandedOn(net.next, prompt, dumps)
    ensures var resume := if dumps == [] then [] else dumps[|dumps| - 1];
            var budget := Budget(cfg, maxNew, |prompt|, |resume|);
            if res.Done? then CutCap(res.out, {eos}, budget) == Answer(net.next, prompt, {eos}, budget)
            else res.committed == resume && |dumps| == |rings|
    ensures res.Done? && Whole(cfg, maxNew, |prompt|, if dumps == [] then 0 else |dumps[|dumps| - 1]|) ==>
              CutCap(res.out, {eos}, maxNew) == Answer(net.next, prompt, {eos}, maxNew)
    ensures var resume := if dumps == [] then 0 else |dumps[|dumps| - 1]|;
            var budget, full := Budget(cfg, maxNew, |prompt|, resume), Budget(cfg, maxNew, |prompt|, 0);
            res.Done? ==>
              (CutCap(res.out, {eos}, budget) == Answer(net.next, prompt, {eos}, full) <==>
               BudgetKept(cfg, maxNew, |prompt|, resume) || eos in Greedy(net.next, prompt, Min(budget, full) + 1))
    ensures res.Failed? ==>
              forall i :: 0 <= i < |rings| && fates[i].Never? ==>
                            !Fits(net, cfg, maxNew, |prompt|, if i == 0 then 0 else |dumps[i - 1]|)
  {
    hide Faithful, Ready, CutCap, Answer, Greedy, Fits, HandedOn, Budget, BudgetKept, Suits, Settled, Indexes, Whole,
         Coursed;
    dumps := [];
    GreedyNone(net.next, prompt);
    for i := 0 to |rings|
      invariant |dumps| == i && HandedOn(net.next, prompt, dumps)
      invariant forall k :: 0 <= k < i && fates[k].Never? ==>
                              !Fits(net, cfg, maxNew, |prompt|, if k == 0 then 0 else |dumps[k - 1]|)
    {
      var link := new FastLink(net, rings[i], fates[i]);
      var draft := new DraftChannel(propose);
      var resume := if i == 0 then [] else dumps[i - 1];
      HandedLast(net.next, prompt, dumps);
      ghost var committed, log;
      res, committed, log := CoordinatePipe(link, draft, prompt, resume, cfg, maxNew, eos);
      ResumeAnswers(net.next, cfg, maxNew, prompt, |resume|, eos);
      if res.Done? { return; }
      HandedMore(net.next, prompt, dumps, res.committed);
      dumps := dumps + [res.committed];
    }
    res := Failed(dumps[|dumps| - 1]);
  }

  /** Each dump is greedy and extends all earlier ones. */
  ghost predicate HandedOn(next: Target, prompt: seq<Token>, dumps: seq<seq<Token>>)
    requires prompt != []
  {
    (forall i, j :: 0 <= i <= j < |dumps| ==> dumps[i] <= dumps[j]) &&
    forall i :: 0 <= i < |dumps| ==> dumps[i] == Greedy(next, prompt, |dumps[i]|)
  }

  lemma {:induction false} HandedLast(next: Target, prompt: seq<Token>, dumps: seq<seq<Token>>)
    requires prompt != [] && HandedOn(next, prompt, dumps)
    ensures dumps != [] ==> dumps[|dumps| - 1] == Greedy(next, prompt, |dumps[|dumps| - 1]|)
  {
  }

  lemma {:induction false} HandedMore(next: Target, prompt: seq<Token>, dumps: seq<seq<Token>>, d: seq<Token>)
    requires prompt != [] && HandedOn(next, prompt, dumps) && d == Greedy(next, prompt, |d|)
    requires dumps != [] ==> dumps[|dumps| - 1] <= d
    ensures HandedOn(next, prompt, dumps + [d])
  {
    hide Greedy;
    forall i | 0 <= i < |dumps| ensures dumps[i] <= d {
      assert dumps[i] <= dumps[|dumps| - 1];
    }
  }

  lemma {:induction false} GreedyNone(next: Target, prompt: seq<Token>)
    requires prompt != []
    ensures Greedy(next, prompt, 0) == [] && HandedOn(next, prompt, [])
  {
  }
}
