/** The coordinators under sampling. Both loops are the greedy ones unchanged; what they commit is the
    sampled run, so its law is the target's own.

    A chunk's reply is matched with the run over that chunk, slot by slot; the pipelined invariant then
    says which draws the stale chunks ahead will spend and what the drafter has been asked. */
module SampledPipe {
  import opened Decode
  import opened Pipeline
  import opened SpecSample
  import opened SampledRun
  import opened SampledRing
  import opened StopRule
  import opened Counting
  import opened PipeConfig
  import SpecPipe
  import TargetModel
  import ServeRing
  import Ring

  /** The first token comes from the prefill; the rest is the run on top of it. */
  ghost function FullRun(L: Law, prompt: seq<Token>, us: nat -> real, at: nat, n: nat): (r: seq<Token>)
    requires Lawful(L) && UnitDraws(us)
    ensures |r| == n
  {
    if n == 0 then []
    else
      var y := Drawn(L.dist(prompt), us(at));
      var t := prompt + [y];
      [y] + Run(L, [t], t, L.drafter([t]), us, at + 1, n - 1)
  }

  function FullStartsWith(L: Law, prompt: seq<Token>, x: seq<Token>): Event {
    if x == [] then Always
    else
      var t := prompt + [x[0]];
      Drawing(L.dist(prompt), x[0], StartsWith(L, [t], t, L.drafter([t]), x[1..]))
  }

  /** A whole generation starts with `x` on exactly the draws of an event whose probability is the
      product of the target's conditional probabilities of `x`. */
  lemma {:induction false} GenerationIsExact(L: Law, prompt: seq<Token>, us: nat -> real, at: nat, x: seq<Token>)
    requires Lawful(L) && UnitDraws(us)
    ensures FullRun(L, prompt, us, at, |x|) == x <==> Holds(FullStartsWith(L, prompt, x), us, at)
    ensures IsEvent(FullStartsWith(L, prompt, x)) && Prob(FullStartsWith(L, prompt, x)) == Likelihood(L, prompt, x)
  {
    hide IsDist, Drawn, Drawing, StartsWith, Run;
    if x != [] {
      var p, t, y := L.dist(prompt), prompt + [x[0]], Drawn(L.dist(prompt), us(at));
      assert IsDist(p);
      var rest := StartsWith(L, [t], t, L.drafter([t]), x[1..]);
      DrawingExact(p, x[0], rest, us, at);
      RunExact(L, [t], t, L.drafter([t]), us, at + 1, x[1..]);
      SamplingIsExact(L, [t], t, L.drafter([t]), x[1..]);
      DrawingProb(p, x[0], rest);
      LikelihoodStep(L, prompt, x);
      var ty := prompt + [y];
      HeadTail(y, Run(L, [ty], ty, L.drafter([ty]), us, at + 1, |x| - 1), x);
    }
  }

  // ----- one chunk -----

  /** The first m drafts are accepted by their draws. */
  ghost predicate Accepts(L: Law, text: seq<Token>, ds: seq<Token>, us: nat -> real, at: nat, m: nat)
    requires Lawful(L) && InVocab(L, ds) && m <= |ds|
  {
    forall j :: 0 <= j < m ==> us(at + j) < Mass(L.dist(text + ds[..j]), ds[j])
  }

  lemma {:induction false} AcceptsRest(L: Law, text: seq<Token>, ds: seq<Token>, us: nat -> real, at: nat, m: nat)
    requires Lawful(L) && InVocab(L, ds) && 0 < m <= |ds| && Accepts(L, text, ds, us, at, m)
    ensures us(at) < Mass(L.dist(text), ds[0])
    ensures InVocab(L, ds[1..]) && Accepts(L, text + [ds[0]], ds[1..], us, at + 1, m - 1)
  {
    hide Lawful, Mass;
    var t, rest := text + [ds[0]], ds[1..];
    assert text + ds[..0] == text;
    assert us(at + 0) < Mass(L.dist(text + ds[..0]), ds[0]);
    forall j | 0 <= j < m - 1 ensures us(at + 1 + j) < Mass(L.dist(t + rest[..j]), rest[j]) {
      assert us(at + (j + 1)) < Mass(L.dist(text + ds[..j + 1]), ds[j + 1]);
      OneTaken(text, ds, j + 1);
    }
  }

  lemma {:induction false} AcceptRun(L: Law, h: History, text: seq<Token>, ds: seq<Token>, us: nat -> real, at: nat,
                                     m: nat, n: nat)
    requires Lawful(L) && UnitDraws(us) && InVocab(L, ds) && m <= |ds| && Accepts(L, text, ds, us, at, m)
    ensures InVocab(L, ds[m..])
    ensures Run(L, h, text, ds, us, at, m + n) == ds[..m] + Run(L, h, text + ds[..m], ds[m..], us, at + m, n)
    ensures Spent(L, text, ds, us, at) == Spent(L, text + ds[..m], ds[m..], us, at + m)
    decreases m
  {
    hide Lawful, Run, Spent, Mass, Accepts, UnitDraws;
    if m == 0 {
      assert text + ds[..0] == text && ds[0..] == ds;
    } else {
      var t, rest := text + [ds[0]], ds[1..];
      AcceptsRest(L, text, ds, us, at, m);
      RunAccept(L, h, text, ds, us, at, m - 1 + n);
      AcceptRun(L, h, t, rest, us, at + 1, m - 1, n);
      OneTaken(text, ds, m);
      var more := Run(L, h, t + rest[..m - 1], rest[m - 1..], us, at + m, n);
      assert [ds[0]] + (rest[..m - 1] + more) == ([ds[0]] + rest[..m - 1]) + more;
    }
  }

  lemma {:induction false} OneTaken(text: seq<Token>, ds: seq<Token>, m: nat)
    requires 1 <= m <= |ds|
    ensures var t, rest := text + [ds[0]], ds[1..];
            text + ds[..m] == t + rest[..m - 1] && ds[m..] == rest[m - 1..] && ds[..m] == [ds[0]] + rest[..m - 1]
  {
  }

  lemma {:induction false} RunAccept(L: Law, h: History, text: seq<Token>, ds: seq<Token>, us: nat -> real, at: nat,
                                     n: nat)
    requires Lawful(L) && UnitDraws(us) && InVocab(L, ds) && ds != [] && us(at) < Mass(L.dist(text), ds[0])
    ensures InVocab(L, ds[1..])
    ensures Run(L, h, text, ds, us, at, n + 1) == [ds[0]] + Run(L, h, text + [ds[0]], ds[1..], us, at + 1, n)
    ensures Spent(L, text, ds, us, at) == Spent(L, text + [ds[0]], ds[1..], us, at + 1)
  {
  }

  lemma {:induction false} DrawnIs(p: seq<real>, u: real, y: Token)
    requires IsDist(p) && 0.0 <= u < 1.0 && Draws(p, u, y)
    ensures Drawn(p, u) == y
  {
    DrawsUnique(p, u, y, Drawn(p, u));
  }

  /** A doctored reply to a chunk is what the run does over it: up to a rejection the agreed drafts
      and the correction, then the chunks behind it spend their draws. */
  lemma {:induction false} ChunkRejected(L: Law, h: History, text: seq<Token>, ds: seq<Token>, us: nat -> real, at: nat,
                                         r: seq<Token>, end: nat, n: nat)
    requires Lawful(L) && UnitDraws(us) && InVocab(L, ds) && Doctored(ChunkDists(L, text, ds), ds, us, at, r, end)
    requires Agreed(ds, r) < |ds|
    ensures end == Spent(L, text, ds, us, at)
    ensures var ys := ds[..Agreed(ds, r)] + [r[Agreed(ds, r)]];
            var h' := Anew(L, h, text + ds, text + ys);
            Run(L, h, text, ds, us, at, |ys| + n)
            == ys + Run(L, h', text + ys, L.drafter(h'), us, SpentAll(L, Behind(L, h, text + ds), us, end), n)
  {
    hide IsDist, Draws, Drawn, Residual, AcceptPoint, Lawful, Behind, Sum, Run, Spent, SpentAll, Agreed, Anew;
    var ps, m := ChunkDists(L, text, ds), Agreed(ds, r);
    EqualityLoopRecovers(ps, ds, us, at, r, end);
    AcceptRun(L, h, text, ds, us, at, m, n + 1);
    assert ps[m] == L.dist(text + ds[..m]);
    VocabOf(L, text + ds[..m]);
    RejectedSlot(L, h, text, ds, us, at, m, r[m], n);
    var t := text + (ds[..m] + [r[m]]);
    var h' := Anew(L, h, text + ds, t);
    DraftInVocab(L, h');
    var more := Run(L, h', t, L.drafter(h'), us, SpentAll(L, Behind(L, h, text + ds), us, end), n);
    assert ds[..m] + ([r[m]] + more) == ds[..m] + [r[m]] + more;
  }

  lemma {:induction false} VocabOf(L: Law, text: seq<Token>)
    requires Lawful(L)
    ensures |L.dist(text)| == L.vocab && IsDist(L.dist(text))
  {
  }

  lemma {:induction false} RejectedSlot(L: Law, h: History, text: seq<Token>, ds: seq<Token>, us: nat -> real, at: nat,
                                        m: nat, y: Token, n: nat)
    requires Lawful(L) && UnitDraws(us) && InVocab(L, ds) && m < |ds| && InVocab(L, ds[m..])
    requires us(at + m) >= Mass(L.dist(text + ds[..m]), ds[m])
    requires 0 <= ds[m] < L.vocab && |L.dist(text + ds[..m])| == L.vocab
    requires Sum(L.dist(text + ds[..m])[ds[m] := 0.0]) > 0.0
    requires Draws(Residual(L.dist(text + ds[..m]), ds[m]), us(at + m + 1), y)
    ensures Spent(L, text + ds[..m], ds[m..], us, at + m) == at + m + 2
    ensures var t := text + (ds[..m] + [y]);
            var h' := Anew(L, h, text + ds, t);
            Run(L, h, text + ds[..m], ds[m..], us, at + m, n + 1)
            == [y] + Run(L, h', t, L.drafter(h'), us, SpentAll(L, Behind(L, h, text + ds), us, at + m + 2), n)
  {
    hide IsDist, Draws, Residual, Sum, Behind, Drawn, Anew;
    var c, rest := text + ds[..m], ds[m..];
    var p := L.dist(c);
    assert IsDist(p);
    ResidualIsDist(p, rest[0], us(at + m));
    DrawnIs(Residual(p, rest[0]), us(at + m + 1), y);
    assert c + rest == text + ds;
    assert c + [y] == text + (ds[..m] + [y]);
  }

  lemma {:induction false} ChunkAccepted(L: Law, h: History, text: seq<Token>, ds: seq<Token>, us: nat -> real, at: nat,
                                         r: seq<Token>, end: nat, n: nat)
    requires Lawful(L) && UnitDraws(us) && InVocab(L, ds) && Doctored(ChunkDists(L, text, ds), ds, us, at, r, end)
    requires Agreed(ds, r) == |ds|
    ensures end == Spent(L, text, ds, us, at)
    ensures L.depth > 0 ==>
              var h' := h + [text + ds];
              Run(L, h, text, ds, us, at, |ds| + n) == ds + Run(L, h', text + ds, L.drafter(h'), us, end, n)
    ensures L.depth == 0 ==>
              var ys := ds + [r[|ds|]];
              var h' := h + [text + ys];
              Run(L, h, text, ds, us, at, |ys| + n) == ys + Run(L, h', text + ys, L.drafter(h'), us, end, n)
  {
    hide IsDist, Draws, Drawn, Residual, AcceptPoint, Sum, Run, Spent, Lawful;
    var ps, K := ChunkDists(L, text, ds), |ds|;
    EqualityLoopRecovers(ps, ds, us, at, r, end);
    assert ds[..K] == ds && ds[K..] == [];
    AcceptRun(L, h, text, ds, us, at, K, n);
    AcceptRun(L, h, text, ds, us, at, K, n + 1);
    assert ps[K] == L.dist(text + ds);
    EndSlot(L, h, text + ds, us, at + K, r[K], n);
    assert text + ds + [r[K]] == text + (ds + [r[K]]);
  }

  lemma {:induction false} EndSlot(L: Law, h: History, text: seq<Token>, us: nat -> real, at: nat, y: Token, n: nat)
    requires Lawful(L) && UnitDraws(us) && Draws(L.dist(text), us(at), y)
    ensures Spent(L, text, [], us, at) == at + 1
    ensures L.depth > 0 ==>
              var h' := h + [text];
              Run(L, h, text, [], us, at, n) == Run(L, h', text, L.drafter(h'), us, at + 1, n)
    ensures L.depth == 0 ==>
              var t := text + [y];
              Run(L, h, text, [], us, at, n + 1) == [y] + Run(L, h + [t], t, L.drafter(h + [t]), us, at + 1, n)
  {
    hide Draws, IsDist, Drawn;
    VocabOf(L, text);
    DrawnIs(L.dist(text), us(at), y);
  }

  // ----- the coordinators -----

  /** What has been committed continues as the run does. */
  ghost predicate Continues(L: Law, h: History, prompt: seq<Token>, us: nat -> real, at0: nat, out: seq<Token>,
                            ds: seq<Token>, at: nat) {
    && Lawful(L) && UnitDraws(us) && InVocab(L, ds)
    && forall n: nat {:trigger Run(L, h, prompt + out, ds, us, at, n)} ::
         FullRun(L, prompt, us, at0, |out| + n) == out + Run(L, h, prompt + out, ds, us, at, n)
  }

  lemma {:induction false} ContinuesNow(L: Law, h: History, prompt: seq<Token>, us: nat -> real, at0: nat,
                                        out: seq<Token>, ds: seq<Token>, at: nat)
    requires Continues(L, h, prompt, us, at0, out, ds, at)
    ensures FullRun(L, prompt, us, at0, |out|) == out
  {
    assert Run(L, h, prompt + out, ds, us, at, 0) == [];
    assert out + [] == out;
  }

  lemma {:induction false} ContinuesStart(L: Law, prompt: seq<Token>, us: nat -> real, at: nat, y: Token)
    requires Lawful(L) && UnitDraws(us) && Draws(L.dist(prompt), us(at), y)
    ensures var t := prompt + [y]; Continues(L, [t], prompt, us, at, [y], L.drafter([t]), at + 1)
  {
    hide Draws, IsDist, Drawn;
    assert IsDist(L.dist(prompt));
    DrawnIs(L.dist(prompt), us(at), y);
    assert InVocab(L, L.drafter([prompt + [y]]));
  }

  lemma {:induction false} ContinuesBy(L: Law, h: History, prompt: seq<Token>, us: nat -> real, at0: nat,
                                       out: seq<Token>, ds: seq<Token>, at: nat, ys: seq<Token>, n: nat,
                                       more: seq<Token>)
    requires Continues(L, h, prompt, us, at0, out, ds, at)
    requires Run(L, h, prompt + out, ds, us, at, |ys| + n) == ys + more
    ensures FullRun(L, prompt, us, at0, |out + ys| + n) == out + ys + more
  {
    hide Run, FullRun;
    assert |out + ys| + n == |out| + (|ys| + n);
    assert out + (ys + more) == out + ys + more;
  }

  lemma {:induction false} ContinuesRejected(L: Law, h: History, prompt: seq<Token>, us: nat -> real, at0: nat,
                                             out: seq<Token>, ds: seq<Token>, at: nat, r: seq<Token>, end: nat)
    requires Continues(L, h, prompt, us, at0, out, ds, at)
    requires Doctored(ChunkDists(L, prompt + out, ds), ds, us, at, r, end) && Agreed(ds, r) < |ds|
    ensures end == Spent(L, prompt + out, ds, us, at)
    ensures var out' := out + (ds[..Agreed(ds, r)] + [r[Agreed(ds, r)]]);
            var h' := Anew(L, h, prompt + out + ds, prompt + out');
            Continues(L, h', prompt, us, at0, out', L.drafter(h'),
                      SpentAll(L, Behind(L, h, prompt + out + ds), us, end))
  {
    hide Doctored, Behind, SpentAll, IsDist, Run, FullRun, Agreed, Spent, Anew;
    DoctoredLength(L, prompt + out, ds, us, at, r, end);
    var text, ys := prompt + out, ds[..Agreed(ds, r)] + [r[Agreed(ds, r)]];
    var out' := out + ys;
    assert prompt + out' == text + ys;
    var h' := Anew(L, h, text + ds, text + ys);
    assert InVocab(L, L.drafter(h'));
    var at' := SpentAll(L, Behind(L, h, text + ds), us, end);
    forall n: nat {:trigger Run(L, h', prompt + out', L.drafter(h'), us, at', n)}
      ensures FullRun(L, prompt, us, at0, |out'| + n) == out' + Run(L, h', prompt + out', L.drafter(h'), us, at', n)
    {
      ChunkRejected(L, h, text, ds, us, at, r, end, n);
      ContinuesBy(L, h, prompt, us, at0, out, ds, at, ys, n, Run(L, h', text + ys, L.drafter(h'), us, at', n));
    }
    ChunkRejected(L, h, text, ds, us, at, r, end, 0);
  }

  lemma {:induction false} ContinuesAccepted(L: Law, h: History, prompt: seq<Token>, us: nat -> real, at0: nat,
                                             out: seq<Token>, ds: seq<Token>, at: nat, r: seq<Token>, end: nat)
    requires Continues(L, h, prompt, us, at0, out, ds, at)
    requires Doctored(ChunkDists(L, prompt + out, ds), ds, us, at, r, end) && Agreed(ds, r) == |ds|
    ensures end == Spent(L, prompt + out, ds, us, at)
    ensures var out' := if L.depth > 0 then out + ds else out + (ds + [r[|ds|]]);
            var h' := h + [prompt + out'];
            Continues(L, h', prompt, us, at0, out', L.drafter(h'), end)
  {
    hide Doctored, IsDist, Run, FullRun, Agreed, Spent;
    DoctoredLength(L, prompt + out, ds, us, at, r, end);
    var text, ys := prompt + out, if L.depth > 0 then ds else ds + [r[|ds|]];
    var out' := out + ys;
    assert prompt + out' == text + ys;
    var h' := h + [text + ys];
    assert InVocab(L, L.drafter(h'));
    forall n: nat {:trigger Run(L, h', prompt + out', L.drafter(h'), us, end, n)}
      ensures FullRun(L, prompt, us, at0, |out'| + n) == out' + Run(L, h', prompt + out', L.drafter(h'), us, end, n)
    {
      ChunkAccepted(L, h, text, ds, us, at, r, end, n);
      ContinuesBy(L, h, prompt, us, at0, out, ds, at, ys, n, Run(L, h', text + ys, L.drafter(h'), us, end, n));
    }
    ChunkAccepted(L, h, text, ds, us, at, r, end, 0);
  }

  /** Room for a run's longest text: its drafts are never longer than some K. */
  ghost predicate RoomFor(L: Law, maxlen: nat, prompt: nat, budget: nat) {
    exists K: nat :: Short(L, K) && prompt + Max(1, budget - 1) + Times(Max(1, L.depth), K) <= maxlen
  }

  ghost predicate Short(L: Law, K: nat) {
    forall h :: |L.drafter(h)| <= K
  }

  /** What a chunk sends and reads back, and what its reply then means. */
  method Exchange(link: SpecPipe.FastLink, L: Law, s: Sampler, lm: TargetModel.Row -> Logits, ghost held: seq<Token>,
                  text: seq<Token>, ds: seq<Token>)
    returns (alive: bool, r: seq<Token>)
    requires link.Valid() && Judges(L, s, link.net.model, lm) && InVocab(L, ds)
    requires Carries(link.net, link.ring, [], held) && text != [] && Before(text) <= held
    modifies link, s
    ensures link.Valid() && (old(link.fate).Never? ==> link.fate.Never?)
    ensures alive ==> Carries(link.net, link.ring, [], text + ds)
    ensures alive ==> Doctored(ChunkDists(L, text, ds), ds, s.draws, old(s.used), r, s.used)
    ensures old(link.fate).Never? && |text| + |ds| <= link.net.maxlen ==> alive
  {
    hide Doctored, Carries, Judges, RowsOf;
    r := [];
    ghost var was := link.ring;
    if |text| + |ds| <= link.net.maxlen {
      CarriesSend(link.net, was, [], held, text, ds);
    }
    alive := link.SendChunk(|text| - 1, [text[|text| - 1]] + ds, false);
    if !alive { return; }
    assert [] + [Job(text, ds)] == [Job(text, ds)] && [Job(text, ds)][1..] == [];
    var reply;
    alive, reply := ReadReply(link, [Job(text, ds)], text + ds);
    if !alive { return; }
    r := Verify(L, s, link.net.model, lm, Job(text, ds), reply);
  }

  /** The next reply is the rows of the oldest chunk in flight. */
  method ReadReply(link: SpecPipe.FastLink, ghost inflight: seq<Job>, ghost held: seq<Token>)
    returns (alive: bool, reply: ServeRing.Msg)
    requires link.Valid() && Carries(link.net, link.ring, inflight, held) && inflight != []
    modifies link
    ensures link.Valid() && (old(link.fate).Never? ==> link.fate.Never? && alive)
    ensures alive ==> Carries(link.net, link.ring, inflight[1..], held)
    ensures alive ==> inflight[0].text != [] && reply == RowsOf(link.net.model, inflight[0])
  {
    hide RowsOf, ServeRing.Faithful, ServeRing.WillHold, ServeRing.Coming;
    ghost var was := link.ring;
    assert |ServeRing.Coming(link.net, was)| == |inflight|;
    alive, reply := link.RecvReply();
    if alive {
      CarriesRead(link.net, was, link.ring, inflight, held);
    }
  }

  /** The synchronous commit rule: one chunk at a time, a bonus token when all of it is accepted. How many
      drafts a chunk has may depend on how earlier ones fared, which the drafter's history tells. */
  method DecodeSync(link: SpecPipe.FastLink, L: Law, s: Sampler, lm: TargetModel.Row -> Logits, prompt: seq<Token>,
                    cfg: Config, maxNew: nat, eos: Token)
    returns (alive: bool, out: seq<Token>, ghost before: nat)
    requires link.Valid() && ServeRing.Ready(link.net, link.ring) && prompt != []
    requires Judges(L, s, link.net.model, lm) && L.depth == 0
    modifies link, s
    ensures var at0 := old(s.used) + SpecPipe.PrefillReplies(|prompt|, cfg) - 1;
            out == FullRun(L, prompt, s.draws, at0, |out|)
    ensures alive ==> maxNew <= |out| || eos in out
    ensures |out| > 1 ==> 1 <= before < |out| && before < maxNew && eos !in out[..before] &&
                          forall K: nat :: Short(L, K) ==> |out| - before <= K + 1
    ensures old(link.fate).Never? && RoomFor(L, link.net.maxlen, |prompt|, maxNew) ==> alive
  {
    hide Run, FullRun, Doctored, IsDist, Draws, Continues, Judges, SpentAll, Behind, Carries, RoomFor, Short;
    before := 0;
    ghost var at0 := s.used + SpecPipe.PrefillReplies(|prompt|, cfg) - 1;
    JudgesFacts(L, s, link.net.model, lm);
    RoomToStart(L, link.net.maxlen, |prompt|, maxNew);
    FullRunNone(L, prompt, s.draws, at0);
    out := [];
    var cur;
    alive, cur := Begin(link, L, s, lm, prompt, cfg);
    if !alive { return; }
    ContinuesStart(L, prompt, s.draws, at0, cur);
    out := [cur];
    var text := prompt + out;
    var asked: History := [text];
    ghost var held := prompt;
    while |out| < maxNew && eos !in out
      invariant link.Valid() && (old(link.fate).Never? ==> link.fate.Never?)
      invariant out != [] && text == prompt + out
      invariant |out| > 1 ==> 1 <= before < |out| && before < maxNew && eos !in out[..before] &&
                              forall K: nat :: Short(L, K) ==> |out| - before <= K + 1
      invariant Carries(link.net, link.ring, [], held) && Before(text) <= held
      invariant Continues(L, asked, prompt, s.draws, at0, out, L.drafter(asked), s.used)
      decreases maxNew - |out|
    {
      var ds := L.drafter(asked);
      ghost var at := s.used;
      DraftInVocab(L, asked);
      ContinuesNow(L, asked, prompt, s.draws, at0, out, ds, s.used);
      RoomToSend(L, link.net.maxlen, |prompt|, maxNew, |text|, asked);
      var r;
      alive, r := Exchange(link, L, s, lm, held, text, ds);
      if !alive { return; }
      held := text + ds;
      SyncStep(L, asked, prompt, s.draws, at0, out, ds, at, r, s.used);
      var n := CountAgreed(ds, r);
      ShortOne(L, asked);
      before := |out|;
      assert (out + (ds[..n] + [r[n]]))[..|out|] == out;
      out := out + (ds[..n] + [r[n]]);
      text := prompt + out;
      asked := asked + [text];
    }
    ContinuesNow(L, asked, prompt, s.draws, at0, out, L.drafter(asked), s.used);
  }

  lemma {:induction false} ShortOne(L: Law, h: History)
    ensures forall K: nat :: Short(L, K) ==> |L.drafter(h)| <= K
  {
  }

  lemma {:induction false} SyncStep(L: Law, h: History, prompt: seq<Token>, us: nat -> real, at0: nat, out: seq<Token>,
                                    ds: seq<Token>, at: nat, r: seq<Token>, end: nat)
    requires Continues(L, h, prompt, us, at0, out, ds, at) && L.depth == 0
    requires Doctored(ChunkDists(L, prompt + out, ds), ds, us, at, r, end)
    ensures |r| == |ds| + 1
    ensures var n := Agreed(ds, r);
            var out' := out + (ds[..n] + [r[n]]);
            var h' := h + [prompt + out'];
            Continues(L, h', prompt, us, at0, out', L.drafter(h'), end) &&
            Before(prompt + out') == prompt + out + ds[..n]
  {
    hide Continues, Doctored, Run, FullRun, SpentAll, Behind, Agreed, Anew;
    var text := prompt + out;
    DoctoredLength(L, text, ds, us, at, r, end);
    var n := Agreed(ds, r);
    if n < |ds| {
      ContinuesRejected(L, h, prompt, us, at0, out, ds, at, r, end);
      NothingBehind(L, h, text + ds, us, end);
    } else {
      ContinuesAccepted(L, h, prompt, us, at0, out, ds, at, r, end);
      assert ds[..n] == ds;
    }
  }

  lemma {:induction false} JudgesFacts(L: Law, s: Sampler, m: TargetModel.Model, lm: TargetModel.Row -> Logits)
    requires Judges(L, s, m, lm)
    ensures Lawful(L) && UnitDraws(s.draws)
  {
  }

  lemma {:induction false} FullRunNone(L: Law, prompt: seq<Token>, us: nat -> real, at: nat)
    requires Lawful(L) && UnitDraws(us)
    ensures FullRun(L, prompt, us, at, 0) == []
  {
  }

  lemma {:induction false} RoomToStart(L: Law, maxlen: nat, prompt: nat, budget: nat)
    ensures RoomFor(L, maxlen, prompt, budget) ==> prompt <= maxlen
  {
  }

  /** A text that leaves the budget a token still has room for its chunk. */
  lemma {:induction false} RoomToSend(L: Law, maxlen: nat, prompt: nat, budget: nat, text: nat, h: History)
    requires text <= prompt + Max(1, budget - 1)
    ensures RoomFor(L, maxlen, prompt, budget) ==> text + |L.drafter(h)| <= maxlen
  {
    if RoomFor(L, maxlen, prompt, budget) {
      var K: nat :| Short(L, K) && prompt + Max(1, budget - 1) + Times(Max(1, L.depth), K) <= maxlen;
      TimesStep(Max(1, L.depth) - 1, K);
      assert |L.drafter(h)| <= K;
    }
  }

  lemma {:induction false} NothingBehind(L: Law, h: History, end: seq<Token>, us: nat -> real, at: nat)
    requires L.depth == 0
    ensures SpentAll(L, Behind(L, h, end), us, at) == at && forall t :: Anew(L, h, end, t) == h + [t]
  {
  }

  lemma {:induction false} DraftInVocab(L: Law, h: History)
    requires Lawful(L)
    ensures InVocab(L, L.drafter(h)) && (L.depth > 0 ==> L.drafter(h) != [])
  {
  }

  lemma {:induction false} DoctoredLength(L: Law, text: seq<Token>, ds: seq<Token>, us: nat -> real, at: nat,
                                          r: seq<Token>, end: nat)
    requires Doctored(ChunkDists(L, text, ds), ds, us, at, r, end)
    ensures |r| == |ds| + 1
  {
  }

  // ----- pipelined -----

  function End(L: Law, h: History, text: seq<Token>, n: nat): seq<Token>
    decreases n
  {
    if n == 0 then text else End(L, h + [text], text + L.drafter(h + [text]), n - 1)
  }

  lemma {:induction false} AheadOneMore(L: Law, h: History, text: seq<Token>, n: nat)
    ensures var end := End(L, h, text, n);
            var asked := AheadAsked(L, h, text, n) + [end];
            Ahead(L, h, text, n + 1) == Ahead(L, h, text, n) + [Job(end, L.drafter(asked))] &&
            AheadAsked(L, h, text, n + 1) == asked && End(L, h, text, n + 1) == end + L.drafter(asked)
    decreases n
  {
    if n > 0 {
      AheadOneMore(L, h + [text], text + L.drafter(h + [text]), n - 1);
    }
  }

  /** The stale chunks first, then the fresh ones, drafted one on top of another from the committed
      text, and a draft asked for beyond them; the run goes on from the draws the stale ones leave.
      `base` is what had been asked before the first fresh chunk. */
  ghost predicate PipeInv(L: Law, base: History, prompt: seq<Token>, us: nat -> real, at0: nat, out: seq<Token>,
                          inflight: seq<Job>, discard: nat, stream: seq<Token>, asked: History, used: nat) {
    && discard <= |inflight| <= L.depth
    && inflight[discard..] == Ahead(L, base, prompt + out, |inflight| - discard)
    && stream == End(L, base, prompt + out, |inflight| - discard)
    && asked == AheadAsked(L, base, prompt + out, |inflight| - discard) + [stream]
    && (forall j :: 0 <= j < |inflight| ==> InVocab(L, inflight[j].drafts))
    && var h := base + [prompt + out];
       Continues(L, h, prompt, us, at0, out, L.drafter(h), SpentAll(L, inflight[..discard], us, used))
  }

  /** Keep `depth` chunks in flight and one draft asked for beyond them; skip stale replies; commit as
      the equality loop says; after a divergence drop that draft and ask again. The tail answers in the order
      chunks arrive, so its draws are taken as their replies are read. A dead edge hands back what has
      been committed. */
  method DecodePipe(link: SpecPipe.FastLink, L: Law, s: Sampler, lm: TargetModel.Row -> Logits, prompt: seq<Token>,
                    cfg: Config, maxNew: nat, eos: Token)
    returns (alive: bool, res: seq<Token>, ghost committed: seq<Token>, ghost before: nat)
    requires link.Valid() && ServeRing.Ready(link.net, link.ring) && prompt != []
    requires Judges(L, s, link.net.model, lm) && L.depth >= 1
    modifies link, s
    ensures var at0 := old(s.used) + SpecPipe.PrefillReplies(|prompt|, cfg) - 1;
            committed == FullRun(L, prompt, s.draws, at0, |committed|)
    ensures res == if alive then UpToEos(committed, {eos}) else committed
    ensures alive ==> Stopped(L, cfg.ignoreEos, eos, Budget(cfg, maxNew, |prompt|, 0), committed, before)
    ensures alive ==> Ring.Idle(link.ring)
    ensures alive && Whole(cfg, maxNew, |prompt|, 0) ==> Stopped(L, cfg.ignoreEos, eos, maxNew, committed, before)
    ensures old(link.fate).Never? && RoomFor(L, link.net.maxlen, |prompt|, Budget(cfg, maxNew, |prompt|, 0)) ==> alive
  {
    hide Run, FullRun, Doctored, IsDist, Draws, Continues, Judges, PipeInv, SpentAll, Ahead, End, Carries, RoomFor;
    hide UpToEos, RowsOf, Budget, Whole, Short, Stopped;
    WholeBudget(cfg, maxNew, |prompt|, 0);
    before := 0;
    ghost var at0 := s.used + SpecPipe.PrefillReplies(|prompt|, cfg) - 1;
    var budget := Budget(cfg, maxNew, |prompt|, 0);
    JudgesFacts(L, s, link.net.model, lm);
    RoomToStart(L, link.net.maxlen, |prompt|, budget);
    FullRunNone(L, prompt, s.draws, at0);
    res, committed := [], [];
    var cur;
    alive, cur := Begin(link, L, s, lm, prompt, cfg);
    if !alive { return; }
    ContinuesStart(L, prompt, s.draws, at0, cur);
    var out := [cur];
    var stream, inflight: seq<Job>, discard: nat, done := prompt + out, [], 0, false;
    var asked: History := [stream];
    ghost var base: History := [];
    ghost var held := prompt;
    PipeStart(L, prompt, s.draws, at0, out, s.used);
    while !done
      invariant link.Valid() && (old(link.fate).Never? ==> link.fate.Never?)
      invariant PipeInv(L, base, prompt, s.draws, at0, out, inflight, discard, stream, asked, s.used)
      invariant Carries(link.net, link.ring, inflight, held) && stream != [] && Before(stream) <= held
      invariant if done then Stopped(L, cfg.ignoreEos, eos, budget, out, before)
                else GoingOn(cfg.ignoreEos, eos, budget, out)
      decreases !done, Max(0, budget - |out|), discard
    {
      PipeNow(L, base, prompt, s.draws, at0, out, inflight, discard, stream, asked, s.used);
      res, committed := out, out;
      alive, inflight, stream, asked, held :=
        FillRing(link, L, base, prompt, s.draws, at0, out, inflight, discard, stream, asked, s.used, held, budget);
      if !alive { return; }
      var reply;
      ghost var sent := inflight;
      alive, reply := ReadReply(link, inflight, held);
      if !alive { return; }
      base, out, inflight, discard, stream, asked, done :=
        ReadOne(L, s, lm, link.net.model, reply, base, prompt, at0, out, inflight, discard, stream, asked, held, budget,
                cfg.ignoreEos, eos);
      assert inflight == sent[1..];
      before := |res|;
      if |out| > |res| {
        ReplyStops(L, cfg.ignoreEos, eos, budget, res, out, done);
      }
    }
    PipeNow(L, base, prompt, s.draws, at0, out, inflight, discard, stream, asked, s.used);
    res, committed := out, out;
    CarriesCount(link.net, link.ring, inflight, held);
    alive := Drain(link, |inflight|);
    if alive {
      res := UpToEos(out, {eos});
    }
  }

  /** A run that has not stopped: short of its budget, and nothing after the first token ends the text. */
  predicate GoingOn(ignoreEos: bool, eos: Token, budget: nat, out: seq<Token>) {
    1 <= |out| <= Max(1, budget - 1) && (ignoreEos || eos !in out[1..])
  }

  /** A run stopped by its last reply, which committed at most a chunk: not before, and with reason. */
  ghost predicate Stopped(L: Law, ignoreEos: bool, eos: Token, budget: nat, out: seq<Token>, before: nat) {
    && 1 <= before < |out| && GoingOn(ignoreEos, eos, budget, out[..before])
    && (budget <= |out| || (!ignoreEos && eos in out[before..]))
    && forall K: nat :: Short(L, K) ==> |out| - before <= Max(1, K)
  }

  lemma {:induction false} ReplyStops(L: Law, ignoreEos: bool, eos: Token, budget: nat, out0: seq<Token>,
                                      out: seq<Token>, done: bool)
    requires GoingOn(ignoreEos, eos, budget, out0) && out0 <= out && |out0| < |out|
    requires done <==> budget <= |out| || (!ignoreEos && eos in out[|out0|..])
    requires forall K: nat :: Short(L, K) ==> |out| - |out0| <= K
    ensures if done then Stopped(L, ignoreEos, eos, budget, out, |out0|) else GoingOn(ignoreEos, eos, budget, out)
  {
    hide Short;
    assert out == out0 + out[|out0|..] && out[..|out0|] == out0;
    assert out[1..] == out0[1..] + out[|out0|..];
  }

  lemma {:induction false} CarriesCount(n: ServeRing.Net, r: ServeRing.RingState, inflight: seq<Job>, held: seq<Token>)
    requires Carries(n, r, inflight, held)
    ensures ServeRing.ShapedFor(n, r) && |ServeRing.Coming(n, r)| == |inflight|
  {
  }

  /** Top up to `depth` chunks in flight. */
  method FillRing(link: SpecPipe.FastLink, L: Law, ghost base: History, ghost prompt: seq<Token>, ghost us: nat -> real,
                  ghost at0: nat, ghost out: seq<Token>, inflight0: seq<Job>, ghost discard: nat, stream0: seq<Token>,
                  asked0: History, ghost used: nat, ghost held0: seq<Token>, ghost budget: nat)
    returns (alive: bool, inflight: seq<Job>, stream: seq<Token>, asked: History, ghost held: seq<Token>)
    requires link.Valid() && Lawful(L) && |out| <= Max(1, budget - 1)
    requires PipeInv(L, base, prompt, us, at0, out, inflight0, discard, stream0, asked0, used)
    requires Carries(link.net, link.ring, inflight0, held0) && stream0 != [] && Before(stream0) <= held0
    modifies link
    ensures link.Valid() && (old(link.fate).Never? ==> link.fate.Never?)
    ensures PipeInv(L, base, prompt, us, at0, out, inflight, discard, stream, asked, used)
    ensures alive ==> Carries(link.net, link.ring, inflight, held) && stream != [] && Before(stream) <= held &&
                      |inflight| == L.depth
    ensures old(link.fate).Never? && RoomFor(L, link.net.maxlen, |prompt|, budget) ==> alive
  {
    hide PipeInv, Carries, Lawful, RoomFor, ServeRing.Faithful;
    inflight, stream, asked, held, alive := inflight0, stream0, asked0, held0, true;
    PipeBounds(L, base, prompt, us, at0, out, inflight, discard, stream, asked, used);
    while |inflight| < L.depth
      invariant link.Valid() && (old(link.fate).Never? ==> link.fate.Never?) && alive
      invariant PipeInv(L, base, prompt, us, at0, out, inflight, discard, stream, asked, used) && |inflight| <= L.depth
      invariant Carries(link.net, link.ring, inflight, held) && stream != [] && Before(stream) <= held
    {
      RoomToFill(L, base, prompt, us, at0, out, inflight, discard, stream, asked, used, link.net.maxlen, budget);
      PipeFill(L, base, prompt, us, at0, out, inflight, discard, stream, asked, used);
      var ds := L.drafter(asked);
      if |stream| + |ds| <= link.net.maxlen {
        CarriesSend(link.net, link.ring, inflight, held, stream, ds);
      }
      alive := link.SendChunk(|stream| - 1, [stream[|stream| - 1]] + ds, false);
      if !alive { return; }
      inflight := inflight + [Job(stream, ds)];
      stream := stream + ds;
      asked := asked + [stream];
      held := stream;
    }
  }

  lemma {:induction false} RoomToFill(L: Law, base: History, prompt: seq<Token>, us: nat -> real, at0: nat,
                                      out: seq<Token>, inflight: seq<Job>, discard: nat, stream: seq<Token>,
                                      asked: History, used: nat, maxlen: nat, budget: nat)
    requires PipeInv(L, base, prompt, us, at0, out, inflight, discard, stream, asked, used) && |inflight| < L.depth
    requires |out| <= Max(1, budget - 1)
    ensures RoomFor(L, maxlen, |prompt|, budget) ==> |stream| + |L.drafter(asked)| <= maxlen
  {
    hide Continues, Ahead, AheadAsked;
    if RoomFor(L, maxlen, |prompt|, budget) {
      var K: nat :| Short(L, K) && |prompt| + Max(1, budget - 1) + Times(Max(1, L.depth), K) <= maxlen;
      var n := |inflight| - discard;
      EndLength(L, base, prompt + out, n, K);
      TimesStep(n, K);
      TimesAdds(n + 1, L.depth - n - 1, K);
      assert |L.drafter(asked)| <= K;
    }
  }

  lemma {:induction false} EndLength(L: Law, h: History, text: seq<Token>, n: nat, K: nat)
    requires Short(L, K)
    ensures |End(L, h, text, n)| <= |text| + Times(n, K)
    decreases n
  {
    if n > 0 {
      assert |L.drafter(h + [text])| <= K;
      EndLength(L, h + [text], text + L.drafter(h + [text]), n - 1, K);
    }
  }

  lemma {:induction false} EndExtends(L: Law, h: History, text: seq<Token>, n: nat)
    ensures text <= End(L, h, text, n)
    decreases n
  {
    if n > 0 {
      EndExtends(L, h + [text], text + L.drafter(h + [text]), n - 1);
    }
  }

  /** A corrected text before its last token is what every buffer will already hold. */
  lemma {:induction false} HeldBack(L: Law, base: History, prompt: seq<Token>, us: nat -> real, at0: nat,
                                    out: seq<Token>, inflight: seq<Job>, stream: seq<Token>, asked: History, used: nat,
                                    held: seq<Token>, n: nat, y: Token)
    requires PipeInv(L, base, prompt, us, at0, out, inflight, 0, stream, asked, used) && inflight != []
    requires stream != [] && Before(stream) <= held && n < |inflight[0].drafts|
    ensures var text := prompt + (out + (inflight[0].drafts[..n] + [y])); Before(text) <= held
  {
    hide Continues, AheadAsked;
    var ds := inflight[0].drafts;
    assert inflight[0..] == inflight;
    EndExtends(L, base + [prompt + out], prompt + out + ds, |inflight| - 1);
    assert Before(prompt + (out + (ds[..n] + [y]))) == (prompt + out + ds)[..|prompt + out| + n];
  }

  lemma {:induction false} PipeStart(L: Law, prompt: seq<Token>, us: nat -> real, at0: nat, out: seq<Token>, used: nat)
    requires Continues(L, [prompt + out], prompt, us, at0, out, L.drafter([prompt + out]), used)
    ensures PipeInv(L, [], prompt, us, at0, out, [], 0, prompt + out, [prompt + out], used)
  {
    assert [] + [prompt + out] == [prompt + out];
  }

  lemma {:induction false} PipeBounds(L: Law, base: History, prompt: seq<Token>, us: nat -> real, at0: nat,
                                      out: seq<Token>, inflight: seq<Job>, discard: nat, stream: seq<Token>,
                                      asked: History, used: nat)
    requires PipeInv(L, base, prompt, us, at0, out, inflight, discard, stream, asked, used)
    ensures discard <= |inflight| <= L.depth
  {
  }

  lemma {:induction false} PipeNow(L: Law, base: History, prompt: seq<Token>, us: nat -> real, at0: nat,
                                   out: seq<Token>, inflight: seq<Job>, discard: nat, stream: seq<Token>,
                                   asked: History, used: nat)
    requires PipeInv(L, base, prompt, us, at0, out, inflight, discard, stream, asked, used)
    ensures Lawful(L) && UnitDraws(us) && FullRun(L, prompt, us, at0, |out|) == out
  {
    var h := base + [prompt + out];
    ContinuesNow(L, h, prompt, us, at0, out, L.drafter(h), SpentAll(L, inflight[..discard], us, used));
  }

  lemma {:induction false} PipeFill(L: Law, base: History, prompt: seq<Token>, us: nat -> real, at0: nat,
                                    out: seq<Token>, inflight: seq<Job>, discard: nat, stream: seq<Token>,
                                    asked: History, used: nat)
    requires PipeInv(L, base, prompt, us, at0, out, inflight, discard, stream, asked, used) && |inflight| < L.depth &&
             Lawful(L)
    ensures var ds := L.drafter(asked);
            PipeInv(L, base, prompt, us, at0, out, inflight + [Job(stream, ds)], discard, stream + ds,
                    asked + [stream + ds], used)
  {
    hide Continues, Ahead, End, AheadAsked;
    var ds := L.drafter(asked);
    DraftInVocab(L, asked);
    AheadOneMore(L, base, prompt + out, |inflight| - discard);
    assert (inflight + [Job(stream, ds)])[discard..] == inflight[discard..] + [Job(stream, ds)];
    assert (inflight + [Job(stream, ds)])[..discard] == inflight[..discard];
  }

  /** A stale reply: its draws are spent, nothing is committed. */
  lemma {:induction false} PipeStale(L: Law, base: History, prompt: seq<Token>, us: nat -> real, at0: nat,
                                     out: seq<Token>, inflight: seq<Job>, discard: nat, stream: seq<Token>,
                                     asked: History, used: nat)
    requires PipeInv(L, base, prompt, us, at0, out, inflight, discard, stream, asked, used) && discard > 0
    ensures PipeInv(L, base, prompt, us, at0, out, inflight[1..], discard - 1, stream, asked,
                    Spent(L, inflight[0].text, inflight[0].drafts, us, used))
  {
    hide Continues, Ahead, End, AheadAsked;
    assert inflight[1..][discard - 1..] == inflight[discard..];
    assert inflight[..discard][1..] == inflight[1..][..discard - 1];
  }

  /** A fresh chunk accepted whole. */
  lemma {:induction false} PipeAccepted(L: Law, base: History, prompt: seq<Token>, us: nat -> real, at0: nat,
                                        out: seq<Token>, inflight: seq<Job>, stream: seq<Token>, asked: History,
                                        used: nat, r: seq<Token>, end: nat)
    requires PipeInv(L, base, prompt, us, at0, out, inflight, 0, stream, asked, used) && inflight != [] && L.depth > 0
    requires var job := inflight[0];
             Doctored(ChunkDists(L, job.text, job.drafts), job.drafts, us, used, r, end) &&
             Agreed(job.drafts, r) == |job.drafts|
    ensures PipeInv(L, base + [prompt + out], prompt, us, at0, out + inflight[0].drafts, inflight[1..], 0, stream,
                    asked, end)
  {
    hide Continues, Doctored, Run, FullRun;
    var text, h := prompt + out, base + [prompt + out];
    var ds := L.drafter(h);
    assert inflight[0..] == inflight && inflight[..0] == [] && inflight[1..][..0] == [] &&
           inflight[1..][0..] == inflight[1..];
    assert inflight[0] == Job(text, ds);
    ContinuesAccepted(L, h, prompt, us, at0, out, ds, used, r, end);
    assert prompt + (out + ds) == text + ds;
    assert inflight[1..] == Ahead(L, h, text + ds, |inflight| - 1);
  }

  /** A fresh chunk that diverges: everything behind it is stale, and so is the draft asked for. */
  lemma {:induction false} PipeRejected(L: Law, base: History, prompt: seq<Token>, us: nat -> real, at0: nat,
                                        out: seq<Token>, inflight: seq<Job>, stream: seq<Token>, asked: History,
                                        used: nat, r: seq<Token>, end: nat)
    requires PipeInv(L, base, prompt, us, at0, out, inflight, 0, stream, asked, used) && |inflight| == L.depth > 0
    requires var job := inflight[0];
             Doctored(ChunkDists(L, job.text, job.drafts), job.drafts, us, used, r, end) &&
             Agreed(job.drafts, r) < |job.drafts|
    ensures var ds := inflight[0].drafts;
            var out' := out + (ds[..Agreed(ds, r)] + [r[Agreed(ds, r)]]);
            PipeInv(L, asked, prompt, us, at0, out', inflight[1..], |inflight| - 1, prompt + out',
                    asked + [prompt + out'], end)
  {
    hide Continues, Doctored, Run, FullRun, Agreed;
    var text, h := prompt + out, base + [prompt + out];
    var ds := L.drafter(h);
    assert inflight[0..] == inflight && inflight[..0] == [];
    assert inflight[0] == Job(text, ds);
    ContinuesRejected(L, h, prompt, us, at0, out, ds, used, r, end);
    AheadOneMore(L, base, text, L.depth);
    assert AheadAsked(L, h, text + ds, L.depth) == asked;
    assert inflight[1..] == Behind(L, h, text + ds);
    assert inflight[1..][..|inflight| - 1] == inflight[1..];
  }

  lemma {:induction false} PipeHead(L: Law, base: History, prompt: seq<Token>, us: nat -> real, at0: nat,
                                    out: seq<Token>, inflight: seq<Job>, discard: nat, stream: seq<Token>,
                                    asked: History, used: nat)
    requires PipeInv(L, base, prompt, us, at0, out, inflight, discard, stream, asked, used) && inflight != [] &&
             Lawful(L)
    ensures InVocab(L, inflight[0].drafts) && (discard == 0 ==> inflight[0].drafts != [])
    ensures discard == 0 ==> forall K: nat :: Short(L, K) ==> |inflight[0].drafts| <= K
  {
    hide Continues;
    if discard == 0 {
      ShortOne(L, base + [prompt + out]);
      assert inflight[0..] == inflight;
      DraftInVocab(L, base + [prompt + out]);
    }
  }

  method ReadOne(L: Law, s: Sampler, lm: TargetModel.Row -> Logits, m: TargetModel.Model, reply: ServeRing.Msg,
                 ghost base0: History, prompt: seq<Token>, ghost at0: nat, out0: seq<Token>, inflight0: seq<Job>,
                 discard0: nat, stream0: seq<Token>, asked0: History, ghost held: seq<Token>, budget: nat,
                 ignoreEos: bool, eos: Token)
    returns (ghost base: History, out: seq<Token>, inflight: seq<Job>, discard: nat, stream: seq<Token>, asked: History,
             done: bool)
    requires Judges(L, s, m, lm) && |inflight0| == L.depth > 0
    requires inflight0[0].text != [] && reply == RowsOf(m, inflight0[0])
    requires PipeInv(L, base0, prompt, s.draws, at0, out0, inflight0, discard0, stream0, asked0, s.used)
    requires stream0 != [] && Before(stream0) <= held
    modifies s
    ensures PipeInv(L, base, prompt, s.draws, at0, out, inflight, discard, stream, asked, s.used)
    ensures inflight == inflight0[1..] && stream != [] && Before(stream) <= held
    ensures out0 <= out && (discard0 > 0 ==> out == out0)
    ensures done <==> discard0 == 0 && (budget <= |out| || (!ignoreEos && eos in out[|out0|..]))
    ensures discard0 == 0 ==> |out0| < |out| && forall K: nat :: Short(L, K) ==> |out| - |out0| <= K
    ensures done || (out == out0 && discard < discard0) || |out0| < |out| < budget
  {
    hide Doctored, IsDist, Judges, Lawful, PipeInv, SpentAll, Ahead, End, Spent, RowsOf, Short;
    JudgesFacts(L, s, m, lm);
    ghost var at := s.used;
    base, out, inflight, discard, stream, asked, done := base0, out0, inflight0[1..], discard0, stream0, asked0, false;
    var job := inflight0[0];
    PipeHead(L, base0, prompt, s.draws, at0, out0, inflight0, discard0, stream0, asked0, at);
    var r := Verify(L, s, m, lm, job, reply);
    var ds := job.drafts;
    DoctoredLength(L, job.text, ds, s.draws, at, r, s.used);
    if discard > 0 {
      discard := discard - 1;
      StaleSpent(L, job.text, ds, s.draws, at, r, s.used);
      PipeStale(L, base0, prompt, s.draws, at0, out0, inflight0, discard0, stream0, asked0, at);
    } else {
      var n := CountAgreed(ds, r);
      var committed := if n == |ds| then ds else ds[..n] + [r[n]];
      if n == |ds| {
        PipeAccepted(L, base0, prompt, s.draws, at0, out0, inflight0, stream0, asked0, at, r, s.used);
        base := base0 + [prompt + out0];
        out := out + ds;
      } else {
        PipeRejected(L, base0, prompt, s.draws, at0, out0, inflight0, stream0, asked0, at, r, s.used);
        HeldBack(L, base0, prompt, s.draws, at0, out0, inflight0, stream0, asked0, at, held, n, r[n]);
        out := out + (ds[..n] + [r[n]]);
        discard, stream, base := |inflight|, prompt + out, asked0;
        asked := asked + [stream];
      }
      assert out[|out0|..] == committed;
      done := |out| >= budget || (!ignoreEos && eos in committed);
    }
  }

  /** However a chunk fares, its acceptance spends the same draws. */
  lemma {:induction false} StaleSpent(L: Law, text: seq<Token>, ds: seq<Token>, us: nat -> real, at: nat, r: seq<Token>,
                                      end: nat)
    requires Lawful(L) && UnitDraws(us) && InVocab(L, ds) && Doctored(ChunkDists(L, text, ds), ds, us, at, r, end)
    ensures end == Spent(L, text, ds, us, at)
  {
    hide Doctored;
    DoctoredLength(L, text, ds, us, at, r, end);
    if Agreed(ds, r) < |ds| {
      ChunkRejected(L, [], text, ds, us, at, r, end, 0);
    } else {
      ChunkAccepted(L, [], text, ds, us, at, r, end, 0);
    }
  }
}
