/** The ring under sampling: what its replies carry, and how the tail's sampler judges them. */
module SampledRing {
  import opened Decode
  import opened TargetModel
  import opened Ring
  import opened ServeRing
  import opened SpecSample
  import opened SampledRun
  import opened PipeConfig
  import SpecPipe

  /** The sampler's distribution for a text's own last row, read by `lm`, is the law's. */
  ghost predicate Judges(L: Law, s: Sampler, m: Model, lm: Row -> Logits) {
    Lawful(L) && s.Valid() && !s.greedy &&
    forall text {:trigger LastRow(m, text)} :: text != [] ==> s.head.dist(lm(LastRow(m, text))) == L.dist(text)
  }

  function DistOf(m: Model, head: Head, lm: Row -> Logits, text: seq<Token>): seq<real> {
    head.dist(lm(if text == [] then [] else LastRow(m, text)))
  }

  /** The law a model, its sampler's settings and a drafter make. */
  function LawOf(m: Model, head: Head, lm: Row -> Logits, drafter: History -> seq<Token>, depth: nat, vocab: nat): Law {
    Law(text => DistOf(m, head, lm, text), drafter, depth, vocab)
  }

  /** Every model, sampler and drafter within one vocabulary have a law that the sampler judges by. */
  lemma {:induction false} LawOfJudges(m: Model, s: Sampler, lm: Row -> Logits, drafter: History -> seq<Token>,
                                       depth: nat, vocab: nat)
    requires s.Valid() && !s.greedy && forall row :: |s.head.dist(row)| == vocab
    requires forall h, i :: 0 <= i < |drafter(h)| ==> 0 <= drafter(h)[i] < vocab
    requires depth > 0 ==> forall h :: drafter(h) != []
    ensures Judges(LawOf(m, s.head, lm, drafter, depth, vocab), s, m, lm)
  {
    hide IsDist, LastRow;
    var L := LawOf(m, s.head, lm, drafter, depth, vocab);
    forall text ensures L.dist(text) == DistOf(m, s.head, lm, text) {}
    forall h ensures L.drafter(h) == drafter(h) {}
  }

  function Before(stream: seq<Token>): (text: seq<Token>)
    requires stream != []
    ensures text <= stream && |text| == |stream| - 1
  {
    stream[..|stream| - 1]
  }

  /** The reply a chunk is owed: the recomputed rows after its text and after each of its drafts. */
  function RowsOf(m: Model, job: Job): (reply: Msg)
    requires job.text != []
    ensures reply.Verify? && |reply.rows| == |job.drafts| + 1
  {
    Reply(m, job.text + job.drafts, |job.text| - 1, false, false)
  }

  /** The replies still to come are those of the chunks in flight, and every buffer will hold `held`. */
  ghost predicate Carries(n: Net, r: RingState, inflight: seq<Job>, held: seq<Token>) {
    ShapedFor(n, r) && WillHold(n, r, held, false) && |Coming(n, r)| == |inflight| &&
    forall i :: 0 <= i < |inflight| ==> inflight[i].text != [] && Coming(n, r)[i] == RowsOf(n.model, inflight[i])
  }

  /** A chunk sent on top of a stream whose text before its last token is held. */
  lemma {:induction false} CarriesSend(n: Net, r: RingState, inflight: seq<Job>, held: seq<Token>, stream: seq<Token>,
                                       ds: seq<Token>)
    requires Faithful(n) && Carries(n, r, inflight, held) && stream != [] && Before(stream) <= held
    requires |stream| + |ds| <= n.maxlen
    ensures var r' := Send(r, ChunkMsg(n.model, |stream| - 1, [stream[|stream| - 1]] + ds, false));
            Carries(n, r', inflight + [Job(stream, ds)], stream + ds)
  {
    hide Faithful, WillHold, Coming, RowsFrom, LastRow;
    var text, start := stream + ds, |stream| - 1;
    assert text[start..] == [stream[start]] + ds && text[..start] == Before(stream);
    WillHoldPrefix(n, r, held, false, Before(stream));
    SendRows(n, r, text, start, false, false);
  }

  lemma {:induction false} CarriesRead(n: Net, r: RingState, r': RingState, inflight: seq<Job>, held: seq<Token>)
    requires Carries(n, r, inflight, held) && inflight != [] && ShapedFor(n, r')
    requires Coming(n, r') == Coming(n, r)[1..] && DrainOf(n.nodes, r').0 == DrainOf(n.nodes, r).0
    ensures Carries(n, r', inflight[1..], held)
    ensures inflight[0].text != [] && Coming(n, r) != [] && Coming(n, r)[0] == RowsOf(n.model, inflight[0])
  {
    hide Coming, RowsOf;
  }

  /** The tail judges one chunk by the rows the ring has brought it. */
  method Verify(L: Law, s: Sampler, m: Model, lm: Row -> Logits, job: Job, reply: Msg) returns (r: seq<Token>)
    requires Judges(L, s, m, lm) && InVocab(L, job.drafts) && job.text != [] && reply == RowsOf(m, job)
    modifies s
    ensures Doctored(ChunkDists(L, job.text, job.drafts), job.drafts, s.draws, old(s.used), r, s.used)
  {
    hide Doctored, LastRow;
    var ds := job.drafts;
    var logits := seq(|ds| + 1, j requires 0 <= j <= |ds| => lm(reply.rows[j]));
    forall j | 0 <= j <= |ds| ensures s.head.dist(logits[j]) == L.dist(job.text + ds[..j]) &&
                                      |L.dist(job.text + ds[..j])| == L.vocab {
      RowsFromAt(m, job.text + ds, |job.text| - 1, j);
      assert (job.text + ds)[..|job.text| - 1 + j + 1] == job.text + ds[..j];
    }
    assert Dists(s.head, logits) == ChunkDists(L, job.text, ds);
    r := s.Accept(logits, ds);
  }

  /** The distributions a chunk is judged by: after its text, and after each draft. */
  function ChunkDists(L: Law, text: seq<Token>, ds: seq<Token>): (ps: seq<seq<real>>)
    ensures |ps| == |ds| + 1 && forall j :: 0 <= j <= |ds| ==> ps[j] == L.dist(text + ds[..j])
  {
    seq(|ds| + 1, j requires 0 <= j <= |ds| => L.dist(text + ds[..j]))
  }

  /** Prefill a reset ring and sample its last reply; each earlier reply has cost the tail a draw. */
  method Begin(link: SpecPipe.FastLink, L: Law, s: Sampler, lm: Row -> Logits, prompt: seq<Token>, cfg: Config)
    returns (alive: bool, cur: Token)
    requires link.Valid() && Ready(link.net, link.ring) && Judges(L, s, link.net.model, lm) && prompt != []
    modifies link, s
    ensures link.Valid() && (old(link.fate).Never? ==> link.fate.Never?)
    ensures alive ==> Carries(link.net, link.ring, [], prompt)
    ensures alive ==> var at := old(s.used) + SpecPipe.PrefillReplies(|prompt|, cfg) - 1;
                      Draws(L.dist(prompt), s.draws(at), cur) && s.used == at + 1
    ensures old(link.fate).Never? && |prompt| <= link.net.maxlen ==> alive
  {
    hide Ready, Faithful, WillHold, Coming, Draws, LastRow, IsDist;
    cur := 0;
    var row, replies;
    alive, row, replies := SpecPipe.Rebuild(link, prompt, cfg);
    if !alive { return; }
    for i := 1 to replies
      invariant s.used == old(s.used) + i - 1
      modifies s
    {
      var _ := s.Uniform();
    }
    assert IsDist(L.dist(prompt));
    cur := s.Sample(s.head.dist(lm(row)));
  }

  /** Read the replies still on their way; what they say no longer matters. */
  method Drain(link: SpecPipe.FastLink, count: nat) returns (alive: bool)
    requires link.Valid() && |Coming(link.net, link.ring)| == count
    modifies link
    ensures link.Valid() && (old(link.fate).Never? ==> link.fate.Never? && alive)
    ensures alive ==> Idle(link.ring)
  {
    hide Faithful;
    alive := true;
    for i := 0 to count
      invariant link.Valid() && |Coming(link.net, link.ring)| == count - i
      invariant old(link.fate).Never? ==> link.fate.Never?
    {
      var stale;
      alive, stale := link.RecvReply();
      if !alive { return; }
    }
    NothingOwedIsIdle(link.net.nodes, link.ring);
  }
}
