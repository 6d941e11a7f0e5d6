/** What one fixed-K run does, reply by reply, as a function of the target and the draft model alone. */
module CgRun {
  import opened Decode
  import opened TargetModel
  import opened DraftCache
  import opened Pipeline
  import opened StopRule
  import opened CommitLog

  datatype Config = Config(depth: nat, K: nat)

  /** What a run reports. */
  datatype Run = Run(out: seq<Token>, ntok: nat, valid: nat, wasted: nat, accepted: nat, nFull: nat, topSlot: nat)

  /** The run's local variables. */
  datatype Vars = Vars(out: seq<Token>, cur: Token, pos: nat, inflight: seq<Chunk>, discard: nat, sendPos: nat,
                       tailTok: Token, valid: nat, accepted: nat, wasted: nat, nFull: nat, calls: nat,
                       topSlot: nat, done: bool)

  datatype DraftModel = DraftModel(m: Model, vocab: nat)

  /** Everything that fixes a run. */
  datatype Job = Job(next: Target, draft: DraftModel, ids: seq<Token>, cfg: Config, maxNew: nat, eos: set<Token>)

  predicate Proper(j: Job) {
    j.ids != [] && j.cfg.depth >= 1 && j.cfg.K >= 1
  }

  /** The stream of committed and speculative tokens, and the variables. */
  datatype Snap = Snap(stream: seq<Token>, v: Vars)

  /** The drafts of the chunk sent on top of a stream. */
  function Says(j: Job, stream: seq<Token>): (ds: seq<Token>)
    requires stream != []
    ensures |ds| == j.cfg.K
  {
    var n := |stream| - 1;
    Drafted(Next(j.draft.m), j.draft.vocab, Seen(j.draft.vocab, |j.ids|, stream[..n]), stream[n], j.cfg.K)
  }

  function Opened(ids: seq<Token>, cur: Token): Vars {
    Vars([cur], cur, |ids|, [], 0, |ids|, cur, 0, 0, 0, 0, 0, |ids| + 7, false)
  }

  function Issued(v: Vars, ds: seq<Token>): Vars
    requires ds != []
  {
    var K := |ds|;
    v.(calls := v.calls + 1, inflight := v.inflight + [Chunk(v.sendPos, ds)], tailTok := ds[K - 1],
      sendPos := v.sendPos + K, topSlot := Max(v.topSlot, v.sendPos + K - 1))
  }

  function Filled(j: Job, s: Snap): (f: Snap)
    requires Proper(j) && s.stream != []
    ensures f.stream != [] && |f.v.inflight| >= j.cfg.depth
    decreases j.cfg.depth - |s.v.inflight|
  {
    if |s.v.inflight| >= j.cfg.depth then s
    else
      var ds := Says(j, s.stream);
      Filled(j, Snap(s.stream + ds, Issued(s.v, ds)))
  }

  /** The reply to the oldest chunk, when it is fresh: the target's verdicts on the stream. */
  function Answered(j: Job, s: Snap): (r: seq<Token>)
    requires s.v.inflight != []
    ensures s.v.discard == 0 ==> |r| == |s.v.inflight[0].drafts| + 1
  {
    if s.v.discard > 0 then []
    else
      var c := s.v.inflight[0];
      seq(|c.drafts| + 1, i requires 0 <= i <= |c.drafts| => j.next(s.stream[..Min(c.start + i + 1, |s.stream|)]))
  }

  lemma {:induction false} AnsweredIs(j: Job, s: Snap, r: seq<Token>)
    requires s.v.inflight != [] && s.v.discard == 0 && Answers(j.next, s.stream, s.v.inflight[0], r)
    ensures r == Answered(j, s)
  {
    var c, q := s.v.inflight[0], Answered(j, s);
    forall i | 0 <= i < |q| ensures q[i] == r[i] {
      assert Min(c.start + i + 1, |s.stream|) == c.start + i + 1;
      assert q[i] == j.next(s.stream[..c.start + i + 1]);
    }
  }

  function Taken(maxNew: nat, eos: set<Token>, v0: Vars, r: seq<Token>): Vars
    requires v0.inflight != [] && v0.inflight[0].drafts != [] && (v0.discard == 0 ==> |v0.inflight[0].drafts| < |r|)
  {
    var ds, rest := v0.inflight[0].drafts, v0.inflight[1..];
    if v0.discard > 0 then v0.(inflight := rest, discard := v0.discard - 1, wasted := v0.wasted + 1)
    else
      var n := Agreed(ds, r);
      var v := v0.(inflight := rest, valid := v0.valid + 1, accepted := v0.accepted + n);
      if n == |ds| then
        var cur, out := ds[|ds| - 1], v.out + ds;
        v.(nFull := v.nFull + 1, out := out, pos := v.pos + |ds|, cur := cur, done := |out| >= maxNew || cur in eos)
      else
        var cur, out, pos := r[n], v.out + (ds[..n] + [r[n]]), v.pos + n + 1;
        v.(out := out, cur := cur, pos := pos, discard := |rest|, tailTok := cur, sendPos := pos,
          done := |out| >= maxNew || cur in eos)
  }

  function PipeOf(s: Snap): Pipe {
    Pipe(s.v.out, s.stream, s.v.inflight, s.v.discard)
  }

  /** One round of the loop: fill the pipeline, read one reply. */
  function Turned(j: Job, s: Snap): (t: Snap)
    requires Proper(j) && s.stream != []
    ensures t.stream != []
  {
    var f := Filled(j, s);
    var r := Answered(j, f);
    if f.v.inflight[0].drafts == [] then f
    else Snap(Read(j.ids, PipeOf(f), r).stream, Taken(j.maxNew, j.eos, f.v, r))
  }

  /** After i replies. */
  function After(j: Job, i: nat): (s: Snap)
    requires Proper(j)
    ensures s.stream != []
  {
    if i == 0 then
      var cur := j.next(j.ids);
      Snap(j.ids + [cur], Opened(j.ids, cur))
    else Turned(j, After(j, i - 1))
  }

  function Report(v: Vars, eos: set<Token>): Run {
    Run(Trimmed(v.out, eos), |v.out|, v.valid, v.wasted, v.accepted, v.nFull, v.topSlot)
  }

  predicate StopsAt(j: Job, i: nat)
    requires Proper(j)
  {
    After(j, i).v.done && forall k: nat :: k < i ==> !After(j, k).v.done
  }

  /** The one report these settings lead to. */
  ghost predicate Leads(j: Job, res: Run) {
    Proper(j) && exists i: nat :: StopsAt(j, i) && res == Report(After(j, i).v, j.eos)
  }

  /** Nothing else enters: not the ring or its schedule, not what ran before, not how the draft's cache is
      rewound. */
  lemma {:induction false} OneRun(j: Job, a: Run, b: Run)
    requires Leads(j, a) && Leads(j, b)
    ensures a == b
  {
    hide After;
    var i: nat :| StopsAt(j, i) && a == Report(After(j, i).v, j.eos);
    var k: nat :| StopsAt(j, k) && b == Report(After(j, k).v, j.eos);
  }

  // ----- what a run's counts count -----

  predicate WholeAt(out: seq<Token>, log: Log, i: nat)
    requires |log.ends| == |log.drafts| + 1 && i < |log.drafts|
  {
    log.ends[i] <= log.ends[i + 1] <= |out| && out[log.ends[i]..log.ends[i + 1]] == log.drafts[i]
  }

  /** The replies whose chunk was committed whole. */
  ghost function Wholes(out: seq<Token>, log: Log): (w: set<nat>)
    requires |log.ends| == |log.drafts| + 1
  {
    set i: nat | i < |log.drafts| && WholeAt(out, log, i)
  }

  /** The variables tell what the replies were: one entry of the log a fresh reply, the others stale; the chunks
      committed whole; and the run stops after the first reply whose last token or length says so. */
  ghost predicate Told(next: Target, ids: seq<Token>, maxNew: nat, eos: set<Token>, v: Vars, log: Log, replies: nat) {
    && ids != [] && Records(next, ids, 1, v.out, log, false) && Stopping(LastToken, v.out, log, maxNew, eos, v.done)
    && v.valid == |log.drafts| && v.valid + v.wasted == replies && v.nFull == |Wholes(v.out, log)|
    && (v.done ==> log.drafts != [])
  }

  lemma {:induction false} ToldStart(next: Target, ids: seq<Token>, maxNew: nat, eos: set<Token>, cur: Token)
    requires ids != []
    ensures Told(next, ids, maxNew, eos, Opened(ids, cur), Log([1], []), 0)
  {
    RecordsStart(LastToken, next, ids, [cur], false, maxNew, eos);
    assert Wholes([cur], Log([1], [])) == {};
  }

  lemma {:induction false} ToldMore(next: Target, ids: seq<Token>, maxNew: nat, eos: set<Token>, p: Pipe, v0: Vars,
                                    v: Vars, r: seq<Token>, log: Log, replies: nat)
    requires Told(next, ids, maxNew, eos, v0, log, replies) && !v0.done && !v.done
    requires v.out == v0.out && v.valid == v0.valid && v.wasted == v0.wasted && v.nFull == v0.nFull
    requires v.inflight != [] && v.inflight[0].drafts != [] && p == PipeOf(Snap(p.stream, v))
    requires v.discard == 0 ==> |r| == |p.inflight[0].drafts| + 1 && Overlays(ids, p) &&
                                Answers(next, p.stream, p.inflight[0], r)
    ensures var v' := Taken(maxNew, eos, v, r);
            Told(next, ids, maxNew, eos, v', if v.discard > 0 then log else More(log, v'.out, v.inflight[0].drafts),
                 replies + 1)
  {
    hide CommitOf, Agreed, Records, Stopping, Judged, Overlays, Answers;
    if v.discard == 0 {
      var ds := v.inflight[0].drafts;
      HeadJudged(next, ids, p, r);
      CommitsAre(next, ids + v.out, ds, r);
      var n := Agreed(ds, r);
      var ys := if n == |ds| then ds else ds[..n] + [r[n]];
      RecordsMore(LastToken, next, ids, 1, v.out, log, false, maxNew, eos, ds, ys);
      RecordsShape(next, ids, 1, v.out, log, false);
      WholesMore(next, ids, v.out, log, ds, ys);
      assert n < |ds| ==> ys[n] != ds[n];
    }
  }

  lemma {:induction false} WholesMore(next: Target, ids: seq<Token>, out: seq<Token>, log: Log, ds: seq<Token>,
                                      ys: seq<Token>)
    requires ids != [] && Records(next, ids, 1, out, log, false)
    ensures var log' := More(log, out + ys, ds);
            |log'.ends| == |log'.drafts| + 1 && |log.ends| == |log.drafts| + 1 &&
            |Wholes(out + ys, log')| == |Wholes(out, log)| + if ys == ds then 1 else 0
  {
    hide CommitOf, Records;
    RecordsShape(next, ids, 1, out, log, false);
    var log', n := More(log, out + ys, ds), |log.drafts|;
    assert (out + ys)[|out|..|out + ys|] == ys;
    forall i: nat | i < n ensures WholeAt(out + ys, log', i) <==> WholeAt(out, log, i) {
      if log.ends[i] <= log.ends[i + 1] {
        Untouched(out, ys, log.ends[i], log.ends[i + 1]);
      }
    }
    assert WholeAt(out + ys, log', n) <==> ys == ds;
    assert Wholes(out + ys, log') == Wholes(out, log) + if ys == ds then {n} else {};
  }

  /** A report against the replies it sums up. */
  ghost predicate Tallies(next: Target, ids: seq<Token>, maxNew: nat, eos: set<Token>, res: Run, out: seq<Token>,
                          log: Log, replies: nat) {
    && ids != [] && Records(next, ids, 1, out, log, false) && Stopping(LastToken, out, log, maxNew, eos, true)
    && log.drafts != [] && res.out == Trimmed(out, eos) && res.ntok == |out|
    && res.valid == |log.drafts| && res.wasted == replies - |log.drafts| && res.nFull == |Wholes(out, log)|
  }

  lemma {:induction false} ToldReport(next: Target, ids: seq<Token>, maxNew: nat, eos: set<Token>, v: Vars, log: Log,
                                      replies: nat)
    requires Told(next, ids, maxNew, eos, v, log, replies) && v.done
    ensures Tallies(next, ids, maxNew, eos, Report(v, eos), v.out, log, replies)
  {
    hide Records, Stopping;
  }

  // ----- where a run stops -----

  /** A fresh reply commits something, and stops the run exactly when the cap is reached or the last token
      committed ends the text: end-of-sequence tokens before it are passed over. */
  lemma {:induction false} TakenStops(maxNew: nat, eos: set<Token>, v0: Vars, r: seq<Token>)
    requires v0.inflight != [] && v0.inflight[0].drafts != [] && v0.discard == 0
    requires |v0.inflight[0].drafts| < |r|
    ensures var v := Taken(maxNew, eos, v0, r);
            v0.out <= v.out && |v0.out| < |v.out| <= |v0.out| + |v0.inflight[0].drafts| &&
            (v.done <==> |v.out| >= maxNew || v.out[|v.out| - 1] in eos)
  {
  }

  /** As long as the run has not stopped, it has not reached the cap; its chunks have K drafts each. */
  ghost predicate Short(j: Job, v: Vars) {
    && (forall c :: c in v.inflight ==> |c.drafts| == j.cfg.K)
    && |v.out| <= Max(1, j.maxNew - 1) + j.cfg.K
    && (!v.done ==> |v.out| <= Max(1, j.maxNew - 1))
  }

  lemma {:induction false} FilledShort(j: Job, s: Snap)
    requires Proper(j) && s.stream != [] && Short(j, s.v)
    ensures Short(j, Filled(j, s).v) && Filled(j, s).v.done == s.v.done
    decreases j.cfg.depth - |s.v.inflight|
  {
    if |s.v.inflight| < j.cfg.depth {
      var ds := Says(j, s.stream);
      FilledShort(j, Snap(s.stream + ds, Issued(s.v, ds)));
    }
  }

  lemma {:induction false} TurnedShort(j: Job, s: Snap)
    requires Proper(j) && s.stream != [] && Short(j, s.v) && !s.v.done
    ensures Short(j, Turned(j, s).v)
  {
    hide Filled, Answered, Read;
    FilledShort(j, s);
    var f := Filled(j, s);
    assert f.v.inflight[0] in f.v.inflight;
    if f.v.discard == 0 {
      TakenStops(j.maxNew, j.eos, f.v, Answered(j, f));
    }
  }

  lemma {:induction false} AfterShort(j: Job, i: nat)
    requires Proper(j) && forall k: nat :: k < i ==> !After(j, k).v.done
    ensures Short(j, After(j, i).v)
    decreases i
  {
    hide Turned;
    if i > 0 {
      AfterShort(j, i - 1);
      TurnedShort(j, After(j, i - 1));
    }
  }

  /** How far past the cap a run can get: by K - 1 tokens, if the cap is at least 2; the first token and a
      whole chunk, if it is less. */
  lemma {:induction false} RunLength(j: Job, res: Run)
    requires Leads(j, res)
    ensures res.ntok <= Max(1, j.maxNew - 1) + j.cfg.K
    ensures j.maxNew >= 2 ==> res.ntok <= j.maxNew + j.cfg.K - 1
  {
    hide After, Short;
    var i: nat :| StopsAt(j, i) && res == Report(After(j, i).v, j.eos);
    AfterShort(j, i);
    ShortLength(j, After(j, i).v);
  }

  lemma {:induction false} ShortLength(j: Job, v: Vars)
    requires Short(j, v)
    ensures |v.out| <= Max(1, j.maxNew - 1) + j.cfg.K
  {
  }

  // ----- two runs -----

  /** A model without layers: the next token is read off the last one. */
  function Bigram(head: Token -> Token): Model {
    Model(t => [t], [], (row: Row) => if row == [] then 0 else head(row[0]))
  }

  lemma {:induction false} BigramNext(head: Token -> Token, toks: seq<Token>)
    requires toks != []
    ensures Next(Bigram(head))(toks) == head(toks[|toks| - 1])
  {
    assert StackRows(Bigram(head).stages, Embed(Bigram(head), toks)) == Embed(Bigram(head), toks);
  }

  /** What the first chunk carries and is answered, for a job with one chunk of two drafts in flight. */
  lemma {:induction false} FirstChunk(j: Job, head: Token -> Token)
    requires j.next == Next(Bigram(head)) && j.draft.m == Bigram(head) && j.draft.vocab == 10
    requires j.ids == [0] && j.cfg == Config(1, 2) && forall t :: 0 <= t < 10 ==> 0 <= head(t) < 10
    ensures var a, b, c := head(0), head(head(0)), head(head(head(0)));
            After(j, 0) == Snap([0, a], Opened([0], a)) &&
            Filled(j, After(j, 0)) == Snap([0, a, b, c], Issued(Opened([0], a), [b, c])) &&
            Answered(j, Filled(j, After(j, 0))) == [b, c, head(c)]
  {
    hide Next;
    var a, b, c := head(0), head(head(0)), head(head(head(0)));
    BigramNext(head, [0]);
    assert [0] + [a] == [0, a];
    var s0 := Snap([0, a], Opened([0], a));
    assert Seen(10, 1, [0, a][..1]) == [0];
    BigramNext(head, [0, a]);
    BigramNext(head, [0, a, b]);
    BigramNext(head, [0, a, b, c]);
    assert [0] + [Fed(10, a)] == [0, a] && [0, a] + [Fed(10, b)] == [0, a, b];
    assert Drafted(j.next, 10, [0, a, b], c, 0) == [];
    assert Drafted(j.next, 10, [0, a], b, 1) == [c] + [];
    assert Says(j, [0, a]) == [b] + ([c] + []);
    assert Says(j, [0, a]) == [b, c] && [0, a] + [b, c] == [0, a, b, c];
    var f := Snap([0, a, b, c], Issued(s0.v, [b, c]));
    assert f.v.inflight == [Chunk(1, [b, c])];
    assert Filled(j, f) == f;
    assert Filled(j, s0) == f;
    assert f.stream[..2] == [0, a] && f.stream[..3] == [0, a, b] && f.stream[..4] == [0, a, b, c];
    var r := [b, c, head(c)];
    forall k | 0 <= k < 3 ensures r[k] == j.next(f.stream[..1 + k + 1]) {
      assert k == 0 || k == 1 || k == 2;
    }
    AnsweredIs(j, f, r);
  }

  lemma {:induction false} AllAgreed(b: Token, c: Token, d: Token)
    ensures Agreed([b, c], [b, c, d]) == 2
  {
    assert [b, c][1..] == [c] && [b, c, d][1..] == [c, d] && [c][1..] == [] && [c, d][1..] == [d];
    assert Agreed([c], [c, d]) == 1;
  }

  function TwoSteps(t: Token): Token {
    if t == 0 then 1 else if t == 1 then 9 else 5
  }

  /** A target that says 1, 9, 5 after 0, drafted by itself two tokens at a time; 9 ends the text. */
  function PassingOver(): Job {
    Job(Next(Bigram(TwoSteps)), DraftModel(Bigram(TwoSteps), 10), [0], Config(1, 2), 10, {9})
  }

  /** The first chunk is 9, 5: the 9 is committed and the run goes on. */
  lemma {:induction false} EosPassedOver()
    ensures var j := PassingOver();
            Proper(j) && After(j, 1).v.out == [1, 9, 5] && 9 in j.eos && !After(j, 1).v.done
  {
    hide Next, Filled, Answered, Agreed, Read;
    var j := PassingOver();
    FirstChunk(j, TwoSteps);
    AllAgreed(9, 5, 5);
    assert After(j, 1) == Turned(j, After(j, 0));
  }

  /** The same target, one token asked for: the first chunk makes it three. */
  lemma {:induction false} CapOfOneOverrun()
    ensures var j := PassingOver().(maxNew := 1);
            var res := Run([1, 9, 5], 3, 1, 0, 2, 1, 8);
            Leads(j, res) && res.ntok == j.maxNew + j.cfg.K
  {
    hide Next, Filled, Answered, Agreed, Read;
    var j := PassingOver().(maxNew := 1);
    FirstChunk(j, TwoSteps);
    AllAgreed(9, 5, 5);
    assert After(j, 1) == Turned(j, After(j, 0));
    assert !After(j, 0).v.done;
    assert StopsAt(j, 1);
  }
}
