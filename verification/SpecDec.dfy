/** Synchronous speculative decoding over a head and a tail, with an adaptive number of drafts: the head
    and the draft crop after every round, the tail when the next verify tells it to. */
module SpecDec {
  import opened Decode
  import opened TargetModel
  import opened KvCache
  import opened DraftCache
  import opened Pipeline
  import opened StopRule
  import opened CommitLog
  import opened Counting

  datatype Crop = Keep | To(len: nat)

  /** The tail's serving loop on a verify: roll back first if the message says so, then append. */
  method TailVerify(tail: Stage, crop: Crop, start: nat, h: seq<Row>, ghost pre: seq<Row>) returns (y: seq<Row>)
    requires tail.Valid() && Lags(tail.ls, tail.kc, pre, crop) && |pre| == start
    modifies tail
    ensures tail.Valid() && Exactly(tail.ls, tail.kc, pre + h) && y == BlockRows(tail.ls, pre + h)[start..]
  {
    hide Holds, BlockRows, BlockStep;
    ghost var was := tail.kc;
    if crop.To? {
      var kc := tail.kc;
      tail.kc := seq(|kc|, i requires 0 <= i < |kc| => KvCache.Crop(kc[i], crop.len));
    }
    LagsCropped(tail.ls, was, tail.kc, pre, crop);
    BlockExact(CropAppend, tail.ls, tail.kc, pre, h);
    GrowsEvenly(tail.ls, tail.kc, h, start);
    y := tail.RunBlock(start, h);
  }

  /** The cache holds these rows and nothing else. */
  predicate Exactly(ls: seq<Layer>, kc: Caches, xs: seq<Row>) {
    |kc| == |ls| && Holds(ls, kc, xs) && Even(kc, |xs|)
  }

  /** The cache holds these rows, and whatever lies beyond goes with the announced crop. */
  predicate Lags(ls: seq<Layer>, kc: Caches, xs: seq<Row>, crop: Crop) {
    |kc| == |ls| && Holds(ls, kc, xs) &&
    match crop
    case Keep => Even(kc, |xs|)
    case To(len) => len == |xs| && forall i :: 0 <= i < |kc| ==> |kc[i]| >= len
  }

  lemma {:induction false} LagsCropped(ls: seq<Layer>, was: Caches, kc: Caches, xs: seq<Row>, crop: Crop)
    requires Lags(ls, was, xs, crop) && |kc| == |was|
    requires forall i :: 0 <= i < |kc| ==> kc[i] == if crop.To? then KvCache.Crop(was[i], crop.len) else was[i]
    ensures Exactly(ls, kc, xs)
  {
    hide Holds;
    if crop.To? {
      CropHolds(ls, was, kc, xs);
    } else {
      assert kc == was;
    }
  }

  method HeadRun(head: Stage, start: nat, h: seq<Row>, ghost pre: seq<Row>) returns (y: seq<Row>)
    requires head.Valid() && Exactly(head.ls, head.kc, pre) && |pre| == start
    modifies head
    ensures head.Valid() && Exactly(head.ls, head.kc, pre + h) && y == BlockRows(head.ls, pre + h)[start..]
  {
    hide Holds, BlockRows, BlockStep;
    BlockExact(CropAppend, head.ls, head.kc, pre, h);
    GrowsEvenly(head.ls, head.kc, h, start);
    y := head.RunBlock(start, h);
  }

  method CropStage(stage: Stage, n: nat, ghost xs: seq<Row>)
    requires stage.Valid() && Exactly(stage.ls, stage.kc, xs) && n <= |xs|
    modifies stage
    ensures stage.Valid() && Exactly(stage.ls, stage.kc, xs[..n])
  {
    hide Holds;
    ghost var was := stage.kc;
    var kc := stage.kc;
    stage.kc := seq(|kc|, i requires 0 <= i < |kc| => KvCache.Crop(kc[i], n));
    HoldsPrefix(stage.ls, was, xs, n);
    CropHolds(stage.ls, was, stage.kc, xs[..n]);
  }

  /** The target cut in two. */
  ghost predicate TwoHalves(m: Model, head: Stage, tail: Stage) {
    m.stages == [head.ls, tail.ls]
  }

  /** Head and tail caches against a text: the tail may still owe a crop. */
  ghost predicate InText(m: Model, head: Stage, tail: Stage, text: seq<Token>, crop: Crop)
    reads head, tail
  {
    && head.Valid() && tail.Valid() && TwoHalves(m, head, tail) && head != tail
    && Exactly(head.ls, head.kc, Embed(m, text))
    && Lags(tail.ls, tail.kc, BlockRows(head.ls, Embed(m, text)), crop)
  }

  /** One verify across both halves: the target's next token after every position it was given. */
  method Traverse(m: Model, ghost next: Target, head: Stage, tail: Stage, start: nat, ghost text: seq<Token>,
                  toks: seq<Token>, crop: Crop)
    returns (r: seq<Token>)
    requires Computes(m, next) && InText(m, head, tail, text, crop) && toks != [] && start == |text|
    modifies head, tail
    ensures InText(m, head, tail, text + toks, Keep)
    ensures r == Verdicts(next, text + toks, |text|)
  {
    hide Holds, BlockRows, Computes, Exactly, Lags;
    ghost var pre, all := Embed(m, text), Embed(m, text + toks);
    assert all == pre + Embed(m, toks);
    assert all[..|text|] == pre;
    BlockCausal(head.ls, all, |text|);
    ghost var mid := BlockRows(head.ls, all);
    var h := HeadRun(head, start, Embed(m, toks), pre);
    assert mid == BlockRows(head.ls, pre) + h;
    var y := TailVerify(tail, crop, start, h, BlockRows(head.ls, pre));
    ExactlyLags(tail.ls, tail.kc, mid);
    r := seq(|y|, j requires 0 <= j < |y| => m.head(y[j]));
    TwoStages(m, head.ls, tail.ls, all);
    VerdictsFromOnePass(m, next, text + toks, |text|);
    assert r == Verdicts(next, text + toks, |text|);
  }

  lemma {:induction false} TwoStages(m: Model, a: seq<Layer>, b: seq<Layer>, xs: seq<Row>)
    requires m.stages == [a, b]
    ensures StackRows(m.stages, xs) == BlockRows(b, BlockRows(a, xs))
  {
    assert m.stages[1..] == [b] && m.stages[1..][1..] == [];
    assert StackRows([b], BlockRows(a, xs)) == StackRows(m.stages[1..][1..], BlockRows(b, BlockRows(a, xs)));
  }

  lemma {:induction false} ExactlyLags(ls: seq<Layer>, kc: Caches, xs: seq<Row>)
    requires Exactly(ls, kc, xs)
    ensures Lags(ls, kc, xs, Keep)
  {
  }

  /** The head crops at once; the tail is told with the next verify. */
  method RollBack(m: Model, head: Stage, tail: Stage, ghost text: seq<Token>, n: nat) returns (crop: Crop)
    requires InText(m, head, tail, text, Keep) && n <= |text|
    modifies head
    ensures InText(m, head, tail, text[..n], crop)
  {
    hide Holds, BlockRows;
    assert Embed(m, text)[..n] == Embed(m, text[..n]);
    CropStage(head, n, Embed(m, text));
    crop := To(n);
    BlockCausal(head.ls, Embed(m, text), n);
    HoldsPrefix(tail.ls, tail.kc, BlockRows(head.ls, Embed(m, text)), n);
  }

  /** k drafts and one feed more: each is the draft's next token after everything before it. */
  method DraftRound(draft: CropDraft, cur: Token, kc: nat, ghost text: seq<Token>) returns (drafts: seq<Token>)
    requires draft.Valid() && draft.Shows(text)
    modifies draft.cache
    ensures draft.Valid() && |drafts| == kc && draft.Shows(text + [cur] + drafts)
    ensures drafts == Greedy(Next(draft.m), text + [cur], kc)
  {
    hide Next, Holds, Greedy;
    drafts := [];
    var dtok := cur;
    ghost var seen := text;
    for i := 0 to kc + 1
      invariant draft.Valid() && draft.Shows(seen) && |drafts| == Min(i, kc)
      invariant i <= kc ==> seen + [dtok] == text + [cur] + drafts
      invariant i == kc + 1 ==> seen == text + [cur] + drafts
      invariant forall j :: 0 <= j < |drafts| ==> drafts[j] == Next(draft.m)(text + [cur] + drafts[..j])
    {
      ghost var was := drafts;
      dtok := draft.Append([dtok], seen);
      seen := text + [cur] + drafts;
      if i < kc {
        drafts := drafts + [dtok];
      }
      assert forall j :: 0 <= j < |was| ==> drafts[..j] == was[..j];
      assert i < kc ==> drafts[..i] == was;
      assert i < kc ==> seen + [dtok] == text + [cur] + drafts;
    }
    GreedyAlone(Next(draft.m), text + [cur], drafts);
  }

  /** Aim two past the running acceptance, to the nearest integer and halves to even, within bounds. */
  function NextK(ema: real, kMin: nat, kMax: nat): (k: nat)
    ensures kMin <= k && (if kMin <= kMax then k <= kMax else k == kMin)
    ensures k > kMin ==> k as real <= ema + 2.5
    ensures k < kMax ==> k as real >= ema + 1.5
    ensures kMin < k < kMax && (k as real == ema + 2.5 || k as real == ema + 1.5) ==> k % 2 == 0
  {
    Max(kMin, Min(kMax, Round(ema) + 2))
  }

  datatype Stats = Stats(rounds: nat, accepted: nat)

  lemma {:induction false} Joined(a: seq<Token>, b: seq<Token>, j: nat)
    requires j <= |b|
    ensures (a + b)[..|a| + j] == a + b[..j]
  {
  }

  /** A round commits the agreed drafts and the target's own token. */
  lemma {:induction false} RoundCommits(next: Target, ids: seq<Token>, out: seq<Token>, drafts: seq<Token>,
                                        r: seq<Token>, start: nat)
    requires ids != [] && out == Greedy(next, ids, |out|) && start + 1 == |ids| + |out|
    requires r == Verdicts(next, ids + out + drafts, start)
    ensures |r| == |drafts| + 1
    ensures var n := Agreed(drafts, r);
            out + (drafts[..n] + [r[n]]) == Greedy(next, ids, |out| + n + 1)
  {
    hide Greedy, Agreed, Verdicts;
    var base, n := ids + out, Agreed(drafts, r);
    var ys := drafts[..n] + [r[n]];
    forall j | 0 <= j < |ys| ensures ys[j] == next(base + ys[..j]) {
      Joined(base, drafts, j);
      var seen := (base + drafts)[..start + j + 1];
      assert r[j] == next(seen);
      assert ys[..j] == drafts[..j];
    }
    GreedyExtends(next, ids, out, ys);
  }

  /** What is left of the cached text once what was not committed is dropped. */
  lemma {:induction false} RoundText(ids: seq<Token>, out: seq<Token>, drafts: seq<Token>, n: nat, t: Token)
    requires out != [] && n <= |drafts|
    ensures var out' := out + (drafts[..n] + [t]);
            (ids + out + drafts)[..|ids| + |out| + n] == ids + out'[..|out'| - 1]
  {
    var out' := out + (drafts[..n] + [t]);
    Joined(ids + out, drafts, n);
    assert out' == (out + drafts[..n]) + [t];
    assert ids + out + drafts[..n] == ids + (out + drafts[..n]);
  }

  /** Fresh caches, the prompt through both halves, and into the draft. */
  method Open(m: Model, ghost next: Target, head: Stage, tail: Stage, draft: CropDraft,
              ids: seq<Token>)
    returns (cur: Token)
    requires Computes(m, next) && head.Valid() && tail.Valid() && TwoHalves(m, head, tail) && head != tail
    requires draft.Valid() && draft.cache != head && draft.cache != tail && ids != []
    modifies head, tail, draft.cache
    ensures InText(m, head, tail, ids, Keep) && draft.Valid() && draft.Shows(ids) && cur == next(ids)
  {
    hide Holds, Computes, Next;
    head.kc := Emptied(head.ls);
    tail.kc := Emptied(tail.ls);
    draft.Renew();
    HoldsNothing(head.ls, head.kc);
    HoldsNothing(tail.ls, tail.kc);
    assert Embed(m, []) == [];
    var r := Traverse(m, next, head, tail, 0, [], ids, Keep);
    assert [] + ids == ids && ids[..0 + (|ids| - 1) + 1] == ids;
    cur := r[|r| - 1];
    var _ := draft.Append(ids, []);
  }

  /** The loop's variables: what is committed, and which text every cache stands at. */
  ghost predicate LoopInv(m: Model, next: Target, head: Stage, tail: Stage, draft: CropDraft, ids: seq<Token>,
                          out: seq<Token>, pos: nat, crop: Crop)
    reads head, tail, draft, draft.cache
  {
    && ids != [] && out != [] && out == Greedy(next, ids, |out|) && pos + 1 == |ids| + |out|
    && draft.Valid() && draft.cache != head && draft.cache != tail
    && InText(m, head, tail, ids + out[..|out| - 1], crop) && draft.Shows(ids + out[..|out| - 1])
  }

  /** One round: draft, verify, commit, roll every cache back. */
  method Step(m: Model, ghost next: Target, head: Stage, tail: Stage, draft: CropDraft, ghost ids: seq<Token>,
              ghost out: seq<Token>, cur: Token, pos: nat, kc: nat, crop0: Crop)
    returns (committed: seq<Token>, n: nat, crop: Crop, ghost drafts: seq<Token>)
    requires Computes(m, next) && LoopInv(m, next, head, tail, draft, ids, out, pos, crop0) && cur == out[|out| - 1]
    modifies head, tail, draft.cache
    ensures |committed| == n + 1 && n <= kc &&
            LoopInv(m, next, head, tail, draft, ids, out + committed, pos + n + 1, crop)
    ensures drafts == Greedy(Next(draft.m), ids + out, kc) && CommitOf(next, ids + out, drafts, committed, true)
  {
    hide InText, Greedy, CropDraft.Shows, Computes, Agreed, CropDraft.Valid, Verdicts, Next, CommitOf, Judged;
    ghost var base, text := ids + out, ids + out[..|out| - 1];
    var ds, r := DraftAndVerify(m, next, head, tail, draft, base, text, cur, pos, kc, crop0);
    RoundCommits(next, ids, out, ds, r, pos);
    VerdictsJudge(next, base, ds, r);
    CommitsAre(next, base, ds, r);
    n := CountAgreed(ds, r);
    committed := ds[..n] + [r[n]];
    RoundText(ids, out, ds, n, r[n]);
    crop := RollBack(m, head, tail, base + ds, pos + n + 1);
    draft.CropTo(pos + n + 1, base + ds);
    drafts := ds;
  }

  lemma {:induction false} VerdictsJudge(next: Target, base: seq<Token>, ds: seq<Token>, r: seq<Token>)
    requires base != [] && r == Verdicts(next, base + ds, |base| - 1)
    ensures Judged(next, base, ds, r)
  {
    forall j | 0 <= j < |r| ensures r[j] == next(base + ds[..j]) {
      assert (base + ds)[..|base| - 1 + j + 1] == base + ds[..j];
    }
  }

  method DraftAndVerify(m: Model, ghost next: Target, head: Stage, tail: Stage, draft: CropDraft,
                        ghost base: seq<Token>, ghost text: seq<Token>, cur: Token, pos: nat, kc: nat, crop: Crop)
    returns (drafts: seq<Token>, r: seq<Token>)
    requires Computes(m, next) && draft.Valid() && draft.cache != head && draft.cache != tail
    requires InText(m, head, tail, text, crop) && draft.Shows(text) && pos == |text| && base == text + [cur]
    modifies head, tail, draft.cache
    ensures |drafts| == kc && draft.Valid() && draft.Shows(base + drafts) && InText(m, head, tail, base + drafts, Keep)
    ensures r == Verdicts(next, base + drafts, pos) && drafts == Greedy(Next(draft.m), base, kc)
  {
    hide InText, CropDraft.Shows, Computes, CropDraft.Valid, Verdicts, Greedy, Next;
    drafts := DraftRound(draft, cur, kc, text);
    r := Traverse(m, next, head, tail, pos, text, [cur] + drafts, crop);
    assert text + ([cur] + drafts) == base + drafts;
  }

  /** How many drafts each round asked for, and the running acceptance before it. */
  datatype Pace = Pace(ks: seq<nat>, emas: seq<real>)

  /** K and the running acceptance start at K; a round's acceptance enters with weight 0.3. */
  ghost predicate Paced(adaptive: bool, K: nat, kMin: nat, kMax: nat, log: Log, pace: Pace) {
    && |pace.ks| == |pace.emas| == |log.ends| == |log.drafts| + 1 && pace.ks[0] == K && pace.emas[0] == K as real
    && forall i :: 0 <= i < |log.drafts| ==> PacedAt(adaptive, K, kMin, kMax, log, pace, i)
  }

  ghost predicate PacedAt(adaptive: bool, K: nat, kMin: nat, kMax: nat, log: Log, pace: Pace, i: nat)
    requires |pace.ks| == |pace.emas| == |log.ends| && i + 1 < |log.ends|
  {
    && pace.emas[i + 1] == 0.7 * pace.emas[i] + 0.3 * (log.ends[i + 1] as real - log.ends[i] as real - 1.0)
    && pace.ks[i + 1] == if adaptive then NextK(pace.emas[i + 1], kMin, kMax) else K
  }

  /** Every round's drafts are the draft model's own greedy tokens on what had been committed. */
  ghost predicate Drafted(d: Model, ids: seq<Token>, out: seq<Token>, log: Log, pace: Pace) {
    ids != [] && |pace.ks| == |log.ends| == |log.drafts| + 1 &&
    forall i :: 0 <= i < |log.drafts| ==> DraftedAt(d, ids, out, log, pace, i)
  }

  ghost predicate DraftedAt(d: Model, ids: seq<Token>, out: seq<Token>, log: Log, pace: Pace, i: nat)
    requires ids != [] && |pace.ks| == |log.ends| == |log.drafts| + 1 && i < |log.drafts|
  {
    log.ends[i] <= |out| && log.drafts[i] == Greedy(Next(d), ids + out[..log.ends[i]], pace.ks[i])
  }

  /** A run's whole course: what each round drafted, committed and learnt. */
  ghost predicate Course(next: Target, d: Model, ids: seq<Token>, K: nat, maxNew: nat, adaptive: bool, kMin: nat,
                         kMax: nat, eos: Token, out: seq<Token>, log: Log, pace: Pace, done: bool)
    requires ids != []
  {
    && Records(next, ids, 1, out, log, true) && Stopping(AnyToken, out, log, maxNew, {eos}, done)
    && Paced(adaptive, K, kMin, kMax, log, pace) && Drafted(d, ids, out, log, pace)
  }

  lemma {:induction false} CourseStart(next: Target, d: Model, ids: seq<Token>, K: nat, maxNew: nat, adaptive: bool,
                                       kMin: nat, kMax: nat, eos: Token, cur: Token)
    requires ids != []
    ensures Course(next, d, ids, K, maxNew, adaptive, kMin, kMax, eos, [cur], Log([1], []), Pace([K], [K as real]),
                   false)
  {
    RecordsStart(AnyToken, next, ids, [cur], true, maxNew, {eos});
  }

  lemma {:induction false} CourseMore(next: Target, d: Model, ids: seq<Token>, K: nat, maxNew: nat, adaptive: bool,
                                      kMin: nat, kMax: nat, eos: Token, out: seq<Token>, log: Log, pace: Pace,
                                      ds: seq<Token>, ys: seq<Token>, ema: real, k: nat)
    requires ids != [] && Course(next, d, ids, K, maxNew, adaptive, kMin, kMax, eos, out, log, pace, false)
    requires CommitOf(next, ids + out, ds, ys, true)
    requires ds == Greedy(Next(d), ids + out, pace.ks[|log.drafts|])
    requires ema == 0.7 * pace.emas[|log.drafts|] + 0.3 * (|ys| - 1) as real
    requires k == if adaptive then NextK(ema, kMin, kMax) else K
    ensures Course(next, d, ids, K, maxNew, adaptive, kMin, kMax, eos, out + ys, More(log, out + ys, ds),
                   Pace(pace.ks + [k], pace.emas + [ema]), maxNew <= |out + ys| || eos in ys)
  {
    hide CommitOf, Records, Stopping, Greedy, Next, NextK;
    RecordsShape(next, ids, 1, out, log, true);
    RecordsMore(AnyToken, next, ids, 1, out, log, true, maxNew, {eos}, ds, ys);
    var all, log', pace' := out + ys, More(log, out + ys, ds), Pace(pace.ks + [k], pace.emas + [ema]);
    assert all[..|out|] == out;
    forall i | 0 <= i < |log'.drafts|
      ensures DraftedAt(d, ids, all, log', pace', i) && PacedAt(adaptive, K, kMin, kMax, log', pace', i)
    {
      if i < |log.drafts| {
        assert DraftedAt(d, ids, out, log, pace, i) && PacedAt(adaptive, K, kMin, kMax, log, pace, i);
        assert all[..log.ends[i]] == out[..log.ends[i]];
      }
    }
    assert Closes(AnyToken, ys, {eos}) <==> eos in ys;
  }

  method Generate(m: Model, ghost next: Target, head: Stage, tail: Stage, draft: CropDraft, ids: seq<Token>, K: nat,
                  maxNew: nat, adaptive: bool, kMin: nat, kMax: nat, eos: Token)
    returns (res: seq<Token>, stats: Stats, ghost out: seq<Token>, ghost log: Log, ghost pace: Pace)
    requires Computes(m, next) && head.Valid() && tail.Valid() && TwoHalves(m, head, tail) && head != tail
    requires draft.Valid() && draft.cache != head && draft.cache != tail && ids != []
    modifies head, tail, draft.cache
    ensures out == Greedy(next, ids, |out|) && |out| == 1 + stats.rounds + stats.accepted && res == UpToEos(out, {eos})
    ensures CutCap(res, {eos}, maxNew) == Answer(next, ids, {eos}, maxNew)
    ensures draft.Valid() && draft.Shows(ids + out[..|out| - 1])
    ensures Course(next, draft.m, ids, K, maxNew, adaptive, kMin, kMax, eos, out, log, pace, log.drafts != [])
    ensures stats.rounds == |log.drafts| && (log.drafts == [] <==> maxNew <= 1 || out[0] == eos)
  {
    hide LoopInv, InText, CutCap, Answer, Greedy, CropDraft.Shows, CropDraft.Valid, Computes, UpToEos, Course, CommitOf;
    hide Next, NextK;
    var cur := Open(m, next, head, tail, draft, ids);
    var pos: nat, all := |ids|, [cur];
    var kc, ema, crop := K, K as real, Keep;
    stats := Stats(0, 0);
    log, pace := Log([1], []), Pace([K], [K as real]);
    LoopStart(m, next, head, tail, draft, ids, cur);
    CourseStart(next, draft.m, ids, K, maxNew, adaptive, kMin, kMax, eos, cur);
    var done := false;
    ghost var halted := false;
    while |all| < maxNew && cur != eos && !done
      invariant all != [] && cur == all[|all| - 1] && LoopInv(m, next, head, tail, draft, ids, all, pos, crop)
      invariant |all| == 1 + stats.rounds + stats.accepted && (done ==> eos in all)
      invariant Course(next, draft.m, ids, K, maxNew, adaptive, kMin, kMax, eos, all, log, pace, halted)
      invariant stats.rounds == |log.drafts| && |pace.ks| == |pace.emas| == |log.drafts| + 1
      invariant (!adaptive ==> kc == K) && kc == pace.ks[|log.drafts|] && ema == pace.emas[|log.drafts|]
      invariant if log.drafts == [] then all == [cur] && !done && !halted
                else (halted <==> maxNew <= |all| || done) && (cur == eos ==> done) && maxNew > 1 && all[0] != eos
      decreases maxNew - |all|
    {
      ghost var was, ds := all, [];
      var committed, n;
      committed, n, crop, ds := Step(m, next, head, tail, draft, ids, all, cur, pos, kc, crop);
      all, cur, pos := all + committed, committed[n], pos + n + 1;
      stats := Stats(stats.rounds + 1, stats.accepted + n);
      ema := 0.7 * ema + 0.3 * n as real;
      if adaptive { kc := NextK(ema, kMin, kMax); }
      done := eos in committed;
      CourseMore(next, draft.m, ids, K, maxNew, adaptive, kMin, kMax, eos, was, log, pace, ds, committed, ema, kc);
      log, pace := More(log, all, ds), Pace(pace.ks + [kc], pace.emas + [ema]);
      halted := maxNew <= |all| || done;
    }
    out := all;
    LoopOut(m, next, head, tail, draft, ids, all, pos, crop);
    assert maxNew <= |out| || exists i :: 0 <= i < |out| && out[i] in {eos};
    StoppedRunAnswers(next, ids, out, {eos}, maxNew);
    CutAgain(out, {eos}, maxNew);
    res := UpToEos(all, {eos});
  }

  lemma {:induction false} LoopStart(m: Model, next: Target, head: Stage, tail: Stage, draft: CropDraft,
                                     ids: seq<Token>, cur: Token)
    requires ids != [] && InText(m, head, tail, ids, Keep) && draft.Valid() && draft.Shows(ids) && cur == next(ids)
    requires draft.cache != head && draft.cache != tail
    ensures LoopInv(m, next, head, tail, draft, ids, [cur], |ids|, Keep)
  {
    assert Greedy(next, ids, 1) == [] + [next(ids + [])];
    assert ids + [] == ids && [cur][..0] == [];
  }

  lemma {:induction false} LoopOut(m: Model, next: Target, head: Stage, tail: Stage, draft: CropDraft, ids: seq<Token>,
                                   out: seq<Token>, pos: nat, crop: Crop)
    requires LoopInv(m, next, head, tail, draft, ids, out, pos, crop)
    ensures out == Greedy(next, ids, |out|) && draft.Valid() && draft.Shows(ids + out[..|out| - 1])
  {
  }
}
