/** The fixed-K pipelined coordinator, its plain one-token reference, and the multi-prompt study
    that reuses one ring. The draft is any oracle, or a model whose cache is rewound in place or cropped.

    The loop's variables are those of the original: `LoopInv` ties them to the abstract pipeline, to
    the draft's cache slots and to the counts a run reports. */
module CgCoordinator {
  import opened Decode
  import opened TargetModel
  import opened KvCache
  import opened Ring
  import opened CropRing
  import opened Pipeline
  import opened RingSystem
  import opened RingLink
  import opened StopRule
  import opened CommitLog
  import opened Counting
  import opened Drafters
  import opened DraftCache
  import opened CgRun
  import opened StudyOrder

  /** Room in the draft's static cache. */
  function MaxLen(longest: nat, maxNew: nat, depthK: nat): nat {
    Max(2048, longest + 4 * maxNew + depthK + 256)
  }

  /** The bookkeeping identities of one run. */
  predicate Accounted(r: Run, depth: nat, maxNew: nat)
    requires depth >= 1
  {
    && r.ntok + r.nFull == 1 + r.accepted + r.valid
    && r.nFull <= r.valid
    && r.wasted <= (depth - 1) * (r.valid - r.nFull)
    && (maxNew >= 2 ==> r.valid + r.wasted <= depth * (maxNew - 1))
  }

  datatype Result = Result(item: nat, cfg: Config, run: Run)

  /** A study entry gives its own prompt's answer, as a solo run would. */
  predicate Sound(next: Target, prompts: seq<seq<Token>>, eos: set<Token>, maxNew: nat, r: Result) {
    && r.item < |prompts| && prompts[r.item] != [] && r.cfg.depth >= 1
    && CutCap(r.run.out, eos, maxNew) == Answer(next, prompts[r.item], eos, maxNew)
    && Accounted(r.run, r.cfg.depth, maxNew)
  }

  /** With a draft model behind it, an entry is the one report its settings lead to: a solo run's. */
  ghost predicate Solo(next: Target, d: Drafter, prompts: seq<seq<Token>>, eos: set<Token>, maxNew: nat, r: Result) {
    r.item < |prompts| && (d.Oracle? || Leads(JobOf(next, d, prompts[r.item], r.cfg, maxNew, eos), r.run))
  }

  function JobOf(next: Target, d: Drafter, ids: seq<Token>, cfg: Config, maxNew: nat, eos: set<Token>): Job
    requires !d.Oracle?
  {
    Job(next, if d.Static? then DraftModel(d.s.m, d.s.vocab) else DraftModel(d.c.m, d.c.vocab), ids, cfg, maxNew, eos)
  }

  /** One generation with up to `cfg.depth` overlapping chunks of `cfg.K` drafts. `study` is the
      multi-prompt mode, which drains the ring before it returns. The trail lists every stream a chunk
      was drafted on, with its drafts. */
  method RunOne(link: Link, ids: seq<Token>, cfg: Config, maxNew: nat, eos: set<Token>, d: Drafter, run: nat,
                study: bool)
    returns (res: Run, ghost trail: seq<(seq<Token>, seq<Token>)>, ghost out: seq<Token>, ghost log: Log,
             ghost replies: nat)
    requires link.Valid() && Ready(link.net, link.ring) && link.outstanding == 0 && ids != []
    requires cfg.depth >= 1 && cfg.K >= 1
    requires Usable(d) && link !in Foot(d) && HasSlots(d, MaxLen(|ids|, maxNew, cfg.depth * cfg.K))
    modifies link, Foot(d)
    ensures Usable(d) && forall i :: 0 <= i < |trail| ==> Follows(d, ids, trail[i].0, trail[i].1)
    ensures link.Valid() && (study ==> link.outstanding == 0 && Ready(link.net, link.ring))
    ensures res.ntok >= |res.out| && res.out == Greedy(link.net.next, ids, |res.out|)
    ensures CutCap(res.out, eos, maxNew) == Answer(link.net.next, ids, eos, maxNew)
    ensures Accounted(res, cfg.depth, maxNew) && res.ntok <= Max(1, maxNew - 1) + cfg.K
    ensures forall longest: nat, most: nat ::
              |ids| <= longest && cfg.depth * cfg.K <= most ==> res.topSlot < MaxLen(longest, maxNew, most)
    ensures !d.Oracle? ==> Leads(JobOf(link.net.next, d, ids, cfg, maxNew, eos), res)
    ensures Tallies(link.net.next, ids, maxNew, eos, res, out, log, replies)
  {
    hide Linked, Link.Valid, Ready, Faithful, LoopInv, Accounted, CutCap, Answer, Greedy, InStep, Usable, HasSlots;
    hide Follows, MaxLen, After, Filled, Turned, Leads, Report, Told, Tallies, Overlays, Answers, Read, OnTurn;
    var cur := link.Prefill(ids);
    EnoughSlots(d, |ids|, cfg, maxNew);
    Begin(d, ids, cur);
    trail := [];
    var v := Opened(ids, cur);
    ghost var p := Started(ids, cur);
    log, replies := Log([1], []), 0;
    ToldStart(link.net.next, ids, maxNew, eos, cur);
    LoopStart(ids, cur, cfg, maxNew, eos, v);
    FirstTurn(link.net.next, d, ids, cfg, maxNew, eos);
    while !v.done
      invariant link.Valid() && Linked(link.net, ids, p, link.ring)
      invariant LoopInv(ids, cfg, maxNew, eos, p, v) && link.outstanding == |v.inflight|
      invariant InStep(d, ids, p.stream) && forall i :: 0 <= i < |trail| ==> Follows(d, ids, trail[i].0, trail[i].1)
      invariant OnTurn(link.net.next, d, ids, cfg, maxNew, eos, Snap(p.stream, v), replies)
      invariant Told(link.net.next, ids, maxNew, eos, v, log, replies)
      decreases !v.done, Max(0, maxNew - |v.out|), v.discard
    {
      ghost var sent, was := [], Snap(p.stream, v);
      p, v, sent := Fill(link, ids, p, cfg, maxNew, eos, d, run, v);
      trail := trail + sent;
      ghost var filled := Snap(p.stream, v);
      LoopFacts(ids, cfg, maxNew, eos, p, v);
      var r := link.Fetch(ids, p);
      ToldMore(link.net.next, ids, maxNew, eos, p, was.v, v, r, log, replies);
      v := Take(d, ids, p, cfg, maxNew, eos, v, r);
      if filled.v.discard == 0 {
        log := More(log, v.out, filled.v.inflight[0].drafts);
      }
      NextTurn(link.net.next, d, ids, cfg, maxNew, eos, p, was, filled, r, v, replies);
      replies := replies + 1;
      p := Read(ids, p, r);
    }
    InStepUsable(d, ids, p.stream);
    LinkedGreedy(link.net, ids, p, link.ring);
    if study {
      link.DrainReplies(ids, p);
    }
    res := Finish(link.net.next, ids, p, cfg, maxNew, eos, v);
    LastTurn(link.net.next, d, ids, cfg, maxNew, eos, Snap(p.stream, v), replies);
    ToldReport(link.net.next, ids, maxNew, eos, v, log, replies);
    out := v.out;
  }

  /** The run is where its settings put it after that many replies, and has not stopped before. */
  ghost predicate OnTurn(next: Target, d: Drafter, ids: seq<Token>, cfg: Config, maxNew: nat, eos: set<Token>, s: Snap,
                         turns: nat) {
    d.Oracle? ||
    var j := JobOf(next, d, ids, cfg, maxNew, eos);
    Proper(j) && After(j, turns) == s && forall k: nat :: k < turns ==> !After(j, k).v.done
  }

  lemma {:induction false} FirstTurn(next: Target, d: Drafter, ids: seq<Token>, cfg: Config, maxNew: nat,
                                     eos: set<Token>)
    requires ids != [] && cfg.depth >= 1 && cfg.K >= 1
    ensures var cur := next(ids);
            OnTurn(next, d, ids, cfg, maxNew, eos, Snap(Started(ids, cur).stream, Opened(ids, cur)), 0)
  {
  }

  lemma {:induction false} NextTurn(next: Target, d: Drafter, ids: seq<Token>, cfg: Config, maxNew: nat,
                                    eos: set<Token>, p: Pipe, was: Snap, filled: Snap, r: seq<Token>, v: Vars,
                                    turns: nat)
    requires OnTurn(next, d, ids, cfg, maxNew, eos, was, turns) && !was.v.done && was.stream != []
    requires p.inflight != [] && p.inflight[0].drafts != [] && p == PipeOf(filled)
    requires p.discard == 0 ==> |r| == |p.inflight[0].drafts| + 1 && Answers(next, p.stream, p.inflight[0], r)
    requires !d.Oracle? && Proper(JobOf(next, d, ids, cfg, maxNew, eos)) ==>
               filled == Filled(JobOf(next, d, ids, cfg, maxNew, eos), was)
    requires v == Taken(maxNew, eos, filled.v, r)
    ensures OnTurn(next, d, ids, cfg, maxNew, eos, Snap(Read(ids, p, r).stream, v), turns + 1)
  {
    hide Filled, Agreed, Taken, Read;
    if !d.Oracle? {
      var j := JobOf(next, d, ids, cfg, maxNew, eos);
      StaleIgnored(ids, maxNew, eos, filled, r, Answered(j, filled));
      if p.discard == 0 {
        AnsweredIs(j, filled, r);
      }
      assert After(j, turns + 1) == Turned(j, was);
    }
  }

  /** What a stale reply says does not matter. */
  lemma {:induction false} StaleIgnored(ids: seq<Token>, maxNew: nat, eos: set<Token>, s: Snap, r: seq<Token>,
                                        q: seq<Token>)
    requires s.v.inflight != [] && s.v.inflight[0].drafts != []
    ensures s.v.discard > 0 ==> Taken(maxNew, eos, s.v, r) == Taken(maxNew, eos, s.v, q) &&
                                Read(ids, PipeOf(s), r) == Read(ids, PipeOf(s), q)
  {
  }

  lemma {:induction false} LastTurn(next: Target, d: Drafter, ids: seq<Token>, cfg: Config, maxNew: nat,
                                    eos: set<Token>, s: Snap, turns: nat)
    requires OnTurn(next, d, ids, cfg, maxNew, eos, s, turns) && s.v.done
    ensures !d.Oracle? ==> Leads(JobOf(next, d, ids, cfg, maxNew, eos), Report(s.v, eos))
  {
    hide After;
    if !d.Oracle? {
      assert StopsAt(JobOf(next, d, ids, cfg, maxNew, eos), turns);
    }
  }

  /** The reference mode: one token per message, no drafts, nothing overlapped. */
  method Plain(link: Link, ids: seq<Token>, maxNew: nat, eos: set<Token>) returns (res: seq<Token>)
    requires link.Valid() && Ready(link.net, link.ring) && link.outstanding == 0 && ids != []
    modifies link
    ensures link.Valid() && link.outstanding == 0
    ensures CutCap(res, eos, maxNew) == Answer(link.net.next, ids, eos, maxNew)
    ensures maxNew >= 1 ==> |res| <= maxNew && forall i :: 0 <= i < |res| ==> res[i] !in eos
  {
    hide Linked, Link.Valid, Ready, Faithful, CutCap, Answer, Greedy;
    var cur := link.Prefill(ids);
    var out, pos: nat := [cur], |ids|;
    ghost var p := Started(ids, cur);
    while |out| < maxNew && cur !in eos
      invariant link.Valid() && Linked(link.net, ids, p, link.ring) && link.outstanding == 0
      invariant p == Pipe(out, ids + out, [], 0) && out != [] && cur == out[|out| - 1]
      invariant pos + 1 == |ids| + |out|
      invariant |out| <= Max(1, maxNew) && forall i :: 0 <= i < |out| - 1 ==> out[i] !in eos
      decreases maxNew - |out|
    {
      link.Issue(ids, p, pos, cur, []);
      var r := link.Fetch(ids, Sent(p, []));
      cur := r[0];
      assert Sent(p, []).inflight[1..] == [];
      p := Read(ids, Sent(p, []), r);
      out := out + [cur];
      pos := pos + 1;
    }
    LinkedGreedy(link.net, ids, p, link.ring);
    StoppedRunAnswers(link.net.next, ids, out, eos, maxNew);
    res := Trimmed(out, eos);
  }

  /** The interleaved study: every prompt under every configuration, the configurations rotating,
      `repeat` passes over one ring. No reply crosses from one generation into the next. */
  method Study(link: Link, prompts: seq<seq<Token>>, cfgs: seq<Config>, maxNew: nat, eos: set<Token>, repeat: nat,
               d: Drafter)
    returns (results: seq<Result>)
    requires link.Valid() && Ready(link.net, link.ring) && link.outstanding == 0
    requires forall i :: 0 <= i < |prompts| ==> prompts[i] != []
    requires cfgs != [] && forall c :: 0 <= c < |cfgs| ==> cfgs[c].depth >= 1 && cfgs[c].K >= 1
    requires Usable(d) && link !in Foot(d) && RoomForAll(d, prompts, cfgs, maxNew)
    modifies link, Foot(d)
    ensures link.Valid() && link.outstanding == 0 && Ready(link.net, link.ring) && Usable(d)
    ensures Entries(results) == Order(Max(1, repeat), |prompts|, cfgs)
    ensures |results| == Times(Max(1, repeat), Times(|prompts|, |cfgs|))
    ensures forall r :: 0 <= r < |results| ==> Solo(link.net.next, d, prompts, eos, maxNew, results[r])
    ensures forall r :: 0 <= r < |results| ==> Sound(link.net.next, prompts, eos, maxNew, results[r])
  {
    hide Link.Valid, Ready, Faithful, Sound, Solo, Times, Usable, RoomForAll, PassOrder;
    results := [];
    OrderLength(Max(1, repeat), |prompts|, cfgs);
    for rep := 0 to Max(1, repeat)
      invariant link.Valid() && Ready(link.net, link.ring) && link.outstanding == 0 && Usable(d)
      invariant Entries(results) == Order(rep, |prompts|, cfgs)
      invariant forall r :: 0 <= r < |results| ==> Sound(link.net.next, prompts, eos, maxNew, results[r])
      invariant forall r :: 0 <= r < |results| ==> Solo(link.net.next, d, prompts, eos, maxNew, results[r])
    {
      var ran := Pass(link, prompts, cfgs, maxNew, eos, rep, |results|, d);
      EntriesJoined(results, ran);
      results := results + ran;
    }
  }

  function Entries(results: seq<Result>): (entries: seq<Entry>)
    ensures |entries| == |results|
  {
    seq(|results|, r requires 0 <= r < |results| => Entry(results[r].item, results[r].cfg))
  }

  lemma {:induction false} EntriesJoined(a: seq<Result>, b: seq<Result>)
    ensures Entries(a + b) == Entries(a) + Entries(b)
  {
  }

  lemma {:induction false} NextEntry(done: seq<Entry>, it: nat, rot: seq<Config>, c: nat)
    requires c < |rot|
    ensures done + Turns(it, rot)[..c] + [Entry(it, rot[c])] == done + Turns(it, rot)[..c + 1]
  {
  }

  method Pass(link: Link, prompts: seq<seq<Token>>, cfgs: seq<Config>, maxNew: nat, eos: set<Token>, rep: nat,
              run0: nat, d: Drafter)
    returns (results: seq<Result>)
    requires link.Valid() && Ready(link.net, link.ring) && link.outstanding == 0
    requires forall i :: 0 <= i < |prompts| ==> prompts[i] != []
    requires cfgs != [] && forall c :: 0 <= c < |cfgs| ==> cfgs[c].depth >= 1 && cfgs[c].K >= 1
    requires Usable(d) && link !in Foot(d) && RoomForAll(d, prompts, cfgs, maxNew)
    modifies link, Foot(d)
    ensures link.Valid() && link.outstanding == 0 && Ready(link.net, link.ring) && Usable(d)
    ensures Entries(results) == PassOrder(|prompts|, cfgs, rep)
    ensures forall r :: 0 <= r < |results| ==> Solo(link.net.next, d, prompts, eos, maxNew, results[r])
    ensures forall r :: 0 <= r < |results| ==> Sound(link.net.next, prompts, eos, maxNew, results[r])
  {
    hide Link.Valid, Ready, Faithful, Times, Sound, Solo, Usable, RoomForAll;
    results := [];
    for it := 0 to |prompts|
      invariant link.Valid() && Ready(link.net, link.ring) && link.outstanding == 0 && Usable(d)
      invariant Entries(results) == PassOrder(it, cfgs, rep)
      invariant forall r :: 0 <= r < |results| ==> Sound(link.net.next, prompts, eos, maxNew, results[r])
      invariant forall r :: 0 <= r < |results| ==> Solo(link.net.next, d, prompts, eos, maxNew, results[r])
    {
      var j := (it + rep) % |cfgs|;
      var rot := cfgs[j..] + cfgs[..j];
      for c := 0 to |rot|
        invariant link.Valid() && Ready(link.net, link.ring) && link.outstanding == 0 && Usable(d)
        invariant Entries(results) == PassOrder(it, cfgs, rep) + Turns(it, rot)[..c]
        invariant forall r :: 0 <= r < |results| ==> Sound(link.net.next, prompts, eos, maxNew, results[r])
        invariant forall r :: 0 <= r < |results| ==> Solo(link.net.next, d, prompts, eos, maxNew, results[r])
      {
        var cfg := rot[c];
        var r := RunEntry(link, prompts, cfgs, maxNew, eos, it, cfg, run0 + |results|, d);
        EntriesJoined(results, [r]);
        NextEntry(PassOrder(it, cfgs, rep), it, rot, c);
        results := results + [r];
      }
    }
  }

  method RunEntry(link: Link, prompts: seq<seq<Token>>, ghost cfgs: seq<Config>, maxNew: nat, eos: set<Token>, it: nat,
                  cfg: Config, run: nat, d: Drafter)
    returns (r: Result)
    requires link.Valid() && Ready(link.net, link.ring) && link.outstanding == 0
    requires it < |prompts| && prompts[it] != [] && cfg in cfgs && cfg.depth >= 1 && cfg.K >= 1
    requires Usable(d) && link !in Foot(d) && RoomForAll(d, prompts, cfgs, maxNew)
    modifies link, Foot(d)
    ensures link.Valid() && link.outstanding == 0 && Ready(link.net, link.ring) && Usable(d)
    ensures r.item == it && r.cfg == cfg
    ensures Solo(link.net.next, d, prompts, eos, maxNew, r) && Sound(link.net.next, prompts, eos, maxNew, r)
  {
    hide Link.Valid, Ready, Faithful, Answer, CutCap, Accounted, Usable, RoomForAll, HasSlots, Leads, Tallies;
    RoomForOne(d, prompts, cfgs, maxNew, it, cfg);
    var res, _, _, _, _ := RunOne(link, prompts[it], cfg, maxNew, eos, d, run, true);
    r := Result(it, cfg, res);
  }

  /** Top up to `depth` chunks in flight, each the stream's last token and K drafts. */
  method Fill(link: Link, ghost ids: seq<Token>, ghost p0: Pipe, cfg: Config, ghost maxNew: nat, ghost eos: set<Token>,
              d: Drafter, run: nat, v0: Vars)
    returns (ghost p: Pipe, v: Vars, ghost sent: seq<(seq<Token>, seq<Token>)>)
    requires ids != [] && cfg.depth >= 1 && cfg.K >= 1 && InStep(d, ids, p0.stream) && link !in Foot(d)
    requires HasSlots(d, MaxLen(|ids|, maxNew, cfg.depth * cfg.K))
    requires link.Valid() && Linked(link.net, ids, p0, link.ring)
    requires LoopInv(ids, cfg, maxNew, eos, p0, v0) && link.outstanding == |v0.inflight| && !v0.done
    modifies link, Foot(d)
    ensures link.Valid() && Linked(link.net, ids, p, link.ring)
    ensures InStep(d, ids, p.stream) && forall i :: 0 <= i < |sent| ==> Follows(d, ids, sent[i].0, sent[i].1)
    ensures LoopInv(ids, cfg, maxNew, eos, p, v) && link.outstanding == |v.inflight| == |p.inflight| == cfg.depth
    ensures !v.done && v.out == v0.out && v.discard == v0.discard && SameCounts(v0, v)
    ensures p0.stream != [] && (!d.Oracle? ==>
                                  Filled(JobOf(link.net.next, d, ids, cfg, maxNew, eos), Snap(p0.stream, v0))
                                   == Snap(p.stream, v))
  {
    hide Linked, Link.Valid, LoopInv, InStep, HasSlots, Follows, MaxLen, Filled, Says;
    p, v, sent := p0, v0, [];
    LoopFacts(ids, cfg, maxNew, eos, p, v);
    InStepUsable(d, ids, p.stream);
    while |v.inflight| < cfg.depth
      invariant link.Valid() && Linked(link.net, ids, p, link.ring)
      invariant LoopInv(ids, cfg, maxNew, eos, p, v) && link.outstanding == |v.inflight| == |p.inflight| <= cfg.depth
      invariant !v.done && v.out == v0.out && v.discard == v0.discard && SameCounts(v0, v)
      invariant InStep(d, ids, p.stream) && forall i :: 0 <= i < |sent| ==> Follows(d, ids, sent[i].0, sent[i].1)
      invariant StillFilling(link.net.next, d, ids, cfg, maxNew, eos, Snap(p0.stream, v0), Snap(p.stream, v))
    {
      LoopFacts(ids, cfg, maxNew, eos, p, v);
      NextSlots(d, ids, cfg, maxNew, eos, p, v);
      var ds := Propose(d, run, v.calls, v.tailTok, v.sendPos, cfg.K, ids, p.stream);
      sent := sent + [(p.stream, ds)];
      LoopSend(ids, cfg, maxNew, eos, p, v, ds);
      FillingOn(link.net.next, d, ids, cfg, maxNew, eos, Snap(p0.stream, v0), Snap(p.stream, v), ds);
      link.Issue(ids, p, v.sendPos, v.tailTok, ds);
      p := Sent(p, ds);
      v := v.(calls := v.calls + 1, inflight := v.inflight + [Chunk(v.sendPos, ds)], tailTok := ds[cfg.K - 1],
        sendPos := v.sendPos + cfg.K, topSlot := Max(v.topSlot, v.sendPos + cfg.K - 1));
      LoopFacts(ids, cfg, maxNew, eos, p, v);
    }
    FillingDone(link.net.next, d, ids, cfg, maxNew, eos, Snap(p.stream, v));
  }

  predicate SameCounts(a: Vars, b: Vars) {
    a.valid == b.valid && a.accepted == b.accepted && a.wasted == b.wasted && a.nFull == b.nFull
  }

  /** Filling on from here is filling from the start. */
  ghost predicate StillFilling(next: Target, d: Drafter, ids: seq<Token>, cfg: Config, maxNew: nat, eos: set<Token>,
                               s0: Snap, s: Snap) {
    && s0.stream != [] && s.stream != []
    && (!d.Oracle? ==> var j := JobOf(next, d, ids, cfg, maxNew, eos); Proper(j) && Filled(j, s0) == Filled(j, s))
  }

  lemma {:induction false} FillingOn(next: Target, d: Drafter, ids: seq<Token>, cfg: Config, maxNew: nat,
                                     eos: set<Token>, s0: Snap, s: Snap, ds: seq<Token>)
    requires StillFilling(next, d, ids, cfg, maxNew, eos, s0, s) && |s.v.inflight| < cfg.depth
    requires Follows(d, ids, s.stream, ds) && |ds| == cfg.K >= 1
    ensures StillFilling(next, d, ids, cfg, maxNew, eos, s0, Snap(s.stream + ds, Issued(s.v, ds)))
  {
    hide Drafted, Seen, Next;
    if !d.Oracle? {
      var j := JobOf(next, d, ids, cfg, maxNew, eos);
      assert ds == Says(j, s.stream);
    }
  }

  lemma {:induction false} FillingDone(next: Target, d: Drafter, ids: seq<Token>, cfg: Config, maxNew: nat,
                                       eos: set<Token>, s: Snap)
    requires ids != [] && cfg.depth >= 1 && cfg.K >= 1 && s.stream != [] && |s.v.inflight| >= cfg.depth
    ensures !d.Oracle? ==> Filled(JobOf(next, d, ids, cfg, maxNew, eos), s) == s
  {
  }

  /** Skip a stale reply, commit a fully accepted chunk, or commit up to its divergence and rewind. */
  method Take(d: Drafter, ghost ids: seq<Token>, ghost p: Pipe, cfg: Config, maxNew: nat, eos: set<Token>, v0: Vars,
              r: seq<Token>)
    returns (v: Vars)
    requires cfg.depth >= 1 && cfg.K >= 1
    requires LoopInv(ids, cfg, maxNew, eos, p, v0) && p.inflight != [] && !v0.done
    requires p.discard == 0 ==> |r| == |p.inflight[0].drafts| + 1 && Overlays(ids, p)
    requires InStep(d, ids, p.stream)
    modifies Foot(d)
    ensures InStep(d, ids, Read(ids, p, r).stream)
    ensures LoopInv(ids, cfg, maxNew, eos, Read(ids, p, r), v) && |v.inflight| == |v0.inflight| - 1
    ensures v.done || (v.discard < v0.discard && v.out == v0.out) || |v0.out| < |v.out| < maxNew
    ensures v0.inflight != [] && v0.inflight[0].drafts != [] && (v0.discard == 0 ==> |v0.inflight[0].drafts| < |r|)
    ensures v == Taken(maxNew, eos, v0, r)
  {
    hide LoopInv, Read, Agreed, InStep;
    LoopFacts(ids, cfg, maxNew, eos, p, v0);
    TakenKeeps(ids, p, cfg, maxNew, eos, v0, r);
    v := v0.(inflight := v0.inflight[1..]);
    var ds, rest, K := v0.inflight[0].drafts, |v.inflight|, cfg.K;
    if v.discard > 0 {
      v := v.(discard := v.discard - 1, wasted := v.wasted + 1);
      KeepsStep(d, ids, p, r);
    } else {
      var n := CountAgreed(ds, r);
      v := v.(valid := v.valid + 1, accepted := v.accepted + n);
      if n == K {
        v := v.(nFull := v.nFull + 1, out := v.out + ds, pos := v.pos + K, cur := ds[K - 1]);
        KeepsStep(d, ids, p, r);
      } else {
        v := v.(out := v.out + (ds[..n] + [r[n]]), cur := r[n], pos := v.pos + n + 1);
        v := v.(discard := rest, tailTok := v.cur, sendPos := v.pos);
        RewindDraft(d, v.pos, ids, p, r);
      }
      v := v.(done := |v.out| >= maxNew || v.cur in eos);
    }
  }

  /** A reply keeps every variable in step with the pipeline, and gets the run on. */
  lemma {:induction false} TakenKeeps(ids: seq<Token>, p: Pipe, cfg: Config, maxNew: nat, eos: set<Token>, v0: Vars,
                                      r: seq<Token>)
    requires cfg.depth >= 1 && cfg.K >= 1
    requires LoopInv(ids, cfg, maxNew, eos, p, v0) && p.inflight != [] && !v0.done
    requires p.discard == 0 ==> |r| == |p.inflight[0].drafts| + 1
    ensures v0.inflight != [] && v0.inflight[0].drafts != [] && (v0.discard == 0 ==> |v0.inflight[0].drafts| < |r|)
    ensures var v := Taken(maxNew, eos, v0, r);
            LoopInv(ids, cfg, maxNew, eos, Read(ids, p, r), v) && |v.inflight| == |v0.inflight| - 1 &&
            (v.done || (v.discard < v0.discard && v.out == v0.out) || |v0.out| < |v.out| < maxNew)
  {
    hide Times, Counted, Read, Agreed, Tracks, Slot;
    TracksFacts(ids, cfg.K, p, v0.out, v0.inflight, v0.discard, v0.sendPos, v0.tailTok);
    var ds, rest, K := v0.inflight[0].drafts, |v0.inflight| - 1, cfg.K;
    if v0.discard == 0 {
      var n := Agreed(ds, r);
      CountedGrows(|v0.out|, v0.valid, v0.accepted, v0.wasted, v0.nFull, cfg.depth);
      CountedStep(|v0.out|, v0.valid, v0.accepted, v0.wasted, v0.nFull, cfg.depth, n, n == K, rest);
      TimesStep(rest, K);
    }
    TracksRead(ids, K, p, v0.out, v0.inflight, v0.discard, v0.sendPos, v0.tailTok, r);
  }

  method RewindDraft(d: Drafter, pos: nat, ghost ids: seq<Token>, ghost p: Pipe, ghost r: seq<Token>)
    requires InStep(d, ids, p.stream) && p.inflight != [] && p.discard == 0 && Overlays(ids, p)
    requires |p.inflight[0].drafts| + 1 == |r| && Agreed(p.inflight[0].drafts, r) < |p.inflight[0].drafts|
    requires pos == |ids| + |p.out| + Agreed(p.inflight[0].drafts, r)
    modifies Foot(d)
    ensures InStep(d, ids, Read(ids, p, r).stream)
  {
    hide InStep, Read;
    DivergesTo(ids, p, r);
    Rewind(d, pos, ids, p.stream, r[Agreed(p.inflight[0].drafts, r)]);
  }

  lemma {:induction false} KeepsStep(d: Drafter, ids: seq<Token>, p: Pipe, r: seq<Token>)
    requires InStep(d, ids, p.stream) && p.inflight != [] && (p.discard == 0 ==> |p.inflight[0].drafts| < |r|)
    requires p.discard == 0 ==> p.inflight[0].drafts != [] && Agreed(p.inflight[0].drafts, r) == |p.inflight[0].drafts|
    ensures InStep(d, ids, Read(ids, p, r).stream)
  {
  }

  lemma {:induction false} InStepUsable(d: Drafter, ids: seq<Token>, stream: seq<Token>)
    requires InStep(d, ids, stream)
    ensures Usable(d)
  {
  }

  lemma {:induction false} EnoughSlots(d: Drafter, prompt: nat, cfg: Config, maxNew: nat)
    requires HasSlots(d, MaxLen(prompt, maxNew, cfg.depth * cfg.K))
    ensures HasSlots(d, prompt + 8)
  {
  }

  /** The next chunk's drafts fit the static cache. */
  lemma {:induction false} NextSlots(d: Drafter, ids: seq<Token>, cfg: Config, maxNew: nat, eos: set<Token>, p: Pipe,
                                     v: Vars)
    requires cfg.depth >= 1 && LoopInv(ids, cfg, maxNew, eos, p, v) && !v.done && |v.inflight| < cfg.depth
    requires HasSlots(d, MaxLen(|ids|, maxNew, cfg.depth * cfg.K))
    ensures HasSlots(d, v.sendPos + cfg.K)
  {
    hide Times, Counted;
    TimesStep(|v.inflight| - v.discard, cfg.K);
    SlotBound(|v.inflight| - v.discard + 1, v.discard, cfg.depth, cfg.K);
  }

  /** The static cache is sized for the longest prompt and the largest configuration. */
  ghost predicate RoomForAll(d: Drafter, prompts: seq<seq<Token>>, cfgs: seq<Config>, maxNew: nat) {
    exists longest: nat, most: nat ::
      (forall i :: 0 <= i < |prompts| ==> |prompts[i]| <= longest) &&
      (forall c :: 0 <= c < |cfgs| ==> cfgs[c].depth * cfgs[c].K <= most) &&
      HasSlots(d, MaxLen(longest, maxNew, most))
  }

  lemma {:induction false} RoomForOne(d: Drafter, prompts: seq<seq<Token>>, cfgs: seq<Config>, maxNew: nat, i: nat,
                                      cfg: Config)
    requires RoomForAll(d, prompts, cfgs, maxNew) && i < |prompts| && cfg in cfgs
    ensures HasSlots(d, MaxLen(|prompts[i]|, maxNew, cfg.depth * cfg.K))
  {
    var longest: nat, most: nat :|
      (forall i :: 0 <= i < |prompts| ==> |prompts[i]| <= longest) &&
      (forall c :: 0 <= c < |cfgs| ==> cfgs[c].depth * cfgs[c].K <= most) &&
      HasSlots(d, MaxLen(longest, maxNew, most));
  }

  /** What the run reports. */
  method Finish(ghost next: Target, ghost ids: seq<Token>, ghost p: Pipe, cfg: Config, ghost maxNew: nat,
                eos: set<Token>, v: Vars)
    returns (res: Run)
    requires cfg.depth >= 1 && LoopInv(ids, cfg, maxNew, eos, p, v) && v.done
    requires ids != [] && p.out == Greedy(next, ids, |p.out|)
    ensures res == Report(v, eos)
    ensures res.ntok >= |res.out| && res.out == Greedy(next, ids, |res.out|)
    ensures CutCap(res.out, eos, maxNew) == Answer(next, ids, eos, maxNew)
    ensures Accounted(res, cfg.depth, maxNew) && res.ntok <= Max(1, maxNew - 1) + cfg.K
    ensures forall longest: nat, most: nat ::
              |ids| <= longest && cfg.depth * cfg.K <= most ==> res.topSlot < MaxLen(longest, maxNew, most)
  {
    hide Greedy, CutCap, Answer, Accounted, Counted;
    res := Run(Trimmed(v.out, eos), |v.out|, v.valid, v.wasted, v.accepted, v.nFull, v.topSlot);
    StoppedRunAnswers(next, ids, v.out, eos, maxNew);
    CountedFinally(res, v.wasted + v.discard, cfg.depth, maxNew);
  }

  /** The loop's variables against the abstract pipeline, the draft's slots and the counts. */
  ghost predicate LoopInv(ids: seq<Token>, cfg: Config, maxNew: nat, eos: set<Token>, p: Pipe, v: Vars)
    requires cfg.depth >= 1
  {
    && Tracks(ids, cfg.K, p, v.out, v.inflight, v.discard, v.sendPos, v.tailTok)
    && v.out != [] && v.cur == v.out[|v.out| - 1] && v.pos + 1 == |ids| + |v.out| && |v.inflight| <= cfg.depth
    && v.sendPos == v.pos + Times(|v.inflight| - v.discard, cfg.K)
    && v.topSlot <= Slot(|ids|, cfg.depth, cfg.K, maxNew)
    && Counted(|v.out|, v.valid, v.accepted, v.wasted + v.discard, v.nFull, cfg.depth)
    && (v.done <==> v.valid > 0 && (maxNew <= |v.out| || v.cur in eos))
    && (if v.valid == 0 then |v.out| == 1 else !v.done ==> |v.out| < maxNew)
    && (maxNew >= 2 ==> v.valid < maxNew)
    && |v.out| <= Max(1, maxNew - 1) + cfg.K
  }

  lemma {:induction false} LoopStart(ids: seq<Token>, cur: Token, cfg: Config, maxNew: nat, eos: set<Token>, v: Vars)
    requires ids != [] && cfg.depth >= 1
    requires v == Opened(ids, cur)
    ensures LoopInv(ids, cfg, maxNew, eos, Started(ids, cur), v)
  {
  }

  lemma {:induction false} LoopFacts(ids: seq<Token>, cfg: Config, maxNew: nat, eos: set<Token>, p: Pipe, v: Vars)
    requires cfg.depth >= 1 && LoopInv(ids, cfg, maxNew, eos, p, v)
    ensures v.sendPos + 1 == |p.stream| && v.tailTok == p.stream[v.sendPos]
    ensures |v.inflight| == |p.inflight| <= cfg.depth && p == PipeOf(Snap(p.stream, v)) && |ids| + |v.out| == v.pos + 1
    ensures v.inflight != [] ==> |v.inflight[0].drafts| == cfg.K
  {
  }

  lemma {:induction false} LoopSend(ids: seq<Token>, cfg: Config, maxNew: nat, eos: set<Token>, p: Pipe, v: Vars,
                                    ds: seq<Token>)
    requires cfg.depth >= 1 && cfg.K >= 1 && LoopInv(ids, cfg, maxNew, eos, p, v) && !v.done
    requires |ds| == cfg.K && |v.inflight| < cfg.depth && p.stream != []
    ensures LoopInv(ids, cfg, maxNew, eos, Sent(p, ds),
                    v.(calls := v.calls + 1, inflight := v.inflight + [Chunk(v.sendPos, ds)],
                       tailTok := ds[cfg.K - 1], sendPos := v.sendPos + cfg.K,
                       topSlot := Max(v.topSlot, v.sendPos + cfg.K - 1)))
  {
    hide Times, Counted;
    TimesStep(|v.inflight| - v.discard, cfg.K);
    SlotBound(|v.inflight| - v.discard + 1, v.discard, cfg.depth, cfg.K);
  }

  /** The coordinator's variables describe the abstract pipeline. */
  ghost predicate Tracks(ids: seq<Token>, K: nat, p: Pipe, out: seq<Token>, inflight: seq<Chunk>, discard: nat,
                         sendPos: nat, tailTok: Token) {
    && p.out == out != [] && p.inflight == inflight && p.discard == discard <= |inflight|
    && sendPos + 1 == |p.stream| && tailTok == p.stream[sendPos]
    && forall i :: 0 <= i < |inflight| ==> |inflight[i].drafts| == K
  }

  lemma {:induction false} TracksFacts(ids: seq<Token>, K: nat, p: Pipe, out: seq<Token>, inflight: seq<Chunk>,
                                       discard: nat, sendPos: nat, tailTok: Token)
    requires Tracks(ids, K, p, out, inflight, discard, sendPos, tailTok)
    ensures p.out == out && p.inflight == inflight && p.discard == discard <= |inflight|
    ensures inflight != [] ==> |inflight[0].drafts| == K
  {
  }

  lemma {:induction false} TracksRead(ids: seq<Token>, K: nat, p: Pipe, out: seq<Token>, inflight: seq<Chunk>,
                                      discard: nat, sendPos: nat, tailTok: Token, r: seq<Token>)
    requires Tracks(ids, K, p, out, inflight, discard, sendPos, tailTok) && inflight != [] && K >= 1
    requires discard == 0 ==> |r| == K + 1
    ensures var p', rest, ds := Read(ids, p, r), inflight[1..], inflight[0].drafts;
            if discard > 0 then Tracks(ids, K, p', out, rest, discard - 1, sendPos, tailTok)
            else
              var n := Agreed(ds, r);
              if n == K then Tracks(ids, K, p', out + ds, rest, 0, sendPos, tailTok)
              else
                var out' := out + (ds[..n] + [r[n]]);
                Tracks(ids, K, p', out', rest, |rest|, |ids + out'| - 1, r[n])
  {
  }

  /** Last cache slot any draft step may write. */
  function Slot(prompt: nat, depth: nat, K: nat, maxNew: nat): nat {
    prompt + maxNew + depth * K + 7
  }

  lemma {:induction false} CountedGrows(ntok: nat, valid: nat, accepted: nat, spent: nat, nFull: nat, depth: nat)
    requires depth >= 1 && Counted(ntok, valid, accepted, spent, nFull, depth)
    ensures valid < ntok
  {
  }

  lemma {:induction false} CountedFinally(r: Run, spent: nat, depth: nat, maxNew: nat)
    requires depth >= 1 && Counted(r.ntok, r.valid, r.accepted, spent, r.nFull, depth) && r.wasted <= spent
    requires maxNew >= 2 ==> r.valid < maxNew
    ensures Accounted(r, depth, maxNew)
  {
    var e, d := depth - 1, r.valid - r.nFull;
    assert spent <= e * d by {
      TimesIs(d, e);
      assert d * e == e * d;
    }
    if maxNew >= 2 {
      RepliesBounded(e, d, r.valid, r.wasted, maxNew - 1);
    }
  }

  lemma {:induction false} RepliesBounded(e: nat, d: nat, valid: nat, wasted: nat, v: nat)
    requires wasted <= e * d && d <= valid <= v
    ensures valid + wasted <= (e + 1) * v
  {
    assert e * d <= e * v;
    assert (e + 1) * v == e * v + v;
  }

  /** A fresh reply adds its accepted drafts, and one token more when it diverges; a divergence
      makes everything still in flight stale. */
  lemma {:induction false} CountedStep(ntok: nat, valid: nat, accepted: nat, wasted: nat, nFull: nat, depth: nat,
                                       n: nat, full: bool, rest: nat)
    requires depth >= 1 && Counted(ntok, valid, accepted, wasted, nFull, depth) && rest < depth
    requires full ==> n >= 1
    ensures if full then Counted(ntok + n, valid + 1, accepted + n, wasted, nFull + 1, depth)
            else Counted(ntok + n + 1, valid + 1, accepted + n, wasted + rest, nFull, depth)
  {
    TimesStep(valid - nFull, depth - 1);
  }

  /** Token, chunk and waste counts; `spent` counts stale replies read or still to be read. */
  predicate Counted(ntok: nat, valid: nat, accepted: nat, spent: nat, nFull: nat, depth: nat)
    requires depth >= 1
  {
    && ntok + nFull == 1 + accepted + valid
    && nFull <= valid && nFull <= accepted
    && spent <= Times(valid - nFull, depth - 1)
  }
}
