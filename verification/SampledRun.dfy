/** Decoding by speculative sampling, as a function of the generator's draws, and its exact law. */
module SampledRun {
  import opened Decode
  import opened Pipeline
  import opened SpecSample
  import NgramDrafter

  /** The texts a drafter has been asked about so far; the last one is what its next draft extends. */
  type History = seq<seq<Token>>

  /** The target's next-token distribution after each text, the deterministic drafter, whose answer may
      depend on everything it has been asked, and how the coordinator runs: synchronously, taking the
      free bonus token (depth 0), or with `depth` chunks in flight, leaving it to the next chunk. */
  datatype Law = Law(dist: seq<Token> -> seq<real>, drafter: History -> seq<Token>, depth: nat, vocab: nat)

  ghost predicate Lawful(L: Law) {
    && (forall text :: IsDist(L.dist(text)) && |L.dist(text)| == L.vocab)
    && (forall h :: InVocab(L, L.drafter(h)) && (L.depth > 0 ==> L.drafter(h) != []))
  }

  predicate InVocab(L: Law, ds: seq<Token>) {
    forall j :: 0 <= j < |ds| ==> 0 <= ds[j] < L.vocab
  }

  /** A chunk in flight: drafts to be verified after a text. */
  datatype Job = Job(text: seq<Token>, drafts: seq<Token>)

  /** The chunks drafted one after another on top of a text. */
  function Ahead(L: Law, h: History, text: seq<Token>, n: nat): (jobs: seq<Job>)
    ensures |jobs| == n
    decreases n
  {
    if n == 0 then []
    else
      var ds := L.drafter(h + [text]);
      [Job(text, ds)] + Ahead(L, h + [text], text + ds, n - 1)
  }

  /** What has been asked once n drafts have been asked for one on top of another. */
  function AheadAsked(L: Law, h: History, text: seq<Token>, n: nat): History
    decreases n
  {
    if n == 0 then h else AheadAsked(L, h + [text], text + L.drafter(h + [text]), n - 1)
  }

  /** The chunks behind one whose drafts end the text `end`. */
  function Behind(L: Law, h: History, end: seq<Token>): seq<Job> {
    if L.depth <= 1 then [] else Ahead(L, h, end, L.depth - 1)
  }

  /** What has been asked once such a chunk has diverged and `t` is the corrected text: the chunks behind
      it and, beyond them, the draft that was outstanding, all to no effect. */
  function Anew(L: Law, h: History, end: seq<Token>, t: seq<Token>): History {
    AheadAsked(L, h, end, L.depth) + [t]
  }

  /** The first draw a chunk's acceptance leaves unused. */
  function Spent(L: Law, text: seq<Token>, ds: seq<Token>, us: nat -> real, at: nat): nat
    decreases |ds|
  {
    if ds == [] then at + 1
    else if us(at) < Mass(L.dist(text), ds[0]) then Spent(L, text + [ds[0]], ds[1..], us, at + 1)
    else at + 2
  }

  function SpentAll(L: Law, jobs: seq<Job>, us: nat -> real, at: nat): nat
    decreases |jobs|
  {
    if jobs == [] then at
    else SpentAll(L, jobs[1..], us, Spent(L, jobs[0].text, jobs[0].drafts, us, at))
  }

  function Struck(p: seq<real>, d: Token): real {
    if 0 <= d < |p| then Sum(p[d := 0.0]) else 0.0
  }

  /** The first `n` tokens decoded from `text` when the chunk being verified still has the drafts
      `ds`: each draft accepted by its draw, else corrected from the residual, the chunks behind it
      spending their draws to no effect. `h` is what had been asked when the chunk was drafted. */
  ghost function Run(L: Law, h: History, text: seq<Token>, ds: seq<Token>, us: nat -> real, at: nat, n: nat)
    : (r: seq<Token>)
    requires Lawful(L) && UnitDraws(us) && InVocab(L, ds)
    ensures |r| == n
    decreases n, if ds == [] then 1 else 0
  {
    if n == 0 then []
    else if ds == [] then
      if L.depth > 0 then Run(L, h + [text], text, L.drafter(h + [text]), us, at + 1, n)
      else
        var y := Drawn(L.dist(text), us(at));
        var t := text + [y];
        [y] + Run(L, h + [t], t, L.drafter(h + [t]), us, at + 1, n - 1)
    else if us(at) < Mass(L.dist(text), ds[0]) then
      [ds[0]] + Run(L, h, text + [ds[0]], ds[1..], us, at + 1, n - 1)
    else
      ResidualIsDist(L.dist(text), ds[0], us(at));
      var y := Drawn(Residual(L.dist(text), ds[0]), us(at + 1));
      var t := text + [y];
      var h' := Anew(L, h, text + ds, t);
      [y] + Run(L, h', t, L.drafter(h'), us, SpentAll(L, Behind(L, h, text + ds), us, at + 2), n - 1)
  }

  // ----- events on a stream of uniform draws, and their probability -----

  /** A condition on the draws from some point on: the next one lies in a slice and then `rest`, or
      it falls below or not below `cut` and then one or the other condition. */
  datatype Event = Never | Always | Slice(lo: real, hi: real, rest: Event) | Split(cut: real, low: Event, high: Event)

  predicate Holds(e: Event, us: nat -> real, at: nat) {
    match e
    case Never => false
    case Always => true
    case Slice(lo, hi, rest) => lo <= us(at) < hi && Holds(rest, us, at + 1)
    case Split(cut, low, high) => if us(at) < cut then Holds(low, us, at + 1) else Holds(high, us, at + 1)
  }

  predicate IsEvent(e: Event) {
    match e
    case Never => true
    case Always => true
    case Slice(lo, hi, rest) => 0.0 <= lo <= hi <= 1.0 && IsEvent(rest)
    case Split(cut, low, high) => 0.0 <= cut <= 1.0 && IsEvent(low) && IsEvent(high)
  }

  /** Independent uniform draws. */
  function Prob(e: Event): real {
    match e
    case Never => 0.0
    case Always => 1.0
    case Slice(lo, hi, rest) => (hi - lo) * Prob(rest)
    case Split(cut, low, high) => cut * Prob(low) + (1.0 - cut) * Prob(high)
  }

  /** A draw that gives `y`, and then `rest`. */
  function Drawing(p: seq<real>, y: Token, rest: Event): Event {
    if 0 <= y < |p| then Slice(Below(p, y), Below(p, y) + p[y], rest) else Never
  }

  /** `rest` on the draws a stale chunk leaves. */
  function AfterJob(L: Law, text: seq<Token>, ds: seq<Token>, rest: Event): Event
    decreases |ds|
  {
    if ds == [] then Slice(0.0, 1.0, rest)
    else Split(Mass(L.dist(text), ds[0]), AfterJob(L, text + [ds[0]], ds[1..], rest), Slice(0.0, 1.0, rest))
  }

  function AfterJobs(L: Law, jobs: seq<Job>, rest: Event): Event
    decreases |jobs|
  {
    if jobs == [] then rest else AfterJob(L, jobs[0].text, jobs[0].drafts, AfterJobs(L, jobs[1..], rest))
  }

  /** The decoding starts with `x`. */
  function StartsWith(L: Law, h: History, text: seq<Token>, ds: seq<Token>, x: seq<Token>): Event
    decreases |x|, |ds| == 0, |ds|
  {
    if x == [] then Always
    else
      var t := text + [x[0]];
      if ds == [] then
        if L.depth > 0 then
          if L.drafter(h + [text]) == [] then Never
          else Slice(0.0, 1.0, StartsWith(L, h + [text], text, L.drafter(h + [text]), x))
        else Drawing(L.dist(text), x[0], StartsWith(L, h + [t], t, L.drafter(h + [t]), x[1..]))
      else
        var h' := Anew(L, h, text + ds, t);
        Split(Mass(L.dist(text), ds[0]),
              if x[0] == ds[0] then StartsWith(L, h, t, ds[1..], x[1..]) else Never,
              if Struck(L.dist(text), ds[0]) > 0.0 then
                Drawing(Residual(L.dist(text), ds[0]), x[0],
                        AfterJobs(L, Behind(L, h, text + ds), StartsWith(L, h', t, L.drafter(h'), x[1..])))
              else Never)
  }

  /** The target's own probability of continuing `text` with `x`. */
  function Likelihood(L: Law, text: seq<Token>, x: seq<Token>): real
    decreases |x|
  {
    if x == [] then 1.0 else Mass(L.dist(text), x[0]) * Likelihood(L, text + [x[0]], x[1..])
  }

  // ----- the event is exactly what the run does -----

  lemma {:induction false} DrawingExact(p: seq<real>, y: Token, rest: Event, us: nat -> real, at: nat)
    requires IsDist(p) && UnitDraws(us)
    ensures Holds(Drawing(p, y, rest), us, at) <==> Drawn(p, us(at)) == y && Holds(rest, us, at + 1)
  {
    if Draws(p, us(at), y) {
      DrawsUnique(p, us(at), y, Drawn(p, us(at)));
    }
  }

  lemma {:induction false} AfterJobExact(L: Law, text: seq<Token>, ds: seq<Token>, rest: Event, us: nat -> real,
                                         at: nat)
    requires UnitDraws(us)
    ensures Holds(AfterJob(L, text, ds, rest), us, at) <==> Holds(rest, us, Spent(L, text, ds, us, at))
    decreases |ds|
  {
    if ds != [] {
      AfterJobExact(L, text + [ds[0]], ds[1..], rest, us, at + 1);
    }
  }

  lemma {:induction false} AfterJobsExact(L: Law, jobs: seq<Job>, rest: Event, us: nat -> real, at: nat)
    requires UnitDraws(us)
    ensures Holds(AfterJobs(L, jobs, rest), us, at) <==> Holds(rest, us, SpentAll(L, jobs, us, at))
    decreases |jobs|
  {
    if jobs != [] {
      var j := jobs[0];
      AfterJobExact(L, j.text, j.drafts, AfterJobs(L, jobs[1..], rest), us, at);
      AfterJobsExact(L, jobs[1..], rest, us, Spent(L, j.text, j.drafts, us, at));
    }
  }

  lemma {:induction false} HeadTail(y: Token, r: seq<Token>, x: seq<Token>)
    requires x != []
    ensures [y] + r == x <==> y == x[0] && r == x[1..]
  {
    assert x == [x[0]] + x[1..];
    assert ([y] + r)[1..] == r;
  }

  /** Whatever the draws, the run starts with `x` exactly when they satisfy the event. */
  lemma {:induction false} RunExact(L: Law, h: History, text: seq<Token>, ds: seq<Token>, us: nat -> real, at: nat,
                                    x: seq<Token>)
    requires Lawful(L) && UnitDraws(us) && InVocab(L, ds)
    ensures Run(L, h, text, ds, us, at, |x|) == x <==> Holds(StartsWith(L, h, text, ds, x), us, at)
    decreases |x|, |ds| == 0
  {
    hide Drawing, Drawn, Residual, IsDist, AfterJobs, SpentAll, Struck, Sum, StartsWith, Run, Holds, Anew;
    if x == [] {
      NothingExact(L, h, text, ds, us, at);
    } else {
      var t := text + [x[0]];
      if ds == [] {
        if L.depth > 0 {
          RefillExact(L, h, text, us, at, x);
          RunExact(L, h + [text], text, L.drafter(h + [text]), us, at + 1, x);
        } else {
          BonusExact(L, h, text, us, at, x);
          RunExact(L, h + [t], t, L.drafter(h + [t]), us, at + 1, x[1..]);
        }
      } else if us(at) < Mass(L.dist(text), ds[0]) {
        AcceptExact(L, h, text, ds, us, at, x);
        if x[0] == ds[0] {
          RunExact(L, h, t, ds[1..], us, at + 1, x[1..]);
        }
      } else {
        RejectExact(L, h, text, ds, us, at, x);
        var h' := Anew(L, h, text + ds, t);
        RunExact(L, h', t, L.drafter(h'), us, SpentAll(L, Behind(L, h, text + ds), us, at + 2), x[1..]);
      }
    }
  }

  lemma {:induction false} NothingExact(L: Law, h: History, text: seq<Token>, ds: seq<Token>, us: nat -> real, at: nat)
    requires Lawful(L) && UnitDraws(us) && InVocab(L, ds)
    ensures Run(L, h, text, ds, us, at, 0) == [] && Holds(StartsWith(L, h, text, ds, []), us, at)
  {
  }

  lemma {:induction false} RefillExact(L: Law, h: History, text: seq<Token>, us: nat -> real, at: nat, x: seq<Token>)
    requires Lawful(L) && UnitDraws(us) && x != [] && L.depth > 0
    ensures var h' := h + [text];
            Run(L, h, text, [], us, at, |x|) == Run(L, h', text, L.drafter(h'), us, at + 1, |x|) &&
            (Holds(StartsWith(L, h, text, [], x), us, at) <==>
             Holds(StartsWith(L, h', text, L.drafter(h'), x), us, at + 1))
  {
    hide IsDist;
    var h' := h + [text];
    var ds := L.drafter(h');
    assert ds != [];
    var e := StartsWith(L, h', text, ds, x);
    assert StartsWith(L, h, text, [], x) == Slice(0.0, 1.0, e);
  }

  lemma {:induction false} BonusExact(L: Law, h: History, text: seq<Token>, us: nat -> real, at: nat, x: seq<Token>)
    requires Lawful(L) && UnitDraws(us) && x != [] && L.depth == 0 && IsDist(L.dist(text))
    ensures var t := text + [x[0]];
            var h' := h + [t];
            var y := Drawn(L.dist(text), us(at));
            (Run(L, h, text, [], us, at, |x|) == x <==>
             y == x[0] && Run(L, h', t, L.drafter(h'), us, at + 1, |x| - 1) == x[1..]) &&
            (Holds(StartsWith(L, h, text, [], x), us, at) <==>
             y == x[0] && Holds(StartsWith(L, h', t, L.drafter(h'), x[1..]), us, at + 1))
  {
    hide IsDist, Drawing, Drawn;
    var t, y := text + [x[0]], Drawn(L.dist(text), us(at));
    var rest := StartsWith(L, h + [t], t, L.drafter(h + [t]), x[1..]);
    DrawingExact(L.dist(text), x[0], rest, us, at);
    assert StartsWith(L, h, text, [], x) == Drawing(L.dist(text), x[0], rest);
    var ty := text + [y];
    HeadTail(y, Run(L, h + [ty], ty, L.drafter(h + [ty]), us, at + 1, |x| - 1), x);
  }

  lemma {:induction false} AcceptExact(L: Law, h: History, text: seq<Token>, ds: seq<Token>, us: nat -> real, at: nat,
                                       x: seq<Token>)
    requires Lawful(L) && UnitDraws(us) && InVocab(L, ds) && x != [] && ds != []
    requires us(at) < Mass(L.dist(text), ds[0])
    ensures InVocab(L, ds[1..])
    ensures var t := text + [ds[0]];
            (Run(L, h, text, ds, us, at, |x|) == x <==>
             ds[0] == x[0] && Run(L, h, t, ds[1..], us, at + 1, |x| - 1) == x[1..]) &&
            (Holds(StartsWith(L, h, text, ds, x), us, at) <==>
             ds[0] == x[0] && Holds(StartsWith(L, h, t, ds[1..], x[1..]), us, at + 1))
  {
    hide IsDist, Drawing, Drawn, AfterJobs, Residual;
    var t := text + [ds[0]];
    HeadTail(ds[0], Run(L, h, t, ds[1..], us, at + 1, |x| - 1), x);
    var e := StartsWith(L, h, text, ds, x);
    assert e.Split? && e.cut == Mass(L.dist(text), ds[0]);
    assert e.low == if x[0] == ds[0] then StartsWith(L, h, t, ds[1..], x[1..]) else Never;
  }

  lemma {:induction false} RejectExact(L: Law, h: History, text: seq<Token>, ds: seq<Token>, us: nat -> real, at: nat,
                                       x: seq<Token>)
    requires Lawful(L) && UnitDraws(us) && InVocab(L, ds) && x != [] && ds != []
    requires !(us(at) < Mass(L.dist(text), ds[0]))
    ensures var t, at' := text + [x[0]], SpentAll(L, Behind(L, h, text + ds), us, at + 2);
            var h' := Anew(L, h, text + ds, t);
            var rest := StartsWith(L, h', t, L.drafter(h'), x[1..]);
            (Holds(StartsWith(L, h, text, ds, x), us, at) <==>
             Sum(L.dist(text)[ds[0] := 0.0]) > 0.0 && IsDist(Residual(L.dist(text), ds[0])) &&
             Drawn(Residual(L.dist(text), ds[0]), us(at + 1)) == x[0] && Holds(rest, us, at')) &&
            (Run(L, h, text, ds, us, at, |x|) == x <==>
             Sum(L.dist(text)[ds[0] := 0.0]) > 0.0 && IsDist(Residual(L.dist(text), ds[0])) &&
             Drawn(Residual(L.dist(text), ds[0]), us(at + 1)) == x[0] &&
             Run(L, h', t, L.drafter(h'), us, at', |x| - 1) == x[1..])
  {
    hide Drawing, Drawn, Residual, IsDist, AfterJobs, SpentAll, Sum, Anew, Behind;
    var p, t, jobs := L.dist(text), text + [x[0]], Behind(L, h, text + ds);
    assert IsDist(p);
    ResidualIsDist(p, ds[0], us(at));
    var h' := Anew(L, h, text + ds, t);
    var rest := StartsWith(L, h', t, L.drafter(h'), x[1..]);
    DrawingExact(Residual(p, ds[0]), x[0], AfterJobs(L, jobs, rest), us, at + 1);
    AfterJobsExact(L, jobs, rest, us, at + 2);
    var y := Drawn(Residual(p, ds[0]), us(at + 1));
    var ty := text + [y];
    var hy := Anew(L, h, text + ds, ty);
    HeadTail(y, Run(L, hy, ty, L.drafter(hy), us, SpentAll(L, jobs, us, at + 2), |x| - 1), x);
  }

  // ----- its probability is the target's own -----

  lemma {:induction false} DrawingProb(p: seq<real>, y: Token, rest: Event)
    requires IsDist(p) && IsEvent(rest)
    ensures Prob(Drawing(p, y, rest)) == Mul(Mass(p, y), Prob(rest)) && IsEvent(Drawing(p, y, rest))
  {
    if 0 <= y < |p| {
      BelowStep(p, y);
      BelowGrows(p, 0, y);
      BelowGrows(p, y + 1, |p|);
    }
  }

  lemma {:induction false} MassBounds(p: seq<real>, y: Token)
    requires IsDist(p)
    ensures 0.0 <= Mass(p, y) <= 1.0
  {
    if 0 <= y < |p| {
      BelowStep(p, y);
      BelowGrows(p, 0, y);
      BelowGrows(p, y + 1, |p|);
    }
  }

  /** A stale chunk's draws change nothing. */
  lemma {:induction false} AfterJobProb(L: Law, text: seq<Token>, ds: seq<Token>, rest: Event)
    requires Lawful(L) && IsEvent(rest)
    ensures Prob(AfterJob(L, text, ds, rest)) == Prob(rest) && IsEvent(AfterJob(L, text, ds, rest))
    decreases |ds|
  {
    hide IsDist, Mass, Prob;
    SliceUnit(rest);
    if ds != [] {
      var c, low := Mass(L.dist(text), ds[0]), AfterJob(L, text + [ds[0]], ds[1..], rest);
      AfterJobProb(L, text + [ds[0]], ds[1..], rest);
      assert IsDist(L.dist(text));
      MassBounds(L.dist(text), ds[0]);
      SplitSame(c, low, Slice(0.0, 1.0, rest));
    }
  }

  lemma {:induction false} SliceUnit(rest: Event)
    ensures Prob(Slice(0.0, 1.0, rest)) == Prob(rest)
  {
  }

  lemma {:induction false} SplitSame(c: real, low: Event, high: Event)
    requires Prob(low) == Prob(high)
    ensures Prob(Split(c, low, high)) == Prob(low)
  {
  }

  lemma {:induction false} SplitProb(c: real, low: Event, high: Event)
    ensures Prob(Split(c, low, high)) == Mix(c, Prob(low), Prob(high))
    ensures Prob(Never) == 0.0 && Prob(Always) == 1.0
  {
  }

  lemma {:induction false} AfterJobsProb(L: Law, jobs: seq<Job>, rest: Event)
    requires Lawful(L) && IsEvent(rest)
    ensures Prob(AfterJobs(L, jobs, rest)) == Prob(rest) && IsEvent(AfterJobs(L, jobs, rest))
    decreases |jobs|
  {
    if jobs != [] {
      AfterJobsProb(L, jobs[1..], rest);
      AfterJobProb(L, jobs[0].text, jobs[0].drafts, AfterJobs(L, jobs[1..], rest));
    }
  }

  /** One slot: accepting the draft with its own probability and correcting from the residual gives
      every token exactly the target's probability. */
  lemma {:induction false} SlotExact(p: seq<real>, d: Token, y: Token, w: real)
    requires IsDist(p) && 0 <= d < |p|
    ensures Sum(p[d := 0.0]) > 0.0 ==>
              Mass(p, d) * (if y == d then w else 0.0) + (1.0 - Mass(p, d)) * (Mass(Residual(p, d), y) * w)
               == Mass(p, y) * w
    ensures !(Sum(p[d := 0.0]) > 0.0) ==>
              Mass(p, d) * (if y == d then w else 0.0) == Mass(p, y) * w && Mass(p, d) == 1.0
  {
    hide Sum, Residual;
    StruckSum(p, d);
    MassBounds(p, d);
    if Sum(p[d := 0.0]) > 0.0 {
      ResidualIsDist(p, d, p[d]);
      var r := Residual(p, d);
      if y != d && 0 <= y < |p| {
        assert (1.0 - p[d]) * r[y] == p[y];
      }
    } else {
      OnlyMass(p, d, y);
    }
  }

  /** A draft of probability one leaves nothing for any other token. */
  lemma {:induction false} OnlyMass(p: seq<real>, d: nat, y: Token)
    requires IsDist(p) && d < |p| && !(Sum(p[d := 0.0]) > 0.0)
    ensures p[d] == 1.0 && (y != d ==> Mass(p, y) == 0.0)
  {
    StruckSum(p, d);
    MassBounds(p, d);
    var q := p[d := 0.0];
    if y != d && 0 <= y < |p| {
      BelowStep(q, y);
      BelowGrows(q, 0, y);
      BelowGrows(q, y + 1, |q|);
      assert q[y] == p[y];
    }
  }

  /** Exactness: for every target law, every deterministic drafter, every chunk length and depth, the
      probability that decoding starts with `x` is the product of the target's own conditionals. */
  lemma {:induction false} SamplingIsExact(L: Law, h: History, text: seq<Token>, ds: seq<Token>, x: seq<Token>)
    requires Lawful(L) && InVocab(L, ds)
    ensures IsEvent(StartsWith(L, h, text, ds, x)) && Prob(StartsWith(L, h, text, ds, x)) == Likelihood(L, text, x)
    decreases |x|, |ds| == 0
  {
    hide Drawing, Residual, IsDist, AfterJobs, Sum, Mass, Mul, Anew, Behind;
    if x != [] {
      var p, t := L.dist(text), text + [x[0]];
      assert IsDist(p) && |p| == L.vocab;
      LikelihoodStep(L, text, x);
      if ds == [] {
        if L.depth > 0 {
          SamplingIsExact(L, h + [text], text, L.drafter(h + [text]), x);
          SliceUnit(StartsWith(L, h + [text], text, L.drafter(h + [text]), x));
        } else {
          SamplingIsExact(L, h + [t], t, L.drafter(h + [t]), x[1..]);
          DrawingProb(p, x[0], StartsWith(L, h + [t], t, L.drafter(h + [t]), x[1..]));
        }
      } else {
        var h' := Anew(L, h, text + ds, t);
        SamplingIsExact(L, h', t, L.drafter(h'), x[1..]);
        if x[0] == ds[0] {
          SamplingIsExact(L, h, t, ds[1..], x[1..]);
        }
        SlotProb(L, h, text, ds, x);
      }
    }
  }

  lemma {:induction false} SlotProb(L: Law, h: History, text: seq<Token>, ds: seq<Token>, x: seq<Token>)
    requires Lawful(L) && InVocab(L, ds) && x != [] && ds != []
    requires var t := text + [x[0]];
             var h' := Anew(L, h, text + ds, t);
             var rest := StartsWith(L, h', t, L.drafter(h'), x[1..]);
             IsEvent(rest) && Prob(rest) == Likelihood(L, t, x[1..])
    requires x[0] == ds[0] ==> var rest := StartsWith(L, h, text + [x[0]], ds[1..], x[1..]);
                               IsEvent(rest) && Prob(rest) == Likelihood(L, text + [x[0]], x[1..])
    ensures IsEvent(StartsWith(L, h, text, ds, x)) && Prob(StartsWith(L, h, text, ds, x)) == Likelihood(L, text, x)
  {
    hide Drawing, Residual, IsDist, AfterJobs, Sum, Mass, Prob, Likelihood, Anew;
    var p, t, jobs := L.dist(text), text + [x[0]], Behind(L, h, text + ds);
    assert IsDist(p) && |p| == L.vocab;
    var h' := Anew(L, h, text + ds, t);
    var w, rest := Likelihood(L, t, x[1..]), StartsWith(L, h', t, L.drafter(h'), x[1..]);
    var e, c := StartsWith(L, h, text, ds, x), Mass(p, ds[0]);
    SplitShape(L, h, text, ds, x);
    hide StartsWith, AfterJobs, IsEvent, Behind;
    hide Mix, Mul;
    MassBounds(p, ds[0]);
    SplitProb(c, e.low, e.high);
    LikelihoodStep(L, text, x);
    if Sum(p[ds[0] := 0.0]) > 0.0 {
      StruckIsDist(p, ds[0]);
      AfterJobsProb(L, jobs, rest);
      DrawingProb(Residual(p, ds[0]), x[0], AfterJobs(L, jobs, rest));
    }
    SlotBlend(p, ds[0], x[0], w, Prob(e.low), Prob(e.high));
  }

  function Mix(c: real, l: real, h: real): real { c * l + (1.0 - c) * h }

  function Mul(a: real, b: real): real { a * b }

  lemma {:induction false} SlotBlend(p: seq<real>, d: Token, y: Token, w: real, low: real, high: real)
    requires IsDist(p) && 0 <= d < |p|
    requires low == if y == d then w else 0.0
    requires high == if Sum(p[d := 0.0]) > 0.0 then Mul(Mass(Residual(p, d), y), w) else 0.0
    ensures Mix(Mass(p, d), low, high) == Mul(Mass(p, y), w)
  {
    hide Sum, Residual, IsDist;
    SlotExact(p, d, y, w);
  }

  lemma {:induction false} SplitShape(L: Law, h: History, text: seq<Token>, ds: seq<Token>, x: seq<Token>)
    requires x != [] && ds != [] && InVocab(L, ds) && |L.dist(text)| == L.vocab
    ensures var p, t := L.dist(text), text + [x[0]];
            var h' := Anew(L, h, text + ds, t);
            var rest := StartsWith(L, h', t, L.drafter(h'), x[1..]);
            var e := StartsWith(L, h, text, ds, x);
            e.Split? && e.cut == Mass(p, ds[0]) &&
            e.low == (if x[0] == ds[0] then StartsWith(L, h, t, ds[1..], x[1..]) else Never) &&
            e.high == (if Sum(p[ds[0] := 0.0]) > 0.0
                       then Drawing(Residual(p, ds[0]), x[0], AfterJobs(L, Behind(L, h, text + ds), rest)) else Never)
    ensures IsEvent(Never)
  {
    hide Sum, Residual, Drawing, AfterJobs, Anew, Behind;
  }

  lemma {:induction false} LikelihoodStep(L: Law, text: seq<Token>, x: seq<Token>)
    requires x != []
    ensures Likelihood(L, text, x) == Mul(Mass(L.dist(text), x[0]), Likelihood(L, text + [x[0]], x[1..]))
  {
  }

  lemma {:induction false} StruckIsDist(p: seq<real>, d: nat)
    requires IsDist(p) && d < |p| && Sum(p[d := 0.0]) > 0.0
    ensures IsDist(Residual(p, d))
  {
    hide Residual;
    StruckSum(p, d);
    ResidualIsDist(p, d, p[d]);
  }

  // ----- the n-gram drafter is one of these -----

  function Known(vocab: nat, ds: seq<Token>): (r: seq<Token>)
    ensures |r| == |ds| && ((forall j :: 0 <= j < |ds| ==> 0 <= ds[j] < vocab) ==> r == ds)
    ensures vocab > 0 ==> forall j :: 0 <= j < |r| ==> 0 <= r[j] < vocab
  {
    seq(|ds|, j requires 0 <= j < |ds| => if 0 <= ds[j] < vocab then ds[j] else 0)
  }

  /** Drafting from the n-gram index: what it holds depends on every earlier query, stale ones included. */
  function NgramDrafts(c: NgramDrafter.Params, k: nat, vocab: nat, h: History): seq<Token> {
    if h == [] then Known(vocab, seq(k, _ => 0)) else Known(vocab, NgramDrafter.DraftOf(c, h, k))
  }

  lemma {:induction false} NgramLawful(dist: seq<Token> -> seq<real>, c: NgramDrafter.Params, k: nat, depth: nat,
                                       vocab: nat)
    requires vocab > 0 && k > 0 && forall text :: IsDist(dist(text)) && |dist(text)| == vocab
    ensures var L := Law(dist, h => NgramDrafts(c, k, vocab, h), depth, vocab);
            Lawful(L) &&
            forall h: History {:trigger NgramDrafts(c, k, vocab, h)} ::
              h != [] && InVocab(L, h[|h| - 1]) ==> NgramDrafts(c, k, vocab, h) == NgramDrafter.DraftOf(c, h, k)
  {
    hide IsDist;
    var L := Law(dist, h => NgramDrafts(c, k, vocab, h), depth, vocab);
    forall h: History {:trigger NgramDrafts(c, k, vocab, h)} | h != [] && InVocab(L, h[|h| - 1])
      ensures NgramDrafts(c, k, vocab, h) == NgramDrafter.DraftOf(c, h, k)
    {
      NgramDrafter.DraftTokens(c, h, k);
    }
  }
}
