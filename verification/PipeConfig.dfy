/** A pipelined run's settings: its token budget, how far it speculates, and what it asks its draft. */
module PipeConfig {
  import opened Decode
  import opened StopRule
  import opened NgramDrafter

  datatype Config = Config(K: nat, depth: nat, prefillChunk: nat, prefillDepth: nat, maxCtx: nat, draftCtx: nat,
                           ignoreEos: bool)

  /** The token budget, clamped to the context window. */
  function Budget(cfg: Config, maxNew: nat, prompt: nat, resume: nat): (b: nat)
    ensures cfg.maxCtx == 0 ==> b == maxNew
    ensures resume + 16 <= maxNew <= cfg.maxCtx - prompt - resume - 16 ==> b == maxNew
    ensures cfg.maxCtx > 0 && cfg.maxCtx - prompt - resume - 16 <= maxNew ==>
              b == if resume + 16 <= cfg.maxCtx - prompt - resume - 16 then cfg.maxCtx - prompt - resume - 16
                   else resume + 16
    ensures cfg.maxCtx > 0 && maxNew <= resume + 16 ==> b == resume + 16
  {
    if cfg.maxCtx == 0 then maxNew
    else Max(resume + 16, Min(maxNew, cfg.maxCtx - (prompt + resume) - 16))
  }

  /** No window, or one in which what is asked for fits with the resumed tokens charged twice. */
  predicate Whole(cfg: Config, maxNew: nat, prompt: nat, resume: nat) {
    cfg.maxCtx == 0 || resume + 16 <= maxNew <= cfg.maxCtx - prompt - resume - 16
  }

  /** Then what is asked for is what is budgeted. */
  lemma {:induction false} WholeBudget(cfg: Config, maxNew: nat, prompt: nat, resume: nat)
    ensures Whole(cfg, maxNew, prompt, resume) ==> Budget(cfg, maxNew, prompt, resume) == maxNew
  {
  }

  /** How far the speculation can be ahead of the committed text. */
  function Lag(cfg: Config): nat {
    cfg.depth * cfg.K
  }

  /** The longest text, drafts included, that a run with this budget sends or asks about. */
  function Reached(cfg: Config, budget: nat, prompt: nat, resume: nat): nat {
    prompt + Max(resume + 1, budget - 1) + Lag(cfg)
  }

  function Longest(cfg: Config, maxNew: nat, prompt: nat, resume: nat): nat {
    Reached(cfg, Budget(cfg, maxNew, prompt, resume), prompt, resume)
  }

  lemma {:induction false} LagCovers(cfg: Config)
    requires cfg.depth >= 1
    ensures cfg.K <= Lag(cfg)
  {
    assert (cfg.depth - 1) * cfg.K >= 0;
  }

  /** The draft is asked about the last `draftCtx` tokens of the stream (all of it when 0). */
  function DraftQuery(cfg: Config, text: seq<Token>): (q: seq<Token>)
    ensures cfg.draftCtx == 0 || |text| <= cfg.draftCtx ==> q == text
    ensures cfg.draftCtx != 0 ==> |q| <= cfg.draftCtx
    ensures 0 < cfg.draftCtx <= |text| ==> |q| == cfg.draftCtx && forall i :: 0 <= i < |q| ==>
                                                                                q[i] == text[|text| - |q| + i]
  {
    if cfg.draftCtx == 0 || |text| <= cfg.draftCtx then text else text[|text| - cfg.draftCtx..]
  }

  // ----- the budget of a resumed run -----

  /** The resumed tokens do not move the budget: there is no window, nothing is resumed, the budget asked
      for fits with the resumed tokens charged twice, or the floor of 16 lands on the full run's budget. */
  predicate BudgetKept(cfg: Config, maxNew: nat, prompt: nat, resume: nat) {
    || cfg.maxCtx == 0
    || resume == 0
    || resume + 16 <= maxNew <= cfg.maxCtx - prompt - resume - 16
    || Min(maxNew, cfg.maxCtx - prompt - 16) == resume + 16
  }

  lemma {:induction false} ResumeBudget(cfg: Config, maxNew: nat, prompt: nat, resume: nat)
    ensures Budget(cfg, maxNew, prompt, resume) == Budget(cfg, maxNew, prompt, 0) <==>
            BudgetKept(cfg, maxNew, prompt, resume)
  {
  }

  /** 400 resumed tokens, in the window once as text and once as output, cost 316 tokens of the answer of
      a target that never stops. */
  lemma {:induction false} ResumeChargedTwice(cfg: Config, next: Target, prompt: seq<Token>, eos: Token)
    requires cfg.maxCtx == 1000 && |prompt| == 100 && forall text :: next(text) == eos + 1
    ensures Budget(cfg, 800, 100, 0) == 800 && Budget(cfg, 800, 100, 400) == 484
    ensures Answer(next, prompt, {eos}, 484) != Answer(next, prompt, {eos}, 800)
  {
    GreedyConstant(next, prompt, 485, eos + 1);
    AnswersAgree(next, prompt, {eos}, 484, 800);
  }

  lemma {:induction false} GreedyConstant(next: Target, ids: seq<Token>, n: nat, t: Token)
    requires ids != [] && forall text :: next(text) == t
    ensures forall i :: 0 <= i < n ==> Greedy(next, ids, n)[i] == t
    decreases n
  {
    if n > 0 { GreedyConstant(next, ids, n - 1, t); }
  }

  /** Against one target, a resumed run's answer is the uninterrupted one's exactly when the budgets are
      equal or the text ends by itself within the smaller of them. */
  lemma {:induction false} ResumeAnswers(next: Target, cfg: Config, maxNew: nat, prompt: seq<Token>, resume: nat,
                                         eos: Token)
    requires prompt != []
    ensures var a, b := Budget(cfg, maxNew, |prompt|, resume), Budget(cfg, maxNew, |prompt|, 0);
            Answer(next, prompt, {eos}, a) == Answer(next, prompt, {eos}, b) <==>
            BudgetKept(cfg, maxNew, |prompt|, resume) || eos in Greedy(next, prompt, Min(a, b) + 1)
  {
    var a, b := Budget(cfg, maxNew, |prompt|, resume), Budget(cfg, maxNew, |prompt|, 0);
    ResumeBudget(cfg, maxNew, |prompt|, resume);
    AnswersAgree(next, prompt, {eos}, a, b);
  }

  /** Whatever the target, a resumed run answers as an uninterrupted one would, exactly when the budget is
      kept. */
  lemma {:induction false} ResumeFaithful(cfg: Config, maxNew: nat, prompt: seq<Token>, resume: nat, eos: Token)
    requires prompt != []
    ensures (forall next: Target ::
               Answer(next, prompt, {eos}, Budget(cfg, maxNew, |prompt|, resume)) ==
               Answer(next, prompt, {eos}, Budget(cfg, maxNew, |prompt|, 0)))
            <==> BudgetKept(cfg, maxNew, |prompt|, resume)
  {
    ResumeBudget(cfg, maxNew, |prompt|, resume);
    if !BudgetKept(cfg, maxNew, |prompt|, resume) {
      var a, b := Budget(cfg, maxNew, |prompt|, resume), Budget(cfg, maxNew, |prompt|, 0);
      var endless: Target := (text: seq<Token>) => eos + 1;
      GreedyConstant(endless, prompt, Min(a, b) + 1, eos + 1);
      AnswersAgree(endless, prompt, {eos}, a, b);
    }
  }

  // ----- what the clamp keeps within the window -----

  /** Prompt and budget stay within the window unless the floor of 16 tokens overrides the clamp. */
  lemma {:induction false} ClampKeeps(cfg: Config, maxNew: nat, prompt: nat, resume: nat)
    requires cfg.maxCtx > 0
    ensures prompt + Budget(cfg, maxNew, prompt, resume) <= cfg.maxCtx <==> prompt + resume + 16 <= cfg.maxCtx
  {
  }

  /** Buffers as long as the window hold the speculation too exactly when the floor leaves it room, and
      either the budget asked for does or at most 17 + resume tokens are speculated. */
  lemma {:induction false} SpeculationKeeps(cfg: Config, maxNew: nat, prompt: nat, resume: nat)
    requires cfg.maxCtx > 0
    ensures Longest(cfg, maxNew, prompt, resume) <= cfg.maxCtx <==>
            prompt + resume + 15 + Lag(cfg) <= cfg.maxCtx &&
            (prompt + maxNew - 1 + Lag(cfg) <= cfg.maxCtx || Lag(cfg) <= resume + 17)
  {
    hide Lag;
  }

  // ----- draft queries and the n-gram index -----

  /** What an index with this margin keeps of one query, a later one repeats: for a window that is always
      full, only if it keeps nothing; for one never reached, if the margin covers the speculation or
      every text. */
  predicate Settles(cfg: Config, lag: nat, margin: nat, longest: nat) {
    if cfg.draftCtx == 0 || longest <= cfg.draftCtx then lag <= margin || longest <= margin else cfg.draftCtx <= margin
  }

  /** Of two texts, the later keeps all but the last `lag` tokens of the earlier. */
  predicate Succeeds(t: seq<Token>, u: seq<Token>, lag: nat, longest: nat) {
    |t| <= longest && |u| <= longest && Stem(t, lag) <= u
  }

  predicate Repeats(cfg: Config, margin: nat, t: seq<Token>, u: seq<Token>) {
    Stem(DraftQuery(cfg, t), margin) <= DraftQuery(cfg, u)
  }

  /** Over all texts up to a length, the index stays right exactly under that condition. */
  lemma {:induction false} WindowSettles(cfg: Config, lag: nat, margin: nat, longest: nat)
    ensures (forall t, u :: Succeeds(t, u, lag, longest) ==> Repeats(cfg, margin, t, u)) <==>
            Settles(cfg, lag, margin, longest)
  {
    if Settles(cfg, lag, margin, longest) {
      forall t, u | Succeeds(t, u, lag, longest) ensures Repeats(cfg, margin, t, u) {
        SettlesPair(cfg, lag, margin, longest, t, u);
      }
    } else if cfg.draftCtx == 0 || longest <= cfg.draftCtx {
      var t := seq(longest, i => 0);
      var u := seq(longest, i => if i < longest - lag then 0 else 1);
      assert Stem(t, lag) <= u;
      assert !Repeats(cfg, margin, t, u) by {
        var k := Max(0, longest - lag);
        assert Stem(t, margin)[k] == 0 && u[k] == 1;
      }
      assert Succeeds(t, u, lag, longest);
    } else {
      var w := cfg.draftCtx;
      var t: seq<Token>, u: seq<Token> := seq(w, i => i), seq(w + 1, i => i);
      assert t <= u && Stem(t, lag) <= u;
      assert !Repeats(cfg, margin, t, u) by {
        assert Stem(t, margin)[0] == 0 && DraftQuery(cfg, u)[0] == 1;
      }
      assert Succeeds(t, u, lag, longest);
    }
  }

  lemma {:induction false} SettlesPair(cfg: Config, lag: nat, margin: nat, longest: nat, t: seq<Token>, u: seq<Token>)
    requires Settles(cfg, lag, margin, longest) && Succeeds(t, u, lag, longest)
    ensures Repeats(cfg, margin, t, u)
  {
    if lag <= margin {
      assert Stem(t, margin) <= Stem(t, lag);
    }
  }

  /** A query that slides past the start of the one before: every indexed position has moved. */
  lemma {:induction false} WindowSlides(cfg: Config)
    requires cfg.draftCtx == 3
    ensures !Repeats(cfg, 2, [1, 2, 3], [1, 2, 3, 4])
  {
    assert DraftQuery(cfg, [1, 2, 3, 4]) == [2, 3, 4];
    assert Stem([1, 2, 3], 2)[0] == 1;
  }

  /** The margins that suit a run: those for its own lag and its longest text. */
  predicate Suits(cfg: Config, margin: nat, maxNew: nat, prompt: nat, resume: nat) {
    Settles(cfg, Lag(cfg), margin, Longest(cfg, maxNew, prompt, resume))
  }
}
