/** What a run commits, reply by reply: which drafts, how much of them, and where it stops. */
module CommitLog {
  import opened Decode
  import opened Pipeline

  /** The output's length after the first token and after every reply that commits, and the drafts of each
      of those replies. */
  datatype Log = Log(ends: seq<nat>, drafts: seq<seq<Token>>)

  /** Drafts that all are the target's own tokens. */
  predicate AllRight(next: Target, text: seq<Token>, ds: seq<Token>)
    requires text != []
  {
    ds == Greedy(next, text, |ds|)
  }

  /** What drafts on a text commit: the leading right ones and the target's own token in place of the first
      wrong one; if all are right themselves alone or, with a bonus, one token more. */
  predicate CommitOf(next: Target, text: seq<Token>, ds: seq<Token>, ys: seq<Token>, bonus: bool)
    requires text != []
  {
    && ys != [] && ys == Greedy(next, text, |ys|)
    && if AllRight(next, text, ds) then |ys| == if ds == [] || bonus then |ds| + 1 else |ds|
       else |ys| <= |ds| && ys[..|ys| - 1] == ds[..|ys| - 1] && ys[|ys| - 1] != ds[|ys| - 1]
  }

  /** There is only one such commit. */
  lemma {:induction false} CommitUnique(next: Target, text: seq<Token>, ds: seq<Token>, ys: seq<Token>, zs: seq<Token>,
                                        bonus: bool)
    requires text != [] && CommitOf(next, text, ds, ys, bonus) && CommitOf(next, text, ds, zs, bonus)
    ensures ys == zs
  {
    hide Greedy, AllRight;
    if AllRight(next, text, ds) {
      assert |ys| == |zs|;
    } else {
      FirstWrong(next, text, ds, ys, bonus);
      FirstWrong(next, text, ds, zs, bonus);
    }
  }

  /** Unless all drafts are right, what is committed ends where the first wrong one stood. */
  lemma {:induction false} FirstWrong(next: Target, text: seq<Token>, ds: seq<Token>, ys: seq<Token>, bonus: bool)
    requires text != [] && CommitOf(next, text, ds, ys, bonus) && !AllRight(next, text, ds)
    ensures var k, g := |ys| - 1, Greedy(next, text, |ds|);
            0 <= k < |ds| && ds[k] != g[k] && forall j :: 0 <= j < k ==> ds[j] == g[j]
  {
    hide Greedy, AllRight;
    var k := |ys| - 1;
    GreedyPrefix(next, text, |ds|, |ys|);
    forall j | 0 <= j < k ensures ds[j] == ys[j] {
      assert ds[..k][j] == ys[..k][j];
    }
  }

  /** r holds the target's token after the text and after each draft. */
  predicate Judged(next: Target, text: seq<Token>, ds: seq<Token>, r: seq<Token>) {
    |r| == |ds| + 1 && forall j :: 0 <= j < |r| ==> r[j] == next(text + ds[..j])
  }

  lemma {:induction false} JudgedAt(next: Target, text: seq<Token>, ds: seq<Token>, r: seq<Token>, j: nat)
    requires Judged(next, text, ds, r) && j <= |ds|
    ensures |r| == |ds| + 1 && r[j] == next(text + ds[..j])
  {
  }

  /** The equality loop commits that. */
  lemma {:induction false} CommitsAre(next: Target, text: seq<Token>, ds: seq<Token>, r: seq<Token>)
    requires text != [] && Judged(next, text, ds, r)
    ensures |r| == |ds| + 1
    ensures var n := Agreed(ds, r);
            CommitOf(next, text, ds, ds[..n] + [r[n]], true) &&
            (n < |ds| || ds == [] ==> CommitOf(next, text, ds, ds[..n] + [r[n]], false)) &&
            (n == |ds| && ds != [] ==> CommitOf(next, text, ds, ds, false))
  {
    hide Greedy, Agreed, Judged;
    JudgedAt(next, text, ds, r, 0);
    var n := Agreed(ds, r);
    var ys := ds[..n] + [r[n]];
    AgreedGreedy(next, text, ds, r, n);
    assert ys[..n] == ds[..n];
    if n < |ds| {
      assert ys[n] != ds[n];
      GreedyPrefix(next, text, |ds|, n + 1);
      assert Greedy(next, text, |ds|)[..n + 1][n] == ys[n];
    } else {
      assert ds[..n] == ds;
    }
  }

  lemma {:induction false} AgreedNext(next: Target, text: seq<Token>, ds: seq<Token>, r: seq<Token>, n: nat, j: nat)
    requires j <= n <= |ds| < |r| && Judged(next, text, ds, r)
    requires forall i :: 0 <= i < n ==> ds[i] == r[i]
    ensures var ys := ds[..n] + [r[n]]; ys[j] == next(text + ys[..j])
  {
    assert (ds[..n] + [r[n]])[..j] == ds[..j];
    JudgedAt(next, text, ds, r, j);
  }

  lemma {:induction false} AgreedGreedy(next: Target, text: seq<Token>, ds: seq<Token>, r: seq<Token>, n: nat)
    requires text != [] && n <= |ds| < |r| && Judged(next, text, ds, r)
    requires forall j :: 0 <= j < n ==> ds[j] == r[j]
    ensures var ys := ds[..n] + [r[n]];
            ys == Greedy(next, text, n + 1) && ds[..n] == Greedy(next, text, n)
  {
    hide Greedy, Judged;
    var ys := ds[..n] + [r[n]];
    forall j | 0 <= j < |ys| ensures ys[j] == next(text + ys[..j]) {
      AgreedNext(next, text, ds, r, n, j);
    }
    GreedyAlone(next, text, ys);
    GreedyPrefix(next, text, n + 1, n);
    assert ys[..n] == ds[..n];
  }

  lemma {:induction false} GreedyAlone(next: Target, text: seq<Token>, ys: seq<Token>)
    requires text != [] && forall j :: 0 <= j < |ys| ==> ys[j] == next(text + ys[..j])
    ensures ys == Greedy(next, text, |ys|)
  {
    hide Greedy;
    NoneGreedy(next, text);
    assert text + [] == text;
    GreedyExtends(next, text, [], ys);
    assert [] + ys == ys;
  }

  /** A fresh chunk's reply judges its drafts on the committed text. */
  lemma {:induction false} HeadJudged(next: Target, ids: seq<Token>, p: Pipe, r: seq<Token>)
    requires p.inflight != [] && Overlays(ids, p) && Answers(next, p.stream, p.inflight[0], r)
    ensures Judged(next, ids + p.out, p.inflight[0].drafts, r)
  {
    var c, text := p.inflight[0], ids + p.out;
    forall j | 0 <= j < |r| ensures r[j] == next(text + c.drafts[..j]) {
      assert (text + c.drafts)[..c.start + j + 1] == text + c.drafts[..j];
      assert p.stream[..c.start + j + 1] == (text + c.drafts)[..c.start + j + 1];
    }
  }

  lemma {:induction false} NoneGreedy(next: Target, text: seq<Token>)
    requires text != []
    ensures Greedy(next, text, 0) == []
  {
  }

  // ----- the log -----

  predicate CommitAt(next: Target, ids: seq<Token>, out: seq<Token>, log: Log, bonus: bool, i: nat)
    requires ids != [] && |log.ends| == |log.drafts| + 1 && i < |log.drafts|
  {
    log.ends[i] < log.ends[i + 1] <= |out| &&
    CommitOf(next, ids + out[..log.ends[i]], log.drafts[i], out[log.ends[i]..log.ends[i + 1]], bonus)
  }

  /** The output is the first `first` tokens and the commits logged, in order. */
  ghost predicate Records(next: Target, ids: seq<Token>, first: nat, out: seq<Token>, log: Log, bonus: bool)
    requires ids != []
  {
    && |log.ends| == |log.drafts| + 1 && log.ends[0] == first && log.ends[|log.drafts|] == |out|
    && forall i :: 0 <= i < |log.drafts| ==> CommitAt(next, ids, out, log, bonus, i)
  }

  /** Whether a reply's last token or any of its tokens can end the text. */
  datatype Rule = LastToken | AnyToken

  predicate Closes(rule: Rule, ys: seq<Token>, eos: set<Token>) {
    match rule
    case LastToken => ys != [] && ys[|ys| - 1] in eos
    case AnyToken => exists i :: 0 <= i < |ys| && ys[i] in eos
  }

  /** The run is to stop after its i-th reply. */
  predicate Halts(rule: Rule, out: seq<Token>, log: Log, maxNew: nat, eos: set<Token>, i: nat)
    requires |log.ends| == |log.drafts| + 1 && i < |log.drafts|
  {
    log.ends[i] <= log.ends[i + 1] <= |out| &&
    (maxNew <= log.ends[i + 1] || Closes(rule, out[log.ends[i]..log.ends[i + 1]], eos))
  }

  /** No reply but possibly the last is one to stop after, and the last is if the run is done. */
  ghost predicate Stopping(rule: Rule, out: seq<Token>, log: Log, maxNew: nat, eos: set<Token>, done: bool) {
    |log.ends| == |log.drafts| + 1 &&
    forall i :: 0 <= i < |log.drafts| ==>
                  (Halts(rule, out, log, maxNew, eos, i) <==> done && i == |log.drafts| - 1)
  }

  function More(log: Log, out: seq<Token>, ds: seq<Token>): Log {
    Log(log.ends + [|out|], log.drafts + [ds])
  }

  lemma {:induction false} RecordsStart(rule: Rule, next: Target, ids: seq<Token>, out: seq<Token>, bonus: bool,
                                        maxNew: nat, eos: set<Token>)
    requires ids != []
    ensures var log := Log([|out|], []);
            Records(next, ids, |out|, out, log, bonus) && Stopping(rule, out, log, maxNew, eos, false)
  {
  }

  lemma {:induction false} RecordsShape(next: Target, ids: seq<Token>, first: nat, out: seq<Token>, log: Log,
                                        bonus: bool)
    requires ids != [] && Records(next, ids, first, out, log, bonus)
    ensures |log.ends| == |log.drafts| + 1 && log.ends[0] == first <= |out| && log.ends[|log.drafts|] == |out|
    ensures forall i :: 0 <= i < |log.ends| ==> log.ends[i] <= |out|
  {
    hide CommitOf;
    forall i | 0 <= i < |log.ends| ensures log.ends[i] <= |out| {
      assert i < |log.drafts| ==> CommitAt(next, ids, out, log, bonus, i);
    }
  }

  /** One more commit. */
  lemma {:induction false} RecordsMore(rule: Rule, next: Target, ids: seq<Token>, first: nat, out: seq<Token>, log: Log,
                                       bonus: bool, maxNew: nat, eos: set<Token>, ds: seq<Token>, ys: seq<Token>)
    requires ids != [] && Records(next, ids, first, out, log, bonus) && Stopping(rule, out, log, maxNew, eos, false)
    requires CommitOf(next, ids + out, ds, ys, bonus)
    ensures var log' := More(log, out + ys, ds);
            Records(next, ids, first, out + ys, log', bonus) &&
            Stopping(rule, out + ys, log', maxNew, eos, maxNew <= |out + ys| || Closes(rule, ys, eos))
  {
    hide CommitOf, Closes;
    var all, n := out + ys, |log.drafts|;
    var log' := More(log, all, ds);
    assert all[..|out|] == out && all[|out|..|all|] == ys;
    forall i | 0 <= i < n
      ensures CommitAt(next, ids, all, log', bonus, i)
      ensures Halts(rule, all, log', maxNew, eos, i) <==> Halts(rule, out, log, maxNew, eos, i)
    {
      assert CommitAt(next, ids, out, log, bonus, i);
      Untouched(out, ys, log.ends[i], log.ends[i + 1]);
    }
    assert CommitAt(next, ids, all, log', bonus,
                    n) by { assert ys != [] by { CommitSome(next, ids + out, ds, ys, bonus); } }
  }

  lemma {:induction false} CommitSome(next: Target, text: seq<Token>, ds: seq<Token>, ys: seq<Token>, bonus: bool)
    requires text != [] && CommitOf(next, text, ds, ys, bonus)
    ensures ys != []
  {
  }

  lemma {:induction false} Untouched(out: seq<Token>, ys: seq<Token>, a: nat, b: nat)
    requires a <= b <= |out|
    ensures (out + ys)[..a] == out[..a] && (out + ys)[a..b] == out[a..b]
  {
  }

  /** A run that has stopped was short of the cap before its last reply and, if any token can end the text, had
      committed none that does. */
  lemma {:induction false} StopsInTime(rule: Rule, next: Target, ids: seq<Token>, first: nat, out: seq<Token>, log: Log,
                                       bonus: bool, maxNew: nat, eos: set<Token>)
    requires ids != [] && Records(next, ids, first, out, log, bonus) && Stopping(rule, out, log, maxNew, eos, true)
    requires log.drafts != [] && first < maxNew
    ensures var before := log.ends[|log.drafts| - 1];
            before < |out| && before < maxNew &&
            (rule == AnyToken ==> forall j :: first <= j < before ==> out[j] !in eos)
  {
    var n := |log.drafts| - 1;
    RecordsShape(next, ids, first, out, log, bonus);
    assert CommitAt(next, ids, out, log, bonus, n);
    NoneBefore(rule, next, ids, first, out, log, bonus, maxNew, eos, n);
  }

  lemma {:induction false} NoneBefore(rule: Rule, next: Target, ids: seq<Token>, first: nat, out: seq<Token>, log: Log,
                                      bonus: bool, maxNew: nat, eos: set<Token>, i: nat)
    requires ids != [] && Records(next, ids, first, out, log, bonus) && Stopping(rule, out, log, maxNew, eos, true)
    requires i < |log.drafts| && first < maxNew
    ensures log.ends[i] <= |out| && log.ends[i] < maxNew
    ensures rule == AnyToken ==> forall j :: first <= j < log.ends[i] ==> out[j] !in eos
    decreases i
  {
    hide CommitOf;
    RecordsShape(next, ids, first, out, log, bonus);
    if i > 0 {
      NoneBefore(rule, next, ids, first, out, log, bonus, maxNew, eos, i - 1);
      assert CommitAt(next, ids, out, log, bonus, i - 1) && !Halts(rule, out, log, maxNew, eos, i - 1);
      var ys := out[log.ends[i - 1]..log.ends[i]];
      if rule == AnyToken {
        forall j | first <= j < log.ends[i] ensures out[j] !in eos {
          assert j >= log.ends[i - 1] ==> ys[j - log.ends[i - 1]] == out[j];
        }
      }
    }
  }

  // ----- two logs -----

  /** Two logs agree on their first n replies. */
  predicate Alike(a: Log, b: Log, n: nat) {
    && n < |a.ends| && n < |b.ends| && a.ends[..n + 1] == b.ends[..n + 1]
    && n <= |a.drafts| && n <= |b.drafts| && a.drafts[..n] == b.drafts[..n]
  }

  /** With the same drafts on the next reply, they agree on it too. */
  lemma {:induction false} AlikeNext(next: Target, ids: seq<Token>, first: nat, x: seq<Token>, y: seq<Token>, a: Log,
                                     b: Log, bonus: bool, n: nat)
    requires ids != [] && Records(next, ids, first, x, a, bonus) && Records(next, ids, first, y, b, bonus)
    requires Alike(a, b, n) && n < |a.drafts| && n < |b.drafts| && a.drafts[n] == b.drafts[n]
    requires a.ends[n] <= |x| && a.ends[n] <= |y| && x[..a.ends[n]] == y[..a.ends[n]]
    ensures Alike(a, b, n + 1) && a.ends[n + 1] <= |x| && a.ends[n + 1] <= |y|
    ensures x[..a.ends[n + 1]] == y[..a.ends[n + 1]]
  {
    hide CommitOf;
    assert CommitAt(next, ids, x, a, bonus, n) && CommitAt(next, ids, y, b, bonus, n);
    assert a.ends[n] == a.ends[..n + 1][n] == b.ends[n];
    var e := a.ends[n];
    CommitUnique(next, ids + x[..e], a.drafts[n], x[e..a.ends[n + 1]], y[e..b.ends[n + 1]], bonus);
    assert x[..a.ends[n + 1]] == x[..e] + x[e..a.ends[n + 1]];
    assert y[..b.ends[n + 1]] == y[..e] + y[e..b.ends[n + 1]];
    assert a.ends[..n + 2] == a.ends[..n + 1] + [a.ends[n + 1]];
    assert b.ends[..n + 2] == b.ends[..n + 1] + [b.ends[n + 1]];
    assert a.drafts[..n + 1] == a.drafts[..n] + [a.drafts[n]] && b.drafts[..n + 1] == b.drafts[..n] + [b.drafts[n]];
  }

  /** If they agree on all replies of both, one cannot stop before the other. */
  lemma {:induction false} AlikeStop(rule: Rule, x: seq<Token>, y: seq<Token>, a: Log, b: Log, maxNew: nat,
                                     eos: set<Token>, n: nat)
    requires Stopping(rule, x, a, maxNew, eos, true) && Stopping(rule, y, b, maxNew, eos, true)
    requires 0 < n && Alike(a, b, n) && a.ends[n] <= |x| && a.ends[n] <= |y| && x[..a.ends[n]] == y[..a.ends[n]]
    ensures n == |a.drafts| <==> n == |b.drafts|
  {
    hide Closes;
    assert a.ends[n] == a.ends[..n + 1][n] && a.ends[n - 1] == a.ends[..n + 1][n - 1];
    assert b.ends[n] == b.ends[..n + 1][n] && b.ends[n - 1] == b.ends[..n + 1][n - 1];
    var s, e := a.ends[n - 1], a.ends[n];
    if s <= e {
      assert x[s..e] == x[..e][s..] && y[s..e] == y[..e][s..];
    }
    assert Halts(rule, x, a, maxNew, eos, n - 1) <==> Halts(rule, y, b, maxNew, eos, n - 1);
  }

  lemma {:induction false} SamePrefix(next: Target, ids: seq<Token>, x: seq<Token>, y: seq<Token>, k: nat)
    requires ids != [] && x == Greedy(next, ids, |x|) && y == Greedy(next, ids, |y|) && k <= |x| && k <= |y|
    ensures x[..k] == y[..k]
  {
    GreedyPrefix(next, ids, |x|, k);
    GreedyPrefix(next, ids, |y|, k);
  }
}
