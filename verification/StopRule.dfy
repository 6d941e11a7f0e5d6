/** Where a decode stops, and how runs that stop at different places are compared. */
module StopRule {
  import opened Decode

  function UpToEos(s: seq<Token>, eos: set<Token>): (r: seq<Token>)
    ensures r <= s && (forall i :: 0 <= i < |r| ==> r[i] !in eos)
    ensures |r| < |s| ==> s[|r|] in eos
  {
    if s == [] || s[0] in eos then [] else [s[0]] + UpToEos(s[1..], eos)
  }

  /** The text up to its first end-of-sequence token, at most `maxNew` tokens of it. */
  function CutCap(s: seq<Token>, eos: set<Token>, maxNew: nat): seq<Token> {
    var c := UpToEos(s, eos);
    c[..Min(|c|, maxNew)]
  }

  /** A final end-of-sequence token is dropped from the output. */
  function Trimmed(out: seq<Token>, eos: set<Token>): seq<Token> {
    if out != [] && out[|out| - 1] in eos then out[..|out| - 1] else out
  }

  /** The answer a prompt is owed: the plain greedy continuation, cut and capped. */
  function Answer(next: Target, ids: seq<Token>, eos: set<Token>, maxNew: nat): seq<Token>
    requires ids != []
  {
    CutCap(Greedy(next, ids, maxNew), eos, maxNew)
  }

  lemma {:induction false} CutUnique(s: seq<Token>, eos: set<Token>, c: seq<Token>)
    requires c <= s && (forall i :: 0 <= i < |c| ==> c[i] !in eos) && (|c| < |s| ==> s[|c|] in eos)
    ensures UpToEos(s, eos) == c
  {
    var u := UpToEos(s, eos);
    assert forall i :: 0 <= i < |u| ==> u[i] == s[i] && s[i] !in eos;
    assert forall i :: 0 <= i < |c| ==> c[i] == s[i] && s[i] !in eos;
  }

  /** Two runs of one decode that each reached the length cap or an end-of-sequence token are
      equal once cut and capped - however far past its stopping point either ran. */
  lemma {:induction false} CutCapDecided(a: seq<Token>, b: seq<Token>, eos: set<Token>, maxNew: nat)
    requires a <= b
    requires maxNew <= |a| || exists i :: 0 <= i < |a| && a[i] in eos
    ensures CutCap(a, eos, maxNew) == CutCap(b, eos, maxNew)
  {
    var u, v := UpToEos(a, eos), UpToEos(b, eos);
    if |u| < |a| {
      CutUnique(b, eos, u);
    } else {
      assert u == a;
      assert a <= v;
    }
  }

  lemma {:induction false} TrimHarmless(a: seq<Token>, eos: set<Token>)
    ensures UpToEos(Trimmed(a, eos), eos) == UpToEos(a, eos)
  {
    var u := UpToEos(a, eos);
    assert a != [] && a[|a| - 1] in eos ==> |u| < |a|;
    CutUnique(Trimmed(a, eos), eos, u);
  }

  /** Any greedy run that went on until it had `maxNew` tokens or an end-of-sequence token gives
      the same answer, trimmed or not. */
  lemma {:induction false} StoppedRunAnswers(next: Target, ids: seq<Token>, out: seq<Token>, eos: set<Token>,
                                             maxNew: nat)
    requires ids != [] && out == Greedy(next, ids, |out|)
    requires maxNew <= |out| || exists i :: 0 <= i < |out| && out[i] in eos
    ensures CutCap(out, eos, maxNew) == Answer(next, ids, eos, maxNew)
    ensures var t := Trimmed(out, eos);
            CutCap(t, eos, maxNew) == Answer(next, ids, eos, maxNew) && t == Greedy(next, ids, |t|)
  {
    GreedyPrefix(next, ids, |out|, |Trimmed(out, eos)|);
    var g := Greedy(next, ids, maxNew);
    if maxNew <= |out| {
      GreedyPrefix(next, ids, |out|, maxNew);
      CutCapDecided(g, out, eos, maxNew);
    } else {
      GreedyPrefix(next, ids, maxNew, |out|);
      CutCapDecided(out, g, eos, maxNew);
    }
    TrimHarmless(out, eos);
  }

  lemma {:induction false} CutAgain(out: seq<Token>, eos: set<Token>, cap: nat)
    ensures CutCap(UpToEos(out, eos), eos, cap) == CutCap(out, eos, cap)
    ensures forall e :: e in eos ==> e !in UpToEos(out, eos)
  {
    CutUnique(UpToEos(out, eos), eos, UpToEos(out, eos));
  }

  /** The text ends by itself. */
  predicate Ends(s: seq<Token>, eos: set<Token>) {
    exists t :: t in s && t in eos
  }

  /** Two caps give one answer exactly when they are equal or the text ends by itself no later than at
      the smaller cap. */
  lemma {:induction false} AnswersAgree(next: Target, ids: seq<Token>, eos: set<Token>, a: nat, b: nat)
    requires ids != []
    ensures Answer(next, ids, eos, a) == Answer(next, ids, eos, b) <==>
            a == b || Ends(Greedy(next, ids, Min(a, b) + 1), eos)
  {
    if a < b {
      CapsAgree(next, ids, eos, a, b);
    } else if b < a {
      CapsAgree(next, ids, eos, b, a);
    }
  }

  lemma {:induction false} CapsAgree(next: Target, ids: seq<Token>, eos: set<Token>, a: nat, b: nat)
    requires ids != [] && a < b
    ensures Answer(next, ids, eos, a) == Answer(next, ids, eos, b) <==>
            Ends(Greedy(next, ids, a + 1), eos)
  {
    var g, h, m := Greedy(next, ids, a), Greedy(next, ids, b), Greedy(next, ids, a + 1);
    GreedyPrefix(next, ids, b, a);
    GreedyPrefix(next, ids, b, a + 1);
    GreedyPrefix(next, ids, a + 1, a);
    var u, v := UpToEos(g, eos), UpToEos(h, eos);
    if |v| <= a {
      assert m[|v|] == h[|v|];
      CutUnique(g, eos, v);
    } else {
      assert forall i :: 0 <= i <= a ==> m[i] == h[i] == v[i];
    }
  }
}
