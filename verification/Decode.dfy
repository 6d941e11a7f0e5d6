/** Greedy decoding over an arbitrary next-token function. */
module Decode {

  type Token = int

  function Min(a: int, b: int): int { if a < b then a else b }

  function Max(a: int, b: int): int { if a < b then b else a }

  /** A deterministic target: the next token after a text. */
  type Target = seq<Token> -> Token

  /** The first `n` tokens of the plain greedy continuation of `ids`. */
  function Greedy(next: Target, ids: seq<Token>, n: nat): (g: seq<Token>)
    requires ids != []
    ensures |g| == n
  {
    if n == 0 then [] else
      var g := Greedy(next, ids, n - 1);
      g + [next(ids + g)]
  }

  /** What a verify of `toks[start..]` on top of the prefix `toks[..start]` answers: the
      target's next token after every position it was given. */
  function Verdicts(next: Target, toks: seq<Token>, start: nat): (r: seq<Token>)
    requires start <= |toks|
    ensures |r| == |toks| - start
    ensures forall j :: 0 <= j < |r| ==> r[j] == next(toks[..start + j + 1])
  {
    seq(|toks| - start, j requires 0 <= j < |toks| - start => next(toks[..start + j + 1]))
  }

  /** The recompute driver: ask for the next token after the whole text so far, stop after an
      end-of-sequence token or `maxNew` tokens. */
  method Recompute(next: Target, ids: seq<Token>, maxNew: nat, eos: set<Token>) returns (out: seq<Token>)
    requires ids != []
    ensures |out| <= maxNew && out == Greedy(next, ids, |out|)
    ensures |out| == maxNew || (out != [] && out[|out| - 1] in eos)
    ensures forall i :: 0 <= i < |out| - 1 ==> out[i] !in eos
  {
    out := [];
    for i := 0 to maxNew
      invariant |out| == i && out == Greedy(next, ids, i)
      invariant forall j :: 0 <= j < i ==> out[j] !in eos
    {
      var nxt := next(ids + out);
      out := out + [nxt];
      if nxt in eos { return; }
    }
  }

  // ----- greedy continuations -----

  lemma {:induction false} GreedyPrefix(next: Target, ids: seq<Token>, n: nat, k: nat)
    requires ids != [] && k <= n
    ensures Greedy(next, ids, n)[..k] == Greedy(next, ids, k)
    decreases n
  {
    if k < n {
      GreedyPrefix(next, ids, n - 1, k);
      assert Greedy(next, ids, n)[..k] == Greedy(next, ids, n - 1)[..k];
    }
  }

  /** Tokens that each are the target's answer to everything before them extend a greedy run. */
  lemma {:induction false} GreedyExtends(next: Target, ids: seq<Token>, out: seq<Token>, ys: seq<Token>)
    requires ids != [] && out == Greedy(next, ids, |out|)
    requires forall j :: 0 <= j < |ys| ==> ys[j] == next(ids + out + ys[..j])
    ensures out + ys == Greedy(next, ids, |out| + |ys|)
    decreases |ys|
  {
    if ys == [] {
      assert out + ys == out;
    } else {
      var k := |ys| - 1;
      var ys' := ys[..k];
      forall j | 0 <= j < k ensures ys'[j] == next(ids + out + ys'[..j]) {
        assert ys'[..j] == ys[..j];
      }
      GreedyExtends(next, ids, out, ys');
      assert ids + out + ys' == ids + (out + ys');
      assert out + ys == (out + ys') + [ys[k]];
    }
  }

  /** Decoding on from a greedy run is decoding from the start. */
  lemma {:induction false} GreedyResumes(next: Target, ids: seq<Token>, a: nat, b: nat)
    requires ids != []
    ensures Greedy(next, ids, a + b) == Greedy(next, ids, a) + Greedy(next, ids + Greedy(next, ids, a), b)
    decreases b
  {
    var g := Greedy(next, ids, a);
    if b > 0 {
      GreedyResumes(next, ids, a, b - 1);
      var t := Greedy(next, ids + g, b - 1);
      assert ids + g + t == ids + (g + t);
    }
  }
}
