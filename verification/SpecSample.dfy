/** Speculative sampling at the tail, over a generator that is a stream of draws from [0, 1). */
module SpecSample {
  import opened Decode
  import opened Pipeline

  function Sum(p: seq<real>): real {
    if p == [] then 0.0 else Sum(p[..|p| - 1]) + p[|p| - 1]
  }

  predicate NonNegative(p: seq<real>) {
    forall i :: 0 <= i < |p| ==> p[i] >= 0.0
  }

  /** Next-token probabilities over the ids 0, 1, ... of the vocabulary. */
  predicate IsDist(p: seq<real>) {
    NonNegative(p) && Sum(p) == 1.0
  }

  function Mass(p: seq<real>, y: Token): real {
    if 0 <= y < |p| then p[y] else 0.0
  }

  /** The probability of a token below `y`. */
  function Below(p: seq<real>, y: nat): real
    requires y <= |p|
  {
    Sum(p[..y])
  }

  /** The slice of [0, 1) that draws `y`. */
  predicate Draws(p: seq<real>, u: real, y: Token) {
    0 <= y < |p| && Below(p, y) <= u < Below(p, y) + p[y]
  }

  lemma {:induction false} BelowStep(p: seq<real>, y: nat)
    requires y < |p|
    ensures Below(p, y + 1) == Below(p, y) + p[y] && Below(p, 0) == 0.0 && Below(p, |p|) == Sum(p)
  {
    assert p[..y + 1][..y] == p[..y] && p[..|p|] == p;
  }

  lemma {:induction false} BelowGrows(p: seq<real>, a: nat, b: nat)
    requires NonNegative(p) && a <= b <= |p|
    ensures Below(p, a) <= Below(p, b)
    decreases b
  {
    if a < b {
      BelowStep(p, b - 1);
      BelowGrows(p, a, b - 1);
    }
  }

  /** The slices do not overlap: a draw draws one token. */
  lemma {:induction false} DrawsUnique(p: seq<real>, u: real, y: Token, z: Token)
    requires NonNegative(p) && Draws(p, u, y) && Draws(p, u, z)
    ensures y == z
  {
    if y < z {
      BelowStep(p, y);
      BelowGrows(p, y + 1, z);
    } else if z < y {
      BelowStep(p, z);
      BelowGrows(p, z + 1, y);
    }
  }

  /** The token whose slice holds `u`. */
  function Drawn(p: seq<real>, u: real): (y: Token)
    requires IsDist(p) && 0.0 <= u < 1.0
    ensures Draws(p, u, y)
  {
    assert p[..|p|] == p;
    assert p != [];
    assert Below(p, 0) == 0.0;
    DrawnFrom(p, u, |p|)
  }

  function DrawnFrom(p: seq<real>, u: real, n: nat): (y: Token)
    requires n <= |p| && NonNegative(p) && 0.0 <= u < Below(p, n)
    ensures Draws(p, u, y)
    decreases n
  {
    assert p[..0] == [];
    BelowStep(p, n - 1);
    if u < Below(p, n - 1) then DrawnFrom(p, u, n - 1) else n - 1
  }

  /** What is left once the rejected draft is struck out, renormalised. */
  function Residual(p: seq<real>, d: Token): (r: seq<real>)
    requires 0 <= d < |p| && Sum(p[d := 0.0]) > 0.0
    ensures |r| == |p| && r[d] == 0.0
  {
    Scaled(p[d := 0.0], Sum(p[d := 0.0]))
  }

  function Scaled(p: seq<real>, s: real): (r: seq<real>)
    requires s > 0.0
    ensures |r| == |p| && forall i :: 0 <= i < |p| ==> r[i] == p[i] / s
  {
    seq(|p|, i requires 0 <= i < |p| => p[i] / s)
  }

  lemma {:induction false} ScaledSum(p: seq<real>, s: real)
    requires s > 0.0
    ensures Sum(Scaled(p, s)) == Sum(p) / s
    decreases p
  {
    if p != [] {
      var n := |p| - 1;
      ScaledSum(p[..n], s);
      assert Scaled(p, s)[..n] == Scaled(p[..n], s);
    }
  }

  lemma {:induction false} StruckSum(p: seq<real>, d: nat)
    requires d < |p|
    ensures Sum(p[d := 0.0]) == Sum(p) - p[d]
    decreases p
  {
    var n := |p| - 1;
    if d == n {
      assert p[d := 0.0][..n] == p[..n];
    } else {
      StruckSum(p[..n], d);
      assert p[d := 0.0][..n] == p[..n][d := 0.0];
    }
  }

  /** A rejected draft has probability below one, so the residual never vanishes: the fallback for an
      empty residual is unreachable. The residual is a distribution that cannot return the draft, and
      gives every other token its own probability scaled by the chance of rejection. */
  lemma {:induction false} ResidualIsDist(p: seq<real>, d: nat, u: real)
    requires IsDist(p) && d < |p| && u < 1.0 && !(u < p[d])
    ensures p[d] < 1.0 && Sum(p[d := 0.0]) == 1.0 - p[d] > 0.0 && IsDist(Residual(p, d))
    ensures forall y :: 0 <= y < |p| && y != d ==> (1.0 - p[d]) * Residual(p, d)[y] == p[y]
    ensures forall v, y :: Draws(Residual(p, d), v, y) ==> y != d
  {
    hide Sum, Scaled, Residual, Draws;
    StruckSum(p, d);
    ScaledIsDist(p[d := 0.0], 1.0 - p[d]);
    ResidualIs(p, d);
    forall y | 0 <= y < |p| && y != d ensures (1.0 - p[d]) * Residual(p, d)[y] == p[y] {
      MulDiv(p[y], 1.0 - p[d]);
    }
    forall v, y | Draws(Residual(p, d), v, y) ensures y != d {
      NeverDrawn(Residual(p, d), v, y);
    }
  }

  lemma {:induction false} ResidualIs(p: seq<real>, d: nat)
    requires d < |p| && Sum(p[d := 0.0]) > 0.0
    ensures Residual(p, d) == Scaled(p[d := 0.0], Sum(p[d := 0.0]))
  {
  }

  lemma {:induction false} NeverDrawn(p: seq<real>, u: real, y: Token)
    requires Draws(p, u, y)
    ensures p[y] > 0.0
  {
  }

  lemma {:induction false} ScaledIsDist(q: seq<real>, s: real)
    requires NonNegative(q) && s == Sum(q) > 0.0
    ensures IsDist(Scaled(q, s))
  {
    ScaledSum(q, s);
    MulDiv(s, s);
    forall i | 0 <= i < |q| ensures Scaled(q, s)[i] >= 0.0 {
    }
  }

  lemma {:induction false} MulDiv(a: real, s: real)
    requires s > 0.0
    ensures s * (a / s) == a && s / s == 1.0
  {
  }

  // ----- the sampler -----

  type Logits = seq<int>

  /** `dist` is the filtered, renormalised distribution of a row of logits; `argmax` its greedy token. */
  datatype Head = Head(dist: Logits -> seq<real>, argmax: Logits -> Token)

  ghost predicate Normalised(h: Head) {
    forall row :: IsDist(h.dist(row))
  }

  ghost predicate UnitDraws(draws: nat -> real) {
    forall i :: 0.0 <= draws(i) < 1.0
  }

  /** How many leading drafts the draws accept. */
  function AcceptPoint(ps: seq<seq<real>>, draft: seq<Token>, draws: nat -> real, at: nat): (m: nat)
    requires |ps| == |draft| + 1
    ensures m <= |draft|
    ensures forall j :: 0 <= j < m ==> draws(at + j) < Mass(ps[j], draft[j])
    ensures m < |draft| ==> draws(at + m) >= Mass(ps[m], draft[m])
  {
    if draft == [] || draws(at) >= Mass(ps[0], draft[0]) then 0
    else
      var m := AcceptPoint(ps[1..], draft[1..], draws, at + 1);
      assert forall j :: 1 <= j < m + 1 ==>
                           ps[j] == ps[1..][j - 1] && draft[j] == draft[1..][j - 1] && at + j == at + 1 + (j - 1);
      m + 1
  }

  lemma {:induction false} AcceptPointUnique(ps: seq<seq<real>>, draft: seq<Token>, draws: nat -> real, at: nat, m: nat)
    requires |ps| == |draft| + 1 && m <= |draft|
    requires forall j :: 0 <= j < m ==> draws(at + j) < Mass(ps[j], draft[j])
    requires m < |draft| ==> draws(at + m) >= Mass(ps[m], draft[m])
    ensures AcceptPoint(ps, draft, draws, at) == m
    decreases m
  {
    if m > 0 {
      assert draws(at + 0) < Mass(ps[0], draft[0]);
      forall j | 0 <= j < m - 1 ensures draws(at + 1 + j) < Mass(ps[1..][j], draft[1..][j]) {
        assert draws(at + (j + 1)) < Mass(ps[j + 1], draft[j + 1]);
      }
      AcceptPointUnique(ps[1..], draft[1..], draws, at + 1, m - 1);
    }
  }

  /** The doctored vector: the accepted drafts, then the correction of the first rejection or, when
      nothing is rejected, one free token; `end` is the next unused draw. */
  ghost predicate Doctored(ps: seq<seq<real>>, draft: seq<Token>, draws: nat -> real, at: nat, r: seq<Token>,
                           end: nat) {
    |ps| == |draft| + 1 && (forall p :: p in ps ==> IsDist(p)) && |r| == |draft| + 1 &&
    var K, m := |draft|, AcceptPoint(ps, draft, draws, at);
    r[..m] == draft[..m] &&
    if m == K then Draws(ps[K], draws(at + K), r[K]) && end == at + K + 1
    else
      && 0 <= draft[m] < |ps[m]| && Sum(ps[m][draft[m] := 0.0]) > 0.0
      && Draws(Residual(ps[m], draft[m]), draws(at + m + 1), r[m]) && r[m] != draft[m] && end == at + m + 2
      && forall j :: m < j <= K ==> r[j] == 0
  }

  /** The coordinator's unchanged equality loop recovers exactly the sampler's accept point. */
  lemma {:induction false} EqualityLoopRecovers(ps: seq<seq<real>>, draft: seq<Token>, draws: nat -> real, at: nat,
                                                r: seq<Token>, end: nat)
    requires Doctored(ps, draft, draws, at, r, end)
    ensures Agreed(draft, r) == AcceptPoint(ps, draft, draws, at)
  {
    var m := AcceptPoint(ps, draft, draws, at);
    forall i | 0 <= i < m ensures draft[i] == r[i] {
      assert draft[i] == draft[..m][i] == r[..m][i];
    }
  }

  class Sampler {
    const greedy: bool
    const head: Head
    const draws: nat -> real
    var used: nat

    ghost predicate Valid() {
      Normalised(head) && UnitDraws(draws)
    }

    constructor (greedy: bool, head: Head, draws: nat -> real)
      requires Normalised(head) && UnitDraws(draws)
      ensures Valid() && this.greedy == greedy && this.head == head && this.draws == draws && used == 0
    {
      this.greedy, this.head, this.draws, used := greedy, head, draws, 0;
    }

    method Uniform() returns (u: real)
      modifies this
      ensures u == draws(old(used)) && used == old(used) + 1
    {
      u := draws(used);
      used := used + 1;
    }

    /** One token from a probability vector. */
    method Sample(p: seq<real>) returns (y: Token)
      requires Valid() && IsDist(p)
      modifies this
      ensures Draws(p, draws(old(used)), y) && used == old(used) + 1
    {
      var u := Uniform();
      var k, below := 0, 0.0;
      assert p[..0] == [] && p[..|p|] == p;
      while k < |p| && !(u < below + p[k])
        invariant 0 <= k <= |p| && below == Below(p, k) <= u && used == old(used) + 1
      {
        BelowStep(p, k);
        below := below + p[k];
        k := k + 1;
      }
      return k;
    }

    /** The correction of a rejected draft: a draw from the residual. */
    method Correct(p: seq<real>, row: Logits, d: Token, ghost u: real) returns (y: Token)
      requires Valid() && IsDist(p) && 0 <= d < |p| && !(u < p[d]) && u < 1.0
      modifies this
      ensures Sum(p[d := 0.0]) > 0.0 && Draws(Residual(p, d), draws(old(used)), y) && y != d && used == old(used) + 1
    {
      ResidualIsDist(p, d, u);
      var q := p[d := 0.0];
      var s := Total(q);
      if s > 0.0 {
        y := Sample(Scaled(q, s));
      } else {
        y := head.argmax(row);
      }
    }

    /** Acceptance for a deterministic draft. Greedy returns the target's own verdicts. */
    method Accept(logits: seq<Logits>, draft: seq<Token>) returns (r: seq<Token>)
      requires Valid() && |logits| == |draft| + 1
      requires forall j :: 0 <= j < |draft| ==> 0 <= draft[j] < |head.dist(logits[j])|
      modifies this
      ensures greedy ==> |r| == |logits| && used == old(used) && forall j :: 0 <= j < |r| ==>
                                                                               r[j] == head.argmax(logits[j])
      ensures !greedy ==> Doctored(Dists(head, logits), draft, draws, old(used), r, used)
    {
      hide Draws, Residual, Scaled, Sum, IsDist, Doctored, AcceptPoint;
      var K := |draft|;
      if greedy {
        return seq(|logits|, j requires 0 <= j < |logits| => head.argmax(logits[j]));
      }
      r := seq(K + 1, i => 0);
      ghost var ps, at := Dists(head, logits), used;
      for j := 0 to K
        invariant |r| == K + 1 && used == at + j && r[..j] == draft[..j] && forall i :: j <= i <= K ==> r[i] == 0
        invariant forall i :: 0 <= i < j ==> draws(at + i) < Mass(ps[i], draft[i])
      {
        var p, dj := head.dist(logits[j]), draft[j];
        assert p == ps[j];
        var u := Uniform();
        if u < p[dj] {
          r := r[j := dj];
        } else {
          var y := Correct(p, logits[j], dj, u);
          r := r[j := y];
          AcceptPointUnique(ps, draft, draws, at, j);
          DoctoredAtRejection(ps, draft, draws, at, r, j);
          return;
        }
      }
      assert head.dist(logits[K]) == ps[K];
      var bonus := Sample(head.dist(logits[K]));
      r := r[K := bonus];
      AcceptPointUnique(ps, draft, draws, at, K);
      DoctoredAtEnd(ps, draft, draws, at, r);
    }
  }

  lemma {:induction false} DoctoredAtRejection(ps: seq<seq<real>>, draft: seq<Token>, draws: nat -> real, at: nat,
                                               r: seq<Token>, m: nat)
    requires |ps| == |r| == |draft| + 1 && (forall p :: p in ps ==> IsDist(p)) &&
             AcceptPoint(ps, draft, draws, at) == m < |draft|
    requires r[..m] == draft[..m] && 0 <= draft[m] < |ps[m]| && Sum(ps[m][draft[m] := 0.0]) > 0.0
    requires Draws(Residual(ps[m], draft[m]), draws(at + m + 1), r[m]) && r[m] != draft[m]
    requires forall j :: m < j <= |draft| ==> r[j] == 0
    ensures Doctored(ps, draft, draws, at, r, at + m + 2)
  {
    hide Draws, Residual, IsDist, AcceptPoint, Sum;
  }

  lemma {:induction false} DoctoredAtEnd(ps: seq<seq<real>>, draft: seq<Token>, draws: nat -> real, at: nat,
                                         r: seq<Token>)
    requires |ps| == |r| == |draft| + 1 && (forall p :: p in ps ==> IsDist(p))
    requires AcceptPoint(ps, draft, draws, at) == |draft| && r[..|draft|] == draft[..|draft|]
    requires Draws(ps[|draft|], draws(at + |draft|), r[|draft|])
    ensures Doctored(ps, draft, draws, at, r, at + |draft| + 1)
  {
    hide Draws, Residual, IsDist, AcceptPoint, Sum;
  }

  /** The distributions of a block of logits. */
  function Dists(h: Head, logits: seq<Logits>): (ps: seq<seq<real>>)
    ensures |ps| == |logits| && forall j :: 0 <= j < |ps| ==> ps[j] == h.dist(logits[j])
  {
    seq(|logits|, j requires 0 <= j < |logits| => h.dist(logits[j]))
  }

  method Total(p: seq<real>) returns (s: real)
    ensures s == Sum(p)
  {
    s := 0.0;
    assert p[..0] == [];
    for i := 0 to |p|
      invariant s == Sum(p[..i])
    {
      BelowStep(p, i);
      s := s + p[i];
    }
    assert p[..|p|] == p;
  }
}
