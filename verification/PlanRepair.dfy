/** Layers per stage: proportional shares, rounded and clamped, then repaired one layer at a time
    until they add up. */
module PlanRepair {
  import opened Decode
  import opened Counting

  const LAYERS := 78

  const ROUNDS := 200

  function Total(p: seq<int>): int {
    if p == [] then 0 else Total(p[..|p| - 1]) + p[|p| - 1]
  }

  function RealTotal(p: seq<real>): real {
    if p == [] then 0.0 else RealTotal(p[..|p| - 1]) + p[|p| - 1]
  }

  /** How far entry k is above its share. */
  function Over(raw: seq<real>, p: seq<int>, k: nat): real
    requires |raw| == |p| && k < |p|
  {
    p[k] as real - raw[k]
  }

  predicate InBounds(p: seq<int>, floor: nat, cap: nat) {
    forall k :: 0 <= k < |p| ==> floor <= p[k] <= cap
  }

  /** No single layer can move from one stage to another to any advantage. */
  predicate Stable(raw: seq<real>, p: seq<int>, floor: nat, cap: nat) {
    |raw| == |p| &&
    forall i, j :: 0 <= i < |p| && 0 <= j < |p| && p[i] > floor && p[j] < cap ==>
                     Over(raw, p, i) - Over(raw, p, j) <= 1.0
  }

  function Square(x: real): real {
    x * x
  }

  /** The squared distance to the proportional shares. */
  function Distance(raw: seq<real>, p: seq<int>): real
    requires |raw| == |p|
  {
    if p == [] then 0.0
    else
      var k := |p| - 1;
      Distance(raw[..k], p[..k]) + Square(Over(raw, p, k))
  }

  function Clamped(raw: seq<real>, floor: nat, cap: nat): (p: seq<int>)
    ensures |p| == |raw| && forall k :: 0 <= k < |p| ==> p[k] == Min(cap, Max(floor, Round(raw[k])))
  {
    seq(|raw|, k requires 0 <= k < |raw| => Min(cap, Max(floor, Round(raw[k]))))
  }

  lemma {:induction false} ClampedIsStable(raw: seq<real>, floor: nat, cap: nat)
    requires floor <= cap
    ensures InBounds(Clamped(raw, floor, cap), floor, cap) && Stable(raw, Clamped(raw, floor, cap), floor, cap)
  {
    var p := Clamped(raw, floor, cap);
    forall i, j | 0 <= i < |p| && 0 <= j < |p| && p[i] > floor && p[j] < cap
      ensures Over(raw, p, i) - Over(raw, p, j) <= 1.0
    {
      assert p[i] <= Round(raw[i]) && p[j] >= Round(raw[j]);
    }
  }

  /** Over or under by how much, before repair: shares that add up to LAYERS leave at most 2 * LAYERS
      rounds of repair. */
  lemma {:induction false} ClampedTotal(raw: seq<real>, floor: nat, cap: nat)
    requires 0 <= floor <= cap && forall k :: 0 <= k < |raw| ==> raw[k] >= 0.0
    ensures 0 <= Total(Clamped(raw, floor, cap))
    ensures Total(Clamped(raw, floor, cap)) as real <= 2.0 * RealTotal(raw) + Times(|raw|, floor) as real
    decreases raw
  {
    if raw != [] {
      var k := |raw| - 1;
      ClampedTotal(raw[..k], floor, cap);
      assert Clamped(raw, floor, cap)[..k] == Clamped(raw[..k], floor, cap);
      TimesStep(k, floor);
    }
  }

  lemma {:induction false} TotalUpdate(p: seq<int>, i: nat, v: int)
    requires i < |p|
    ensures Total(p[i := v]) == Total(p) - p[i] + v
    decreases p
  {
    var k := |p| - 1;
    if i == k {
      assert p[i := v][..k] == p[..k];
    } else {
      TotalUpdate(p[..k], i, v);
      assert p[i := v][..k] == p[..k][i := v];
    }
  }

  /** A plan stuck at its cap everywhere adds up to cap * n, at its floor to floor * n. */
  lemma {:induction false} TotalBounds(p: seq<int>, floor: nat, cap: nat)
    requires InBounds(p, floor, cap)
    ensures Times(|p|, floor) <= Total(p) <= Times(|p|, cap)
    ensures (forall k :: 0 <= k < |p| ==> p[k] >= cap) ==> Total(p) == Times(|p|, cap)
    ensures (forall k :: 0 <= k < |p| ==> p[k] <= floor) ==> Total(p) == Times(|p|, floor)
    decreases p
  {
    if p != [] {
      var n := |p| - 1;
      TotalBounds(p[..n], floor, cap);
      TimesStep(n, floor);
      TimesStep(n, cap);
    }
  }

  // ----- the repair -----

  /** The stage furthest below its share among those that may grow; the first of them on ties. */
  method Hungriest(raw: seq<real>, plan: array<int>, cap: nat) returns (i: int)
    requires |raw| == plan.Length
    ensures i == -1 <==> forall k :: 0 <= k < plan.Length ==> plan[k] >= cap
    ensures i != -1 ==> 0 <= i < plan.Length && plan[i] < cap &&
                        forall k :: 0 <= k < plan.Length && plan[k] < cap ==>
                                      Over(raw, plan[..], i) <= Over(raw, plan[..], k)
    ensures forall k :: 0 <= k < i && plan[k] < cap ==> Over(raw, plan[..], i) < Over(raw, plan[..], k)
  {
    i := -1;
    for k := 0 to plan.Length
      invariant i == -1 <==> forall j :: 0 <= j < k ==> plan[j] >= cap
      invariant i != -1 ==> 0 <= i < k && plan[i] < cap &&
                            forall j :: 0 <= j < k && plan[j] < cap ==>
                                          plan[i] as real - raw[i] <= plan[j] as real - raw[j]
      invariant forall j :: 0 <= j < i && plan[j] < cap ==> plan[i] as real - raw[i] < plan[j] as real - raw[j]
    {
      if plan[k] < cap && (i == -1 || raw[k] - plan[k] as real > raw[i] - plan[i] as real) {
        i := k;
      }
    }
  }

  /** The stage furthest above its share among those that may shrink; the first of them on ties. */
  method Fullest(raw: seq<real>, plan: array<int>, floor: nat) returns (i: int)
    requires |raw| == plan.Length
    ensures i == -1 <==> forall k :: 0 <= k < plan.Length ==> plan[k] <= floor
    ensures i != -1 ==> 0 <= i < plan.Length && plan[i] > floor &&
                        forall k :: 0 <= k < plan.Length && plan[k] > floor ==>
                                      Over(raw, plan[..], k) <= Over(raw, plan[..], i)
    ensures forall k :: 0 <= k < i && plan[k] > floor ==> Over(raw, plan[..], k) < Over(raw, plan[..], i)
  {
    i := -1;
    for k := 0 to plan.Length
      invariant i == -1 <==> forall j :: 0 <= j < k ==> plan[j] <= floor
      invariant i != -1 ==> 0 <= i < k && plan[i] > floor &&
                            forall j :: 0 <= j < k && plan[j] > floor ==>
                                          plan[j] as real - raw[j] <= plan[i] as real - raw[i]
      invariant forall j :: 0 <= j < i && plan[j] > floor ==> plan[j] as real - raw[j] < plan[i] as real - raw[i]
    {
      if plan[k] > floor && (i == -1 || raw[k] - plan[k] as real < raw[i] - plan[i] as real) {
        i := k;
      }
    }
  }

  lemma {:induction false} GrowKeepsStable(raw: seq<real>, p: seq<int>, floor: nat, cap: nat, i: nat)
    requires Stable(raw, p, floor, cap) && InBounds(p, floor, cap) && i < |p| && p[i] < cap
    requires forall k :: 0 <= k < |p| && p[k] < cap ==> Over(raw, p, i) <= Over(raw, p, k)
    ensures Stable(raw, p[i := p[i] + 1], floor, cap)
  {
    var q := p[i := p[i] + 1];
    forall a, b | 0 <= a < |q| && 0 <= b < |q| && q[a] > floor && q[b] < cap
      ensures Over(raw, q, a) - Over(raw, q, b) <= 1.0
    {
      assert p[b] < cap;
      assert Over(raw, p, i) <= Over(raw, p, b);
      if a != i {
        assert Over(raw, p, a) - Over(raw, p, b) <= 1.0;
      }
    }
  }

  lemma {:induction false} ShrinkKeepsStable(raw: seq<real>, p: seq<int>, floor: nat, cap: nat, i: nat)
    requires Stable(raw, p, floor, cap) && InBounds(p, floor, cap) && i < |p| && p[i] > floor
    requires forall k :: 0 <= k < |p| && p[k] > floor ==> Over(raw, p, k) <= Over(raw, p, i)
    ensures Stable(raw, p[i := p[i] - 1], floor, cap)
  {
    var q := p[i := p[i] - 1];
    forall a, b | 0 <= a < |q| && 0 <= b < |q| && q[a] > floor && q[b] < cap
      ensures Over(raw, q, a) - Over(raw, q, b) <= 1.0
    {
      assert p[a] > floor;
      assert Over(raw, p, a) <= Over(raw, p, i);
      if b != i {
        assert Over(raw, p, a) - Over(raw, p, b) <= 1.0;
      }
    }
  }

  function Gap(total: int): nat {
    if total <= LAYERS then LAYERS - total else total - LAYERS
  }

  lemma {:induction false} Grown(raw: seq<real>, p: seq<int>, floor: nat, cap: nat, i: nat)
    requires Stable(raw, p, floor, cap) && InBounds(p, floor, cap) && i < |p| && p[i] < cap
    requires forall k :: 0 <= k < |p| && p[k] < cap ==> Over(raw, p, i) <= Over(raw, p, k)
    ensures Stable(raw, p[i := p[i] + 1], floor, cap) && InBounds(p[i := p[i] + 1], floor, cap)
    ensures Total(p[i := p[i] + 1]) == Total(p) + 1
  {
    GrowKeepsStable(raw, p, floor, cap, i);
    TotalUpdate(p, i, p[i] + 1);
  }

  lemma {:induction false} Shrunk(raw: seq<real>, p: seq<int>, floor: nat, cap: nat, i: nat)
    requires Stable(raw, p, floor, cap) && InBounds(p, floor, cap) && i < |p| && p[i] > floor
    requires forall k :: 0 <= k < |p| && p[k] > floor ==> Over(raw, p, k) <= Over(raw, p, i)
    ensures Stable(raw, p[i := p[i] - 1], floor, cap) && InBounds(p[i := p[i] - 1], floor, cap)
    ensures Total(p[i := p[i] - 1]) == Total(p) - 1
  {
    ShrinkKeepsStable(raw, p, floor, cap, i);
    TotalUpdate(p, i, p[i] - 1);
  }

  /** Where a repair ends: 200 rounds, one layer each and all the same way, unless the sum is right or no stage
      can move before. */
  ghost predicate Rested(from: int, p: seq<int>, floor: nat, cap: nat) {
    var to := Total(p);
    && (if from <= 78 then from <= to <= 78 else 78 <= to <= from) && -200 <= to - from <= 200
    && (to == 78 || to - from == 200 || from - to == 200 ||
        forall k :: 0 <= k < |p| ==> if from < 78 then p[k] >= cap else p[k] <= floor)
  }

  /** Fix the rounding within the bounds, in place, in at most ROUNDS rounds. */
  method Repair(raw: seq<real>, plan: array<int>, floor: nat, cap: nat)
    requires |raw| == plan.Length && floor <= cap && InBounds(plan[..], floor, cap) && Stable(raw, plan[..], floor, cap)
    requires Times(plan.Length, floor) <= LAYERS ==> Gap(Total(plan[..])) <= ROUNDS
    modifies plan
    ensures InBounds(plan[..], floor, cap) && Stable(raw, plan[..], floor, cap)
    ensures Total(plan[..]) == LAYERS <==> Times(plan.Length, floor) <= LAYERS <= Times(plan.Length, cap)
    ensures Rested(old(Total(plan[..])), plan[..], floor, cap)
  {
    hide Stable, InBounds, Total, Times, Over;
    TotalBounds(plan[..], floor, cap);
    ghost var from := Total(plan[..]);
    for round := 0 to ROUNDS
      invariant Total(plan[..]) == if from <= LAYERS then from + round else from - round
      invariant if from <= LAYERS then Total(plan[..]) <= LAYERS else Total(plan[..]) >= LAYERS
      invariant InBounds(plan[..], floor, cap) && Stable(raw, plan[..], floor, cap)
      invariant Times(plan.Length, floor) <= Total(plan[..]) <= Times(plan.Length, cap)
      invariant Times(plan.Length, floor) <= LAYERS ==> Gap(Total(plan[..])) <= ROUNDS - round
    {
      ghost var p := plan[..];
      var total := SumOf(plan);
      var diff := LAYERS - total;
      TotalBounds(p, floor, cap);
      if diff == 0 { break; }
      if diff > 0 {
        var i := Hungriest(raw, plan, cap);
        if i == -1 { break; }
        plan[i] := plan[i] + 1;
        assert plan[..] == p[i := p[i] + 1];
        Grown(raw, p, floor, cap, i);
      } else {
        var i := Fullest(raw, plan, floor);
        if i == -1 { break; }
        plan[i] := plan[i] - 1;
        assert plan[..] == p[i := p[i] - 1];
        Shrunk(raw, p, floor, cap, i);
      }
      TotalBounds(plan[..], floor, cap);
    }
  }

  method SumOf(plan: array<int>) returns (s: int)
    ensures s == Total(plan[..])
  {
    s := 0;
    for k := 0 to plan.Length
      invariant s == Total(plan[..k])
    {
      assert plan[..k + 1][..k] == plan[..k];
      s := s + plan[k];
    }
    assert plan[..plan.Length] == plan[..];
  }

  // ----- no other plan is closer -----

  /** A price per layer: adding a layer anywhere costs at least that much, taking one away saves at
      most that much. */
  predicate Priced(raw: seq<real>, p: seq<int>, floor: nat, cap: nat, price: real) {
    |raw| == |p| &&
    (forall k :: 0 <= k < |p| && p[k] < cap ==> price <= Over(raw, p, k) + 0.5) &&
    (forall k :: 0 <= k < |p| && p[k] > floor ==> Over(raw, p, k) - 0.5 <= price)
  }

  lemma {:induction false} Lowest(raw: seq<real>, p: seq<int>) returns (low: real)
    requires |raw| == |p|
    ensures forall k :: 0 <= k < |p| ==> low <= Over(raw, p, k)
    decreases p
  {
    low := 0.0;
    if p != [] {
      var n := |p| - 1;
      var rest := Lowest(raw[..n], p[..n]);
      low := if rest < Over(raw, p, n) then rest else Over(raw, p, n);
      forall k | 0 <= k < |p| ensures low <= Over(raw, p, k) {
        if k < n {
          assert Over(raw, p, k) == Over(raw[..n], p[..n], k);
        }
      }
    }
  }

  /** The entry furthest above its share among those over the floor. */
  lemma {:induction false} Highest(raw: seq<real>, p: seq<int>, floor: nat) returns (i: int)
    requires |raw| == |p|
    ensures i == -1 ==> forall k :: 0 <= k < |p| ==> p[k] <= floor
    ensures i != -1 ==> 0 <= i < |p| && p[i] > floor &&
                        forall k :: 0 <= k < |p| && p[k] > floor ==> Over(raw, p, k) <= Over(raw, p, i)
    decreases p
  {
    i := -1;
    if p != [] {
      var n := |p| - 1;
      i := Highest(raw[..n], p[..n], floor);
      forall k | 0 <= k < n ensures Over(raw, p, k) == Over(raw[..n], p[..n], k) && p[k] == p[..n][k] {}
      if p[n] > floor && (i == -1 || Over(raw, p, n) > Over(raw, p, i)) {
        i := n;
      }
    }
  }

  lemma {:induction false} StableIsPriced(raw: seq<real>, p: seq<int>, floor: nat, cap: nat) returns (price: real)
    requires Stable(raw, p, floor, cap)
    ensures Priced(raw, p, floor, cap, price)
  {
    var i := Highest(raw, p, floor);
    if i == -1 {
      price := Lowest(raw, p);
    } else {
      price := Over(raw, p, i) - 0.5;
    }
  }

  function Worth(price: real, layers: int): real {
    price * layers as real
  }

  lemma {:induction false} PriceAdds(price: real, a: int, b: int)
    ensures Worth(price, a + b) == Worth(price, a) + Worth(price, b)
  {
  }

  /** (p + d - r)^2 - (p - r)^2 is at least 2 * price * d, for whole d. */
  lemma {:induction false} EntryPrice(e: real, d: int, price: real)
    requires d > 0 ==> price <= e + 0.5
    requires d < 0 ==> e - 0.5 <= price
    ensures Square(e + d as real) - Square(e) >= 2.0 * Worth(price, d)
  {
    var x := d as real;
    assert (e + x) * (e + x) - e * e == x * (x + 2.0 * e);
    if d > 0 {
      assert x * (x + 2.0 * e - 2.0 * price) >= 0.0 by {
        assert x >= 1.0 && x + 2.0 * e - 2.0 * price >= 0.0;
      }
    } else if d < 0 {
      assert x * (x + 2.0 * e - 2.0 * price) >= 0.0 by {
        assert x <= -1.0 && x + 2.0 * e - 2.0 * price <= 0.0;
      }
    }
    assert x * (x + 2.0 * e - 2.0 * price) == x * (x + 2.0 * e) - 2.0 * (price * x);
  }

  lemma {:induction false} PricedIsClosest(raw: seq<real>, p: seq<int>, q: seq<int>, floor: nat, cap: nat, price: real)
    requires Priced(raw, p, floor, cap, price)
    requires |q| == |p| && InBounds(q, floor, cap)
    ensures Distance(raw, q) - Distance(raw, p) >= 2.0 * Worth(price, Total(q) - Total(p))
    decreases p
  {
    hide Square, Worth;
    if p == [] {
      PriceAdds(price, 0, 0);
    } else {
      var n := |p| - 1;
      forall k | 0 <= k < n ensures Over(raw[..n], p[..n], k) == Over(raw, p, k) && p[..n][k] == p[k] {}
      PricedIsClosest(raw[..n], p[..n], q[..n], floor, cap, price);
      var d := q[n] - p[n];
      EntryPrice(Over(raw, p, n), d, price);
      assert Over(raw, q, n) == Over(raw, p, n) + d as real;
      var t := Total(q[..n]) - Total(p[..n]);
      PriceAdds(price, t, d);
    }
  }

  /** A plan no single move improves is a plan no other plan of the same total improves. */
  lemma {:induction false} StableIsClosest(raw: seq<real>, p: seq<int>, q: seq<int>, floor: nat, cap: nat)
    requires Stable(raw, p, floor, cap)
    requires |q| == |p| && InBounds(q, floor, cap) && Total(q) == Total(p)
    ensures Distance(raw, p) <= Distance(raw, q)
  {
    var price := StableIsPriced(raw, p, floor, cap);
    PricedIsClosest(raw, p, q, floor, cap, price);
    assert Worth(price, 0) == 0.0;
  }

  // ----- the whole plan -----

  function Share(speed: real, tot: real): (r: real)
    requires tot > 0.0
    ensures r * tot == 78.0 * speed
  {
    LAYERS as real * speed / tot
  }

  function Shares(speed: seq<real>, tot: real): seq<real>
    requires tot > 0.0
  {
    seq(|speed|, k requires 0 <= k < |speed| => Share(speed[k], tot))
  }

  lemma {:induction false} ShareTotal(speed: seq<real>, tot: real)
    requires tot > 0.0
    ensures RealTotal(Shares(speed, tot)) == Share(RealTotal(speed), tot)
    decreases speed
  {
    if speed != [] {
      var n := |speed| - 1;
      ShareTotal(speed[..n], tot);
      assert Shares(speed, tot)[..n] == Shares(speed[..n], tot);
    }
  }

  lemma {:induction false} SpeedsAddUp(speed: seq<real>)
    requires forall k :: 0 <= k < |speed| ==> speed[k] > 0.0
    ensures RealTotal(speed) >= 0.0 && (speed != [] ==> RealTotal(speed) > 0.0)
    decreases speed
  {
    if speed != [] { SpeedsAddUp(speed[..|speed| - 1]); }
  }

  lemma {:induction false} FewRounds(speed: seq<real>, floor: nat, cap: nat)
    requires floor <= cap && forall k :: 0 <= k < |speed| ==> speed[k] > 0.0
    requires Times(|speed|, floor) <= LAYERS
    ensures var tot := RealTotal(speed);
            (speed != [] ==> tot > 0.0) &&
            Gap(Total(Clamped(if speed == [] then [] else Shares(speed, tot), floor, cap))) <= ROUNDS
  {
    var tot := RealTotal(speed);
    SpeedsAddUp(speed);
    if speed != [] {
      var shares := Shares(speed, tot);
      ShareTotal(speed, tot);
      assert Share(tot, tot) == LAYERS as real;
      ClampedTotal(shares, floor, cap);
    }
  }

  method RealSum(s: seq<real>) returns (t: real)
    ensures t == RealTotal(s)
  {
    t := 0.0;
    for k := 0 to |s|
      invariant t == RealTotal(s[..k])
    {
      assert s[..k + 1][..k] == s[..k];
      t := t + s[k];
    }
    assert s[..|s|] == s;
  }

  /** Layers per stage from the stages' speeds. The shares are the ones the plan is judged against. */
  method Plan(speed: seq<real>, floor: nat, cap: nat) returns (plan: array<int>, ghost raw: seq<real>)
    requires 0 <= floor <= cap && forall k :: 0 <= k < |speed| ==> speed[k] > 0.0
    ensures |raw| == plan.Length == |speed|
    ensures forall k :: 0 <= k < |speed| ==> RealTotal(speed) > 0.0 && raw[k] == Share(speed[k], RealTotal(speed))
    ensures InBounds(plan[..], floor, cap)
    ensures Total(plan[..]) == 78 <==> floor * |speed| <= 78 <= cap * |speed|
    ensures Rested(Total(Clamped(raw, floor, cap)), plan[..], floor, cap)
    ensures forall q: seq<int> :: |q| == |speed| && InBounds(q, floor, cap) && Total(q) == Total(plan[..]) ==>
                                    Distance(raw, plan[..]) <= Distance(raw, q)
  {
    hide Stable, InBounds, Total, Times, Over, Distance, Round, Share, Rested, Clamped;
    var tot := RealSum(speed);
    SpeedsAddUp(speed);
    var shares := if speed == [] then [] else Shares(speed, tot);
    raw := shares;
    plan := new int[|speed|](k requires 0 <= k < |speed| => Min(cap, Max(floor, Round(shares[k]))));
    assert plan[..] == Clamped(shares, floor, cap);
    ClampedIsStable(shares, floor, cap);
    if Times(|speed|, floor) <= LAYERS { FewRounds(speed, floor, cap); }
    Repair(shares, plan, floor, cap);
    TimesIs(|speed|, floor);
    TimesIs(|speed|, cap);
    forall q: seq<int> | |q| == |speed| && InBounds(q, floor, cap) && Total(q) == Total(plan[..])
      ensures Distance(raw, plan[..]) <= Distance(raw, q)
    {
      StableIsClosest(raw, plan[..], q, floor, cap);
    }
  }
}
