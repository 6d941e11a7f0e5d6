/** What the additive attention masks let a query read: a prefix bucket of the buffer, a gathered
    window, or an arbitrary row of columns. */
module Masks {
  import opened Decode
  import opened Indices
  import opened TargetModel

  /** An additive mask row, by the key columns it leaves at zero: causal (and within the window
      when there is one) for a query at absolute position `p`, the start-free pattern over
      gathered slots for the chunk's query `q`, or one explicit row. */
  datatype Mask = Causal(window: nat, p: nat) | Slots(window: nat, q: nat) | Columns(row: seq<bool>) {
    predicate Allows(j: nat) {
      match this
      case Causal(w, p) => j <= p && (w == 0 || p - j < w)
      case Slots(w, q) => q <= j <= q + w - 1
      case Columns(row) => j < |row| && row[j]
    }
  }

  /** The keys a mask leaves visible. */
  function Masked(keys: seq<KV>, m: Mask): multiset<KV> {
    if keys == [] then multiset{}
    else
      var k := |keys| - 1;
      Masked(keys[..k], m) + if m.Allows(k) then multiset{keys[k]} else multiset{}
  }

  /** A bucketed read: the first `alen` slots under the causal / sliding mask. */
  function BucketRead(window: nat, buf: seq<KV>, alen: nat, p: nat): multiset<KV>
    requires alen <= |buf|
  {
    Masked(buf[..alen], Causal(window, p))
  }

  /** The slots gathered for a chunk of `n` queries at `start`: the union of their windows. */
  function Gathered(window: nat, buf: seq<KV>, start: nat, n: nat): seq<KV>
    requires 1 <= window <= start + 1 && start + n <= |buf|
  {
    buf[start + 1 - window..start + n]
  }

  /** A gathered read by query `q` of the chunk. */
  function WindowRead(window: nat, buf: seq<KV>, start: nat, n: nat, q: nat): multiset<KV>
    requires 1 <= window <= start + 1 && start + n <= |buf| && q < n
  {
    Masked(Gathered(window, buf, start, n), Slots(window, q))
  }

  lemma {:induction false} MaskedRange(keys: seq<KV>, m: Mask, lo: nat, hi: nat)
    requires lo <= hi <= |keys|
    requires forall j: nat :: j < |keys| ==> (m.Allows(j) <==> lo <= j < hi)
    ensures Masked(keys, m) == multiset(keys[lo..hi])
    decreases |keys|
  {
    hide Mask.Allows;
    if keys == [] {
      assert keys[lo..hi] == [];
    } else {
      var k := |keys| - 1;
      MaskedRange(keys[..k], m, Min(lo, k), Min(hi, k));
      RangeSplit(keys, k, lo, hi);
    }
  }

  lemma {:induction false} RangeSplit(keys: seq<KV>, k: nat, lo: nat, hi: nat)
    requires |keys| == k + 1 && lo <= hi <= |keys|
    ensures keys[lo..hi] == keys[..k][Min(lo, k)..Min(hi, k)] + if lo <= k < hi then [keys[k]] else []
  {
  }

  lemma {:induction false} SliceOfPrefix(keys: seq<KV>, k: nat, lo: nat, hi: nat)
    requires lo <= hi <= k <= |keys|
    ensures keys[..k][lo..hi] == keys[lo..hi]
  {
  }

  lemma {:induction false} SliceOfSlice(keys: seq<KV>, a: nat, b: nat, lo: nat, hi: nat)
    requires a <= b <= |keys| && lo <= hi <= b - a
    ensures keys[a..b][lo..hi] == keys[a + lo..a + hi]
  {
    forall i | 0 <= i < hi - lo
      ensures keys[a..b][lo..hi][i] == keys[a + lo..a + hi][i]
    {
      assert keys[a..b][lo..hi][i] == keys[a..b][lo + i] == keys[a + (lo + i)];
    }
  }

  /** Any bucket that covers the query reads exactly the visible keys. */
  lemma {:induction false} BucketExact(window: nat, buf: seq<KV>, alen: nat, p: nat)
    requires p < alen <= |buf|
    ensures BucketRead(window, buf, alen, p) == Visible(window, buf, p)
  {
    var lo := if window == 0 then 0 else Min(Max(0, p + 1 - window), p + 1);
    MaskedRange(buf[..alen], Causal(window, p), lo, p + 1);
    SliceOfPrefix(buf, alen, lo, p + 1);
  }

  /** Once the context fills a window, the gathered read sees exactly the visible keys. */
  lemma {:induction false} WindowExact(window: nat, buf: seq<KV>, start: nat, n: nat, q: nat)
    requires 1 <= window <= start + 1 && start + n <= |buf| && q < n
    ensures WindowRead(window, buf, start, n, q) == Visible(window, buf, start + q)
  {
    MaskedRange(Gathered(window, buf, start, n), Slots(window, q), q, q + window);
    SliceOfSlice(buf, start + 1 - window, start + n, q, q + window);
  }

  /** Columns side by side are read side by side. */
  lemma {:induction false} MaskedSplit(a: seq<KV>, b: seq<KV>, ra: seq<bool>, rb: seq<bool>)
    requires |a| == |ra| && |b| == |rb|
    ensures Masked(a + b, Columns(ra + rb)) == Masked(a, Columns(ra)) + Masked(b, Columns(rb))
    decreases |b|
  {
    hide Masked;
    if b == [] {
      assert a + b == a && ra + rb == ra;
      MaskedNone(Columns(rb));
    } else {
      var k := |b| - 1;
      var row := ra + rb;
      MaskedSplit(a, b[..k], ra, rb[..k]);
      MaskedAgree(b[..k], Columns(rb), Columns(rb[..k]));
      MaskedAgree(a + b[..k], Columns(row), Columns(ra + rb[..k]));
      assert a + b == (a + b[..k]) + [b[k]] && b == b[..k] + [b[k]];
      MaskedLast(a + b, Columns(row), a + b[..k], b[k]);
      MaskedLast(b, Columns(rb), b[..k], b[k]);
      assert Columns(row).Allows(|a| + k) <==> Columns(rb).Allows(k);
    }
  }

  lemma {:induction false} MaskedNone(m: Mask)
    ensures Masked([], m) == multiset{}
  {
  }

  /** The last column adds its key when it is let through. */
  lemma {:induction false} MaskedLast(keys: seq<KV>, m: Mask, front: seq<KV>, last: KV)
    requires keys == front + [last]
    ensures Masked(keys, m) == Masked(front, m) + if m.Allows(|front|) then multiset{last} else multiset{}
  {
    assert keys[..|keys| - 1] == front;
  }

  /** Only the columns that exist matter. */
  lemma {:induction false} MaskedAgree(keys: seq<KV>, m: Mask, n: Mask)
    requires forall j: nat :: j < |keys| ==> (m.Allows(j) <==> n.Allows(j))
    ensures Masked(keys, m) == Masked(keys, n)
    decreases |keys|
  {
    if keys != [] {
      MaskedAgree(keys[..|keys| - 1], m, n);
    }
  }

  lemma {:induction false} MaskedClear(keys: seq<KV>, row: seq<bool>, t: nat)
    requires |keys| == |row| && t < |row| && row[t]
    ensures Masked(keys, Columns(row)) == Masked(keys, Columns(row[t := false])) + multiset{keys[t]}
    decreases |keys|
  {
    hide Masked;
    var k := |keys| - 1;
    var off := row[t := false];
    assert keys == keys[..k] + [keys[k]];
    MaskedLast(keys, Columns(row), keys[..k], keys[k]);
    MaskedLast(keys, Columns(off), keys[..k], keys[k]);
    if t < k {
      MaskedAgree(keys[..k], Columns(row), Columns(row[..k]));
      MaskedAgree(keys[..k], Columns(off), Columns(off[..k]));
      MaskedClear(keys[..k], row[..k], t);
      assert off[..k] == row[..k][t := false];
    } else {
      MaskedAgree(keys[..k], Columns(row), Columns(off));
    }
  }

  /** A row that lets exactly some distinct columns through reads exactly their keys. */
  lemma {:induction false} MaskedPicked(keys: seq<KV>, row: seq<bool>, idx: seq<nat>)
    requires |keys| == |row|
    requires forall k :: 0 <= k < |idx| ==> idx[k] < |keys|
    requires forall j, k :: 0 <= j < k < |idx| ==> idx[j] != idx[k]
    requires forall j :: 0 <= j < |row| ==> (row[j] <==> j in idx)
    ensures Masked(keys, Columns(row)) == multiset(Picked(keys, idx))
    decreases |idx|
  {
    if idx == [] {
      MaskedRange(keys, Columns(row), 0, 0);
      assert Picked(keys, idx) == [];
    } else {
      var n := |idx| - 1;
      var t := idx[n];
      assert t in idx && idx == idx[..n] + [t];
      MaskedClear(keys, row, t);
      forall j | 0 <= j < |row|
        ensures row[t := false][j] <==> j in idx[..n]
      {
        assert j in idx <==> j in idx[..n] || j == t;
      }
      MaskedPicked(keys, row[t := false], idx[..n]);
      assert Picked(keys, idx) == Picked(keys, idx[..n]) + [keys[t]];
    }
  }

  const BUCKETS := [2048, 4096, 8192, 16384, 32768, 65536, 131072]

  /** The smallest bucket that covers `need`, clamped to the buffer. */
  method Bucket(need: nat, maxlen: nat) returns (alen: nat)
    requires need <= maxlen
    ensures need <= alen <= maxlen
    ensures alen < maxlen ==> alen in BUCKETS && forall b :: b in BUCKETS && b < alen ==> b < need
  {
    for i := 0 to |BUCKETS|
      invariant forall k :: 0 <= k < i ==> BUCKETS[k] < need
    {
      if BUCKETS[i] >= need {
        return Min(BUCKETS[i], maxlen);
      }
    }
    return maxlen;
  }
}
