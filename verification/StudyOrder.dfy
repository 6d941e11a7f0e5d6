/** The order in which an interleaved study runs its prompts and configurations. */
module StudyOrder {
  import opened Decode
  import opened Counting
  import opened CgRun

  /** A prompt's index and the configuration it runs under. */
  datatype Entry = Entry(item: nat, cfg: Config)

  function Rotated(cfgs: seq<Config>, j: nat): (rot: seq<Config>)
    requires j <= |cfgs|
    ensures |rot| == |cfgs|
  {
    cfgs[j..] + cfgs[..j]
  }

  function Turns(it: nat, rot: seq<Config>): (row: seq<Entry>)
    ensures |row| == |rot| && forall c :: 0 <= c < |rot| ==> row[c] == Entry(it, rot[c])
  {
    seq(|rot|, c requires 0 <= c < |rot| => Entry(it, rot[c]))
  }

  /** The configurations, endlessly repeated. */
  function Cycled(cfgs: seq<Config>, a: nat): Config
    requires cfgs != []
  {
    cfgs[Wrapped(a, |cfgs|)]
  }

  function Wrapped(a: nat, n: nat): (j: nat)
    requires n > 0
    ensures j < n
  {
    a % n
  }

  /** One pass over the first n prompts: each under every configuration, starting one further each time. */
  function PassOrder(n: nat, cfgs: seq<Config>, rep: nat): seq<Entry>
    requires cfgs != []
  {
    if n == 0 then []
    else PassOrder(n - 1, cfgs, rep) + Turns(n - 1, Rotated(cfgs, Wrapped(n - 1 + rep, |cfgs|)))
  }

  function Order(reps: nat, n: nat, cfgs: seq<Config>): seq<Entry>
    requires cfgs != []
  {
    if reps == 0 then [] else Order(reps - 1, n, cfgs) + PassOrder(n, cfgs, reps - 1)
  }

  lemma {:induction false} PassLength(n: nat, cfgs: seq<Config>, rep: nat)
    requires cfgs != []
    ensures |PassOrder(n, cfgs, rep)| == Times(n, |cfgs|)
    decreases n
  {
    if n > 0 { PassLength(n - 1, cfgs, rep); }
  }

  lemma {:induction false} OrderLength(reps: nat, n: nat, cfgs: seq<Config>)
    requires cfgs != []
    ensures |Order(reps, n, cfgs)| == Times(reps, Times(n, |cfgs|))
    decreases reps
  {
    if reps > 0 {
      OrderLength(reps - 1, n, cfgs);
      PassLength(n, cfgs, reps - 1);
    }
  }

  lemma {:induction false} RotatedAt(cfgs: seq<Config>, a: nat, c: nat)
    requires c < |cfgs|
    ensures Rotated(cfgs, Wrapped(a, |cfgs|))[c] == Cycled(cfgs, a + c)
  {
    hide Wrapped;
    WrapsRound(a, c, |cfgs|);
  }

  lemma {:induction false} WrapsRound(a: nat, c: nat, n: nat)
    requires c < n
    ensures var j := Wrapped(a, n) + c; Wrapped(a + c, n) == if j < n then j else j - n
  {
    var j := Wrapped(a, n) + c;
    if j < n {
      DivisionIs(a + c, a / n, j, n);
    } else {
      DivisionIs(a + c, a / n + 1, j - n, n);
    }
  }

  /** Prompt `it` of a pass meets configuration it + rep first, then the others in turn. */
  lemma {:induction false} PassAt(n: nat, cfgs: seq<Config>, rep: nat, it: nat, c: nat)
    requires it < n && c < |cfgs|
    ensures Times(it, |cfgs|) + c < |PassOrder(n, cfgs, rep)|
    ensures PassOrder(n, cfgs, rep)[Times(it, |cfgs|) + c] == Entry(it, Cycled(cfgs, it + rep + c))
    decreases n
  {
    hide Cycled, Wrapped;
    PassLength(n - 1, cfgs, rep);
    if it == n - 1 {
      RotatedAt(cfgs, it + rep, c);
    } else {
      PassAt(n - 1, cfgs, rep, it, c);
    }
  }

  /** Entry r of a study, counted by pass, prompt and turn. */
  lemma {:induction false} OrderAt(reps: nat, n: nat, cfgs: seq<Config>, rep: nat, it: nat, c: nat)
    requires rep < reps && it < n && c < |cfgs|
    ensures var r := Times(rep, Times(n, |cfgs|)) + Times(it, |cfgs|) + c;
            r < |Order(reps, n, cfgs)| && Order(reps, n, cfgs)[r] == Entry(it, Cycled(cfgs, it + rep + c))
    decreases reps
  {
    hide Cycled, PassOrder;
    OrderLength(reps - 1, n, cfgs);
    if rep == reps - 1 {
      PassAt(n, cfgs, rep, it, c);
    } else {
      OrderAt(reps - 1, n, cfgs, rep, it, c);
    }
  }

  /** In every pass, every prompt runs exactly once under every configuration. */
  lemma {:induction false} EveryConfig(cfgs: seq<Config>, j: nat)
    requires j <= |cfgs|
    ensures multiset(Rotated(cfgs, j)) == multiset(cfgs)
  {
    assert cfgs == cfgs[..j] + cfgs[j..];
  }
}
