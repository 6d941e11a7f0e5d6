/** Model-free drafting: an n-token index over the settled text, and the longest backward match copied on. */
module NgramDrafter {
  import opened Decode
  import opened Options

  // ----- the index, from scratch -----

  /** The key position p is filed under: the ng tokens before it; the first positions have none. */
  function Anchor(text: seq<Token>, ng: nat, p: nat): seq<Token>
    requires p <= |text|
  {
    if p < ng then [] else text[p - ng..p]
  }

  /** The keys of the positions before `upto`. */
  function Anchors(text: seq<Token>, ng: nat, upto: nat): (keys: seq<seq<Token>>)
    requires upto <= |text|
    ensures |keys| == upto && forall p :: 0 <= p < upto ==> keys[p] == Anchor(text, ng, p)
  {
    seq(upto, p requires 0 <= p < upto => Anchor(text, ng, p))
  }

  /** The positions filed under a key. */
  function Filed(keys: seq<seq<Token>>, key: seq<Token>): seq<nat> {
    if keys == [] then []
    else
      var n := |keys| - 1;
      Filed(keys[..n], key) + (if keys[n] == key then [n] else [])
  }

  /** Filed lists every position with that key, once, oldest first. */
  lemma {:induction false} FiledExact(keys: seq<seq<Token>>, key: seq<Token>)
    ensures forall p :: p in Filed(keys, key) <==> 0 <= p < |keys| && keys[p] == key
    ensures forall i, j :: 0 <= i < j < |Filed(keys, key)| ==> Filed(keys, key)[i] < Filed(keys, key)[j]
    decreases keys
  {
    if keys != [] {
      var n := |keys| - 1;
      FiledExact(keys[..n], key);
      var was := Filed(keys[..n], key);
      forall i | 0 <= i < |was| ensures was[i] < n {
        assert was[i] in was;
      }
      forall p | 0 <= p < n ensures keys[..n][p] == keys[p] {}
    }
  }

  lemma {:induction false} FiledBlank(keys: seq<seq<Token>>, more: seq<seq<Token>>, key: seq<Token>)
    requires key != [] && forall i :: 0 <= i < |more| ==> more[i] == []
    ensures Filed(keys + more, key) == Filed(keys, key)
    decreases more
  {
    if more == [] {
      assert keys + more == keys;
    } else {
      var n := |more| - 1;
      assert (keys + more)[..|keys| + n] == keys + more[..n];
      FiledBlank(keys, more[..n], key);
    }
  }

  // ----- the proposal -----

  /** How many tokens before p and before q agree, looking back at most `cap`. */
  function Overlap(text: seq<Token>, p: nat, q: nat, cap: nat): (n: nat)
    requires p <= |text| && q <= |text|
    ensures n <= cap && n <= p && n <= q
  {
    if cap == 0 || p == 0 || q == 0 || text[p - 1] != text[q - 1] then 0 else 1 + Overlap(text, p - 1, q - 1, cap - 1)
  }

  lemma {:induction false} OverlapLongest(text: seq<Token>, p: nat, q: nat, cap: nat, len: nat)
    requires p <= |text| && q <= |text| && len <= cap && len <= p && len <= q
    ensures text[p - len..p] == text[q - len..q] <==> len <= Overlap(text, p, q, cap)
    decreases len
  {
    if len > 0 {
      var a, b := text[p - len..p], text[q - len..q];
      assert a[len - 1] == text[p - 1] && b[len - 1] == text[q - 1];
      if text[p - 1] == text[q - 1] {
        OverlapLongest(text, p - 1, q - 1, cap - 1, len - 1);
        assert a == text[p - len..p - 1] + [text[p - 1]] && b == text[q - len..q - 1] + [text[q - 1]];
        assert a[..len - 1] == text[p - len..p - 1] && b[..len - 1] == text[q - len..q - 1];
      }
    }
  }

  datatype Params = Params(ng: nat, maxExt: nat, maxCand: nat, margin: nat, minMatch: nat)

  /** The occurrences weighed: the latest maxCand of them (all of them when maxCand is 0). */
  function Recent(occ: seq<nat>, maxCand: nat): seq<nat> {
    if maxCand == 0 || |occ| <= maxCand then occ else occ[|occ| - maxCand..]
  }

  /** How far the text before occurrence p agrees with the text before the anchor at its end. */
  function Reach(c: Params, text: seq<Token>, p: nat): nat
    requires c.ng <= p <= |text|
  {
    Overlap(text, p - c.ng, |text| - c.ng, c.maxExt)
  }

  /** k tokens of the text from p on, the last token repeated where it ends. */
  function Continuation(text: seq<Token>, p: nat, k: nat): (r: seq<Token>)
    requires p < |text|
    ensures |r| == k
  {
    seq(k, j requires 0 <= j < k => if p + j < |text| then text[p + j] else text[|text| - 1])
  }

  function Plain(text: seq<Token>, k: nat): (r: seq<Token>)
    ensures |r| == k
  {
    seq(k, _ => if text == [] then 0 else text[|text| - 1])
  }

  /** Occurrence p reaches back furthest among `occ`, and none of those after it reaches as far. */
  predicate Furthest(c: Params, text: seq<Token>, occ: seq<nat>, p: nat) {
    p in occ && c.ng <= p < |text| &&
    forall o :: o in occ && c.ng <= o < |text| ==>
                  Reach(c, text, o) < Reach(c, text, p) || (Reach(c, text, o) == Reach(c, text, p) && o <= p)
  }

  predicate Copied(c: Params, text: seq<Token>, occ: seq<nat>, p: nat, k: nat, r: seq<Token>, matched: bool) {
    Furthest(c, text, occ, p) && r == Continuation(text, p, k) && (matched <==> Reach(c, text, p) >= c.minMatch)
  }

  /** What an index with these keys proposes for a text. */
  ghost predicate Proposes(c: Params, keys: seq<seq<Token>>, text: seq<Token>, k: nat, r: seq<Token>, matched: bool) {
    if |text| < c.ng then r == Plain(text, k) && !matched
    else
      var occ := Recent(Filed(keys, text[|text| - c.ng..]), c.maxCand);
      if exists p :: p in occ && p < |text| then
        exists p :: Copied(c, text, occ, p, k, r, matched)
      else r == Plain(text, k) && !matched
  }

  function Lookup(table: map<seq<Token>, seq<nat>>, key: seq<Token>): seq<nat> {
    if key in table then table[key] else []
  }

  /** The table holds, under every key, the positions filed under it. */
  ghost predicate Tabulates(table: map<seq<Token>, seq<nat>>, keys: seq<seq<Token>>) {
    forall key :: key != [] ==> Lookup(table, key) == Filed(keys, key)
  }

  lemma {:induction false} TabulatesAt(table: map<seq<Token>, seq<nat>>, keys: seq<seq<Token>>, key: seq<Token>)
    requires Tabulates(table, keys) && key != []
    ensures Lookup(table, key) == Filed(keys, key)
  {
  }

  lemma {:induction false} TabulatesNext(table: map<seq<Token>, seq<nat>>, keys: seq<seq<Token>>, key: seq<Token>)
    requires Tabulates(table, keys) && key != []
    ensures Tabulates(table[key := Lookup(table, key) + [|keys|]], keys + [key])
  {
    forall k | k != [] ensures Lookup(table[key := Lookup(table, key) + [|keys|]], k) == Filed(keys + [key], k) {
      assert (keys + [key])[..|keys|] == keys;
    }
  }

  /** Nothing is filed for the first ng positions. */
  predicate Blank(keys: seq<seq<Token>>, ng: nat) {
    forall p :: 0 <= p < |keys| && p < ng ==> keys[p] == []
  }

  /** The keys after indexing `text` up to `upto` on top of what is indexed already. */
  function Grown(keys: seq<seq<Token>>, text: seq<Token>, ng: nat, upto: nat): (more: seq<seq<Token>>)
    requires |keys| <= upto <= |text|
    ensures |more| == upto
  {
    keys + Anchors(text, ng, upto)[|keys|..]
  }

  /** The keys after a query for `text`: all but its last `margin` tokens are indexed by now, and
      nothing indexed before is revisited. */
  function Indexing(c: Params, keys: seq<seq<Token>>, text: seq<Token>): seq<seq<Token>> {
    if |text| - c.margin <= |keys| then keys else Grown(keys, text, c.ng, |text| - c.margin)
  }

  lemma {:induction false} IndexingIs(c: Params, keys: seq<seq<Token>>, text: seq<Token>)
    ensures var stable := |text| - c.margin;
            if stable <= |keys| then Indexing(c, keys, text) == keys
            else Indexing(c, keys, text) == Grown(keys, text, c.ng, stable) &&
                 (Blank(keys, c.ng) ==> Blank(Grown(keys, text, c.ng, stable), c.ng))
  {
  }

  lemma {:induction false} GrownNext(keys: seq<seq<Token>>, text: seq<Token>, ng: nat, p: nat)
    requires |keys| <= p < |text|
    ensures Grown(keys, text, ng, p + 1) == Grown(keys, text, ng, p) + [Anchor(text, ng, p)]
  {
    assert Anchors(text, ng, p + 1) == Anchors(text, ng, p) + [Anchor(text, ng, p)];
  }

  lemma {:induction false} GrownBlank(table: map<seq<Token>, seq<nat>>, keys: seq<seq<Token>>, text: seq<Token>,
                                      ng: nat, upto: nat)
    requires |keys| <= upto <= |text| && (upto <= ng || upto == |keys|) && Tabulates(table, keys)
    ensures Tabulates(table, Grown(keys, text, ng, upto))
  {
    var more := Anchors(text, ng, upto)[|keys|..];
    forall key | key != [] ensures Filed(keys + more, key) == Filed(keys, key) {
      FiledBlank(keys, more, key);
    }
  }

  /** File the positions from the end of the index up to `stable`. */
  method FileAnchors(ng: nat, table0: map<seq<Token>, seq<nat>>, ghost filed: seq<seq<Token>>, text: seq<Token>,
                     stable: nat, indexed: nat)
    returns (table: map<seq<Token>, seq<nat>>, ghost keys: seq<seq<Token>>)
    requires ng >= 1 && Tabulates(table0, filed) && |filed| == indexed < stable <= |text|
    ensures keys == Grown(filed, text, ng, stable) && Tabulates(table, keys)
  {
    hide Tabulates, Anchor, Anchors, Grown, Lookup, Filed;
    table := table0;
    var p := Max(indexed, ng);
    ghost var at := Min(p, stable);
    keys := Grown(filed, text, ng, at);
    GrownBlank(table, filed, text, ng, at);
    while p < stable
      invariant p >= ng && at == Min(p, stable) && indexed <= at && keys == Grown(filed, text, ng, at)
      invariant Tabulates(table, keys)
    {
      var key := text[p - ng..p];
      KeyIsAnchor(text, ng, p);
      GrownNext(filed, text, ng, p);
      TabulatesNext(table, keys, key);
      table, keys := table[key := Lookup(table, key) + [p]], keys + [key];
      p := p + 1;
      at := p;
    }
  }

  // ----- the drafter -----

  class Drafter {
    const c: Params
    var indexed: nat
    var table: map<seq<Token>, seq<nat>>
    var pending: Option<(seq<Token>, nat)>
    var matched: bool
    ghost var keys: seq<seq<Token>>

    ghost predicate Valid()
      reads this
    {
      c.ng >= 1 && |keys| == indexed && Tabulates(table, keys) && Blank(keys, c.ng)
    }

    constructor (c: Params)
      requires c.ng >= 1
      ensures Valid() && this.c == c && indexed == 0 && pending == None && keys == []
    {
      this.c, indexed, table, pending, matched, keys := c, 0, map[], None, false, [];
    }

    method Request(ids: seq<Token>, k: nat)
      requires Valid()
      modifies this`pending
      ensures Valid() && pending == Some((ids, k))
    {
      pending := Some((ids, k));
    }

    method Fetch() returns (r: seq<Token>)
      requires Valid() && pending.Some?
      modifies this`indexed, this`table, this`matched, this`keys
      ensures Valid() && |r| == pending.value.1
      ensures keys == Indexing(c, old(keys), pending.value.0)
      ensures Proposes(c, keys, pending.value.0, pending.value.1, r, matched)
      ensures Drafts(c, keys, pending.value.0, pending.value.1, r, matched)
    {
      r := Propose(pending.value.0, pending.value.1);
    }

    method Cancel()
      requires Valid()
      modifies this`pending
      ensures Valid() && pending == None
    {
      pending := None;
    }

    method Sync(text: seq<Token>)
      requires Valid()
      modifies this`indexed, this`table, this`keys
      ensures Valid() && keys == Indexing(c, old(keys), text)
    {
      hide Tabulates, Anchor, Anchors, Grown, Lookup, Blank, Filed, Indexing;
      var stable := |text| - c.margin;
      IndexingIs(c, keys, text);
      if stable <= indexed { return; }
      table, keys := FileAnchors(c.ng, table, keys, text, stable, indexed);
      indexed := stable;
    }

    method Propose(text: seq<Token>, k: nat) returns (r: seq<Token>)
      requires Valid()
      modifies this`indexed, this`table, this`matched, this`keys
      ensures Valid() && |r| == k
      ensures keys == Indexing(c, old(keys), text)
      ensures Proposes(c, keys, text, k, r, matched) && Drafts(c, keys, text, k, r, matched)
    {
      hide Filed, Furthest, Reach, Overlap, Blank, Indexing, Drafts, Recent, Continuation, Plain, Tabulates, Lookup;
      Sync(text);
      var n := |text|;
      matched := false;
      if n < c.ng {
        r := Plain(text, k);
        ProposesDrafts(c, keys, text, k, r, matched);
        return;
      }
      var key := text[n - c.ng..];
      var cands := Lookup(table, key);
      TabulatesAt(table, keys, key);
      FiledExact(keys, key);
      var occ := Recent(cands, c.maxCand);
      RecentFacts(cands, c.maxCand, keys, key, c.ng);
      var best, reach := Weigh(c, text, occ);
      if best.None? {
        r := Plain(text, k);
        ProposesDrafts(c, keys, text, k, r, matched);
        return;
      }
      FurthestIsIn(c, text, occ, best.value);
      matched := reach >= c.minMatch;
      r := CopyOn(text, best.value, k);
      assert Copied(c, text, occ, best.value, k, r, matched);
      ProposesDrafts(c, keys, text, k, r, matched);
    }
  }

  method CopyOn(text: seq<Token>, p: nat, k: nat) returns (r: seq<Token>)
    requires p < |text|
    ensures r == Continuation(text, p, k)
  {
    r := text[p..Min(p + k, |text|)];
    if |r| < k {
      r := r + seq(k - |r|, _ => if r != [] then r[|r| - 1] else text[|text| - 1]);
    }
  }

  // ----- the proposal, said outright -----

  /** A later position filed under the same key. */
  ghost function Later(keys: seq<seq<Token>>, o: nat): set<nat>
    requires o < |keys|
  {
    set q: nat | o < q < |keys| && keys[q] == keys[o]
  }

  /** Position o is an occurrence to weigh: filed under the text's last ng tokens, before the text's end, and
      with fewer than maxCand later ones filed there (if there is such a limit). */
  ghost predicate Weighed(c: Params, keys: seq<seq<Token>>, text: seq<Token>, o: nat) {
    && c.ng <= |text| && o < |keys| && o < |text| && keys[o] == text[|text| - c.ng..]
    && (c.maxCand == 0 || |Later(keys, o)| < c.maxCand)
  }

  /** The text before the anchor at p agrees for len tokens with the text before the last anchor. */
  predicate Agrees(c: Params, text: seq<Token>, p: nat, len: nat) {
    c.ng + len <= p < |text| && text[p - c.ng - len..p - c.ng] == text[|text| - c.ng - len..|text| - c.ng]
  }

  /** No weighed occurrence agrees further than p, nor one after it as far. */
  ghost predicate Reaches(c: Params, keys: seq<seq<Token>>, text: seq<Token>, p: nat) {
    forall o: nat, len: nat :: Weighed(c, keys, text, o) && len <= c.maxExt && Agrees(c, text, o, len) ==>
                                 Agrees(c, text, p, len) && (o <= p || (len < c.maxExt && Agrees(c, text, p, len + 1)))
  }

  /** What is proposed: the tokens from the occurrence that reaches furthest on, the text's last token where
      it ends; that token alone when there is nothing to weigh, 0 when there is no text. */
  ghost predicate Drafts(c: Params, keys: seq<seq<Token>>, text: seq<Token>, k: nat, r: seq<Token>, matched: bool) {
    |r| == k &&
    if exists o: nat :: Weighed(c, keys, text, o) then
      exists p: nat ::
        && Weighed(c, keys, text, p) && Reaches(c, keys, text, p)
        && (matched <==> c.minMatch <= c.maxExt && Agrees(c, text, p, c.minMatch))
        && forall j :: 0 <= j < k ==> r[j] == if p + j < |text| then text[p + j] else text[|text| - 1]
    else
      !matched && forall j :: 0 <= j < k ==> r[j] == if text == [] then 0 else text[|text| - 1]
  }

  ghost function Members(s: seq<nat>): (m: set<nat>)
    ensures forall q :: q in m <==> q in s
  {
    set q | q in s
  }

  lemma {:induction false} AscendingMembers(s: seq<nat>)
    requires Ascends(s)
    ensures |Members(s)| == |s|
    decreases |s|
  {
    if s != [] {
      var rest := s[1..];
      AscendingMembers(rest);
      assert s[0] !in rest;
      assert forall q :: q in s <==> q == s[0] || q in rest;
      assert Members(s) == Members(rest) + {s[0]};
    }
  }

  /** What stands after place i of an ascending list. */
  lemma {:induction false} AfterPlace(s: seq<nat>, i: nat)
    requires i < |s| && Ascends(s)
    ensures |set q | q in s && s[i] < q| == |s| - 1 - i
  {
    AscendingMembers(s[i + 1..]);
    forall q ensures q in s && s[i] < q <==> q in s[i + 1..] {
      if q in s && s[i] < q {
        var j :| 0 <= j < |s| && s[j] == q;
        assert s[i + 1..][j - i - 1] == q;
      }
    }
    assert (set q | q in s && s[i] < q) == Members(s[i + 1..]);
  }

  /** The occurrences kept are those with fewer than maxCand later ones. */
  lemma {:induction false} RecentExact(keys: seq<seq<Token>>, key: seq<Token>, maxCand: nat, o: nat)
    ensures o in Recent(Filed(keys, key), maxCand) <==>
            o < |keys| && keys[o] == key && (maxCand == 0 || |Later(keys, o)| < maxCand)
  {
    FiledExact(keys, key);
    var s := Filed(keys, key);
    if o in s {
      var i :| 0 <= i < |s| && s[i] == o;
      AfterPlace(s, i);
      assert (set q | q in s && o < q) == Later(keys, o);
      var from := |s| - maxCand;
      if maxCand > 0 && from > 0 {
        assert i >= from ==> s[from..][i - from] == o;
        if o in s[from..] {
          var j :| 0 <= j < |s[from..]| && s[from..][j] == o;
        }
      }
    }
  }

  lemma {:induction false} ReachExact(c: Params, text: seq<Token>, p: nat, len: nat)
    requires c.ng <= p < |text|
    ensures len <= c.maxExt && Agrees(c, text, p, len) <==> len <= Reach(c, text, p)
  {
    if len <= c.maxExt && len <= p - c.ng {
      OverlapLongest(text, p - c.ng, |text| - c.ng, c.maxExt, len);
    }
  }

  lemma {:induction false} FurthestReaches(c: Params, keys: seq<seq<Token>>, text: seq<Token>, p: nat)
    requires c.ng <= |text| && Furthest(c, text, Recent(Filed(keys, text[|text| - c.ng..]), c.maxCand), p)
    ensures Weighed(c, keys, text, p) && Reaches(c, keys, text, p)
  {
    hide Reach, Recent, Filed, Agrees;
    var key := text[|text| - c.ng..];
    RecentExact(keys, key, c.maxCand, p);
    forall o: nat, len: nat | Weighed(c, keys, text, o) && len <= c.maxExt && Agrees(c, text, o, len)
      ensures Agrees(c, text, p, len) && (o <= p || (len < c.maxExt && Agrees(c, text, p, len + 1)))
    {
      assert c.ng <= o by { AgreesPast(c, text, o, len); }
      RecentExact(keys, key, c.maxCand, o);
      ReachExact(c, text, o, len);
      ReachExact(c, text, p, len);
      ReachExact(c, text, p, len + 1);
    }
  }

  lemma {:induction false} AgreesPast(c: Params, text: seq<Token>, p: nat, len: nat)
    requires Agrees(c, text, p, len)
    ensures c.ng <= p < |text|
  {
  }

  lemma {:induction false} ProposesDrafts(c: Params, keys: seq<seq<Token>>, text: seq<Token>, k: nat, r: seq<Token>,
                                          matched: bool)
    requires Proposes(c, keys, text, k, r, matched) && |r| == k
    ensures Drafts(c, keys, text, k, r, matched)
  {
    hide Reach, Recent, Filed, Agrees, Reaches, Furthest, Weighed;
    if |text| >= c.ng {
      var key := text[|text| - c.ng..];
      var occ := Recent(Filed(keys, key), c.maxCand);
      forall o: nat ensures o in occ && o < |text| <==> Weighed(c, keys, text, o) {
        WeighedIs(c, keys, text, o);
      }
      if exists p :: p in occ && p < |text| {
        var p :| Copied(c, text, occ, p, k, r, matched);
        CopiedFacts(c, text, occ, p, k, r, matched);
        FurthestReaches(c, keys, text, p);
        ReachExact(c, text, p, c.minMatch);
      }
    } else {
      forall o: nat ensures !Weighed(c, keys, text, o) {
        WeighedIs(c, keys, text, o);
      }
    }
  }

  lemma {:induction false} WeighedIs(c: Params, keys: seq<seq<Token>>, text: seq<Token>, o: nat)
    ensures Weighed(c, keys, text, o) <==>
            c.ng <= |text| && o < |text| && o in Recent(Filed(keys, text[|text| - c.ng..]), c.maxCand)
  {
    hide Recent, Filed;
    if c.ng <= |text| {
      RecentExact(keys, text[|text| - c.ng..], c.maxCand, o);
    }
  }

  lemma {:induction false} CopiedFacts(c: Params, text: seq<Token>, occ: seq<nat>, p: nat, k: nat, r: seq<Token>,
                                       matched: bool)
    requires Copied(c, text, occ, p, k, r, matched)
    ensures Furthest(c, text, occ, p) && p in occ && c.ng <= p < |text|
    ensures r == Continuation(text, p, k) && (matched <==> Reach(c, text, p) >= c.minMatch)
  {
  }

  lemma {:induction false} FurthestIsIn(c: Params, text: seq<Token>, occ: seq<nat>, p: nat)
    requires Furthest(c, text, occ, p)
    ensures p in occ && p < |text|
  {
  }

  lemma {:induction false} KeyIsAnchor(text: seq<Token>, ng: nat, p: nat)
    requires ng <= p <= |text|
    ensures text[p - ng..p] == Anchor(text, ng, p)
  {
  }

  lemma {:induction false} RecentFacts(cands: seq<nat>, maxCand: nat, keys: seq<seq<Token>>, key: seq<Token>, ng: nat)
    requires key != [] && cands == Filed(keys, key) && Blank(keys, ng)
    ensures var occ := Recent(cands, maxCand);
            (forall i :: 0 <= i < |occ| ==> ng <= occ[i]) && forall i, j :: 0 <= i < j < |occ| ==> occ[i] < occ[j]
  {
    FiledExact(keys, key);
    forall i | 0 <= i < |cands| ensures ng <= cands[i] {
      assert cands[i] in cands;
    }
  }

  /** The occurrence that reaches back furthest, the latest on ties; the search stops at the first
      that reaches as far as any can. */
  method Weigh(c: Params, text: seq<Token>, occ: seq<nat>) returns (best: Option<nat>, reach: int)
    requires c.ng <= |text| && (forall i :: 0 <= i < |occ| ==> c.ng <= occ[i])
    requires forall i, j :: 0 <= i < j < |occ| ==> occ[i] < occ[j]
    ensures best.None? <==> forall p :: p in occ ==> p >= |text|
    ensures best.Some? ==> Furthest(c, text, occ, best.value) && reach == Reach(c, text, best.value)
  {
    hide Overlap;
    var n := |text|;
    best, reach := None, -1;
    var i := |occ|;
    while i > 0
      invariant 0 <= i <= |occ|
      invariant best.None? ==> reach == -1 && forall j :: i <= j < |occ| ==> occ[j] >= n
      invariant best.Some? ==> best.value in occ && c.ng <= best.value < n && reach == Reach(c, text, best.value)
      invariant best.Some? ==> forall j :: 0 <= j < i ==> occ[j] < best.value
      invariant best.Some? ==> forall j :: i <= j < |occ| && occ[j] < n ==>
                                 Reach(c, text, occ[j]) < reach ||
                                 (Reach(c, text, occ[j]) == reach && occ[j] <= best.value)
    {
      i := i - 1;
      var p := occ[i];
      if p < n {
        var len := LookBack(c, text, p);
        if len > reach {
          best, reach := Some(p), len;
          if len == c.maxExt { break; }
        }
      }
    }
    if best.None? {
      forall p | p in occ ensures p >= n {
        var j :| 0 <= j < |occ| && occ[j] == p;
      }
    } else {
      assert best.value in occ && best.value < n;
    }
  }

  method LookBack(c: Params, text: seq<Token>, p: nat) returns (len: nat)
    requires c.ng <= p < |text|
    ensures len == Reach(c, text, p) <= c.maxExt
  {
    len := 0;
    var n := |text|;
    while len < c.maxExt && p - c.ng - 1 - len >= 0 && text[p - c.ng - 1 - len] == text[n - c.ng - 1 - len]
      invariant len <= c.maxExt && len <= p - c.ng
      invariant len + Overlap(text, p - c.ng - len, n - c.ng - len, c.maxExt - len) == Reach(c, text, p)
    {
      len := len + 1;
    }
  }

  // ----- a run of queries -----

  /** What a text keeps when its last `margin` tokens may still change. */
  function Stem(text: seq<Token>, margin: nat): seq<Token> {
    text[..Max(0, |text| - margin)]
  }

  /** Every query goes on from what all the earlier ones have settled. */
  predicate Settled(queries: seq<seq<Token>>, margin: nat) {
    forall i, j :: 0 <= i <= j < |queries| ==> Stem(queries[i], margin) <= queries[j]
  }

  /** The longest of the settled parts. */
  function Horizon(queries: seq<seq<Token>>, margin: nat): (h: nat) {
    if queries == [] then 0 else Max(Horizon(queries[..|queries| - 1], margin), |queries[|queries| - 1]| - margin)
  }

  lemma {:induction false} HorizonSettled(queries: seq<seq<Token>>, margin: nat, text: seq<Token>)
    requires forall i :: 0 <= i < |queries| ==> Stem(queries[i], margin) <= text
    ensures Horizon(queries, margin) <= |text|
    decreases queries
  {
    if queries != [] {
      var n := |queries| - 1;
      forall i | 0 <= i < n ensures Stem(queries[..n][i], margin) <= text {}
      HorizonSettled(queries[..n], margin, text);
      assert Stem(queries[n], margin) <= text;
    }
  }

  /** The index of a text's first positions is that of any text that agrees with it so far. */
  lemma {:induction false} AnchorsAgree(a: seq<Token>, b: seq<Token>, ng: nat, upto: nat)
    requires upto <= |a| && upto <= |b| && a[..upto] == b[..upto]
    ensures Anchors(a, ng, upto) == Anchors(b, ng, upto)
  {
    forall p | 0 <= p < upto ensures Anchor(a, ng, p) == Anchor(b, ng, p) {
      if p >= ng {
        assert a[..upto][p - ng..p] == a[p - ng..p] && b[..upto][p - ng..p] == b[p - ng..p];
      }
    }
  }

  /** The keys after a run of queries. */
  function IndexOf(c: Params, queries: seq<seq<Token>>): seq<seq<Token>> {
    if queries == [] then [] else Indexing(c, IndexOf(c, queries[..|queries| - 1]), queries[|queries| - 1])
  }

  /** As long as no query rewrites what earlier ones settled, the index grown over all of them is the
      index of the text itself, from scratch. */
  lemma {:induction false} IndexExact(c: Params, queries: seq<seq<Token>>, text: seq<Token>)
    requires Settled(queries, c.margin) && forall i :: 0 <= i < |queries| ==> Stem(queries[i], c.margin) <= text
    ensures Horizon(queries, c.margin) <= |text|
    ensures IndexOf(c, queries) == Anchors(text, c.ng, Horizon(queries, c.margin))
    decreases queries
  {
    HorizonSettled(queries, c.margin, text);
    if queries != [] {
      var n := |queries| - 1;
      var q, before := queries[n], queries[..n];
      var was := Horizon(before, c.margin);
      forall i | 0 <= i < n ensures Stem(before[i], c.margin) <= q && Stem(before[i], c.margin) <= text {
        assert before[i] == queries[i];
      }
      assert Settled(before, c.margin) by {
        forall i, j | 0 <= i <= j < |before| ensures Stem(before[i], c.margin) <= before[j] {
          assert before[i] == queries[i] && before[j] == queries[j];
        }
      }
      if |q| - c.margin <= was {
        IndexExact(c, before, text);
      } else {
        IndexExact(c, before, q);
        assert Stem(q, c.margin) <= text;
        AnchorsAgree(q, text, c.ng, |q| - c.margin);
      }
    }
  }

  /** Whatever the queries, a position is filed once, by the first query that settles it, under the ng tokens
      before it there; and nothing else is. */
  lemma {:induction false} IndexFirst(c: Params, queries: seq<seq<Token>>, p: nat, i: nat)
    requires i < |queries| && p < |queries[i]| - c.margin
    requires forall j :: 0 <= j < i ==> |queries[j]| - c.margin <= p
    ensures |IndexOf(c, queries)| == Horizon(queries, c.margin) && p < |IndexOf(c, queries)|
    ensures IndexOf(c, queries)[p] == if p < c.ng then [] else queries[i][p - c.ng..p]
    decreases queries
  {
    hide Horizon, Indexing, IndexOf;
    var n := |queries| - 1;
    var before := queries[..n];
    IndexLength(c, queries);
    IndexLength(c, before);
    IndexNext(c, queries);
    if i < n {
      assert before[i] == queries[i] && forall j :: 0 <= j < i ==> before[j] == queries[j];
      IndexFirst(c, before, p, i);
      IndexingKeeps(c, IndexOf(c, before), queries[n], p);
    } else {
      HorizonBelow(before, c.margin, p);
      IndexingFiles(c, IndexOf(c, before), queries[n], p);
    }
  }

  lemma {:induction false} IndexNext(c: Params, queries: seq<seq<Token>>)
    requires queries != []
    ensures IndexOf(c, queries) == Indexing(c, IndexOf(c, queries[..|queries| - 1]), queries[|queries| - 1])
  {
  }

  lemma {:induction false} IndexingKeeps(c: Params, keys: seq<seq<Token>>, text: seq<Token>, p: nat)
    requires p < |keys|
    ensures p < |Indexing(c, keys, text)| && Indexing(c, keys, text)[p] == keys[p]
  {
  }

  lemma {:induction false} IndexingFiles(c: Params, keys: seq<seq<Token>>, text: seq<Token>, p: nat)
    requires |keys| <= p < |text| - c.margin
    ensures p < |Indexing(c, keys, text)|
    ensures Indexing(c, keys, text)[p] == if p < c.ng then [] else text[p - c.ng..p]
  {
    assert Indexing(c, keys, text)[p] == Anchors(text, c.ng, |text| - c.margin)[|keys|..][p - |keys|];
  }

  lemma {:induction false} IndexLength(c: Params, queries: seq<seq<Token>>)
    ensures |IndexOf(c, queries)| == Horizon(queries, c.margin)
    decreases queries
  {
    if queries != [] {
      IndexLength(c, queries[..|queries| - 1]);
    }
  }

  lemma {:induction false} HorizonBelow(queries: seq<seq<Token>>, margin: nat, p: nat)
    requires forall j :: 0 <= j < |queries| ==> |queries[j]| - margin <= p
    ensures Horizon(queries, margin) <= p
    decreases queries
  {
    if queries != [] {
      HorizonBelow(queries[..|queries| - 1], margin, p);
    }
  }

  /** Query i is answered from the from-scratch index of its own settled text, as far as any query
      so far has settled it. */
  ghost predicate Answered(c: Params, queries: seq<seq<Token>>, i: nat, k: nat, r: seq<Token>, matched: bool)
    requires i < |queries|
  {
    var upto := Horizon(queries[..i + 1], c.margin);
    |r| == k && upto <= |queries[i]| && Proposes(c, Anchors(queries[i], c.ng, upto), queries[i], k, r, matched)
  }

  lemma {:induction false} AnswersExact(c: Params, queries: seq<seq<Token>>, i: nat, k: nat, r: seq<Token>,
                                        matched: bool)
    requires Settled(queries, c.margin) && i < |queries| && |r| == k
    requires Proposes(c, Indexing(c, IndexOf(c, queries[..i]), queries[i]), queries[i], k, r, matched)
    ensures Answered(c, queries, i, k, r, matched)
  {
    hide Proposes, Anchors, Indexing, Horizon, Stem;
    var asked := queries[..i + 1];
    assert asked[..i] == queries[..i];
    forall a, b | 0 <= a <= b < |asked| ensures Stem(asked[a], c.margin) <= asked[b] {
      assert asked[a] == queries[a] && asked[b] == queries[b];
    }
    IndexExact(c, asked, queries[i]);
  }

  // ----- the answer as a function of all queries so far -----

  /** The occurrence that reaches back furthest, the latest on ties. */
  function Chosen(c: Params, text: seq<Token>, occ: seq<nat>): (best: Option<nat>)
    requires c.ng <= |text|
    ensures best.Some? ==> best.value in occ && c.ng <= best.value < |text|
  {
    if occ == [] then None
    else
      var later := Chosen(c, text, occ[1..]);
      if !(c.ng <= occ[0] < |text|) then later
      else if later.None? || Reach(c, text, occ[0]) > Reach(c, text, later.value) then Some(occ[0])
      else later
  }

  /** A draft repeats tokens of the text asked about, or is all zeros. */
  lemma {:induction false} DraftTokens(c: Params, queries: seq<seq<Token>>, k: nat)
    requires queries != []
    ensures forall j :: 0 <= j < k ==> DraftOf(c, queries, k)[j] in queries[|queries| - 1] ||
                                       (queries[|queries| - 1] == [] && DraftOf(c, queries, k)[j] == 0)
  {
    hide IndexOf, Filed, Reach;
  }

  predicate Ascends(occ: seq<nat>) {
    forall i, j :: 0 <= i < j < |occ| ==> occ[i] < occ[j]
  }

  lemma {:induction false} ChosenIs(c: Params, text: seq<Token>, occ: seq<nat>)
    requires c.ng <= |text| && Ascends(occ)
    ensures match Chosen(c, text, occ)
            case None => forall p :: p in occ ==> !(c.ng <= p < |text|)
            case Some(p) => Furthest(c, text, occ, p)
    decreases occ
  {
    hide Reach;
    if occ != [] {
      ChosenIs(c, text, occ[1..]);
      assert forall p :: p in occ <==> p == occ[0] || p in occ[1..];
      assert forall p :: p in occ[1..] ==> occ[0] < p;
    }
  }

  function DraftOf(c: Params, queries: seq<seq<Token>>, k: nat): (r: seq<Token>)
    requires queries != []
    ensures |r| == k
  {
    var text := queries[|queries| - 1];
    if |text| < c.ng then Plain(text, k)
    else
      match Chosen(c, text, Recent(Filed(IndexOf(c, queries), text[|text| - c.ng..]), c.maxCand))
      case None => Plain(text, k)
      case Some(p) => Continuation(text, p, k)
  }

  lemma {:induction false} ChosenUnique(c: Params, text: seq<Token>, occ: seq<nat>, p: nat)
    requires c.ng <= |text| && Ascends(occ)
    requires Furthest(c, text, occ, p)
    ensures Chosen(c, text, occ) == Some(p)
  {
    hide Reach, Chosen, Ascends;
    ChosenIs(c, text, occ);
  }

  lemma {:induction false} WeighedAscend(keys: seq<seq<Token>>, key: seq<Token>, maxCand: nat)
    ensures Ascends(Recent(Filed(keys, key), maxCand))
  {
    FiledExact(keys, key);
  }

  /** There is only one answer, and it depends on nothing but the queries. */
  lemma {:induction false} AnswerIsDraftOf(c: Params, queries: seq<seq<Token>>, k: nat, r: seq<Token>, matched: bool)
    requires queries != [] && Proposes(c, IndexOf(c, queries), queries[|queries| - 1], k, r, matched)
    ensures r == DraftOf(c, queries, k)
  {
    hide Reach, Filed, IndexOf, Recent, Furthest, Chosen, Copied, Ascends;
    var text := queries[|queries| - 1];
    if |text| >= c.ng {
      var key, keys := text[|text| - c.ng..], IndexOf(c, queries);
      var occ := Recent(Filed(keys, key), c.maxCand);
      WeighedAscend(keys, key, c.maxCand);
      if exists p :: p in occ && p < |text| {
        var p :| Copied(c, text, occ, p, k, r, matched);
        CopiedFacts(c, text, occ, p, k, r, matched);
        ChosenUnique(c, text, occ, p);
      } else {
        assert Chosen(c, text, occ).None?;
      }
    }
  }

  /** An answer as a function of the queries so far: the furthest-reaching copy and, while no query rewrites
      what earlier ones settled, that of the from-scratch index. */
  ghost predicate Served(c: Params, queries: seq<seq<Token>>, i: nat, k: nat, r: seq<Token>, matched: bool)
    requires i < |queries|
  {
    && r == DraftOf(c, queries[..i + 1], k)
    && Drafts(c, IndexOf(c, queries[..i + 1]), queries[i], k, r, matched)
    && (Settled(queries, c.margin) ==> Answered(c, queries, i, k, r, matched))
  }

  /** Answer a run of queries. */
  method Serve(c: Params, queries: seq<seq<Token>>, k: nat) returns (replies: seq<seq<Token>>, matches: seq<bool>)
    requires c.ng >= 1
    ensures |replies| == |matches| == |queries|
    ensures forall i :: 0 <= i < |queries| ==> Served(c, queries, i, k, replies[i], matches[i])
  {
    hide Proposes, Answered, Indexing, Settled, IndexOf, DraftOf, Stem, Horizon, Drafts, Served;
    var d := new Drafter(c);
    replies, matches := [], [];
    IndexStart(c, queries);
    for i := 0 to |queries|
      invariant fresh(d) && d.Valid() && d.c == c && d.keys == IndexOf(c, queries[..i]) && |replies| == |matches| == i
      invariant forall j :: 0 <= j < i ==> Served(c, queries, j, k, replies[j], matches[j])
    {
      d.Request(queries[i], k);
      var r := d.Fetch();
      ServedNow(c, queries, i, k, r, d.matched, d.keys);
      replies, matches := replies + [r], matches + [d.matched];
    }
  }

  lemma {:induction false} ServedNow(c: Params, queries: seq<seq<Token>>, i: nat, k: nat, r: seq<Token>, matched: bool,
                                     keys: seq<seq<Token>>)
    requires i < |queries| && |r| == k && keys == Indexing(c, IndexOf(c, queries[..i]), queries[i])
    requires Proposes(c, keys, queries[i], k, r, matched) && Drafts(c, keys, queries[i], k, r, matched)
    ensures keys == IndexOf(c, queries[..i + 1]) && Served(c, queries, i, k, r, matched)
  {
    hide Proposes, Answered, Indexing, Settled, IndexOf, DraftOf, Stem, Horizon, Drafts;
    IndexStep(c, queries, i);
    AnswerIsDraftOf(c, queries[..i + 1], k, r, matched);
    if Settled(queries, c.margin) {
      AnswersExact(c, queries, i, k, r, matched);
    }
  }

  lemma {:induction false} IndexStep(c: Params, queries: seq<seq<Token>>, i: nat)
    requires i < |queries|
    ensures IndexOf(c, queries[..i + 1]) == Indexing(c, IndexOf(c, queries[..i]), queries[i])
    ensures queries[..i + 1] != [] && queries[..i + 1][i] == queries[i]
  {
    assert queries[..i + 1][..i] == queries[..i];
  }

  lemma {:induction false} IndexStart(c: Params, queries: seq<seq<Token>>)
    ensures IndexOf(c, queries[..0]) == []
  {
  }

  /** p is an indexed occurrence that agrees with the text's end at least `len` past the anchor, and is
      no earlier than o unless it agrees further. */
  predicate Outmatches(c: Params, text: seq<Token>, upto: nat, o: nat, len: nat, p: nat)
    requires upto <= |text|
  {
    c.ng + len <= p < upto && text[p - c.ng - len..p] == text[|text| - c.ng - len..] &&
    (p >= o || Reach(c, text, p) > len)
  }

  /** Any weighed occurrence whose preceding text agrees with the text's end for `len` tokens past the
      anchor is matched by what is copied: that occurrence agrees at least as far, and is later or
      agrees further. */
  lemma {:induction false} CopiesLongest(c: Params, text: seq<Token>, upto: nat, k: nat, r: seq<Token>, matched: bool,
                                         o: nat, len: nat)
    requires 1 <= c.ng <= |text| && upto <= |text| && len <= c.maxExt
    requires Proposes(c, Anchors(text, c.ng, upto), text, k, r, matched)
    requires o in Recent(Filed(Anchors(text, c.ng, upto), text[|text| - c.ng..]), c.maxCand)
    requires c.ng + len <= o < upto && text[o - c.ng - len..o] == text[|text| - c.ng - len..]
    ensures exists p: nat :: p < |text| && Outmatches(c, text, upto, o, len, p) && r == Continuation(text, p, k)
    ensures len >= c.minMatch ==> matched
  {
    hide Furthest, Reach, Overlap, Recent, Filed, Anchors, Copied, Outmatches, Continuation;
    var n := |text|;
    var occ := Recent(Filed(Anchors(text, c.ng, upto), text[n - c.ng..]), c.maxCand);
    WeighedFacts(c, text, upto, o);
    var p :| Copied(c, text, occ, p, k, r, matched);
    CopiedFacts(c, text, occ, p, k, r, matched);
    CopiedOutmatches(c, text, upto, occ, p, o, len);
  }

  lemma {:induction false} CopiedOutmatches(c: Params, text: seq<Token>, upto: nat, occ: seq<nat>, p: nat, o: nat,
                                            len: nat)
    requires 1 <= c.ng <= |text| && upto <= |text| && len <= c.maxExt
    requires occ == Recent(Filed(Anchors(text, c.ng, upto), text[|text| - c.ng..]), c.maxCand)
    requires Furthest(c, text, occ, p) && p in occ && o in occ
    requires c.ng + len <= o < upto && text[o - c.ng - len..o] == text[|text| - c.ng - len..]
    ensures Outmatches(c, text, upto, o, len, p) && len <= Reach(c, text, p)
  {
    hide Furthest, Reach, Overlap, Recent, Filed, Anchors;
    WeighedFacts(c, text, upto, o);
    WeighedFacts(c, text, upto, p);
    Joined(text, o, c.ng, len);
    FurthestCopies(c, text, occ, p, o, len);
    Joined(text, p, c.ng, len);
  }

  /** A weighed occurrence is one: the anchor stands before it, within the indexed text. */
  lemma {:induction false} WeighedFacts(c: Params, text: seq<Token>, upto: nat, o: nat)
    requires 1 <= c.ng <= |text| && upto <= |text|
    requires o in Recent(Filed(Anchors(text, c.ng, upto), text[|text| - c.ng..]), c.maxCand)
    ensures c.ng <= o < upto && text[o - c.ng..o] == text[|text| - c.ng..]
  {
    var keys, suffix := Anchors(text, c.ng, upto), text[|text| - c.ng..];
    FiledExact(keys, suffix);
    assert o in Filed(keys, suffix);
    assert keys[o] == Anchor(text, c.ng, o);
  }

  lemma {:induction false} FurthestCopies(c: Params, text: seq<Token>, occ: seq<nat>, p: nat, o: nat, len: nat)
    requires Furthest(c, text, occ, p) && o in occ && c.ng + len <= o < |text| && len <= c.maxExt
    requires text[o - c.ng - len..o - c.ng] == text[|text| - c.ng - len..|text| - c.ng]
    ensures c.ng + len <= p && len <= Reach(c, text, p) && (p >= o || Reach(c, text, p) > len)
    ensures text[p - c.ng - len..p - c.ng] == text[|text| - c.ng - len..|text| - c.ng]
  {
    hide Overlap;
    var q, e := o - c.ng, |text| - c.ng;
    OverlapLongest(text, q, e, c.maxExt, len);
    assert len <= Reach(c, text, o) <= Reach(c, text, p);
    OverlapLongest(text, p - c.ng, e, c.maxExt, len);
  }

  /** An anchor and what stands before it, read as one. */
  lemma {:induction false} Joined(text: seq<Token>, p: nat, ng: nat, len: nat)
    requires ng + len <= p <= |text| && text[p - ng..p] == text[|text| - ng..]
    ensures text[p - ng - len..p] == text[|text| - ng - len..] <==>
            text[p - ng - len..p - ng] == text[|text| - ng - len..|text| - ng]
  {
    var s, t, n := text[p - ng - len..p], text[|text| - ng - len..], |text|;
    assert s[..len] == text[p - ng - len..p - ng] && s == s[..len] + text[p - ng..p];
    assert t[..len] == text[n - ng - len..n - ng] && t == t[..len] + text[n - ng..];
  }
}
