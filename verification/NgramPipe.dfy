/** The n-gram pipeline: drafts looked up in the stream itself; chunks vary, may be empty, may repeat. */
module NgramPipe {
  import opened Decode
  import opened TargetModel
  import opened CropRing
  import opened Pipeline
  import opened RingSystem
  import opened RingLink
  import opened StopRule
  import opened CommitLog

  /** The suffix of length n occurs at i as well, before the end. */
  predicate Occurs(text: seq<Token>, n: nat, i: int) {
    0 <= i && i + n < |text| && text[i..i + n] == text[|text| - n..]
  }

  /** An occurrence the search finds: one at least n - 1 places in. */
  predicate Recurs(text: seq<Token>, n: nat, i: int) {
    1 <= n && n - 1 <= i && Occurs(text, n, i)
  }

  function Continued(text: seq<Token>, K: nat, n: nat, i: nat): seq<Token>
    requires i + n < |text|
  {
    text[i + n..Min(i + n + K, |text|)]
  }

  /** The most recent earlier occurrence of the suffix is continued, if there is one. */
  ghost predicate AsDocumented(text: seq<Token>, K: nat, n: nat, ds: seq<Token>) {
    if exists i :: Occurs(text, n, i) then
      exists i :: Occurs(text, n, i) && (forall j :: i < j ==> !Occurs(text, n, j)) && ds == Continued(text, K, n, i)
    else ds == []
  }

  /** No occurrence, or one the search finds. */
  ghost predicate Findable(text: seq<Token>, n: nat) {
    (forall i :: !Occurs(text, n, i)) || exists i :: Recurs(text, n, i)
  }

  /** At most K tokens, those after the latest occurrence the search finds; none if it finds none. */
  ghost predicate IsDraft(text: seq<Token>, K: nat, n: nat, ds: seq<Token>) {
    && |ds| <= K
    && (K >= 1 ==> (ds != [] <==> exists i :: Recurs(text, n, i)))
    && (ds != [] ==> exists i :: Recurs(text, n, i) && (forall j :: i < j ==> !Recurs(text, n, j)) &&
                                 ds == Continued(text, K, n, i))
  }

  lemma {:induction false} DraftUnique(text: seq<Token>, K: nat, n: nat, ds: seq<Token>, es: seq<Token>)
    requires IsDraft(text, K, n, ds) && IsDraft(text, K, n, es)
    ensures ds == es
  {
    if K >= 1 && ds != [] {
      var i :| Recurs(text, n, i) && (forall j :: i < j ==> !Recurs(text, n, j)) && ds == Continued(text, K, n, i);
      var k :| Recurs(text, n, k) && (forall j :: k < j ==> !Recurs(text, n, j)) && es == Continued(text, K, n, k);
    }
  }

  /** Up to K tokens that followed the latest recurrence of the text's length-n suffix; the search
      never looks at the first n - 1 start positions. */
  method NgramDraft(text: seq<Token>, K: nat, n: nat) returns (ds: seq<Token>)
    ensures IsDraft(text, K, n, ds)
    ensures n >= 1 && K >= 1 ==> (AsDocumented(text, K, n, ds) <==> Findable(text, n))
  {
    if |text| < n + 1 || n == 0 {
      return [];
    }
    var suf := text[|text| - n..];
    var i := |text| - n - 1;
    while i > n - 2
      invariant i <= |text| - n - 1
      invariant forall j :: i < j ==> !Recurs(text, n, j)
    {
      if text[i..i + n] == suf {
        assert Recurs(text, n, i);
        ds := Continued(text, K, n, i);
        if K >= 1 { DocumentedWhenFound(text, K, n, ds, i); }
        return ds;
      }
      i := i - 1;
    }
    if K >= 1 { UndocumentedWhenMissed(text, K, n); }
    return [];
  }

  lemma {:induction false} DocumentedWhenFound(text: seq<Token>, K: nat, n: nat, ds: seq<Token>, i: nat)
    requires n >= 1 && Recurs(text, n, i) && (forall j :: i < j ==> !Recurs(text, n, j)) &&
             ds == Continued(text, K, n, i)
    ensures AsDocumented(text, K, n, ds) && Findable(text, n)
  {
    forall j | i < j ensures !Occurs(text, n, j) {
      assert !Recurs(text, n, j);
    }
  }

  /** Nothing is proposed, though the latest occurrence has a continuation. */
  lemma {:induction false} UndocumentedWhenMissed(text: seq<Token>, K: nat, n: nat)
    requires n >= 1 && K >= 1 && forall j :: !Recurs(text, n, j)
    ensures AsDocumented(text, K, n, []) <==> Findable(text, n)
  {
    if i :| Occurs(text, n, i) {
      assert !Findable(text, n);
      forall k: nat | k + n < |text| ensures Continued(text, K, n, k) != [] {}
    }
  }

  /** What the search finds is what it is after exactly when there is nothing to find, or the latest
      occurrence starts at n - 1 or later. */
  lemma {:induction false} FindableWhenLate(text: seq<Token>, n: nat, i: int)
    requires n >= 1 && Occurs(text, n, i) && forall j :: i < j ==> !Occurs(text, n, j)
    ensures Findable(text, n) <==> i >= n - 1
  {
    if i >= n - 1 {
      assert Recurs(text, n, i);
    }
  }

  /** A text whose suffix occurred before, too early to be found. */
  lemma {:induction false} EarlyRecurrenceMissed()
    ensures var text := [7, 8, 9, 7, 8, 9]; Occurs(text, 3, 0) && !Findable(text, 3)
  {
    var text := [7, 8, 9, 7, 8, 9];
    assert text[0..3] == text[|text| - 3..];
    assert Occurs(text, 3, 0);
    forall i ensures !Recurs(text, 3, i) {
      if i == 2 {
        assert text[2..5][0] == 9 && text[3..][0] == 7;
      }
    }
  }

  /** The committed text is a prefix of the stream; position `pos` holds its last token. */
  ghost predicate StreamInv(ids: seq<Token>, p: Pipe, out: seq<Token>, stream: seq<Token>, pos: nat,
                            inflight: seq<Chunk>, discard: nat) {
    && p == Pipe(out, stream, inflight, discard) && out != [] && discard <= |inflight|
    && pos + 1 == |ids| + |out| && ids + out <= stream
  }

  /** Every chunk not yet stale holds what the search finds in the stream it was cut from. */
  ghost predicate Searched(inflight: seq<Chunk>, discard: nat, stream: seq<Token>, K: nat, n: nat) {
    forall k :: discard <= k < |inflight| ==> FromSearch(inflight[k], stream, K, n)
  }

  ghost predicate FromSearch(c: Chunk, stream: seq<Token>, K: nat, n: nat) {
    c.start < |stream| && IsDraft(stream[..c.start + 1], K, n, c.drafts)
  }

  lemma {:induction false} SearchedMore(inflight: seq<Chunk>, discard: nat, stream: seq<Token>, K: nat, n: nat,
                                        ds: seq<Token>)
    requires Searched(inflight, discard, stream, K, n) && discard <= |inflight| && stream != []
    requires IsDraft(stream, K, n, ds)
    ensures Searched(inflight + [Chunk(|stream| - 1, ds)], discard, stream + ds, K, n)
  {
    hide IsDraft;
    var more := inflight + [Chunk(|stream| - 1, ds)];
    assert stream[..|stream|] == stream;
    forall k | discard <= k < |more| ensures FromSearch(more[k], stream + ds, K, n) {
      assert k < |inflight| ==> FromSearch(inflight[k], stream, K, n);
      var at := more[k].start + 1;
      assert (stream + ds)[..at] == stream[..at];
    }
  }

  /** The log of a run: every reply's drafts are what the search finds in the text committed before it. */
  ghost predicate Logged(next: Target, ids: seq<Token>, K: nat, n: nat, maxNew: nat, eos: set<Token>, out: seq<Token>,
                         log: Log, done: bool)
    requires ids != []
  {
    && Records(next, ids, 1, out, log, false) && Stopping(LastToken, out, log, maxNew, eos, done)
    && (forall i :: 0 <= i < |log.drafts| ==> SearchedAt(ids, K, n, out, log, i))
  }

  ghost predicate SearchedAt(ids: seq<Token>, K: nat, n: nat, out: seq<Token>, log: Log, i: nat)
    requires i < |log.drafts| && i < |log.ends|
  {
    log.ends[i] <= |out| && IsDraft(ids + out[..log.ends[i]], K, n, log.drafts[i])
  }

  lemma {:induction false} LoggedMore(next: Target, ids: seq<Token>, K: nat, n: nat, maxNew: nat, eos: set<Token>,
                                      out: seq<Token>, log: Log, ds: seq<Token>, ys: seq<Token>)
    requires ids != [] && Logged(next, ids, K, n, maxNew, eos, out, log, false)
    requires IsDraft(ids + out, K, n, ds) && CommitOf(next, ids + out, ds, ys, false)
    ensures ys != []
    ensures Logged(next, ids, K, n, maxNew, eos, out + ys, More(log, out + ys, ds),
                   maxNew <= |out + ys| || ys[|ys| - 1] in eos)
  {
    hide IsDraft, Records, Stopping, CommitOf;
    CommitSome(next, ids + out, ds, ys, false);
    RecordsMore(LastToken, next, ids, 1, out, log, false, maxNew, eos, ds, ys);
    var log' := More(log, out + ys, ds);
    RecordsShape(next, ids, 1, out, log, false);
    assert (out + ys)[..|out|] == out;
    forall i | 0 <= i < |log'.drafts| ensures SearchedAt(ids, K, n, out + ys, log', i) {
      if i < |log.drafts| {
        assert SearchedAt(ids, K, n, out, log, i);
        assert (out + ys)[..log.ends[i]] == out[..log.ends[i]];
      }
    }
  }

  /** One log: the output depends on nothing but the prompt, the target, K, n and the caps - neither on the
      depth nor on the ring's schedule. */
  lemma {:induction false} OneLog(next: Target, ids: seq<Token>, K: nat, n: nat, maxNew: nat, eos: set<Token>,
                                  x: seq<Token>, y: seq<Token>, a: Log, b: Log)
    requires ids != [] && a.drafts != [] && b.drafts != []
    requires Logged(next, ids, K, n, maxNew, eos, x, a, true) && Logged(next, ids, K, n, maxNew, eos, y, b, true)
    requires x == Greedy(next, ids, |x|) && y == Greedy(next, ids, |y|)
    ensures x == y && a == b
  {
    hide IsDraft, Stopping, CommitOf, SearchedAt, Greedy;
    RecordsShape(next, ids, 1, x, a, false);
    RecordsShape(next, ids, 1, y, b, false);
    SamePrefix(next, ids, x, y, 1);
    var i := 0;
    assert a.ends[..1] == [1] == b.ends[..1];
    while i < |a.drafts| && i < |b.drafts|
      invariant i <= |a.drafts| && i <= |b.drafts| && Alike(a, b, i)
      invariant a.ends[i] <= |x| && a.ends[i] <= |y| && x[..a.ends[i]] == y[..a.ends[i]]
      invariant i > 0 ==> (i == |a.drafts| <==> i == |b.drafts|)
    {
      SameDraft(next, ids, K, n, maxNew, eos, x, y, a, b, i);
      AlikeNext(next, ids, 1, x, y, a, b, false, i);
      i := i + 1;
      AlikeStop(LastToken, x, y, a, b, maxNew, eos, i);
    }
    assert a.ends == a.ends[..i + 1] && b.ends == b.ends[..i + 1] && a.drafts == a.drafts[..i] &&
           b.drafts == b.drafts[..i];
    assert x == x[..a.ends[i]] && y == y[..a.ends[i]];
  }

  lemma {:induction false} SameDraft(next: Target, ids: seq<Token>, K: nat, n: nat, maxNew: nat, eos: set<Token>,
                                     x: seq<Token>, y: seq<Token>, a: Log, b: Log, i: nat)
    requires ids != [] && i < |a.drafts| && i < |b.drafts| && Alike(a, b, i)
    requires Logged(next, ids, K, n, maxNew, eos, x, a, true) && Logged(next, ids, K, n, maxNew, eos, y, b, true)
    requires a.ends[i] <= |x| && a.ends[i] <= |y| && x[..a.ends[i]] == y[..a.ends[i]]
    ensures a.drafts[i] == b.drafts[i]
  {
    hide IsDraft, Records, Stopping;
    assert a.ends[i] == a.ends[..i + 1][i] == b.ends[..i + 1][i] == b.ends[i];
    assert SearchedAt(ids, K, n, x, a, i) && SearchedAt(ids, K, n, y, b, i);
    DraftUnique(ids + x[..a.ends[i]], K, n, a.drafts[i], b.drafts[i]);
  }

  method Run(link: Link, ids: seq<Token>, maxNew: nat, eos: set<Token>, K: nat, n: nat, depth: nat)
    returns (res: seq<Token>, ghost out: seq<Token>, ghost log: Log)
    requires link.Valid() && Ready(link.net, link.ring) && link.outstanding == 0 && ids != [] && depth >= 1
    modifies link
    ensures link.Valid() && out == Greedy(link.net.next, ids, |out|) && res == Trimmed(out, eos)
    ensures CutCap(res, eos, maxNew) == Answer(link.net.next, ids, eos, maxNew)
    ensures log.drafts != [] && Logged(link.net.next, ids, K, n, maxNew, eos, out, log, true)
  {
    hide Linked, Link.Valid, Ready, Faithful, Greedy, CutCap, Answer, StreamInv, Logged, Searched, CommitOf, Judged;
    hide IsDraft;
    var cur := link.Prefill(ids);
    var stream, pos: nat, all := ids + [cur], |ids|, [cur];
    var inflight: seq<Chunk>, discard: nat, done := [], 0, false;
    ghost var p := Started(ids, cur);
    StreamStart(ids, cur);
    log := Log([1], []);
    LoggedStart(link.net.next, ids, K, n, maxNew, eos, cur);
    while !done
      invariant link.Valid() && Linked(link.net, ids, p, link.ring)
      invariant StreamInv(ids, p, all, stream, pos, inflight, discard) && Searched(inflight, discard, stream, K, n)
      invariant all != [] && Logged(link.net.next, ids, K, n, maxNew, eos, all, log, done)
      invariant done ==> log.drafts != [] && (maxNew <= |all| || all[|all| - 1] in eos)
      decreases !done, Max(0, maxNew - |all|), discard
    {
      p, stream, inflight := Fill(link, ids, p, all, stream, pos, inflight, discard, K, n, depth);
      var r := link.Fetch(ids, p);
      ghost var was, ds, fresh_ := all, inflight[0].drafts, discard == 0;
      all, stream, pos, inflight, discard, done :=
        Take(link.net.next, ids, p, all, stream, pos, inflight, discard, r, K, n, maxNew, eos);
      if fresh_ {
        LoggedMore(link.net.next, ids, K, n, maxNew, eos, was, log, ds, all[|was|..]);
        assert was + all[|was|..] == all;
        log := More(log, all, ds);
      }
      p := Read(ids, p, r);
    }
    LinkedGreedy(link.net, ids, p, link.ring);
    StreamOut(ids, p, all, stream, pos, inflight, discard);
    StoppedRunAnswers(link.net.next, ids, all, eos, maxNew);
    out, res := all, Trimmed(all, eos);
  }

  lemma {:induction false} LoggedStart(next: Target, ids: seq<Token>, K: nat, n: nat, maxNew: nat, eos: set<Token>,
                                       cur: Token)
    requires ids != []
    ensures Logged(next, ids, K, n, maxNew, eos, [cur], Log([1], []), false)
    ensures forall stream :: Searched([], 0, stream, K, n)
  {
    RecordsStart(LastToken, next, ids, [cur], false, maxNew, eos);
  }

  lemma {:induction false} StreamStart(ids: seq<Token>, cur: Token)
    ensures StreamInv(ids, Started(ids, cur), [cur], ids + [cur], |ids|, [], 0)
  {
  }

  lemma {:induction false} StreamOut(ids: seq<Token>, p: Pipe, out: seq<Token>, stream: seq<Token>, pos: nat,
                                     inflight: seq<Chunk>, discard: nat)
    requires StreamInv(ids, p, out, stream, pos, inflight, discard)
    ensures p.out == out && stream[..pos + 1] == ids + out
  {
  }

  /** Send chunks while the suffix keeps recurring; an empty one ends the filling. */
  method Fill(link: Link, ghost ids: seq<Token>, ghost p0: Pipe, ghost out: seq<Token>, stream0: seq<Token>,
              ghost pos: nat, inflight0: seq<Chunk>, ghost discard: nat, K: nat, n: nat, depth: nat)
    returns (ghost p: Pipe, stream: seq<Token>, inflight: seq<Chunk>)
    requires link.Valid() && Linked(link.net, ids, p0, link.ring) && depth >= 1
    requires StreamInv(ids, p0, out, stream0, pos, inflight0, discard) && Searched(inflight0, discard, stream0, K, n)
    modifies link
    ensures link.Valid() && Linked(link.net, ids, p, link.ring)
    ensures StreamInv(ids, p, out, stream, pos, inflight, discard) && p.inflight != []
    ensures inflight0 <= inflight != [] && Searched(inflight, discard, stream, K, n)
    ensures |inflight| >= depth || inflight[|inflight| - 1].drafts == []
    ensures |inflight| <= Max(depth, |inflight0|)
    ensures forall k :: |inflight0| <= k < |inflight| ==> FromSearch(inflight[k], stream, K, n)
  {
    hide Linked, Link.Valid, Recurs, IsDraft, Searched;
    p, stream, inflight := p0, stream0, inflight0;
    while |inflight| < depth
      invariant link.Valid() && Linked(link.net, ids, p, link.ring)
      invariant StreamInv(ids, p, out, stream, pos, inflight, discard) && Searched(inflight, discard, stream, K, n)
      invariant inflight0 <= inflight && |inflight| <= Max(depth, |inflight0|)
      invariant inflight == inflight0 || inflight[|inflight| - 1].drafts != []
      decreases depth - |inflight|
    {
      var ds := NgramDraft(stream, K, n);
      SearchedMore(inflight, discard, stream, K, n, ds);
      var at := |stream| - 1;
      link.Issue(ids, p, at, stream[at], ds);
      p := Sent(p, ds);
      inflight := inflight + [Chunk(at, ds)];
      if ds != [] {
        stream := stream + ds;
      } else {
        assert stream + ds == stream;
        break;
      }
    }
    SearchedFacts(inflight, discard, stream, K, n);
  }

  /** Skip a stale reply, commit a fully accepted chunk, or commit the target's correction and cut
      the stream there. */
  method Take(ghost next: Target, ghost ids: seq<Token>, ghost p: Pipe, out0: seq<Token>, stream0: seq<Token>,
              pos0: nat, inflight0: seq<Chunk>, discard0: nat, r: seq<Token>, ghost K: nat, ghost n: nat, maxNew: nat,
              eos: set<Token>)
    returns (out: seq<Token>, stream: seq<Token>, pos: nat, inflight: seq<Chunk>, discard: nat, done: bool)
    requires StreamInv(ids, p, out0, stream0, pos0, inflight0, discard0) && p.inflight != [] && ids != []
    requires p.discard == 0 ==> |r| == |p.inflight[0].drafts| + 1 && Overlays(ids, p) &&
                                Answers(next, p.stream, p.inflight[0], r)
    requires Searched(inflight0, discard0, stream0, K, n)
    ensures StreamInv(ids, Read(ids, p, r), out, stream, pos, inflight, discard)
    ensures Searched(inflight, discard, stream, K, n)
    ensures done <==> discard0 == 0 && (maxNew <= |out| || out[|out| - 1] in eos)
    ensures done || (discard < discard0 && out == out0) || |out0| < |out| < maxNew
    ensures discard0 > 0 ==> out == out0
    ensures discard0 == 0 ==> var ds := inflight0[0].drafts;
                              out0 <= out && IsDraft(ids + out0, K, n, ds) &&
                              CommitOf(next, ids + out0, ds, out[|out0|..], false)
  {
    hide Agreed, CommitOf, IsDraft, Judged;
    out, stream, pos, inflight, discard, done := out0, stream0, pos0, inflight0[1..], discard0, false;
    var ds := inflight0[0].drafts;
    if discard > 0 {
      discard := discard - 1;
    } else {
      HeadJudged(next, ids, p, r);
      HeadSearched(ids, out0, inflight0, stream0, K, n);
      CommitsAre(next, ids + out0, ds, r);
      var nAcc := CountAgreed(ds, r);
      var cur;
      if ds != [] && nAcc == |ds| {
        out, pos, cur := out + ds, pos + |ds|, ds[|ds| - 1];
        assert ids + out == ids + out0 + ds;
      } else {
        out, cur, pos := out + (ds[..nAcc] + [r[nAcc]]), r[nAcc], pos + nAcc + 1;
        discard := |inflight|;
        CutStream(ids, out0, ds, nAcc, cur, stream);
        stream := stream[..pos] + [cur];
      }
      done := |out| >= maxNew || cur in eos;
      assert out[|out| - 1] == cur;
    }
  }

  lemma {:induction false} HeadSearched(ids: seq<Token>, out: seq<Token>, inflight: seq<Chunk>, stream: seq<Token>,
                                        K: nat, n: nat)
    requires Searched(inflight, 0, stream, K, n) && inflight != []
    requires inflight[0].start + 1 == |ids| + |out| && ids + out <= stream
    ensures IsDraft(ids + out, K, n, inflight[0].drafts)
  {
    hide IsDraft;
    assert FromSearch(inflight[0], stream, K, n);
    assert stream[..|ids| + |out|] == ids + out;
  }

  lemma {:induction false} SearchedFacts(inflight: seq<Chunk>, discard: nat, stream: seq<Token>, K: nat, n: nat)
    requires Searched(inflight, discard, stream, K, n)
    ensures forall k :: discard <= k < |inflight| ==> FromSearch(inflight[k], stream, K, n)
  {
  }

  /** Cutting the stream after the accepted drafts and appending the correction leaves exactly the
      committed text. */
  lemma {:induction false} CutStream(ids: seq<Token>, out: seq<Token>, ds: seq<Token>, n: nat, t: Token,
                                     stream: seq<Token>)
    requires n <= |ds| && ids + out + ds <= stream
    ensures stream[..|ids| + |out| + n] + [t] == ids + (out + (ds[..n] + [t]))
  {
    assert (ids + out + ds)[..|ids| + |out| + n] == ids + out + ds[..n];
  }
}
