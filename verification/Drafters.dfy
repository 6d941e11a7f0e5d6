/** A coordinator's draft source: an arbitrary oracle, or a draft model whose cache follows the
    speculative stream by writing in place or by cropping. */
module Drafters {
  import opened Decode
  import opened TargetModel
  import opened KvCache
  import opened DraftCache
  import opened Pipeline

  /** An oracle answers from K, the run and the call; the drafts are those of the two cached coordinators. */
  datatype Drafter = Oracle(f: (nat, nat, nat) -> seq<Token>) | Static(s: StaticDraft) | Cropped(c: CropDraft)

  ghost function Foot(d: Drafter): set<object> {
    match d
    case Oracle(_) => {}
    case Static(s) => set i | 0 <= i < |s.cache.bufs| :: s.cache.bufs[i] as object
    case Cropped(c) => {c.cache as object}
  }

  ghost predicate Usable(d: Drafter)
    reads Foot(d)
  {
    match d
    case Oracle(f) => forall K, run, call :: |f(K, run, call)| == K
    case Static(s) => Whole(s.m) && s.cache.Valid() && s.cache.ls == s.m.stages[0]
    case Cropped(c) => c.Valid()
  }

  /** The draft's cache shows the stream up to its last token, which is fed next. */
  ghost predicate InStep(d: Drafter, ids: seq<Token>, stream: seq<Token>)
    reads Foot(d)
  {
    Usable(d) && stream != [] && |ids| < |stream| &&
    match d
    case Oracle(_) => true
    case Static(s) => Holds(s.m.stages[0], s.cache.Contents(), Embed(s.m, Seen(s.vocab, |ids|, stream[..|stream| - 1])))
    case Cropped(c) => c.Shows(Seen(c.vocab, |ids|, stream[..|stream| - 1]))
  }

  /** The slots a static draft has; the others grow. */
  predicate HasSlots(d: Drafter, end: nat) {
    d.Static? ==> end <= d.s.cache.maxlen
  }

  /** These K tokens are what the draft model says after this stream - the same whichever way its cache
      is rewound. */
  predicate Follows(d: Drafter, ids: seq<Token>, stream: seq<Token>, ds: seq<Token>) {
    stream != [] &&
    match d
    case Oracle(_) => true
    case Static(s) => ds == Drafted(Next(s.m), s.vocab, Seen(s.vocab, |ids|, stream[..|stream| - 1]),
                                    stream[|stream| - 1], |ds|)
    case Cropped(c) => ds == Drafted(Next(c.m), c.vocab, Seen(c.vocab, |ids|, stream[..|stream| - 1]),
                                     stream[|stream| - 1], |ds|)
  }

  /** Prefill the draft with the prompt; the in-place one warms its compiled step up. */
  method Begin(d: Drafter, ids: seq<Token>, cur: Token)
    requires Usable(d) && ids != [] && HasSlots(d, |ids| + 8)
    modifies Foot(d)
    ensures InStep(d, ids, ids + [cur])
  {
    assert (ids + [cur])[..|ids|] == ids;
    match d
    case Oracle(_) =>
    case Static(s) =>
      s.Prefill(ids);
      s.WarmUp(cur, |ids|, Seen(s.vocab, |ids|, ids));
    case Cropped(c) =>
      c.Renew();
      c.Prefill(ids);
  }

  method Propose(d: Drafter, run: nat, call: nat, tail: Token, sendPos: nat, K: nat, ghost ids: seq<Token>,
                 ghost stream: seq<Token>)
    returns (ds: seq<Token>)
    requires InStep(d, ids, stream) && |stream| == sendPos + 1 && stream[sendPos] == tail && HasSlots(d, sendPos + K)
    modifies Foot(d)
    ensures |ds| == K && Follows(d, ids, stream, ds) && InStep(d, ids, stream + ds)
  {
    hide Holds;
    match d
    case Oracle(f) => ds := f(K, run, call);
    case Static(s) => ds := s.DraftK(tail, sendPos, K, |ids|, stream);
    case Cropped(c) => ds := c.DraftK(tail, K, |ids|, stream);
  }

  /** Go on from a shorter stream: crop, or just write there next. */
  method Rewind(d: Drafter, pos: nat, ghost ids: seq<Token>, ghost stream: seq<Token>, ghost cur: Token)
    requires InStep(d, ids, stream) && |ids| <= pos < |stream|
    modifies Foot(d)
    ensures InStep(d, ids, stream[..pos] + [cur])
  {
    hide Holds;
    assert (stream[..pos] + [cur])[..pos] == stream[..|stream| - 1][..pos];
    match d
    case Oracle(_) =>
    case Static(s) =>
      SeenPrefix(s.vocab, |ids|, stream[..|stream| - 1], pos);
      s.Rewound(Seen(s.vocab, |ids|, stream[..|stream| - 1]), pos);
    case Cropped(c) =>
      SeenPrefix(c.vocab, |ids|, stream[..|stream| - 1], pos);
      c.CropTo(pos, Seen(c.vocab, |ids|, stream[..|stream| - 1]));
  }

  /** A diverging reply shortens the stream to what was agreed on, and the target's token. */
  lemma {:induction false} DivergesTo(ids: seq<Token>, p: Pipe, r: seq<Token>)
    requires p.inflight != [] && p.discard == 0 && ids + p.out + p.inflight[0].drafts <= p.stream
    requires |p.inflight[0].drafts| + 1 == |r| && Agreed(p.inflight[0].drafts, r) < |p.inflight[0].drafts|
    ensures var n := Agreed(p.inflight[0].drafts, r);
            var pos := |ids + p.out| + n;
            pos < |p.stream| && Read(ids, p, r).stream == p.stream[..pos] + [r[n]]
  {
    var ds := p.inflight[0].drafts;
    var n := Agreed(ds, r);
    var text := ids + p.out + ds;
    assert p.stream[..|text|] == text;
    assert p.stream[..|ids + p.out| + n] == text[..|ids + p.out| + n] == ids + p.out + ds[..n];
    assert ids + (p.out + (ds[..n] + [r[n]])) == ids + p.out + ds[..n] + [r[n]];
  }
}
