/** A coordinator's end of the ring: send a chunk, wait for the next reply. */
module RingLink {
  import opened Decode
  import opened TargetModel
  import opened KvCache
  import opened Ring
  import opened CropRing
  import opened Pipeline
  import opened RingSystem

  class Link {
    const net: Net
    var ring: RingState
    var outstanding: nat

    ghost predicate Valid()
      reads this
    {
      Faithful(net) && ShapedFor(net, ring) && outstanding == |Owed(net, ring)|
    }

    constructor (net: Net, ring: RingState)
      requires Faithful(net) && Ready(net, ring)
      ensures Valid() && this.net == net && Ready(net, this.ring) && outstanding == 0
    {
      this.net, this.ring, outstanding := net, ring, 0;
      new;
      ReadyOwesNothing(net, ring);
    }

    method SendChunk(start: nat, toks: seq<Token>)
      requires ring.queues != []
      modifies this
      ensures ring == Send(old(ring), ChunkPacket(net.model, start, toks)) && outstanding == old(outstanding) + 1
    {
      ring := Send(ring, ChunkPacket(net.model, start, toks));
      outstanding := outstanding + 1;
    }

    /** Wait for the next reply while busy stages run in any order. */
    method RecvLogits() returns (r: seq<Token>)
      requires Valid() && outstanding > 0
      modifies this
      ensures Valid() && outstanding == old(outstanding) - 1
      ensures r == old(Owed(net, ring))[0] && Owed(net, ring) == old(Owed(net, ring))[1..]
      ensures DrainOf(net.nodes, ring).0 == old(DrainOf(net.nodes, ring).0)
    {
      while Replies(ring) == []
        invariant Valid() && Owed(net, ring) == old(Owed(net, ring)) && outstanding == old(outstanding)
        invariant DrainOf(net.nodes, ring).0 == old(DrainOf(net.nodes, ring).0)
        decreases Work(ring.queues)
      {
        SomeStageBusy(net.nodes, ring);
        var s :| 0 <= s < |net.nodes| && ring.queues[s] != [];
        ProceedOwes(net, ring, s);
        ProceedWorks(net.nodes, ring, s);
        ring := Proceed(net.nodes, ring, s);
      }
      ReceiveOwes(net, ring);
      r := Tokens(net.model, Replies(ring)[0]);
      ring := Receive(ring);
      outstanding := outstanding - 1;
    }

    /** Send the last stream token and `ds` at that token's position. */
    method Issue(ghost ids: seq<Token>, ghost p: Pipe, start: nat, tail: Token, ds: seq<Token>)
      requires Valid() && Linked(net, ids, p, ring)
      requires start + 1 == |p.stream| && tail == p.stream[start]
      modifies this
      ensures Valid() && Linked(net, ids, Sent(p, ds), ring) && outstanding == old(outstanding) + 1
    {
      hide Linked, Owed, Faithful, Sent;
      LinkedSend(net, ids, p, ring, ds);
      assert ChunkPacket(net.model, start, [tail] + ds) == ChunkOf(net, p, ds);
      SendChunk(start, [tail] + ds);
    }

    method Fetch(ghost ids: seq<Token>, ghost p: Pipe) returns (r: seq<Token>)
      requires Valid() && Linked(net, ids, p, ring) && p.inflight != []
      modifies this
      ensures Valid() && outstanding == old(outstanding) - 1
      ensures p.discard == 0 ==>
                |r| == |p.inflight[0].drafts| + 1 && Overlays(ids, p) && Answers(net.next, p.stream, p.inflight[0], r)
      ensures var p' := Read(ids, p, r); Linked(net, ids, p', ring) && p.out <= p'.out
    {
      ghost var was := ring;
      r := RecvLogits();
      LinkedRead(net, ids, p, was, ring);
      LinkedOverlays(net, ids, p, was);
      LinkedAnswers(net, ids, p, was);
    }

    /** The prompt at position 0: its last verdict is the first token. */
    method Prefill(ids: seq<Token>) returns (cur: Token)
      requires Valid() && Ready(net, ring) && outstanding == 0 && ids != []
      modifies this
      ensures Valid() && outstanding == 0
      ensures cur == net.next(ids) && Linked(net, ids, Started(ids, cur), ring)
    {
      hide Linked, Ready, Faithful, WillHold;
      ReadyOwesNothing(net, ring);
      assert ids[..0] == [] && ids[0..] == ids;
      SendVerdicts(net, ring, ids, 0);
      SendChunk(0, ids);
      var r := RecvLogits();
      assert ids[..0 + (|ids| - 1) + 1] == ids;
      cur := r[|r| - 1];
      LinkedStart(net, ids, ring);
    }

    /** Read and drop every reply still on its way. */
    method DrainReplies(ghost ids: seq<Token>, ghost p: Pipe)
      requires Valid() && Linked(net, ids, p, ring)
      modifies this
      ensures Valid() && outstanding == 0 && Ready(net, ring)
    {
      ghost var held := Held(p);
      while outstanding > 0
        invariant Valid() && WillHold(net, ring, held)
      {
        var _ := RecvLogits();
      }
      SettledIsReady(net, ring, held);
    }
  }
}
