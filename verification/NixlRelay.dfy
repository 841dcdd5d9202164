/**
 * The NIXL relay: rank 0 fills buckets, every other rank pulls each bucket from the rank before it,
 * serves it to its own consumer and offers it to the rank after it, all through two buffers a rank.
 *
 * A bucket is the list of its chunks; `bs` is what rank 0 packs. A state of the whole chain moves by
 * one step of one rank at a time, in any order. Messages and notifications are queues.
 */
module NixlRelay {
  import opened Wrappers
  import opened Sequences

  /** The message of a `ReadableOperation`: which buffer, how many chunks, and the notify key. */
  datatype Offer = Offer(key: nat, buf: bool, size: nat, isLast: bool)

  datatype Pc =
    | Filling       // rank 0 writes a bucket
    | AwaitLastAck  // rank 0 waits until the last bucket is read
    | AwaitMeta     // waits for the next metadata from the previous rank
    | Serving       // yields the chunks of the held bucket, then waits until the next rank has read it
    | AwaitRead     // waits until its own read is complete
    | Done

  /**
   * `cur` is the physical buffer that `send_buf` names; `recv_buf` is the other one. The counters at
   * the end only count: offers made, metadata taken, reads completed, acknowledgements consumed.
   */
  datatype Rank<T> = Rank(
    buf0: seq<T>, buf1: seq<T>, cur: bool, pc: Pc,
    inbox: seq<Offer>, acks: seq<nat>,
    reading: Option<Offer>, transferred: bool,
    hold: Option<Offer>, served: nat, out: seq<T>,
    pending: Option<nat>, round: nat,
    offered: nat, popped: nat, copied: nat, acked: nat)
  {
    function Buf(b: bool): seq<T> {
      if b then buf1 else buf0
    }

    function WithBuf(b: bool, content: seq<T>): Rank<T> {
      if b then this.(buf1 := content) else this.(buf0 := content)
    }
  }

  type Chain<T> = seq<Rank<T>>

  function StartRank<T>(first: bool): Rank<T> {
    Rank([], [], false, if first then Filling else AwaitMeta, [], [], None, false, None, 0, [], None, 0, 0, 0, 0, 0)
  }

  function StartChain<T>(n: nat): Chain<T> {
    seq(n, r => StartRank(r == 0))
  }

  datatype Step =
    | Write
    | Flush
    | Finish
    | Meta(r: nat)
    | Transfer(r: nat)
    | Yield(r: nat)
    | Acknowledge(r: nat)
    | Swap(r: nat)

  // ----- the steps of rank 0

  predicate CanWrite<T>(bs: seq<seq<T>>, x: Rank<T>) {
    x.pc == Filling && x.round < |bs| && x.served < |bs[x.round]|
  }

  /** The next chunk goes behind the ones already in the bucket; what was there is lost. */
  function DoWrite<T>(bs: seq<seq<T>>, x: Rank<T>): Rank<T>
    requires CanWrite(bs, x)
  {
    var b := x.Buf(x.cur);
    var kept := if x.served <= |b| then b[..x.served] else b;
    x.WithBuf(x.cur, kept + [bs[x.round][x.served]]).(served := x.served + 1)
  }

  /** The bucket is full and the previous one, if any, has been read by the next rank. */
  predicate CanFlush<T>(bs: seq<seq<T>>, x: Rank<T>) {
    x.pc == Filling && x.round < |bs| && x.served == |bs[x.round]| && (x.pending.Some? ==> x.acks != [])
  }

  function FlushOffer<T>(bs: seq<seq<T>>, x: Rank<T>): Offer {
    Offer(x.round, x.cur, x.served, x.round + 1 == |bs|)
  }

  function DoFlush<T>(bs: seq<seq<T>>, x: Rank<T>): Rank<T>
    requires CanFlush(bs, x)
  {
    var y := if x.pending.Some? then x.(acks := x.acks[1..], acked := x.acked + 1) else x;
    var z := y.(pending := Some(x.round), offered := x.offered + 1);
    if x.round + 1 == |bs| then z.(pc := AwaitLastAck)
    else z.(cur := !x.cur, round := x.round + 1, served := 0)
  }

  predicate CanFinish<T>(x: Rank<T>) {
    x.pc == AwaitLastAck && x.acks != []
  }

  function DoFinish<T>(x: Rank<T>): Rank<T>
    requires CanFinish(x)
  {
    x.(acks := x.acks[1..], acked := x.acked + 1, pending := None, pc := Done)
  }

  // ----- the steps of a receiving rank

  predicate CanMeta<T>(x: Rank<T>) {
    x.pc == AwaitMeta && x.inbox != []
  }

  /** Takes the metadata and begins the read: from now on `recv_buf` is being written. */
  function DoMeta<T>(x: Rank<T>): Rank<T>
    requires CanMeta(x)
  {
    x.WithBuf(!x.cur, []).(inbox := x.inbox[1..], reading := Some(x.inbox[0]), transferred := false,
      popped := x.popped + 1, pc := if x.hold.Some? then Serving else AwaitRead)
  }

  /** The key of the offer that is being read. */
  function Key<T>(x: Rank<T>): nat {
    if x.reading.Some? then x.reading.value.key else 0
  }

  predicate CanTransfer<T>(x: Rank<T>) {
    x.reading.Some? && !x.transferred
  }

  /** The read completes, at any time after it began, and the previous rank is notified. */
  function DoTransfer<T>(x: Rank<T>, prev: Rank<T>): Rank<T>
    requires CanTransfer(x)
  {
    x.WithBuf(!x.cur, prev.Buf(x.reading.value.buf)).(transferred := true, copied := x.copied + 1)
  }

  predicate CanYield<T>(x: Rank<T>) {
    x.pc == Serving && x.hold.Some? && x.served < x.hold.value.size
  }

  /** Serves the next chunk of the held bucket from `send_buf`. */
  function DoYield<T>(x: Rank<T>): Rank<T>
    requires CanYield(x)
  {
    var b := x.Buf(x.cur);
    x.(out := x.out + (if x.served < |b| then [b[x.served]] else []), served := x.served + 1)
  }

  predicate CanAcknowledge<T>(x: Rank<T>) {
    x.pc == Serving && x.hold.Some? && x.served == x.hold.value.size && (x.pending.Some? ==> x.acks != [])
  }

  function DoAcknowledge<T>(x: Rank<T>): Rank<T>
    requires CanAcknowledge(x)
  {
    var y := if x.pending.Some? then x.(acks := x.acks[1..], pending := None) else x;
    y.(acked := x.acked + 1, pc := if x.hold.value.isLast then Done else AwaitRead)
  }

  predicate CanSwap<T>(x: Rank<T>) {
    x.pc == AwaitRead && x.reading.Some? && x.transferred
  }

  function SwapOffer<T>(x: Rank<T>): Offer
    requires CanSwap(x)
  {
    Offer(x.round, !x.cur, x.reading.value.size, x.reading.value.isLast)
  }

  /** Swaps the buffers and offers the new bucket to the next rank, if there is one. */
  function DoSwap<T>(x: Rank<T>, hasNext: bool): Rank<T>
    requires CanSwap(x)
  {
    var y := x.(cur := !x.cur, hold := x.reading, reading := None, transferred := false, served := 0,
      round := x.round + 1, pc := if x.reading.value.isLast then Serving else AwaitMeta);
    if hasNext then y.(pending := Some(x.round), offered := x.offered + 1) else y
  }

  // ----- the chain

  predicate Enabled<T>(bs: seq<seq<T>>, s: Chain<T>, step: Step) {
    match step
    case Write => 0 < |s| && CanWrite(bs, s[0])
    case Flush => 1 < |s| && CanFlush(bs, s[0])
    case Finish => 0 < |s| && CanFinish(s[0])
    case Meta(r) => 0 < r < |s| && CanMeta(s[r])
    case Transfer(r) => 0 < r < |s| && CanTransfer(s[r])
    case Yield(r) => 0 < r < |s| && CanYield(s[r])
    case Acknowledge(r) => 0 < r < |s| && CanAcknowledge(s[r])
    case Swap(r) => 0 < r < |s| && CanSwap(s[r])
  }

  function Send<T>(x: Rank<T>, offer: Offer): Rank<T> {
    x.(inbox := x.inbox + [offer])
  }

  function Notify<T>(x: Rank<T>, key: nat): Rank<T> {
    x.(acks := x.acks + [key])
  }

  function Next<T>(bs: seq<seq<T>>, s: Chain<T>, step: Step): (s': Chain<T>)
    requires Enabled(bs, s, step)
    ensures |s'| == |s|
  {
    match step
    case Write => s[0 := DoWrite(bs, s[0])]
    case Flush => s[0 := DoFlush(bs, s[0])][1 := Send(s[1], FlushOffer(bs, s[0]))]
    case Finish => s[0 := DoFinish(s[0])]
    case Meta(r) => s[r := DoMeta(s[r])]
    case Transfer(r) => s[r := DoTransfer(s[r], s[r - 1])][r - 1 := Notify(s[r - 1], Key(s[r]))]
    case Yield(r) => s[r := DoYield(s[r])]
    case Acknowledge(r) => s[r := DoAcknowledge(s[r])]
    case Swap(r) =>
      var s' := s[r := DoSwap(s[r], r + 1 < |s|)];
      if r + 1 < |s| then s'[r + 1 := Send(s[r + 1], SwapOffer(s[r]))] else s'
  }

  // ----- what every step keeps

  /** The described part of the buffer is the bucket; behind it there may be stale bytes. */
  ghost predicate Holds<T>(b: seq<T>, bucket: seq<T>) {
    bucket <= b
  }

  /** The buffer of the latest offer: rank 0 swaps right after offering, the others do not. */
  function LiveBuf<T>(x: Rank<T>): bool {
    if x.pc == Filling then !x.cur else x.cur
  }

  ghost predicate SenderOk<T>(bs: seq<seq<T>>, x: Rank<T>) {
    && x.round < |bs|
    && match x.pc
       case Filling =>
         && x.offered == x.round && x.acked == (if x.round == 0 then 0 else x.round - 1)
         && x.pending == (if x.round == 0 then None else Some(x.round - 1))
         && x.served <= |bs[x.round]| && Holds(x.Buf(x.cur), bs[x.round][..x.served])
         && (x.round > 0 ==> Holds(x.Buf(!x.cur), bs[x.round - 1]))
       case AwaitLastAck =>
         && x.round + 1 == |bs| == x.offered && x.acked == x.round && x.pending == Some(x.round)
         && x.served == |bs[x.round]| && Holds(x.Buf(x.cur), bs[x.round])
       case Done =>
         && x.round + 1 == |bs| == x.offered == x.acked && x.pending == None
         && x.served == |bs[x.round]|
       case _ => false
  }

  ghost predicate ReceiverOk<T>(bs: seq<seq<T>>, hasNext: bool, x: Rank<T>) {
    && x.round <= |bs|
    && x.popped == x.round + (if x.reading.Some? then 1 else 0)
    && x.copied == x.round + (if x.transferred then 1 else 0)
    && (x.transferred ==> x.reading.Some?)
    && (x.reading.Some? ==>
         x.round < |bs| && x.reading.value.size == |bs[x.round]| && (x.reading.value.isLast <==> x.round + 1 == |bs|))
    && (x.transferred ==> Holds(x.Buf(!x.cur), bs[x.round]))
    && (x.hold.Some? <==> x.round > 0)
    && (x.round > 0 ==>
         && Holds(x.Buf(x.cur), bs[x.round - 1]) && x.served <= |bs[x.round - 1]|
         && x.hold.value.size == |bs[x.round - 1]| && (x.hold.value.isLast <==> x.round == |bs|)
         && x.out == Flatten(bs[..x.round - 1]) + bs[x.round - 1][..x.served])
    && (x.round == 0 ==> x.out == [])
    && x.offered == (if hasNext then x.round else 0)
    && match x.pc
       case AwaitMeta =>
         && x.round < |bs| && x.reading.None? && x.served == 0
         && x.acked == (if x.round == 0 then 0 else x.round - 1)
         && x.pending == (if hasNext && x.round > 0 then Some(x.round - 1) else None)
       case Serving =>
         && x.round > 0 && x.acked == x.round - 1 && (x.reading.Some? <==> x.round < |bs|)
         && x.pending == (if hasNext then Some(x.round - 1) else None)
       case AwaitRead =>
         && x.round < |bs| && x.reading.Some? && x.acked == x.round && x.pending == None
         && (x.round > 0 ==> x.served == |bs[x.round - 1]|)
       case Done =>
         && x.round == |bs| == x.acked && x.reading.None? && x.pending == None
         && (x.round > 0 ==> x.served == |bs[x.round - 1]|)
       case _ => false
  }

  /**
   * Between neighbours at most one bucket is on offer: acknowledged <= read <= taken <= offered
   * <= acknowledged + 1, the queues hold exactly the difference, and an offered bucket that has not
   * been read is still in its buffer.
   */
  ghost predicate LinkOk<T>(bs: seq<seq<T>>, left: Rank<T>, right: Rank<T>) {
    && left.acked <= right.copied <= right.popped <= left.offered <= left.acked + 1
    && left.offered <= |bs|
    && left.acks == (if left.acked < right.copied then [left.acked] else [])
    && (right.popped < left.offered ==>
         right.inbox == [Offer(left.acked, LiveBuf(left), |bs[left.acked]|, left.offered == |bs|)])
    && (right.popped == left.offered ==> right.inbox == [])
    && (right.copied < left.offered ==> Holds(left.Buf(LiveBuf(left)), bs[left.acked]))
    && (right.copied < right.popped ==>
         right.reading.Some? && right.reading.value.buf == LiveBuf(left) && right.reading.value.key == left.acked)
  }

  ghost predicate RankOk<T>(bs: seq<seq<T>>, s: Chain<T>, r: nat)
    requires r < |s|
  {
    if r == 0 then SenderOk(bs, s[0]) else ReceiverOk(bs, r + 1 < |s|, s[r])
  }

  ghost predicate Inv<T>(bs: seq<seq<T>>, s: Chain<T>) {
    && bs != [] && 2 <= |s|
    && (forall r :: 0 <= r < |s| ==> RankOk(bs, s, r))
    && (forall r :: 0 < r < |s| ==> LinkOk(bs, s[r - 1], s[r]))
  }

  lemma WriteKeeps<T>(bs: seq<seq<T>>, x: Rank<T>, right: Rank<T>)
    requires SenderOk(bs, x) && LinkOk(bs, x, right) && CanWrite(bs, x)
    ensures SenderOk(bs, DoWrite(bs, x)) && LinkOk(bs, DoWrite(bs, x), right)
  {
    assert bs[x.round][..x.served + 1] == bs[x.round][..x.served] + [bs[x.round][x.served]];
  }

  /** A message in the inbox does not touch the rank itself. */
  lemma SendKeeps<T>(bs: seq<seq<T>>, x: Rank<T>, hasNext: bool, offer: Offer)
    requires ReceiverOk(bs, hasNext, x)
    ensures ReceiverOk(bs, hasNext, Send(x, offer))
  {
  }

  /** Nor does a notification. */
  lemma NotifyKeeps<T>(bs: seq<seq<T>>, x: Rank<T>, hasNext: bool, key: nat)
    ensures SenderOk(bs, x) ==> SenderOk(bs, Notify(x, key))
    ensures ReceiverOk(bs, hasNext, x) ==> ReceiverOk(bs, hasNext, Notify(x, key))
  {
  }

  lemma FlushKeeps<T>(bs: seq<seq<T>>, x: Rank<T>, right: Rank<T>)
    requires SenderOk(bs, x) && LinkOk(bs, x, right) && CanFlush(bs, x)
    ensures SenderOk(bs, DoFlush(bs, x)) && LinkOk(bs, DoFlush(bs, x), Send(right, FlushOffer(bs, x)))
  {
    assert bs[x.round][..x.served] == bs[x.round];
  }

  lemma FinishKeeps<T>(bs: seq<seq<T>>, x: Rank<T>, right: Rank<T>)
    requires SenderOk(bs, x) && LinkOk(bs, x, right) && CanFinish(x)
    ensures SenderOk(bs, DoFinish(x)) && LinkOk(bs, DoFinish(x), right)
  {
  }

  lemma MetaKeeps<T>(bs: seq<seq<T>>, left: Rank<T>, x: Rank<T>, hasNext: bool)
    requires LinkOk(bs, left, x) && ReceiverOk(bs, hasNext, x) && CanMeta(x)
    ensures ReceiverOk(bs, hasNext, DoMeta(x)) && LinkOk(bs, left, DoMeta(x))
  {
  }

  lemma TransferKeeps<T>(bs: seq<seq<T>>, left: Rank<T>, x: Rank<T>, hasNext: bool)
    requires LinkOk(bs, left, x) && ReceiverOk(bs, hasNext, x) && CanTransfer(x)
    ensures ReceiverOk(bs, hasNext, DoTransfer(x, left))
    ensures LinkOk(bs, Notify(left, Key(x)), DoTransfer(x, left))
  {
  }

  lemma YieldKeeps<T>(bs: seq<seq<T>>, x: Rank<T>, hasNext: bool)
    requires ReceiverOk(bs, hasNext, x) && CanYield(x)
    ensures ReceiverOk(bs, hasNext, DoYield(x))
    ensures DoYield(x).out == x.out + [bs[x.round - 1][x.served]]
  {
    var bucket := bs[x.round - 1];
    assert bucket[..x.served + 1] == bucket[..x.served] + [bucket[x.served]];
    assert x.Buf(x.cur)[..|bucket|] == bucket;
  }

  lemma AcknowledgeKeeps<T>(bs: seq<seq<T>>, x: Rank<T>, hasNext: bool)
    requires ReceiverOk(bs, hasNext, x) && CanAcknowledge(x)
    ensures ReceiverOk(bs, hasNext, DoAcknowledge(x))
  {
  }

  lemma AcknowledgeKeepsLink<T>(bs: seq<seq<T>>, x: Rank<T>, right: Rank<T>)
    requires ReceiverOk(bs, true, x) && LinkOk(bs, x, right) && CanAcknowledge(x)
    ensures LinkOk(bs, DoAcknowledge(x), right)
  {
  }

  lemma SwapKeeps<T>(bs: seq<seq<T>>, x: Rank<T>, hasNext: bool)
    requires ReceiverOk(bs, hasNext, x) && CanSwap(x)
    ensures ReceiverOk(bs, hasNext, DoSwap(x, hasNext))
  {
    var bucket := bs[x.round];
    assert bucket[..0] == [];
    if x.round > 0 {
      assert bs[x.round - 1][..x.served] == bs[x.round - 1];
      assert bs[..x.round][..x.round - 1] == bs[..x.round - 1];
    }
  }

  lemma SwapKeepsLink<T>(bs: seq<seq<T>>, x: Rank<T>, right: Rank<T>)
    requires ReceiverOk(bs, true, x) && LinkOk(bs, x, right) && CanSwap(x)
    ensures LinkOk(bs, DoSwap(x, true), Send(right, SwapOffer(x)))
  {
  }

  /** Receiving, serving and reading at a rank leave its offer to the next rank as it is. */
  lemma SameLeft<T>(bs: seq<seq<T>>, x: Rank<T>, x': Rank<T>, right: Rank<T>)
    requires LinkOk(bs, x, right)
    requires x'.offered == x.offered && x'.acked == x.acked && x'.acks == x.acks
    requires LiveBuf(x') == LiveBuf(x) && x'.Buf(LiveBuf(x)) == x.Buf(LiveBuf(x))
    ensures LinkOk(bs, x', right)
  {
  }

  /** Serving and offering at a rank leave what it takes from the previous rank as it is. */
  lemma SameRight<T>(bs: seq<seq<T>>, left: Rank<T>, x: Rank<T>, x': Rank<T>)
    requires LinkOk(bs, left, x)
    requires x'.copied == x.copied && x'.popped == x.popped && x'.inbox == x.inbox
    requires x.copied < x.popped ==> x'.reading == x.reading
    ensures LinkOk(bs, left, x')
  {
  }

  lemma TransferKeepsOffer<T>(bs: seq<seq<T>>, left: Rank<T>, x: Rank<T>, right: Rank<T>)
    requires ReceiverOk(bs, true, x) && LinkOk(bs, x, right) && CanTransfer(x)
    ensures LinkOk(bs, DoTransfer(x, left), right)
  {
    SameLeft(bs, x, DoTransfer(x, left), right);
  }

  lemma NotifyKeepsReads<T>(bs: seq<seq<T>>, left: Rank<T>, x: Rank<T>, key: nat)
    requires LinkOk(bs, left, x)
    ensures LinkOk(bs, left, Notify(x, key))
  {
    SameRight(bs, left, x, Notify(x, key));
  }

  lemma SwapKeepsReads<T>(bs: seq<seq<T>>, left: Rank<T>, x: Rank<T>, hasNext: bool)
    requires ReceiverOk(bs, hasNext, x) && LinkOk(bs, left, x) && CanSwap(x)
    ensures LinkOk(bs, left, DoSwap(x, hasNext))
  {
    SameRight(bs, left, x, DoSwap(x, hasNext));
  }

  lemma SendKeepsOffer<T>(bs: seq<seq<T>>, x: Rank<T>, right: Rank<T>, offer: Offer)
    requires LinkOk(bs, x, right)
    ensures LinkOk(bs, Send(x, offer), right)
  {
    SameLeft(bs, x, Send(x, offer), right);
  }

  lemma WriteKeepsInv<T>(bs: seq<seq<T>>, s: Chain<T>)
    requires Inv(bs, s) && Enabled(bs, s, Write)
    ensures Inv(bs, Next(bs, s, Write))
  {
    hide SenderOk, ReceiverOk, LinkOk;
    var s' := Next(bs, s, Write);
    assert LinkOk(bs, s[0], s[1]) && RankOk(bs, s, 0);
    WriteKeeps(bs, s[0], s[1]);
    OthersKept(bs, s, s', 0, 0);
  }

  lemma FlushKeepsInv<T>(bs: seq<seq<T>>, s: Chain<T>)
    requires Inv(bs, s) && Enabled(bs, s, Flush)
    ensures Inv(bs, Next(bs, s, Flush))
  {
    hide SenderOk, ReceiverOk, LinkOk;
    var s' := Next(bs, s, Flush);
    assert LinkOk(bs, s[0], s[1]) && RankOk(bs, s, 0) && RankOk(bs, s, 1);
    FlushKeeps(bs, s[0], s[1]);
    SendKeeps(bs, s[1], 2 < |s|, FlushOffer(bs, s[0]));
    if 2 < |s| {
      SameLeft(bs, s[1], s'[1], s[2]);
    }
    OthersKept(bs, s, s', 0, 1);
  }

  lemma FinishKeepsInv<T>(bs: seq<seq<T>>, s: Chain<T>)
    requires Inv(bs, s) && Enabled(bs, s, Finish)
    ensures Inv(bs, Next(bs, s, Finish))
  {
    hide SenderOk, ReceiverOk, LinkOk;
    var s' := Next(bs, s, Finish);
    assert LinkOk(bs, s[0], s[1]) && RankOk(bs, s, 0);
    FinishKeeps(bs, s[0], s[1]);
    OthersKept(bs, s, s', 0, 0);
  }

  lemma MetaKeepsInv<T>(bs: seq<seq<T>>, s: Chain<T>, r: nat)
    requires Inv(bs, s) && Enabled(bs, s, Meta(r))
    ensures Inv(bs, Next(bs, s, Meta(r)))
  {
    hide SenderOk, ReceiverOk, LinkOk;
    var s' := Next(bs, s, Meta(r));
    assert LinkOk(bs, s[r - 1], s[r]) && RankOk(bs, s, r);
    MetaKeeps(bs, s[r - 1], s[r], r + 1 < |s|);
    if r + 1 < |s| {
      SameLeft(bs, s[r], s'[r], s[r + 1]);
    }
    OthersKept(bs, s, s', r, r);
  }

  lemma TransferKeepsInv<T>(bs: seq<seq<T>>, s: Chain<T>, r: nat)
    requires Inv(bs, s) && Enabled(bs, s, Transfer(r))
    ensures Inv(bs, Next(bs, s, Transfer(r)))
  {
    hide SenderOk, ReceiverOk, LinkOk, DoTransfer, Notify, CanTransfer;
    var s' := Next(bs, s, Transfer(r));
    assert LinkOk(bs, s[r - 1], s[r]) && RankOk(bs, s, r) && RankOk(bs, s, r - 1);
    TransferKeeps(bs, s[r - 1], s[r], r + 1 < |s|);
    NotifyKeeps(bs, s[r - 1], r < |s|, Key(s[r]));
    if r + 1 < |s| {
      TransferKeepsOffer(bs, s[r - 1], s[r], s[r + 1]);
    }
    if r > 1 {
      NotifyKeepsReads(bs, s[r - 2], s[r - 1], Key(s[r]));
    }
    OthersKept(bs, s, s', r - 1, r);
  }

  lemma YieldKeepsInv<T>(bs: seq<seq<T>>, s: Chain<T>, r: nat)
    requires Inv(bs, s) && Enabled(bs, s, Yield(r))
    ensures Inv(bs, Next(bs, s, Yield(r)))
  {
    hide SenderOk, ReceiverOk, LinkOk;
    var s' := Next(bs, s, Yield(r));
    assert LinkOk(bs, s[r - 1], s[r]) && RankOk(bs, s, r);
    YieldKeeps(bs, s[r], r + 1 < |s|);
    SameRight(bs, s[r - 1], s[r], s'[r]);
    if r + 1 < |s| {
      SameLeft(bs, s[r], s'[r], s[r + 1]);
    }
    OthersKept(bs, s, s', r, r);
  }

  lemma AcknowledgeKeepsInv<T>(bs: seq<seq<T>>, s: Chain<T>, r: nat)
    requires Inv(bs, s) && Enabled(bs, s, Acknowledge(r))
    ensures Inv(bs, Next(bs, s, Acknowledge(r)))
  {
    hide SenderOk, ReceiverOk, LinkOk;
    var s' := Next(bs, s, Acknowledge(r));
    assert LinkOk(bs, s[r - 1], s[r]) && RankOk(bs, s, r);
    AcknowledgeKeeps(bs, s[r], r + 1 < |s|);
    SameRight(bs, s[r - 1], s[r], s'[r]);
    if r + 1 < |s| {
      AcknowledgeKeepsLink(bs, s[r], s[r + 1]);
    }
    OthersKept(bs, s, s', r, r);
  }

  lemma SwapKeepsInv<T>(bs: seq<seq<T>>, s: Chain<T>, r: nat)
    requires Inv(bs, s) && Enabled(bs, s, Swap(r))
    ensures Inv(bs, Next(bs, s, Swap(r)))
  {
    hide SenderOk, ReceiverOk, LinkOk, DoSwap, Send, SwapOffer, CanSwap;
    var s' := Next(bs, s, Swap(r));
    assert LinkOk(bs, s[r - 1], s[r]) && RankOk(bs, s, r);
    SwapKeeps(bs, s[r], r + 1 < |s|);
    SwapKeepsReads(bs, s[r - 1], s[r], r + 1 < |s|);
    if r + 1 < |s| {
      assert RankOk(bs, s, r + 1);
      SwapKeepsLink(bs, s[r], s[r + 1]);
      SendKeeps(bs, s[r + 1], r + 2 < |s|, SwapOffer(s[r]));
      if r + 2 < |s| {
        SendKeepsOffer(bs, s[r + 1], s[r + 2], SwapOffer(s[r]));
      }
    }
    OthersKept(bs, s, s', r, r + 1);
  }

  lemma StepKeepsInv<T>(bs: seq<seq<T>>, s: Chain<T>, step: Step)
    requires Inv(bs, s) && Enabled(bs, s, step)
    ensures Inv(bs, Next(bs, s, step))
  {
    hide Inv, Next, Enabled;
    match step
    case Write => WriteKeepsInv(bs, s);
    case Flush => FlushKeepsInv(bs, s);
    case Finish => FinishKeepsInv(bs, s);
    case Meta(r) => MetaKeepsInv(bs, s, r);
    case Transfer(r) => TransferKeepsInv(bs, s, r);
    case Yield(r) => YieldKeepsInv(bs, s, r);
    case Acknowledge(r) => AcknowledgeKeepsInv(bs, s, r);
    case Swap(r) => SwapKeepsInv(bs, s, r);
  }

  /** Only the ranks from `lo` to `hi` changed, and for these and their links the invariant is known. */
  lemma OthersKept<T>(bs: seq<seq<T>>, s: Chain<T>, s': Chain<T>, lo: nat, hi: nat)
    requires Inv(bs, s) && |s'| == |s| && lo <= hi
    requires forall r :: 0 <= r < |s| && !(lo <= r <= hi) ==> s'[r] == s[r]
    requires forall r :: lo <= r <= hi && r < |s| ==> RankOk(bs, s', r)
    requires forall r :: 0 < r < |s| && lo <= r <= hi + 1 ==> LinkOk(bs, s'[r - 1], s'[r])
    ensures Inv(bs, s')
  {
    hide SenderOk, ReceiverOk, LinkOk;
    forall r | 0 <= r < |s|
      ensures RankOk(bs, s', r)
    {
      assert RankOk(bs, s, r);
    }
    forall r | 0 < r < |s|
      ensures LinkOk(bs, s'[r - 1], s'[r])
    {
      assert LinkOk(bs, s[r - 1], s[r]);
    }
  }

  lemma StartInv<T>(bs: seq<seq<T>>, n: nat)
    requires bs != [] && 2 <= n
    ensures Inv(bs, StartChain<T>(n))
  {
    forall r | 0 <= r < n
      ensures RankOk(bs, StartChain<T>(n), r)
    {
      assert StartChain<T>(n)[r] == StartRank(r == 0);
      assert bs[0][..0] == [];
    }
    forall r | 0 < r < n
      ensures LinkOk(bs, StartChain<T>(n)[r - 1], StartChain<T>(n)[r])
    {
      assert StartChain<T>(n)[r] == StartRank(false);
      assert StartChain<T>(n)[r - 1] == StartRank(r == 1);
    }
  }

  // ----- runs: any steps in any order

  /** `states` are the states of a run of `n` ranks that takes `steps`. */
  ghost predicate Run<T>(bs: seq<seq<T>>, n: nat, steps: seq<Step>, states: seq<Chain<T>>) {
    && |states| == |steps| + 1
    && states[0] == StartChain(n)
    && forall k :: 0 <= k < |steps| ==>
      Enabled(bs, states[k], steps[k]) && states[k + 1] == Next(bs, states[k], steps[k])
  }

  lemma {:induction false} RunInv<T>(bs: seq<seq<T>>, n: nat, steps: seq<Step>, states: seq<Chain<T>>, k: nat)
    requires bs != [] && 2 <= n && Run(bs, n, steps, states) && k < |states|
    ensures Inv(bs, states[k]) && |states[k]| == n
  {
    if k == 0 {
      StartInv(bs, n);
    } else {
      RunInv(bs, n, steps, states, k - 1);
      StepKeepsInv(bs, states[k - 1], steps[k - 1]);
    }
  }

  // ----- safety

  /** Buffer `b` of rank `r` is on offer or being read by the next rank, or its consumer is served from it. */
  predicate InUse<T>(s: Chain<T>, r: nat, b: bool)
    requires r < |s|
  {
    || (r + 1 < |s| && s[r + 1].copied < s[r].offered && b == LiveBuf(s[r]))
    || (s[r].pc == Serving && b == s[r].cur)
  }

  /** A read in flight is always from a buffer that counts as in use. */
  lemma ReadsAreInUse<T>(bs: seq<seq<T>>, s: Chain<T>, r: nat)
    requires Inv(bs, s) && r + 1 < |s| && CanTransfer(s[r + 1])
    ensures InUse(s, r, s[r + 1].reading.value.buf)
  {
    assert LinkOk(bs, s[r], s[r + 1]) && RankOk(bs, s, r + 1);
  }

  /** Rank 0 only writes the buffer it fills, which is not the one on offer. */
  lemma SenderKeepsInUse<T>(bs: seq<seq<T>>, s: Chain<T>, step: Step, b: bool)
    requires 0 < |s| && SenderOk(bs, s[0]) && Enabled(bs, s, step)
    requires b == LiveBuf(s[0]) && s[0].pc != Serving
    ensures Next(bs, s, step)[0].Buf(b) == s[0].Buf(b)
  {
  }

  /** A receiving rank only writes `recv_buf`, while `send_buf` is served and offered. */
  lemma ReceiverKeepsInUse<T>(bs: seq<seq<T>>, s: Chain<T>, step: Step, r: nat)
    requires 0 < r < |s| && Enabled(bs, s, step)
    ensures Next(bs, s, step)[r].Buf(s[r].cur) == s[r].Buf(s[r].cur)
  {
  }

  /** No step of any rank changes a buffer that is in use. */
  lemma NoLiveOverwrite<T>(bs: seq<seq<T>>, s: Chain<T>, step: Step, r: nat, b: bool)
    requires Inv(bs, s) && Enabled(bs, s, step) && r < |s| && InUse(s, r, b)
    ensures Next(bs, s, step)[r].Buf(b) == s[r].Buf(b)
  {
    assert RankOk(bs, s, r);
    hide Next, Enabled, Inv;
    if r == 0 {
      SenderKeepsInUse(bs, s, step, b);
    } else {
      ReceiverKeepsInUse(bs, s, step, r);
    }
  }

  /** Of two neighbours, the later one has read no more buckets, and at most two fewer. */
  lemma NeighboursClose<T>(bs: seq<seq<T>>, s: Chain<T>, r: nat)
    requires Inv(bs, s) && 0 < r && r + 1 < |s|
    ensures s[r + 1].copied <= s[r].copied <= s[r + 1].copied + 2
  {
    assert LinkOk(bs, s[r], s[r + 1]) && RankOk(bs, s, r);
  }

  /** The notification that a rank waits for carries the key of its own pending offer. */
  lemma KeysMatch<T>(bs: seq<seq<T>>, s: Chain<T>, r: nat)
    requires Inv(bs, s) && r < |s| && s[r].pending.Some? && s[r].acks != [] && r + 1 < |s|
    ensures s[r].acks[0] == s[r].pending.value && |s[r].acks| == 1
  {
    assert LinkOk(bs, s[r], s[r + 1]) && RankOk(bs, s, r);
  }

  /** What a rank has yielded so far is a beginning of what rank 0 packed; in the end it is all of it. */
  lemma Delivery<T>(bs: seq<seq<T>>, s: Chain<T>, r: nat)
    requires Inv(bs, s) && 0 < r < |s|
    ensures s[r].out <= Flatten(bs)
    ensures s[r].pc == Done ==> s[r].out == Flatten(bs)
  {
    assert RankOk(bs, s, r);
    hide Inv;
    OutIsPrefix(bs, r + 1 < |s|, s[r]);
  }

  lemma OutIsPrefix<T>(bs: seq<seq<T>>, hasNext: bool, x: Rank<T>)
    requires bs != [] && ReceiverOk(bs, hasNext, x)
    ensures x.out <= Flatten(bs)
    ensures x.pc == Done ==> x.out == Flatten(bs)
  {
    if x.round > 0 {
      FlattenPrefix(bs, x.round);
      ServedPrefix(bs, x.round, x.served);
      if x.pc == Done {
        assert bs[..x.round] == bs;
      }
    }
  }

  lemma ServedPrefix<T>(bs: seq<seq<T>>, round: nat, served: nat)
    requires 0 < round <= |bs| && served <= |bs[round - 1]|
    ensures Flatten(bs[..round - 1]) + bs[round - 1][..served] <= Flatten(bs[..round])
    ensures served == |bs[round - 1]| ==> Flatten(bs[..round - 1]) + bs[round - 1][..served] == Flatten(bs[..round])
  {
    assert bs[..round][..round - 1] == bs[..round - 1];
    assert Flatten(bs[..round]) == Flatten(bs[..round - 1]) + bs[round - 1];
  }

  // ----- progress

  /** While a rank's offer has not been read, some later rank can take a step. */
  lemma {:induction false} SomeoneReads<T>(bs: seq<seq<T>>, s: Chain<T>, r: nat) returns (step: Step)
    requires Inv(bs, s) && r + 1 < |s| && s[r + 1].copied < s[r].offered
    ensures Enabled(bs, s, step)
    decreases |s| - r, 0
  {
    var x := s[r + 1];
    assert LinkOk(bs, s[r], x) && RankOk(bs, s, r + 1);
    if CanTransfer(x) {
      return Transfer(r + 1);
    }
    assert x.inbox != [] || x.reading.Some?;
    match x.pc
    case AwaitMeta => step := Meta(r + 1);
    case AwaitRead => step := Swap(r + 1);
    case Serving => step := Serve(bs, s, r + 1);
  }

  /** A rank that serves a bucket yields, or has it acknowledged, or waits for a later rank. */
  lemma {:induction false} Serve<T>(bs: seq<seq<T>>, s: Chain<T>, r: nat) returns (step: Step)
    requires Inv(bs, s) && 0 < r < |s| && s[r].pc == Serving
    ensures Enabled(bs, s, step)
    decreases |s| - r, 1
  {
    assert RankOk(bs, s, r);
    if CanYield(s[r]) {
      step := Yield(r);
    } else if CanAcknowledge(s[r]) {
      step := Acknowledge(r);
    } else {
      assert LinkOk(bs, s[r], s[r + 1]);
      step := SomeoneReads(bs, s, r);
    }
  }

  predicate AllDone<T>(s: Chain<T>) {
    forall r :: 0 <= r < |s| ==> s[r].pc == Done
  }

  /** No deadlock: as long as some rank is not done, some rank can take a step. */
  lemma NoDeadlock<T>(bs: seq<seq<T>>, s: Chain<T>) returns (step: Step)
    requires Inv(bs, s) && !AllDone(s)
    ensures Enabled(bs, s, step)
  {
    var x := s[0];
    assert RankOk(bs, s, 0) && LinkOk(bs, x, s[1]);
    if CanWrite(bs, x) {
      step := Write;
    } else if CanFlush(bs, x) {
      step := Flush;
    } else if CanFinish(x) {
      step := Finish;
    } else if x.pc != Done {
      step := SomeoneReads(bs, s, 0);
    } else {
      var r := FirstNotDone(s);
      step := LastBucketMoves(bs, s, r);
    }
  }

  lemma FirstNotDone<T>(s: Chain<T>) returns (r: nat)
    requires !AllDone(s) && 0 < |s| && s[0].pc == Done
    ensures 0 < r < |s| && s[r].pc != Done && s[r - 1].pc == Done
  {
    r := 1;
    while s[r].pc == Done
      invariant 0 < r < |s| && forall k :: 0 <= k < r ==> s[k].pc == Done
      decreases |s| - r
    {
      var k :| 0 <= k < |s| && s[k].pc != Done;
      r := r + 1;
    }
  }

  /** The rank after a finished one has read everything and only has to hand it on. */
  lemma LastBucketMoves<T>(bs: seq<seq<T>>, s: Chain<T>, r: nat) returns (step: Step)
    requires Inv(bs, s) && 0 < r < |s| && s[r].pc != Done && s[r - 1].pc == Done
    ensures Enabled(bs, s, step)
  {
    assert RankOk(bs, s, r) && RankOk(bs, s, r - 1) && LinkOk(bs, s[r - 1], s[r]);
    match s[r].pc
    case AwaitRead => step := Swap(r);
    case Serving => step := Serve(bs, s, r);
  }

  /** What rank `r` has done so far, counted in chunks, offers, reads, swaps and acknowledgements. */
  function Progress<T>(bs: seq<seq<T>>, r: nat, x: Rank<T>): nat {
    if r == 0 then (if x.round < |bs| then |Flatten(bs[..x.round])| else 0) + x.served + x.offered + x.acked
    else x.popped + x.copied + x.round + x.acked + |x.out|
  }

  function TotalProgress<T>(bs: seq<seq<T>>, s: Chain<T>): nat {
    if s == [] then 0 else TotalProgress(bs, s[..|s| - 1]) + Progress(bs, |s| - 1, s[|s| - 1])
  }

  lemma {:induction false} TotalGrows<T>(bs: seq<seq<T>>, s: Chain<T>, s': Chain<T>, r: nat)
    requires |s'| == |s| && r < |s|
    requires forall k :: 0 <= k < |s| ==> Progress(bs, k, s[k]) <= Progress(bs, k, s'[k])
    requires Progress(bs, r, s[r]) < Progress(bs, r, s'[r])
    ensures TotalProgress(bs, s) < TotalProgress(bs, s')
  {
    hide Progress;
    var a, b := s[..|s| - 1], s'[..|s| - 1];
    if r < |s| - 1 {
      TotalGrows(bs, a, b, r);
    } else {
      TotalKeeps(bs, a, b);
    }
  }

  lemma {:induction false} TotalKeeps<T>(bs: seq<seq<T>>, s: Chain<T>, s': Chain<T>)
    requires |s'| == |s|
    requires forall k :: 0 <= k < |s| ==> Progress(bs, k, s[k]) <= Progress(bs, k, s'[k])
    ensures TotalProgress(bs, s) <= TotalProgress(bs, s')
  {
    hide Progress;
    if s != [] {
      TotalKeeps(bs, s[..|s| - 1], s'[..|s| - 1]);
    }
  }

  lemma {:induction false} TotalBounded<T>(bs: seq<seq<T>>, s: Chain<T>, most: nat)
    requires forall k :: 0 <= k < |s| ==> Progress(bs, k, s[k]) <= most
    ensures TotalProgress(bs, s) <= |s| * most
  {
    hide Progress;
    if s != [] {
      TotalBounded(bs, s[..|s| - 1], most);
      assert |s| * most == (|s| - 1) * most + most;
    }
  }

  /** The rank that takes the step. */
  function Actor(step: Step): nat {
    match step
    case Write => 0
    case Flush => 0
    case Finish => 0
    case Meta(r) => r
    case Transfer(r) => r
    case Yield(r) => r
    case Acknowledge(r) => r
    case Swap(r) => r
  }

  lemma SenderProgress<T>(bs: seq<seq<T>>, x: Rank<T>)
    requires SenderOk(bs, x)
    ensures CanWrite(bs, x) ==> Progress(bs, 0, DoWrite(bs, x)) > Progress(bs, 0, x)
    ensures CanFlush(bs, x) ==> Progress(bs, 0, DoFlush(bs, x)) > Progress(bs, 0, x)
    ensures CanFinish(x) ==> Progress(bs, 0, DoFinish(x)) > Progress(bs, 0, x)
  {
    assert bs[..x.round + 1][..x.round] == bs[..x.round];
  }

  lemma ReceiverProgress<T>(bs: seq<seq<T>>, hasNext: bool, r: nat, x: Rank<T>, left: Rank<T>)
    requires 0 < r && ReceiverOk(bs, hasNext, x)
    ensures CanMeta(x) ==> Progress(bs, r, DoMeta(x)) > Progress(bs, r, x)
    ensures CanTransfer(x) ==> Progress(bs, r, DoTransfer(x, left)) > Progress(bs, r, x)
    ensures CanYield(x) ==> Progress(bs, r, DoYield(x)) > Progress(bs, r, x)
    ensures CanAcknowledge(x) ==> Progress(bs, r, DoAcknowledge(x)) > Progress(bs, r, x)
    ensures CanSwap(x) ==> Progress(bs, r, DoSwap(x, hasNext)) > Progress(bs, r, x)
  {
    if CanYield(x) {
      YieldKeeps(bs, x, hasNext);
    }
    hide ReceiverOk;
  }

  lemma SenderBounded<T>(bs: seq<seq<T>>, x: Rank<T>)
    requires SenderOk(bs, x)
    ensures Progress(bs, 0, x) <= |Flatten(bs)| + 4 * |bs|
  {
    assert bs[..x.round + 1][..x.round] == bs[..x.round];
    FlattenPrefix(bs, x.round + 1);
    assert |Flatten(bs[..x.round + 1])| == |Flatten(bs[..x.round])| + |bs[x.round]|;
    hide Flatten;
  }

  lemma ReceiverBounded<T>(bs: seq<seq<T>>, hasNext: bool, r: nat, x: Rank<T>)
    requires 0 < r && ReceiverOk(bs, hasNext, x) && |x.out| <= |Flatten(bs)|
    ensures Progress(bs, r, x) <= |Flatten(bs)| + 4 * |bs|
  {
  }

  lemma ProgressBounded<T>(bs: seq<seq<T>>, s: Chain<T>, r: nat)
    requires Inv(bs, s) && r < |s|
    ensures Progress(bs, r, s[r]) <= |Flatten(bs)| + 4 * |bs|
  {
    assert RankOk(bs, s, r);
    hide SenderOk, ReceiverOk, LinkOk, Progress, Flatten;
    if r == 0 {
      SenderBounded(bs, s[0]);
    } else {
      Delivery(bs, s, r);
      ReceiverBounded(bs, r + 1 < |s|, r, s[r]);
    }
  }

  lemma QueuesDoNotCount<T>(bs: seq<seq<T>>, k: nat, x: Rank<T>, x': Rank<T>)
    requires x' == x.(inbox := x'.inbox, acks := x'.acks)
    ensures Progress(bs, k, x') == Progress(bs, k, x)
  {
  }

  /** The other ranks at most find something in their queues. */
  lemma OthersOnlyQueue<T>(bs: seq<seq<T>>, s: Chain<T>, step: Step, k: nat)
    requires Enabled(bs, s, step) && k < |s| && k != Actor(step)
    ensures var x' := Next(bs, s, step)[k]; x' == s[k].(inbox := x'.inbox, acks := x'.acks)
  {
  }

  lemma ActorProgress<T>(bs: seq<seq<T>>, s: Chain<T>, step: Step)
    requires Inv(bs, s) && Enabled(bs, s, step)
    ensures Actor(step) < |s|
    ensures Progress(bs, Actor(step), s[Actor(step)]) < Progress(bs, Actor(step), Next(bs, s, step)[Actor(step)])
  {
    var r := Actor(step);
    assert RankOk(bs, s, r);
    hide SenderOk, ReceiverOk, LinkOk, Progress;
    if r == 0 {
      SenderProgress(bs, s[0]);
    } else {
      ReceiverProgress(bs, r + 1 < |s|, r, s[r], s[r - 1]);
    }
  }

  /** Every step of every rank makes progress. */
  lemma StepProgress<T>(bs: seq<seq<T>>, s: Chain<T>, step: Step)
    requires Inv(bs, s) && Enabled(bs, s, step)
    ensures TotalProgress(bs, s) < TotalProgress(bs, Next(bs, s, step))
  {
    var s' := Next(bs, s, step);
    ActorProgress(bs, s, step);
    hide Inv, Next, Enabled, Progress, Actor;
    forall k | 0 <= k < |s| && k != Actor(step)
      ensures Progress(bs, k, s'[k]) == Progress(bs, k, s[k])
    {
      OthersOnlyQueue(bs, s, step, k);
      QueuesDoNotCount(bs, k, s[k], s'[k]);
    }
    TotalGrows(bs, s, s', Actor(step));
  }

  /** No run is longer than this many steps. */
  function MaxSteps<T>(bs: seq<seq<T>>, n: nat): nat {
    n * (|Flatten(bs)| + 4 * |bs|)
  }

  lemma {:induction false} RunProgress<T>(bs: seq<seq<T>>, n: nat, steps: seq<Step>, states: seq<Chain<T>>, k: nat)
    requires bs != [] && 2 <= n && Run(bs, n, steps, states) && k < |states|
    ensures k <= TotalProgress(bs, states[k])
  {
    hide Enabled, Next, Inv, TotalProgress;
    if k > 0 {
      RunProgress(bs, n, steps, states, k - 1);
      RunInv(bs, n, steps, states, k - 1);
      StepProgress(bs, states[k - 1], steps[k - 1]);
    }
  }

  /**
   * The relay delivers: a run has at most `MaxSteps` steps, and when no step is possible any more
   * every rank is done and every receiving rank has yielded exactly the chunks that rank 0 packed.
   */
  lemma RelayDelivers<T>(bs: seq<seq<T>>, n: nat, steps: seq<Step>, states: seq<Chain<T>>)
    requires bs != [] && 2 <= n && Run(bs, n, steps, states)
    ensures |steps| <= MaxSteps(bs, n)
    ensures var s := states[|steps|];
      (forall step :: !Enabled(bs, s, step)) ==>
        AllDone(s) && |s| == n && forall r :: 0 < r < n ==> s[r].out == Flatten(bs)
  {
    hide Inv, Enabled, Next, Progress, TotalProgress, Flatten;
    var s := states[|steps|];
    RunInv(bs, n, steps, states, |steps|);
    RunProgress(bs, n, steps, states, |steps|);
    forall r | 0 <= r < n
      ensures Progress(bs, r, s[r]) <= |Flatten(bs)| + 4 * |bs|
    {
      ProgressBounded(bs, s, r);
    }
    TotalBounded(bs, s, |Flatten(bs)| + 4 * |bs|);
    if !AllDone(s) {
      var step := NoDeadlock(bs, s);
    } else {
      forall r | 0 < r < n
        ensures s[r].out == Flatten(bs)
      {
        Delivery(bs, s, r);
      }
    }
  }
}
