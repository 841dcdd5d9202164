/**
 * The NCCL checkpoint engine: rank 0 fills buckets and broadcasts them, every other rank receives a
 * bucket into one buffer while it serves the bucket before it from the other.
 *
 * A broadcast runs in a thread of its own. Its metadata goes out at once. The bucket leaves rank 0's
 * buffer towards each receiver at some time after the launch and is then on the wire; it arrives when the
 * receiver has started its side, which may be much later. `wait_for_complete` of rank 0 returns when its
 * buffer is drained, so rank 0 may be any number of broadcasts ahead of a slow receiver. A runtime that
 * waits for the receivers as well only has fewer runs. `bs` is what rank 0 packs, a bucket being the list
 * of its chunks.
 */
module NcclBroadcast {
  import opened Wrappers
  import opened Sequences

  /** The metadata of one broadcast: how many chunks, and whether it is the last. */
  datatype Header = Header(size: nat, isLast: bool)

  datatype SenderPc = Filling | AwaitLast | Sent

  /** `cur` is the physical buffer that `send_buf` names; `opBuf` is the one of the latest broadcast. */
  datatype Sender<T> = Sender(
    buf0: seq<T>, buf1: seq<T>, cur: bool, pc: SenderPc, filled: nat, round: nat, launched: nat, opBuf: bool)
  {
    function Buf(b: bool): seq<T> {
      if b then buf1 else buf0
    }

    function WithBuf(b: bool, content: seq<T>): Sender<T> {
      if b then this.(buf1 := content) else this.(buf0 := content)
    }
  }

  datatype ReceiverPc = Starting | Serving | Waiting | Received

  /**
   * `op` says that a broadcast into `recv_buf` is running, `heard` is its metadata, `complete` that
   * the bucket is there. `hold` describes the bucket in `send_buf`. `wire` holds the buckets on their way
   * to this receiver. `heardCount`, `sent` and `copied` count.
   */
  datatype Receiver<T> = Receiver(
    buf0: seq<T>, buf1: seq<T>, cur: bool, pc: ReceiverPc, inbox: seq<Header>,
    wire: seq<seq<T>>, op: bool, heard: Option<Header>, complete: bool,
    hold: Option<Header>, served: nat, out: seq<T>, round: nat, heardCount: nat, sent: nat, copied: nat)
  {
    function Buf(b: bool): seq<T> {
      if b then buf1 else buf0
    }

    function WithBuf(b: bool, content: seq<T>): Receiver<T> {
      if b then this.(buf1 := content) else this.(buf0 := content)
    }
  }

  datatype Group<T> = Group(sender: Sender<T>, receivers: seq<Receiver<T>>)

  function StartReceiver<T>(): Receiver<T> {
    Receiver([], [], false, Starting, [], [], false, None, false, None, 0, [], 0, 0, 0, 0)
  }

  function StartGroup<T>(n: nat): Group<T> {
    Group(Sender([], [], false, Filling, 0, 0, 0, false), seq(n, _ => StartReceiver()))
  }

  datatype Step =
    | Write
    | Launch
    | Finish
    | Start(r: nat)
    | Hear(r: nat)
    | Depart(r: nat)
    | Copy(r: nat)
    | Yield(r: nat)
    | Served(r: nat)
    | Swap(r: nat)

  /** The latest bucket of rank 0, if any, has left its buffer towards every receiver. */
  predicate Drained<T>(g: Group<T>) {
    forall r :: 0 <= r < |g.receivers| ==> g.receivers[r].sent == g.sender.launched
  }

  // ----- the steps of rank 0

  predicate CanWrite<T>(bs: seq<seq<T>>, x: Sender<T>) {
    x.pc == Filling && x.round < |bs| && x.filled < |bs[x.round]|
  }

  /** The next chunk goes behind the ones already in the bucket; what was there is lost. */
  function DoWrite<T>(bs: seq<seq<T>>, x: Sender<T>): Sender<T>
    requires CanWrite(bs, x)
  {
    var b := x.Buf(x.cur);
    var kept := if x.filled <= |b| then b[..x.filled] else b;
    x.WithBuf(x.cur, kept + [bs[x.round][x.filled]]).(filled := x.filled + 1)
  }

  predicate CanLaunch<T>(bs: seq<seq<T>>, x: Sender<T>) {
    x.pc == Filling && x.round < |bs| && x.filled == |bs[x.round]|
  }

  function DoLaunch<T>(bs: seq<seq<T>>, x: Sender<T>): Sender<T>
    requires CanLaunch(bs, x)
  {
    var y := x.(launched := x.launched + 1, opBuf := x.cur);
    if x.round + 1 == |bs| then y.(pc := AwaitLast)
    else y.(cur := !x.cur, round := x.round + 1, filled := 0)
  }

  function HeaderOf<T>(bs: seq<seq<T>>, k: nat): Header
    requires k < |bs|
  {
    Header(|bs[k]|, k + 1 == |bs|)
  }

  // ----- the steps of a receiver

  predicate CanStart<T>(x: Receiver<T>) {
    x.pc == Starting
  }

  /** Starts the broadcast into `recv_buf`, which from now on holds anything. */
  function DoStart<T>(x: Receiver<T>): Receiver<T>
    requires CanStart(x)
  {
    x.WithBuf(!x.cur, []).(op := true, pc := if x.hold.Some? then Serving else Waiting)
  }

  predicate CanHear<T>(x: Receiver<T>) {
    x.op && x.heard.None? && x.inbox != []
  }

  function DoHear<T>(x: Receiver<T>): Receiver<T>
    requires CanHear(x)
  {
    x.(heard := Some(x.inbox[0]), inbox := x.inbox[1..], heardCount := x.heardCount + 1)
  }

  /** The bucket of rank 0's latest broadcast has not left towards this receiver. */
  predicate CanDepart<T>(x: Receiver<T>, sender: Sender<T>) {
    x.sent < sender.launched
  }

  function DoDepart<T>(x: Receiver<T>, sender: Sender<T>): Receiver<T> {
    x.(wire := x.wire + [sender.Buf(sender.opBuf)], sent := x.sent + 1)
  }

  /** Collectives pair up in order: the receiver's next one takes the next bucket off the wire. */
  predicate CanCopy<T>(x: Receiver<T>) {
    x.op && x.heard.Some? && !x.complete && x.wire != []
  }

  function DoCopy<T>(x: Receiver<T>): Receiver<T>
    requires CanCopy(x)
  {
    x.WithBuf(!x.cur, x.wire[0]).(wire := x.wire[1..], complete := true, copied := x.copied + 1)
  }

  predicate CanYield<T>(x: Receiver<T>) {
    x.pc == Serving && x.hold.Some? && x.served < x.hold.value.size
  }

  /** Serves the next chunk of the held bucket from `send_buf`. */
  function DoYield<T>(x: Receiver<T>): Receiver<T>
    requires CanYield(x)
  {
    var b := x.Buf(x.cur);
    x.(out := x.out + (if x.served < |b| then [b[x.served]] else []), served := x.served + 1)
  }

  predicate CanServed<T>(x: Receiver<T>) {
    x.pc == Serving && x.hold.Some? && x.served == x.hold.value.size
  }

  function DoServed<T>(x: Receiver<T>): Receiver<T>
    requires CanServed(x)
  {
    x.(pc := if x.hold.value.isLast then Received else Waiting)
  }

  predicate CanSwap<T>(x: Receiver<T>) {
    x.pc == Waiting && x.complete && x.heard.Some?
  }

  function DoSwap<T>(x: Receiver<T>): Receiver<T>
    requires CanSwap(x)
  {
    x.(cur := !x.cur, hold := x.heard, heard := None, op := false, complete := false, served := 0,
      round := x.round + 1, pc := if x.heard.value.isLast then Serving else Starting)
  }

  // ----- the group

  predicate Enabled<T>(bs: seq<seq<T>>, g: Group<T>, step: Step) {
    match step
    case Write => CanWrite(bs, g.sender)
    case Launch => CanLaunch(bs, g.sender) && Drained(g)
    case Finish => g.sender.pc == AwaitLast && Drained(g)
    case Start(r) => r < |g.receivers| && CanStart(g.receivers[r])
    case Hear(r) => r < |g.receivers| && CanHear(g.receivers[r])
    case Depart(r) => r < |g.receivers| && CanDepart(g.receivers[r], g.sender)
    case Copy(r) => r < |g.receivers| && CanCopy(g.receivers[r])
    case Yield(r) => r < |g.receivers| && CanYield(g.receivers[r])
    case Served(r) => r < |g.receivers| && CanServed(g.receivers[r])
    case Swap(r) => r < |g.receivers| && CanSwap(g.receivers[r])
  }

  /** What a step of receiver `r` makes of it. */
  function Moved<T>(g: Group<T>, step: Step): Receiver<T>
    requires !step.Write? && !step.Launch? && !step.Finish? && Enabled([], g, step)
  {
    var x := g.receivers[step.r];
    match step
    case Start(_) => DoStart(x)
    case Hear(_) => DoHear(x)
    case Depart(_) => DoDepart(x, g.sender)
    case Copy(_) => DoCopy(x)
    case Yield(_) => DoYield(x)
    case Served(_) => DoServed(x)
    case Swap(_) => DoSwap(x)
  }

  function Post<T>(x: Receiver<T>, header: Header): Receiver<T> {
    x.(inbox := x.inbox + [header])
  }

  function Next<T>(bs: seq<seq<T>>, g: Group<T>, step: Step): (g': Group<T>)
    requires Enabled(bs, g, step)
    ensures |g'.receivers| == |g.receivers|
  {
    match step
    case Write => g.(sender := DoWrite(bs, g.sender))
    case Launch =>
      Group(DoLaunch(bs, g.sender),
            seq(|g.receivers|, r requires 0 <= r < |g.receivers| => Post(g.receivers[r], HeaderOf(bs, g.sender.round))))
    case Finish => g.(sender := g.sender.(pc := Sent))
    case _ => g.(receivers := g.receivers[step.r := Moved(g, step)])
  }

  // ----- what every step keeps

  ghost predicate SenderOk<T>(bs: seq<seq<T>>, x: Sender<T>) {
    && x.round < |bs| && x.filled <= |bs[x.round]|
    && (x.launched > 0 ==> x.launched <= |bs| && bs[x.launched - 1] <= x.Buf(x.opBuf))
    && match x.pc
       case Filling =>
         x.launched == x.round && bs[x.round][..x.filled] <= x.Buf(x.cur) && (x.launched > 0 ==> x.opBuf == !x.cur)
       case _ => x.launched == x.round + 1 == |bs| && x.opBuf == x.cur
  }

  ghost predicate ReceiverOk<T>(bs: seq<seq<T>>, x: Receiver<T>) {
    && x.round <= |bs|
    && x.heardCount == x.round + (if x.heard.Some? then 1 else 0)
    && x.copied == x.round + (if x.complete then 1 else 0)
    && (x.complete ==> x.heard.Some? && x.round < |bs| && bs[x.round] <= x.Buf(!x.cur))
    && (x.heard.Some? ==> x.op && x.round < |bs| && x.heard.value == HeaderOf(bs, x.round))
    && (x.op <==> x.pc == Waiting || (x.pc == Serving && x.round < |bs|))
    && (x.pc == Starting || x.pc == Waiting ==> x.round < |bs|)
    && (x.pc == Serving ==> x.round > 0)
    && (x.pc == Received ==> x.round == |bs|)
    && (x.hold.Some? <==> x.round > 0)
    && (if x.round == 0 then x.out == [] else HoldOk(bs, x))
  }

  ghost predicate HoldOk<T>(bs: seq<seq<T>>, x: Receiver<T>)
    requires 0 < x.round <= |bs| && x.hold.Some?
  {
    var bucket := bs[x.round - 1];
    && bucket <= x.Buf(x.cur) && x.hold.value == HeaderOf(bs, x.round - 1)
    && x.served <= |bucket| && (x.pc == Starting ==> x.served == 0)
    && (x.pc == Waiting || x.pc == Received ==> x.served == |bucket|)
    && x.out == Flatten(bs[..x.round - 1]) + bucket[..x.served]
  }

  /** The metadata of the broadcasts from `from` on. */
  function Headers<T>(bs: seq<seq<T>>, from: nat, to: nat): (r: seq<Header>)
    requires from <= to <= |bs|
    ensures |r| == to - from && forall k :: 0 <= k < |r| ==> r[k] == HeaderOf(bs, from + k)
  {
    seq(to - from, k requires 0 <= k < to - from => HeaderOf(bs, from + k))
  }

  /** Element `k` of the wire is bucket `from + k`, with anything behind it. */
  ghost predicate Carries<T>(wire: seq<seq<T>>, bs: seq<seq<T>>, from: nat) {
    from + |wire| <= |bs| && forall k :: 0 <= k < |wire| ==> bs[from + k] <= wire[k]
  }

  /**
   * A receiver may lag behind by any number of broadcasts: the metadata it has not heard and the buckets
   * it has not received are waiting in order. At most the latest bucket is still in rank 0's buffer.
   */
  ghost predicate LinkOk<T>(bs: seq<seq<T>>, launched: nat, x: Receiver<T>) {
    && x.heardCount <= launched <= |bs| && x.copied <= x.sent <= launched <= x.sent + 1
    && x.inbox == Headers(bs, x.heardCount, launched)
    && |x.wire| == x.sent - x.copied && Carries(x.wire, bs, x.copied)
  }

  ghost predicate Inv<T>(bs: seq<seq<T>>, g: Group<T>) {
    && SenderOk(bs, g.sender)
    && forall r :: 0 <= r < |g.receivers| ==> ReceiverOk(bs, g.receivers[r]) && LinkOk(bs, g.sender.launched, g.receivers[r])
  }

  lemma WriteKeeps<T>(bs: seq<seq<T>>, x: Sender<T>)
    requires SenderOk(bs, x) && CanWrite(bs, x)
    ensures SenderOk(bs, DoWrite(bs, x)) && DoWrite(bs, x).launched == x.launched
  {
    assert bs[x.round][..x.filled + 1] == bs[x.round][..x.filled] + [bs[x.round][x.filled]];
  }

  lemma LaunchKeeps<T>(bs: seq<seq<T>>, x: Sender<T>)
    requires SenderOk(bs, x) && CanLaunch(bs, x)
    ensures SenderOk(bs, DoLaunch(bs, x)) && DoLaunch(bs, x).launched == x.launched + 1 == x.round + 1
  {
    assert bs[x.round][..x.filled] == bs[x.round];
  }

  lemma FinishKeeps<T>(bs: seq<seq<T>>, x: Sender<T>)
    requires SenderOk(bs, x) && x.pc == AwaitLast
    ensures SenderOk(bs, x.(pc := Sent))
  {
  }

  lemma PostKeeps<T>(bs: seq<seq<T>>, launched: nat, x: Receiver<T>)
    requires launched < |bs| && ReceiverOk(bs, x) && LinkOk(bs, launched, x) && x.sent == launched
    ensures ReceiverOk(bs, Post(x, HeaderOf(bs, launched))) && LinkOk(bs, launched + 1, Post(x, HeaderOf(bs, launched)))
  {
    assert Headers(bs, x.heardCount, launched + 1) == Headers(bs, x.heardCount, launched) + [HeaderOf(bs, launched)];
  }

  lemma StartKeeps<T>(bs: seq<seq<T>>, launched: nat, x: Receiver<T>)
    requires ReceiverOk(bs, x) && LinkOk(bs, launched, x) && CanStart(x)
    ensures ReceiverOk(bs, DoStart(x)) && LinkOk(bs, launched, DoStart(x))
  {
  }

  lemma HearKeeps<T>(bs: seq<seq<T>>, launched: nat, x: Receiver<T>)
    requires ReceiverOk(bs, x) && LinkOk(bs, launched, x) && CanHear(x)
    ensures ReceiverOk(bs, DoHear(x)) && LinkOk(bs, launched, DoHear(x))
  {
    assert Headers(bs, x.heardCount, launched)[1..] == Headers(bs, x.heardCount + 1, launched);
  }

  lemma DepartKeeps<T>(bs: seq<seq<T>>, sender: Sender<T>, x: Receiver<T>)
    requires SenderOk(bs, sender) && ReceiverOk(bs, x) && LinkOk(bs, sender.launched, x) && CanDepart(x, sender)
    ensures ReceiverOk(bs, DoDepart(x, sender)) && LinkOk(bs, sender.launched, DoDepart(x, sender))
  {
    hide Headers;
    WireGrows(bs, x.wire, x.copied, sender.Buf(sender.opBuf));
  }

  lemma WireGrows<T>(bs: seq<seq<T>>, wire: seq<seq<T>>, from: nat, content: seq<T>)
    requires Carries(wire, bs, from) && from + |wire| < |bs| && bs[from + |wire|] <= content
    ensures Carries(wire + [content], bs, from)
  {
  }

  lemma CopyKeeps<T>(bs: seq<seq<T>>, launched: nat, x: Receiver<T>)
    requires ReceiverOk(bs, x) && LinkOk(bs, launched, x) && CanCopy(x)
    ensures ReceiverOk(bs, DoCopy(x)) && LinkOk(bs, launched, DoCopy(x))
  {
    hide Headers;
    WireTaken(bs, x.wire, x.copied);
  }

  lemma WireTaken<T>(bs: seq<seq<T>>, wire: seq<seq<T>>, from: nat)
    requires Carries(wire, bs, from) && wire != []
    ensures bs[from] <= wire[0] && Carries(wire[1..], bs, from + 1)
  {
    forall k | 0 <= k < |wire[1..]|
      ensures bs[from + 1 + k] <= wire[1..][k]
    {
      assert bs[from + (k + 1)] <= wire[k + 1];
    }
  }

  lemma YieldKeeps<T>(bs: seq<seq<T>>, launched: nat, x: Receiver<T>)
    requires ReceiverOk(bs, x) && LinkOk(bs, launched, x) && CanYield(x)
    ensures ReceiverOk(bs, DoYield(x)) && LinkOk(bs, launched, DoYield(x))
    ensures DoYield(x).out == x.out + [bs[x.round - 1][x.served]]
  {
    hide Flatten;
    var bucket := bs[x.round - 1];
    PrefixAt(bucket, x.Buf(x.cur), x.served);
  }

  lemma PrefixAt<T>(bucket: seq<T>, buffer: seq<T>, k: nat)
    requires bucket <= buffer && k < |bucket|
    ensures buffer[k] == bucket[k] && bucket[..k + 1] == bucket[..k] + [bucket[k]]
  {
  }

  lemma ServedKeeps<T>(bs: seq<seq<T>>, launched: nat, x: Receiver<T>)
    requires ReceiverOk(bs, x) && LinkOk(bs, launched, x) && CanServed(x)
    ensures ReceiverOk(bs, DoServed(x)) && LinkOk(bs, launched, DoServed(x))
  {
  }

  lemma SwapKeeps<T>(bs: seq<seq<T>>, launched: nat, x: Receiver<T>)
    requires ReceiverOk(bs, x) && LinkOk(bs, launched, x) && CanSwap(x)
    ensures ReceiverOk(bs, DoSwap(x)) && LinkOk(bs, launched, DoSwap(x))
  {
    assert bs[x.round][..0] == [];
    if x.round > 0 {
      assert bs[x.round - 1][..x.served] == bs[x.round - 1];
      assert bs[..x.round][..x.round - 1] == bs[..x.round - 1];
    }
  }

  predicate BySender(step: Step) {
    step.Write? || step.Launch? || step.Finish?
  }

  lemma MovedKeeps<T>(bs: seq<seq<T>>, g: Group<T>, step: Step)
    requires Inv(bs, g) && Enabled(bs, g, step) && !BySender(step)
    ensures ReceiverOk(bs, Moved(g, step)) && LinkOk(bs, g.sender.launched, Moved(g, step))
  {
    var x, launched := g.receivers[step.r], g.sender.launched;
    assert ReceiverOk(bs, x) && LinkOk(bs, launched, x);
    hide SenderOk, ReceiverOk, LinkOk, Inv;
    match step
    case Start(_) => StartKeeps(bs, launched, x);
    case Hear(_) => HearKeeps(bs, launched, x);
    case Depart(_) => DepartKeeps(bs, g.sender, x);
    case Copy(_) => CopyKeeps(bs, launched, x);
    case Yield(_) => YieldKeeps(bs, launched, x);
    case Served(_) => ServedKeeps(bs, launched, x);
    case Swap(_) => SwapKeeps(bs, launched, x);
  }

  /** Every step of every process keeps the invariant. */
  lemma StepKeepsInv<T>(bs: seq<seq<T>>, g: Group<T>, step: Step)
    requires Inv(bs, g) && Enabled(bs, g, step)
    ensures Inv(bs, Next(bs, g, step))
  {
    hide ReceiverOk, LinkOk, Moved, DoWrite, DoLaunch;
    if step.Write? {
      WriteKeeps(bs, g.sender);
    } else if step.Launch? {
      LaunchKeepsInv(bs, g);
    } else if step.Finish? {
      FinishKeeps(bs, g.sender);
    } else {
      hide SenderOk;
      MovedKeeps(bs, g, step);
    }
  }

  lemma LaunchKeepsInv<T>(bs: seq<seq<T>>, g: Group<T>)
    requires Inv(bs, g) && Enabled(bs, g, Launch)
    ensures Inv(bs, Next(bs, g, Launch))
  {
    LaunchKeeps(bs, g.sender);
    var g' := Next(bs, g, Launch);
    forall r | 0 <= r < |g.receivers|
      ensures ReceiverOk(bs, g'.receivers[r]) && LinkOk(bs, g'.sender.launched, g'.receivers[r])
    {
      PostKeeps(bs, g.sender.launched, g.receivers[r]);
    }
  }

  lemma StartInv<T>(bs: seq<seq<T>>, n: nat)
    requires bs != []
    ensures Inv(bs, StartGroup<T>(n))
  {
    assert bs[0][..0] == [];
  }

  // ----- runs: any steps in any order

  /** `states` are the states of a run with `n` receivers that takes `steps`. */
  ghost predicate Run<T>(bs: seq<seq<T>>, n: nat, steps: seq<Step>, states: seq<Group<T>>) {
    && |states| == |steps| + 1
    && states[0] == StartGroup(n)
    && forall k :: 0 <= k < |steps| ==>
      Enabled(bs, states[k], steps[k]) && states[k + 1] == Next(bs, states[k], steps[k])
  }

  lemma {:induction false} RunInv<T>(bs: seq<seq<T>>, n: nat, steps: seq<Step>, states: seq<Group<T>>, k: nat)
    requires bs != [] && Run(bs, n, steps, states) && k < |states|
    ensures Inv(bs, states[k]) && |states[k].receivers| == n
  {
    if k == 0 {
      StartInv(bs, n);
    } else {
      RunInv(bs, n, steps, states, k - 1);
      StepKeepsInv(bs, states[k - 1], steps[k - 1]);
    }
  }

  // ----- safety

  /** No step writes the buffer of a broadcast that has not left towards every receiver. */
  lemma NoWriteInFlight<T>(bs: seq<seq<T>>, g: Group<T>, step: Step)
    requires Inv(bs, g) && Enabled(bs, g, step) && !Drained(g)
    ensures var g' := Next(bs, g, step);
      g'.sender.opBuf == g.sender.opBuf && g'.sender.Buf(g.sender.opBuf) == g.sender.Buf(g.sender.opBuf)
  {
  }

  /** No step writes the buffer a receiver serves from; and it never receives into that buffer. */
  lemma NoWriteWhileServing<T>(bs: seq<seq<T>>, g: Group<T>, step: Step, r: nat)
    requires Inv(bs, g) && Enabled(bs, g, step) && r < |g.receivers| && g.receivers[r].pc == Serving
    ensures var x' := Next(bs, g, step).receivers[r];
      x'.cur == g.receivers[r].cur && x'.Buf(x'.cur) == g.receivers[r].Buf(x'.cur)
  {
  }

  /** Of two receivers one is ahead by at most one bucket and what is on the wire to the other. */
  lemma ReceiversClose<T>(bs: seq<seq<T>>, g: Group<T>, i: nat, j: nat)
    requires Inv(bs, g) && i < |g.receivers| && j < |g.receivers|
    ensures g.receivers[i].copied <= g.receivers[j].copied + |g.receivers[j].wire| + 1
  {
    assert LinkOk(bs, g.sender.launched, g.receivers[i]) && LinkOk(bs, g.sender.launched, g.receivers[j]);
  }

  /** The bucket that a receiver takes is the one that the metadata it has heard describes. */
  lemma MetadataMatches<T>(bs: seq<seq<T>>, g: Group<T>, r: nat)
    requires Inv(bs, g) && r < |g.receivers| && CanCopy(g.receivers[r])
    ensures var x := g.receivers[r];
      x.copied < |bs| && x.heard == Some(HeaderOf(bs, x.copied)) && bs[x.copied] <= x.wire[0]
  {
    var x := g.receivers[r];
    assert ReceiverOk(bs, x) && LinkOk(bs, g.sender.launched, x);
    WireTaken(bs, x.wire, x.copied);
  }

  /** What a receiver has yielded is a beginning of what rank 0 packed; in the end it is all of it. */
  lemma Delivery<T>(bs: seq<seq<T>>, g: Group<T>, r: nat)
    requires Inv(bs, g) && r < |g.receivers|
    ensures g.receivers[r].out <= Flatten(bs)
    ensures bs != [] && g.receivers[r].pc == Received ==> g.receivers[r].out == Flatten(bs)
  {
    var x := g.receivers[r];
    assert ReceiverOk(bs, x);
    if x.round > 0 {
      FlattenPrefix(bs, x.round);
      assert bs[..x.round][..x.round - 1] == bs[..x.round - 1];
      assert x.out <= Flatten(bs[..x.round]);
      if x.pc == Received {
        assert bs[..x.round] == bs;
        assert bs[x.round - 1][..x.served] == bs[x.round - 1];
      }
    }
  }

  // ----- progress

  predicate AllDone<T>(g: Group<T>) {
    g.sender.pc == Sent && forall r :: 0 <= r < |g.receivers| ==> g.receivers[r].pc == Received
  }

  /** Once everything has left rank 0, a receiver that is not done can take a step. */
  lemma ReceiverMoves<T>(bs: seq<seq<T>>, g: Group<T>, r: nat) returns (step: Step)
    requires Inv(bs, g) && r < |g.receivers| && g.receivers[r].pc != Received
    requires g.receivers[r].sent == g.sender.launched == |bs|
    ensures Enabled(bs, g, step)
  {
    var x := g.receivers[r];
    assert ReceiverOk(bs, x) && LinkOk(bs, g.sender.launched, x);
    match x.pc
    case Starting => step := Start(r);
    case Serving => step := if CanYield(x) then Yield(r) else Served(r);
    case Waiting =>
      if x.complete {
        step := Swap(r);
      } else if x.heard.Some? {
        step := Copy(r);
      } else {
        step := Hear(r);
      }
  }

  /** No deadlock: as long as someone is not done, some process can take a step. */
  lemma NoDeadlock<T>(bs: seq<seq<T>>, g: Group<T>) returns (step: Step)
    requires Inv(bs, g) && !AllDone(g)
    ensures Enabled(bs, g, step)
  {
    if CanWrite(bs, g.sender) {
      step := Write;
    } else if !Drained(g) {
      var r :| 0 <= r < |g.receivers| && g.receivers[r].sent != g.sender.launched;
      assert LinkOk(bs, g.sender.launched, g.receivers[r]);
      step := Depart(r);
    } else if g.sender.pc == Filling {
      step := Launch;
    } else if g.sender.pc == AwaitLast {
      step := Finish;
    } else {
      var r :| 0 <= r < |g.receivers| && g.receivers[r].pc != Received;
      step := ReceiverMoves(bs, g, r);
    }
  }

  /** What the sender has done so far: chunks written, broadcasts launched, the last one awaited. */
  function SenderProgress<T>(bs: seq<seq<T>>, x: Sender<T>): nat {
    (if x.round < |bs| then |Flatten(bs[..x.round])| else 0) + x.filled + x.launched + if x.pc == Sent then 1 else 0
  }

  /** What a receiver has done: operations begun, heard, on the wire, completed, swapped, chunks and buckets served. */
  function ReceiverProgress<T>(x: Receiver<T>): nat {
    x.round + (if x.op then 1 else 0) + x.heardCount + x.sent + x.copied + x.round + |x.out|
    + if x.round > 0 && (x.pc == Starting || x.pc == Serving) then x.round - 1 else x.round
  }

  function Progress<T>(bs: seq<seq<T>>, g: Group<T>): nat {
    SenderProgress(bs, g.sender) + Sum(ReceiversProgress(g))
  }

  function ReceiversProgress<T>(g: Group<T>): (r: seq<nat>)
    ensures |r| == |g.receivers|
  {
    seq(|g.receivers|, r requires 0 <= r < |g.receivers| => ReceiverProgress(g.receivers[r]))
  }

  lemma SenderStepProgress<T>(bs: seq<seq<T>>, g: Group<T>, step: Step)
    requires Inv(bs, g) && Enabled(bs, g, step) && BySender(step)
    ensures SenderProgress(bs, g.sender) < SenderProgress(bs, Next(bs, g, step).sender)
    ensures ReceiversProgress(Next(bs, g, step)) == ReceiversProgress(g)
  {
    var x := g.sender;
    assert bs[..x.round + 1][..x.round] == bs[..x.round];
  }

  lemma MovedProgress<T>(bs: seq<seq<T>>, g: Group<T>, step: Step)
    requires Inv(bs, g) && Enabled(bs, g, step) && !BySender(step)
    ensures ReceiverProgress(g.receivers[step.r]) < ReceiverProgress(Moved(g, step))
  {
    var x := g.receivers[step.r];
    assert ReceiverOk(bs, x);
    if step.Yield? {
      YieldKeeps(bs, g.sender.launched, x);
    }
  }

  /** Every step of every process makes progress. */
  lemma StepProgress<T>(bs: seq<seq<T>>, g: Group<T>, step: Step)
    requires Inv(bs, g) && Enabled(bs, g, step)
    ensures Progress(bs, g) < Progress(bs, Next(bs, g, step))
  {
    if BySender(step) {
      SenderStepProgress(bs, g, step);
    } else {
      MovedProgress(bs, g, step);
      hide ReceiverProgress, SenderProgress, Inv, Moved;
      SumGrows(ReceiversProgress(g), ReceiversProgress(Next(bs, g, step)), step.r);
    }
  }

  /** No run is longer than this many steps. */
  function MaxSteps<T>(bs: seq<seq<T>>, n: nat): nat {
    (n + 1) * (|Flatten(bs)| + 6 * |bs|)
  }

  lemma SenderBounded<T>(bs: seq<seq<T>>, x: Sender<T>)
    requires SenderOk(bs, x)
    ensures SenderProgress(bs, x) <= |Flatten(bs)| + 6 * |bs|
  {
    assert bs[..x.round + 1][..x.round] == bs[..x.round];
    FlattenPrefix(bs, x.round + 1);
    assert |Flatten(bs[..x.round + 1])| == |Flatten(bs[..x.round])| + |bs[x.round]|;
    hide Flatten;
  }

  lemma ReceiverBounded<T>(bs: seq<seq<T>>, launched: nat, x: Receiver<T>)
    requires ReceiverOk(bs, x) && LinkOk(bs, launched, x) && |x.out| <= |Flatten(bs)|
    ensures ReceiverProgress(x) <= |Flatten(bs)| + 6 * |bs|
  {
  }

  lemma ProgressBounded<T>(bs: seq<seq<T>>, g: Group<T>)
    requires Inv(bs, g)
    ensures Progress(bs, g) <= MaxSteps(bs, |g.receivers|)
  {
    hide SenderOk, ReceiverOk, LinkOk, SenderProgress, ReceiverProgress, Flatten;
    var n, most := |g.receivers|, |Flatten(bs)| + 6 * |bs|;
    SenderBounded(bs, g.sender);
    forall r | 0 <= r < n
      ensures ReceiverProgress(g.receivers[r]) <= most
    {
      Delivery(bs, g, r);
      ReceiverBounded(bs, g.sender.launched, g.receivers[r]);
    }
    SumBounded(ReceiversProgress(g), most);
    assert (n + 1) * most == n * most + most;
  }

  lemma {:induction false} RunProgress<T>(bs: seq<seq<T>>, n: nat, steps: seq<Step>, states: seq<Group<T>>, k: nat)
    requires bs != [] && Run(bs, n, steps, states) && k < |states|
    ensures k <= Progress(bs, states[k])
  {
    hide Enabled, Next, Inv, Progress;
    if k > 0 {
      RunProgress(bs, n, steps, states, k - 1);
      RunInv(bs, n, steps, states, k - 1);
      StepProgress(bs, states[k - 1], steps[k - 1]);
    }
  }

  /**
   * The broadcast delivers: a run has at most `MaxSteps` steps, and when no step is possible any more
   * rank 0 is done and every receiver has yielded exactly the chunks that rank 0 packed.
   */
  lemma BroadcastDelivers<T>(bs: seq<seq<T>>, n: nat, steps: seq<Step>, states: seq<Group<T>>)
    requires bs != [] && Run(bs, n, steps, states)
    ensures |steps| <= MaxSteps(bs, n)
    ensures var g := states[|steps|];
      (forall step :: !Enabled(bs, g, step)) ==>
        AllDone(g) && |g.receivers| == n && forall r :: 0 <= r < n ==> g.receivers[r].out == Flatten(bs)
  {
    hide Inv, Enabled, Next, Progress, Flatten;
    var g := states[|steps|];
    RunInv(bs, n, steps, states, |steps|);
    RunProgress(bs, n, steps, states, |steps|);
    ProgressBounded(bs, g);
    if !AllDone(g) {
      var step := NoDeadlock(bs, g);
    } else {
      forall r | 0 <= r < n
        ensures g.receivers[r].out == Flatten(bs)
      {
        Delivery(bs, g, r);
      }
    }
  }
}
