/** How the NIXL ranks are wired into a chain, and the mailboxes of one agent. */
module NixlAgents {
  import opened Wrappers
  import opened Sequences

  // ----- build_topology

  /** A negative bound counts from the end; bounds are cut to the length. */
  function Bound(i: int, n: nat): nat {
    if i < 0 then (if n + i < 0 then 0 else n + i)
    else if i < n then i
    else n
  }

  /** `s[from:to]` for any integers. */
  function PySlice<T>(s: seq<T>, from: int, to: int): seq<T> {
    var lo, hi := Bound(from, |s|), Bound(to, |s|);
    if lo <= hi then s[lo..hi] else []
  }

  /** `[value] * n`, which is empty for a negative `n`. */
  function Repeat<T>(value: T, n: int): seq<T> {
    if n <= 0 then [] else seq(n, _ => value)
  }

  function AllSome<T>(s: seq<T>): (r: seq<Option<T>>)
    ensures |r| == |s| && forall k :: 0 <= k < |s| ==> r[k] == Some(s[k])
  {
    seq(|s|, k requires 0 <= k < |s| => Some(s[k]))
  }

  /** The arguments of `init_process_group`, one per worker. */
  datatype Kwargs<A> = Kwargs(rank: seq<int>, prev: seq<Option<A>>, next: seq<Option<A>>)

  function TrainerKwargs<A>(trainers: nat, rollouts: nat, metadata: seq<A>): Result<Kwargs<A>> {
    // metadata[-rollouts]; -0 is 0
    var i := if rollouts == 0 then 0 else |metadata| - rollouts;
    if !(0 <= i < |metadata|) then Failure
    else
      Success(Kwargs([0] + Repeat(-1, trainers - 1), Repeat(None, trainers), [Some(metadata[i])] + Repeat(None, trainers - 1)))
  }

  function RolloutKwargs<A>(rollouts: nat, metadata: seq<A>): Result<Kwargs<A>> {
    if metadata == [] then Failure
    else
      Success(Kwargs(seq(rollouts, k requires 0 <= k => k + 1),
                     [Some(metadata[0])] + AllSome(PySlice(metadata, 0 - rollouts, -1)),
                     AllSome(PySlice(metadata, 1 - rollouts, |metadata|)) + [None]))
  }

  /** The assertions of `build_process_group` on the lengths. */
  predicate RightLengths<A>(k: Kwargs<A>, workers: nat) {
    |k.rank| == |k.prev| == |k.next| == workers
  }

  predicate Passes<A>(trainers: nat, rollouts: nat, metadata: seq<A>) {
    && TrainerKwargs(trainers, rollouts, metadata).Success? && RolloutKwargs(rollouts, metadata).Success?
    && RightLengths(TrainerKwargs(trainers, rollouts, metadata).value, trainers)
    && RightLengths(RolloutKwargs(rollouts, metadata).value, rollouts)
  }

  /** The assertions pass if and only if there is a trainer and there are at least two rollout ranks. */
  lemma PassesIff<A>(trainers: nat, rollouts: nat, metadata: seq<A>)
    requires |metadata| == trainers + rollouts
    ensures Passes(trainers, rollouts, metadata) <==> trainers >= 1 && rollouts >= 2
  {
    if metadata != [] {
      var n := |metadata|;
      assert |AllSome(PySlice(metadata, 1 - rollouts, n))| == n - Bound(1 - rollouts, n);
    }
  }

  /** Rank 0 is the first trainer, rank `r` the `r`-th rollout worker. */
  function AgentOf<A>(trainers: nat, metadata: seq<A>, r: nat): A
    requires 1 <= trainers && trainers + r - 1 < |metadata|
  {
    if r == 0 then metadata[0] else metadata[trainers + r - 1]
  }

  /** The assertions of `init_process_group` of one worker. */
  predicate InitPasses<A>(rank: int, worldSize: nat, prev: Option<A>, next: Option<A>) {
    if rank < 0 then prev.None? && next.None?
    else if rank == 0 then prev.None? && next.Some?
    else if rank < worldSize - 1 then prev.Some? && next.Some?
    else rank == worldSize - 1 ==> prev.Some? && next.None?
  }

  /** Within a group of two or more: exactly the first rank has no previous agent, the last none behind it. */
  lemma InitPassesIff<A>(rank: int, worldSize: nat, prev: Option<A>, next: Option<A>)
    requires worldSize >= 2 && rank < worldSize
    ensures InitPasses(rank, worldSize, prev, next) <==>
      (prev.Some? <==> rank > 0) && (next.Some? <==> 0 <= rank < worldSize - 1)
  {
  }

  /** The ranks form one chain: each rank's neighbours are the ranks before and after it. */
  lemma Chained<A>(trainers: nat, rollouts: nat, metadata: seq<A>, r: nat)
    requires |metadata| == trainers + rollouts && trainers >= 1 && rollouts >= 2 && 1 <= r <= rollouts
    ensures var k := RolloutKwargs(rollouts, metadata).value;
      && RolloutKwargs(rollouts, metadata).Success? && RightLengths(k, rollouts)
      && k.rank[r - 1] == r
      && k.prev[r - 1] == Some(AgentOf(trainers, metadata, r - 1))
      && k.next[r - 1] == (if r < rollouts then Some(AgentOf(trainers, metadata, r + 1)) else None)
      && InitPasses(r, rollouts + 1, k.prev[r - 1], k.next[r - 1])
  {
    PassesIff(trainers, rollouts, metadata);
  }

  /** The first trainer heads the chain and the other trainers stay out of it. */
  lemma HeadOfChain<A>(trainers: nat, rollouts: nat, metadata: seq<A>, t: nat)
    requires |metadata| == trainers + rollouts && trainers >= 1 && rollouts >= 2 && t < trainers
    ensures var k := TrainerKwargs(trainers, rollouts, metadata).value;
      && TrainerKwargs(trainers, rollouts, metadata).Success? && RightLengths(k, trainers)
      && k.rank[t] == (if t == 0 then 0 else -1)
      && k.next[t] == (if t == 0 then Some(AgentOf(trainers, metadata, 1)) else None)
      && InitPasses(k.rank[t], rollouts + 1, k.prev[t], k.next[t])
  {
    PassesIff(trainers, rollouts, metadata);
  }

  // ----- mailboxes

  /** The messages of one sender among those that arrive. */
  function From<M>(arriving: seq<(string, M)>, sender: string): seq<M> {
    if arriving == [] then []
    else (if arriving[0].0 == sender then [arriving[0].1] else []) + From(arriving[1..], sender)
  }

  function Box<M>(boxes: map<string, seq<M>>, name: string): seq<M> {
    if name in boxes then boxes[name] else []
  }

  lemma BoxOf<M>(boxes: map<string, seq<M>>, name: string, content: seq<M>)
    ensures Box(boxes[name := content], name) == content
    ensures forall other :: other != name ==> Box(boxes[name := content], other) == Box(boxes, other)
  {
  }

  lemma FromNone<M>(sender: string)
    ensures From<M>([], sender) == []
  {
  }

  /** Receiving a message moves it from the socket to its box. */
  lemma Received<M>(boxes: map<string, seq<M>>, arriving: seq<(string, M)>, name: string)
    requires arriving != []
    ensures var a := arriving[0];
      Box(boxes[a.0 := Box(boxes, a.0) + [a.1]], name) + From(arriving[1..], name) == Box(boxes, name) + From(arriving, name)
  {
  }

  class Mailbox<M> {
    /** Messages already received, by sender. */
    var messages: map<string, seq<M>>
    /** What the socket still delivers, in this order. */
    var arriving: seq<(string, M)>
    /** Notifications already fetched, by sender, and what each poll still brings. */
    var notifications: map<string, seq<M>>
    var polls: seq<seq<(string, seq<M>)>>

    constructor (arriving: seq<(string, M)>, polls: seq<seq<(string, seq<M>)>>)
      ensures this.arriving == arriving && this.polls == polls && messages == map[] && notifications == map[]
    {
      this.arriving, this.polls, messages, notifications := arriving, polls, map[], map[];
    }

    /** All messages of a sender that have not been read, in the order sent. */
    ghost function Unread(sender: string): seq<M>
      reads this
    {
      Box(messages, sender) + From(arriving, sender)
    }

    /** Reads the oldest message of one sender, in whatever order the messages of different senders arrive. */
    method ReadMessage(sender: string) returns (r: Option<M>)
      modifies this`messages, this`arriving
      ensures r == if old(Unread(sender)) == [] then None else Some(old(Unread(sender))[0])
      ensures Unread(sender) == if old(Unread(sender)) == [] then [] else old(Unread(sender))[1..]
      ensures forall other :: other != sender ==> Unread(other) == old(Unread(other))
    {
      hide From;
      while Box(messages, sender) == [] && arriving != []
        invariant forall name :: Unread(name) == old(Unread(name))
        decreases |arriving|
      {
        var name, message := arriving[0].0, arriving[0].1;
        forall other
          ensures Box(messages[name := Box(messages, name) + [message]], other) + From(arriving[1..], other) == Unread(other)
        {
          Received(messages, arriving, other);
        }
        messages := messages[name := Box(messages, name) + [message]];
        arriving := arriving[1..];
      }
      if Box(messages, sender) == [] {
        // the original keeps waiting
        FromNone<M>(sender);
        return None;
      }
      r := Some(messages[sender][0]);
      messages := messages[sender := messages[sender][1..]];
    }

    /** The loop variable over the senders of a poll replaces the sender that is waited for. */
    method GetNotification(sender: string) returns (r: Option<M>)
      modifies this`notifications, this`polls
      ensures var w := Await(old(notifications), old(polls), sender);
        && (w.None? <==> r.None?)
        && (w.Some? ==> r == Some(Box(w.value.boxes, w.value.waiting)[0]) && polls == w.value.polls)
        && (w.Some? ==> notifications == w.value.boxes[w.value.waiting := Box(w.value.boxes, w.value.waiting)[1..]])
    {
      hide AddPoll;
      var waiting := sender;
      while Box(notifications, waiting) == [] && polls != []
        invariant Await(notifications, polls, waiting) == Await(old(notifications), old(polls), sender)
        decreases |polls|
      {
        var poll := polls[0];
        var boxes, last := notifications, waiting;
        AddPollNone(notifications, waiting);
        for k := 0 to |poll|
          invariant AddPoll(notifications, poll[..k], waiting) == (boxes, last)
          modifies {}
        {
          AddPollSnoc(notifications, poll, k, waiting);
          last := poll[k].0;
          boxes := boxes[last := Box(boxes, last) + poll[k].1];
        }
        assert poll[..|poll|] == poll;
        notifications, waiting, polls := boxes, last, polls[1..];
      }
      if Box(notifications, waiting) == [] {
        return None;
      }
      BoxPresent(notifications, waiting);
      r := Some(notifications[waiting][0]);
      notifications := notifications[waiting := notifications[waiting][1..]];
    }
  }

  datatype Waited<M> = Waited(boxes: map<string, seq<M>>, polls: seq<seq<(string, seq<M>)>>, waiting: string)

  /** One poll: the boxes filled, and the name left in the loop variable. */
  function AddPoll<M>(boxes: map<string, seq<M>>, poll: seq<(string, seq<M>)>, waiting: string): (map<string, seq<M>>, string) {
    if poll == [] then (boxes, waiting)
    else
      var (b, _) := AddPoll(boxes, poll[..|poll| - 1], waiting);
      var last := poll[|poll| - 1];
      (b[last.0 := Box(b, last.0) + last.1], last.0)
  }

  lemma AddPollNone<M>(boxes: map<string, seq<M>>, waiting: string)
    ensures AddPoll(boxes, [], waiting) == (boxes, waiting)
  {
  }

  lemma AddPollSnoc<M>(boxes: map<string, seq<M>>, poll: seq<(string, seq<M>)>, k: nat, waiting: string)
    requires k < |poll|
    ensures var b := AddPoll(boxes, poll[..k], waiting).0;
      AddPoll(boxes, poll[..k + 1], waiting) == (b[poll[k].0 := Box(b, poll[k].0) + poll[k].1], poll[k].0)
  {
    assert poll[..k + 1][..k] == poll[..k];
  }

  lemma BoxPresent<M>(boxes: map<string, seq<M>>, name: string)
    requires Box(boxes, name) != []
    ensures name in boxes && boxes[name] == Box(boxes, name)
  {
  }

  /** When the loop ends: the box that is taken from is not empty. `None` if it never does. */
  function Await<M>(boxes: map<string, seq<M>>, polls: seq<seq<(string, seq<M>)>>, waiting: string): (r: Option<Waited<M>>)
    ensures r.Some? ==> Box(r.value.boxes, r.value.waiting) != []
    decreases |polls|
  {
    if Box(boxes, waiting) != [] then Some(Waited(boxes, polls, waiting))
    else if polls == [] then None
    else
      var (b, w) := AddPoll(boxes, polls[0], waiting);
      Await(b, polls[1..], w)
  }

  /** Everything a sender has notified, fetched or not. */
  function Notified<M>(polls: seq<seq<(string, seq<M>)>>): seq<M> {
    if polls == [] then [] else InPoll(polls[0]) + Notified(polls[1..])
  }

  function InPoll<M>(poll: seq<(string, seq<M>)>): seq<M> {
    if poll == [] then [] else InPoll(poll[..|poll| - 1]) + poll[|poll| - 1].1
  }

  predicate OnlyFrom<M>(polls: seq<seq<(string, seq<M>)>>, sender: string) {
    forall p, k :: 0 <= p < |polls| && 0 <= k < |polls[p]| ==> polls[p][k].0 == sender
  }

  lemma {:induction false} AddPollFrom<M>(boxes: map<string, seq<M>>, poll: seq<(string, seq<M>)>, sender: string)
    requires forall k :: 0 <= k < |poll| ==> poll[k].0 == sender
    ensures AddPoll(boxes, poll, sender).1 == sender
    ensures Box(AddPoll(boxes, poll, sender).0, sender) == Box(boxes, sender) + InPoll(poll)
  {
    hide Box;
    if poll != [] {
      var init, last := poll[..|poll| - 1], poll[|poll| - 1];
      AddPollFrom(boxes, init, sender);
      var b := AddPoll(boxes, init, sender).0;
      BoxOf(b, sender, Box(b, sender) + last.1);
    } else {
      assert Box(boxes, sender) + [] == Box(boxes, sender);
    }
  }

  /** With a single notifying neighbour, as in the chain, the oldest notification is taken, in order. */
  lemma {:induction false} TakesOldest<M>(boxes: map<string, seq<M>>, polls: seq<seq<(string, seq<M>)>>, sender: string)
    requires OnlyFrom(polls, sender)
    ensures var r := Await(boxes, polls, sender);
      && (r.None? <==> Box(boxes, sender) + Notified(polls) == [])
      && (r.Some? ==> r.value.waiting == sender)
      && (r.Some? ==> Box(r.value.boxes, sender) + Notified(r.value.polls) == Box(boxes, sender) + Notified(polls))
    decreases |polls|
  {
    if Box(boxes, sender) == [] && polls != [] {
      AddPollFrom(boxes, polls[0], sender);
      assert forall p :: 0 <= p < |polls[1..]| ==> polls[1..][p] == polls[p + 1];
      TakesOldest(AddPoll(boxes, polls[0], sender).0, polls[1..], sender);
    }
  }

  /** Every notification comes from one of these agents. */
  predicate NamesIn<M>(polls: seq<seq<(string, seq<M>)>>, names: set<string>) {
    forall p, k :: 0 <= p < |polls| && 0 <= k < |polls[p]| ==> polls[p][k].0 in names
  }

  /** No notification of another agent is ever taken in place of the one waited for. */
  ghost predicate NeverOther<M(!new)>(boxes: map<string, seq<M>>, names: set<string>, sender: string) {
    forall polls: seq<seq<(string, seq<M>)>> :: NamesIn(polls, names) ==>
      var r := Await(boxes, polls, sender);
      r.Some? ==> r.value.waiting == sender
  }

  lemma TwoPolled<M>(boxes: map<string, seq<M>>, sender: string, other: string, mine: seq<M>, theirs: seq<M>)
    requires other != sender
    ensures AddPoll(boxes, [(sender, mine), (other, theirs)], sender)
         == (boxes[sender := Box(boxes, sender) + mine][other := Box(boxes, other) + theirs], other)
  {
    var poll := [(sender, mine), (other, theirs)];
    AddPollNone(boxes, sender);
    assert poll[..0] == [];
    AddPollSnoc(boxes, poll, 0, sender);
    AddPollSnoc(boxes, poll, 1, sender);
    BoxOf(boxes, sender, Box(boxes, sender) + mine);
    assert poll[..2] == poll;
  }

  /**
   * When one poll brings a notification of the agent waited for and one of any other agent, in this
   * order, the other one is taken, although the right one has arrived.
   */
  lemma TakesOther<M>(boxes: map<string, seq<M>>, sender: string, other: string, mine: seq<M>, theirs: seq<M>)
    requires other != sender && Box(boxes, sender) == [] && Box(boxes, other) + theirs != []
    ensures var r := Await(boxes, [[(sender, mine), (other, theirs)]], sender);
      && r.Some? && r.value.waiting == other
      && Box(r.value.boxes, other) == Box(boxes, other) + theirs && Box(r.value.boxes, sender) == mine
  {
    TwoPolled(boxes, sender, other, mine, theirs);
    var filled := boxes[sender := Box(boxes, sender) + mine];
    BoxOf(boxes, sender, Box(boxes, sender) + mine);
    BoxOf(filled, other, Box(boxes, other) + theirs);
    assert [] + mine == mine;
    hide AddPoll, Box;
  }

  /**
   * So the right notification is taken whatever the polls bring if and only if nobody but the agent
   * waited for can notify, or one of its notifications has been fetched before.
   */
  lemma NeverOtherIff<M(!new)>(boxes: map<string, seq<M>>, names: set<string>, sender: string, some: M)
    ensures NeverOther(boxes, names, sender) <==> names <= {sender} || Box(boxes, sender) != []
  {
    if Box(boxes, sender) == [] {
      if names <= {sender} {
        forall polls: seq<seq<(string, seq<M>)>> | NamesIn(polls, names)
          ensures var r := Await(boxes, polls, sender); r.Some? ==> r.value.waiting == sender
        {
          TakesOldest(boxes, polls, sender);
        }
      } else {
        var other :| other in names && other != sender;
        OtherAlone(boxes, names, sender, other, some);
      }
    }
  }

  /** A poll of any other agent alone leads to that agent's box. */
  lemma OtherAlone<M(!new)>(boxes: map<string, seq<M>>, names: set<string>, sender: string, other: string, some: M)
    requires other in names && other != sender && Box(boxes, sender) == []
    ensures !NeverOther(boxes, names, sender)
  {
    var poll := [(other, [some])];
    AddPollNone(boxes, sender);
    assert poll[..0] == [];
    AddPollSnoc(boxes, poll, 0, sender);
    assert poll[..1] == poll;
    BoxOf(boxes, other, Box(boxes, other) + [some]);
    assert NamesIn([poll], names);
    hide AddPoll, Box;
    var filled := boxes[other := Box(boxes, other) + [some]];
    assert [poll][1..] == [] && Await(filled, [], other) == Some(Waited(filled, [], other));
    assert Await(boxes, [poll], sender) == Some(Waited(filled, [], other));
  }
}
