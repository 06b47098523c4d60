/** The terminal input pump: a reader that fills a bounded channel and a sender that joins adjacent keystrokes. */
module Pty {
  import opened Records

  /** `Other` stands for every unknown message type. */
  datatype Message = Input(bytes: string) | Resize(cols: int, rows: int) | Kill | Other(kind: string)
  datatype Rpc = SendInput(data: string) | SendResize(cols: int, rows: int) | SendKill

  const CAPACITY := 64

  /** `Coalescing` holds the input messages gathered for one call. */
  datatype Sender = Idle(pending: Option<Message>) | Coalescing(group: seq<Message>) | Stopped

  /** `accepted` and `groups` are history: the messages that entered the channel and how the sender grouped them. */
  datatype State = State(queue: seq<Message>, closed: bool, sender: Sender, trace: seq<Rpc>,
                         accepted: seq<Message>, groups: seq<seq<Message>>)

  const INIT := State([], false, Idle(None), [], [], [])

  datatype Step = Read(msg: Message) | Close | Send

  function Bytes(group: seq<Message>): string {
    if group == [] then ""
    else Bytes(group[..|group| - 1]) + if group[|group| - 1].Input? then group[|group| - 1].bytes else ""
  }

  /** The calls one group gives rise to: none for empty input, an invalid size or an unknown type. */
  function Calls(group: seq<Message>): seq<Rpc> {
    if group == [] then []
    else
      match group[0]
      case Input(_) => if Bytes(group) == "" then [] else [SendInput(Bytes(group))]
      case Resize(cols, rows) => if cols > 0 && rows > 0 then [SendResize(cols, rows)] else []
      case Kill => [SendKill]
      case Other(_) => []
  }

  function Finish(s: State, group: seq<Message>, pending: Option<Message>, queue: seq<Message>): State {
    s.(queue := queue, sender := Idle(pending), trace := s.trace + Calls(group), groups := s.groups + [group])
  }

  function Begin(s: State, msg: Message, queue: seq<Message>): State {
    if msg.Input? then s.(queue := queue, sender := Coalescing([msg])) else Finish(s, [msg], None, queue)
  }

  predicate Enabled(s: State, st: Step) {
    match st
    case Read(_) => !s.closed
    case Close => !s.closed
    case Send => !s.sender.Stopped? && (s.sender == Idle(None) && s.queue == [] ==> s.closed)
  }

  /** A full channel drops the frame; the sender, when it gathers input, takes whatever the channel holds. */
  function Next(s: State, st: Step): State
    requires Enabled(s, st)
  {
    match st
    case Read(msg) =>
      if |s.queue| < CAPACITY then s.(queue := s.queue + [msg], accepted := s.accepted + [msg]) else s
    case Close => s.(closed := true)
    case Send =>
      match s.sender
      case Idle(pending) =>
        if pending.Some? then Begin(s, pending.value, s.queue)
        else if s.queue != [] then Begin(s, s.queue[0], s.queue[1..])
        else s.(sender := Stopped)
      case Coalescing(group) =>
        if s.queue == [] then Finish(s, group, None, [])
        else if s.queue[0].Input? then s.(queue := s.queue[1..], sender := Coalescing(group + [s.queue[0]]))
        else Finish(s, group, Some(s.queue[0]), s.queue[1..])
      case Stopped => s
  }

  ghost predicate Legal(s: State, steps: seq<Step>)
    decreases |steps|
  {
    steps == [] || (Enabled(s, steps[0]) && Legal(Next(s, steps[0]), steps[1..]))
  }

  ghost function Run(s: State, steps: seq<Step>): State
    requires Legal(s, steps)
    decreases |steps|
  {
    if steps == [] then s else Run(Next(s, steps[0]), steps[1..])
  }

  // ---- One call per message, adjacent inputs joined ----

  function Flatten(groups: seq<seq<Message>>): seq<Message> {
    if groups == [] then [] else Flatten(groups[..|groups| - 1]) + groups[|groups| - 1]
  }

  function AllCalls(groups: seq<seq<Message>>): seq<Rpc> {
    if groups == [] then [] else AllCalls(groups[..|groups| - 1]) + Calls(groups[|groups| - 1])
  }

  /** Input messages only, or a single message of another type. */
  predicate Group(group: seq<Message>) {
    group != [] && (|group| == 1 || forall i :: 0 <= i < |group| ==> group[i].Input?)
  }

  /** What the sender has taken from the channel and not yet called for. */
  function InHand(sender: Sender): seq<Message> {
    match sender
    case Idle(pending) => if pending.Some? then [pending.value] else []
    case Coalescing(group) => group
    case Stopped => []
  }

  ghost predicate Inv(s: State) {
    && s.accepted == Flatten(s.groups) + InHand(s.sender) + s.queue
    && s.trace == AllCalls(s.groups)
    && (forall i :: 0 <= i < |s.groups| ==> Group(s.groups[i]))
    && (s.sender.Coalescing? ==> s.sender.group != [] && forall i :: 0 <= i < |s.sender.group| ==>
      s.sender.group[i].Input?)
    && (s.sender.Stopped? ==> s.closed && s.queue == [])
    && |s.queue| <= CAPACITY
  }

  lemma FinishKeeps(s: State, group: seq<Message>, pending: Option<Message>, queue: seq<Message>)
    requires s.accepted == Flatten(s.groups) + (group + (if pending.Some? then [pending.value] else []) + queue)
    requires s.trace == AllCalls(s.groups) && Group(group) && (forall i :: 0 <= i < |s.groups| ==> Group(s.groups[i]))
    requires |queue| <= CAPACITY
    ensures Inv(Finish(s, group, pending, queue))
  {
    hide Calls, Group;
    var t := Finish(s, group, pending, queue);
    assert t.groups[..|s.groups|] == s.groups;
    var held := if pending.Some? then [pending.value] else [];
    assert Flatten(s.groups) + (group + held + queue) == Flatten(s.groups) + group + held + queue;
  }

  lemma BeginKeeps(s: State, msg: Message, queue: seq<Message>)
    requires Inv(s) && !s.sender.Stopped? && s.accepted == Flatten(s.groups) + ([msg] + queue) && |queue| <= CAPACITY
    ensures Inv(Begin(s, msg, queue))
  {
    hide Flatten, AllCalls, Calls;
    if msg.Input? {
      assert Flatten(s.groups) + ([msg] + queue) == Flatten(s.groups) + [msg] + queue;
    } else {
      assert [msg] + [] + queue == [msg] + queue;
      FinishKeeps(s, [msg], None, queue);
    }
  }

  lemma SendKeepsInv(s: State)
    requires Inv(s) && Enabled(s, Send)
    ensures Inv(Next(s, Send))
  {
    hide Flatten, AllCalls, Calls, Begin, Finish;
    var done, queue := Flatten(s.groups), s.queue;
    if queue != [] { assert queue == [queue[0]] + queue[1..]; }
    match s.sender
    case Idle(pending) =>
      if pending.Some? {
        assert done + [pending.value] + queue == done + ([pending.value] + queue);
        BeginKeeps(s, pending.value, queue);
      } else if queue != [] {
        assert done + [] + queue == done + ([queue[0]] + queue[1..]);
        BeginKeeps(s, queue[0], queue[1..]);
      }
    case Coalescing(group) =>
      if queue == [] {
        assert done + group + [] == done + (group + [] + []);
        FinishKeeps(s, group, None, []);
      } else if queue[0].Input? {
        assert done + group + queue == done + (group + [queue[0]]) + queue[1..];
      } else {
        assert done + group + queue == done + (group + [queue[0]] + queue[1..]);
        FinishKeeps(s, group, Some(queue[0]), queue[1..]);
      }
    case Stopped =>
  }

  lemma StepKeepsInv(s: State, st: Step)
    requires Inv(s) && Enabled(s, st)
    ensures Inv(Next(s, st))
  {
    if st.Send? {
      SendKeepsInv(s);
    } else if st.Read? {
      hide Flatten, AllCalls, Group;
      var before := Flatten(s.groups) + InHand(s.sender);
      assert before + s.queue + [st.msg] == before + (s.queue + [st.msg]);
    }
  }

  lemma {:induction false} RunKeepsInv(s: State, steps: seq<Step>)
    requires Inv(s) && Legal(s, steps)
    ensures Inv(Run(s, steps))
    decreases |steps|
  {
    if steps != [] {
      StepKeepsInv(s, steps[0]);
      RunKeepsInv(Next(s, steps[0]), steps[1..]);
    }
  }

  /** For every interleaving and every channel occupancy: what has entered the channel is the groups called for, what
      the sender holds and what is queued, in that order, and the calls are those of the groups. */
  lemma CallsAreJoinedMessages(steps: seq<Step>)
    requires Legal(INIT, steps)
    ensures var s := Run(INIT, steps);
            && s.accepted == Flatten(s.groups) + InHand(s.sender) + s.queue && |s.queue| <= CAPACITY
            && s.trace == AllCalls(s.groups) && forall i :: 0 <= i < |s.groups| ==> Group(s.groups[i])
  {
    RunKeepsInv(INIT, steps);
  }

  // ---- Bytes and their order ----

  /** What the terminal sees, cut as fine as it goes. */
  datatype Atom = Byte(c: char) | Size(cols: int, rows: int) | Killed

  function TypedAtoms(s: string): seq<Atom> {
    seq(|s|, i requires 0 <= i < |s| => Byte(s[i]))
  }

  function MessageAtoms(m: Message): seq<Atom> {
    match m
    case Input(bytes) => TypedAtoms(bytes)
    case Resize(cols, rows) => if cols > 0 && rows > 0 then [Size(cols, rows)] else []
    case Kill => [Killed]
    case Other(_) => []
  }

  function RpcAtoms(r: Rpc): seq<Atom> {
    match r
    case SendInput(data) => TypedAtoms(data)
    case SendResize(cols, rows) => [Size(cols, rows)]
    case SendKill => [Killed]
  }

  /** One call per message, nothing joined: the reference. */
  function Wanted(messages: seq<Message>): seq<Atom> {
    if messages == [] then [] else Wanted(messages[..|messages| - 1]) + MessageAtoms(messages[|messages| - 1])
  }

  function Sent(trace: seq<Rpc>): seq<Atom> {
    if trace == [] then [] else Sent(trace[..|trace| - 1]) + RpcAtoms(trace[|trace| - 1])
  }

  lemma {:induction false} WantedAppend(a: seq<Message>, b: seq<Message>)
    ensures Wanted(a + b) == Wanted(a) + Wanted(b)
    decreases |b|
  {
    if b == [] {
      assert a + b == a;
    } else {
      var front, last := b[..|b| - 1], b[|b| - 1];
      assert (a + b)[..|a + b| - 1] == a + front;
      WantedAppend(a, front);
      hide MessageAtoms;
      Associative(Wanted(a), Wanted(front), MessageAtoms(last));
    }
  }

  lemma {:induction false} SentAppend(a: seq<Rpc>, b: seq<Rpc>)
    ensures Sent(a + b) == Sent(a) + Sent(b)
    decreases |b|
  {
    if b == [] {
      assert a + b == a;
    } else {
      var front, last := b[..|b| - 1], b[|b| - 1];
      assert (a + b)[..|a + b| - 1] == a + front;
      SentAppend(a, front);
      hide RpcAtoms;
      Associative(Sent(a), Sent(front), RpcAtoms(last));
    }
  }

  lemma {:induction false} WantedOfInputs(group: seq<Message>)
    requires forall i :: 0 <= i < |group| ==> group[i].Input?
    ensures Wanted(group) == TypedAtoms(Bytes(group))
  {
    if group != [] {
      var front, last := group[..|group| - 1], group[|group| - 1];
      WantedOfInputs(front);
      assert TypedAtoms(Bytes(front) + last.bytes) == TypedAtoms(Bytes(front)) + TypedAtoms(last.bytes);
    }
  }

  lemma GroupIsFaithful(group: seq<Message>)
    requires Group(group)
    ensures Sent(Calls(group)) == Wanted(group)
  {
    if group[0].Input? {
      WantedOfInputs(group);
      OneCall(SendInput(Bytes(group)));
    } else {
      assert group[..0] == [];
      assert [] + MessageAtoms(group[0]) == MessageAtoms(group[0]);
      if Calls(group) != [] { OneCall(Calls(group)[0]); }
    }
  }

  lemma OneCall(r: Rpc)
    ensures Sent([r]) == RpcAtoms(r)
  {
    assert [r][..0] == [];
    assert [] + RpcAtoms(r) == RpcAtoms(r);
  }

  lemma {:induction false} GroupsAreFaithful(groups: seq<seq<Message>>)
    requires forall i :: 0 <= i < |groups| ==> Group(groups[i])
    ensures Sent(AllCalls(groups)) == Wanted(Flatten(groups))
  {
    if groups != [] {
      var front, last := groups[..|groups| - 1], groups[|groups| - 1];
      GroupsAreFaithful(front);
      GroupIsFaithful(last);
      SentAppend(AllCalls(front), Calls(last));
      WantedAppend(Flatten(front), last);
    }
  }

  /** At every moment the terminal has been sent a prefix, cut between messages, of what one call per accepted
      message would send. */
  lemma OrderIsPreserved(steps: seq<Step>)
    requires Legal(INIT, steps)
    ensures var s := Run(INIT, steps);
            Wanted(s.accepted) == Sent(s.trace) + Wanted(InHand(s.sender)) + Wanted(s.queue)
  {
    var s := Run(INIT, steps);
    RunKeepsInv(INIT, steps);
    GroupsAreFaithful(s.groups);
    WantedAppend(Flatten(s.groups), InHand(s.sender));
    WantedAppend(Flatten(s.groups) + InHand(s.sender), s.queue);
  }

  // ---- After the reader closes the channel ----

  function Left(s: State): nat {
    3 * |s.queue| + match s.sender case Idle(pending) => (if pending.Some? then 4
      else 1) case Coalescing(_) => 2 case Stopped => 0
  }

  function Drained(s: State): (t: State)
    requires s.closed
    ensures t.sender.Stopped?
    decreases Left(s)
  {
    if s.sender.Stopped? then s else Drained(Next(s, Send))
  }

  lemma {:induction false} DrainedKeepsInv(s: State)
    requires s.closed && Inv(s)
    ensures Inv(Drained(s)) && Drained(s).accepted == s.accepted
    decreases Left(s)
  {
    hide Inv;
    if !s.sender.Stopped? {
      SendKeepsInv(s);
      DrainedKeepsInv(Next(s, Send));
    }
  }

  /** Closing the channel loses nothing: the sender still comes to an end, having sent exactly what one call per
      accepted message would, a held control message included. */
  lemma CloseDeliversEverything(steps: seq<Step>)
    requires Legal(INIT, steps) && Run(INIT, steps).closed
    ensures var s := Run(INIT, steps); Sent(Drained(s).trace) == Wanted(s.accepted)
  {
    var s := Run(INIT, steps);
    RunKeepsInv(INIT, steps);
    DrainedKeepsInv(s);
    var t := Drained(s);
    GroupsAreFaithful(t.groups);
    assert Flatten(t.groups) + [] + [] == Flatten(t.groups);
  }

  // ---- The coalescing loop as it runs ----

  class Channel {
    var queue: seq<Message>

    /** The reader puts a frame in, unless the channel is full. */
    method Offer(msg: Message) returns (taken: bool)
      modifies this
      ensures taken == (|old(queue)| < CAPACITY)
      ensures queue == if taken then old(queue) + [msg] else old(queue)
    {
      taken := |queue| < CAPACITY;
      if taken {
        queue := queue + [msg];
      }
    }

    /** `arrivals[i]` is what the reader offers before the i-th look at the channel. */
    method CoalesceInput(buf: string, arrivals: seq<Message>)
      returns (data: string, pending: Option<Message>, ghost taken: seq<Message>, ghost group: seq<Message>)
      requires |queue| <= CAPACITY
      modifies this
      ensures data == buf + Bytes(group) && forall i :: 0 <= i < |group| ==> group[i].Input?
      ensures group + InHand(Idle(pending)) + queue == old(queue) + taken
      ensures pending.Some? ==> !pending.value.Input?
      ensures pending.None? ==> queue == []
    {
      hide Bytes;
      NoBytes();
      data, group, taken := buf, [], [];
      var i := 0;
      assert buf + "" == buf && [] + queue == queue && queue + [] == queue;
      while true
        invariant 0 <= i <= |arrivals| && |queue| <= CAPACITY
        invariant data == buf + Bytes(group) && forall k :: 0 <= k < |group| ==> group[k].Input?
        invariant group + queue == old(queue) + taken
        decreases |arrivals| - i + |arrivals| - i + |queue|
      {
        if i < |arrivals| {
          ghost var was := queue;
          var ok := Offer(arrivals[i]);
          if ok {
            Associative(group, was, [arrivals[i]]);
            Associative(old(queue), taken, [arrivals[i]]);
            taken := taken + [arrivals[i]];
          }
          i := i + 1;
        }
        if queue == [] {
          assert group + [] == group;
          return data, None, taken, group;
        }
        var msg := queue[0];
        Shifted(group, queue);
        queue := queue[1..];
        if !msg.Input? {
          return data, Some(msg), taken, group;
        }
        BytesSnoc(group, msg);
        Associative(buf, Bytes(group), msg.bytes);
        data, group := data + msg.bytes, group + [msg];
      }
    }
  }

  lemma Shifted(group: seq<Message>, queue: seq<Message>)
    requires queue != []
    ensures group + queue == group + [queue[0]] + queue[1..]
  {
  }

  lemma NoBytes()
    ensures Bytes([]) == ""
  {
  }

  lemma BytesSnoc(group: seq<Message>, msg: Message)
    requires msg.Input?
    ensures Bytes(group + [msg]) == Bytes(group) + msg.bytes
  {
    assert (group + [msg])[..|group|] == group;
  }

  // ---- What the reader gets in ----

  /** Everything the reader read. */
  function Reads(steps: seq<Step>): seq<Message> {
    if steps == [] then [] else (if steps[0].Read? then [steps[0].msg] else []) + Reads(steps[1..])
  }

  /** What the reader read while fewer than 64 messages were waiting. */
  ghost function Admitted(s: State, steps: seq<Step>): seq<Message>
    requires Legal(s, steps)
    decreases |steps|
  {
    if steps == [] then []
    else (if steps[0].Read? && |s.queue| < 64 then [steps[0].msg] else []) + Admitted(Next(s, steps[0]), steps[1..])
  }

  /** Over every interleaving, a message enters the channel exactly when fewer than 64 are waiting; messages are dropped
      one by one and never reordered. */
  lemma {:induction false} AcceptedIsAdmitted(s: State, steps: seq<Step>)
    requires Legal(s, steps)
    ensures Run(s, steps).accepted == s.accepted + Admitted(s, steps)
    decreases |steps|
  {
    if steps == [] {
      assert s.accepted + [] == s.accepted;
      return;
    }
    StepAccepts(s, steps[0]);
    AcceptedIsAdmitted(Next(s, steps[0]), steps[1..]);
    hide Next;
    var head := if steps[0].Read? && |s.queue| < 64 then [steps[0].msg] else [];
    Associative(s.accepted, head, Admitted(Next(s, steps[0]), steps[1..]));
  }

  lemma StepAccepts(s: State, st: Step)
    requires Enabled(s, st)
    ensures Next(s, st).accepted == s.accepted + if st.Read? && |s.queue| < 64 then [st.msg] else []
    ensures |Next(s, st).queue| <= |s.queue| + if st.Read? then 1 else 0
  {
    assert s.accepted + [] == s.accepted;
  }

  /** As long as what waits and what is still read come to no more than 64, nothing is dropped. */
  lemma {:induction false} NothingDropped(s: State, steps: seq<Step>)
    requires Legal(s, steps) && |s.queue| + |Reads(steps)| <= 64
    ensures Admitted(s, steps) == Reads(steps)
    decreases |steps|
  {
    if steps != [] {
      StepAccepts(s, steps[0]);
      hide Next;
      NothingDropped(Next(s, steps[0]), steps[1..]);
    }
  }

  /** The channel is closed exactly when the reader has closed it. */
  lemma {:induction false} ClosedIff(s: State, steps: seq<Step>)
    requires Legal(s, steps)
    ensures Run(s, steps).closed <==> s.closed || Close in steps
    decreases |steps|
  {
    if steps != [] {
      ClosedIff(Next(s, steps[0]), steps[1..]);
    }
  }

  /** From the keyboard to the terminal: once the reader has closed the channel, the terminal is sent exactly what was
      admitted, and everything that was read if that was no more than 64 messages. */
  lemma TypedArrives(steps: seq<Step>)
    requires Legal(INIT, steps) && Close in steps
    ensures var s := Run(INIT, steps);
            && s.closed
            && Sent(Drained(s).trace) == Wanted(Admitted(INIT, steps))
            && (|Reads(steps)| <= 64 ==> Sent(Drained(s).trace) == Wanted(Reads(steps)))
  {
    ClosedIff(INIT, steps);
    AcceptedIsAdmitted(INIT, steps);
    assert [] + Admitted(INIT, steps) == Admitted(INIT, steps);
    hide Run, Drained, Sent, Wanted, Admitted, Reads;
    CloseDeliversEverything(steps);
    if |Reads(steps)| <= 64 {
      NothingDropped(INIT, steps);
    }
  }

  /** The reader at work: each message, and then the end. */
  function Typing(messages: seq<Message>): seq<Step> {
    if messages == [] then [Close] else [Read(messages[0])] + Typing(messages[1..])
  }

  lemma {:induction false} TypingIsLegal(s: State, messages: seq<Message>)
    requires !s.closed
    ensures Legal(s, Typing(messages)) && Reads(Typing(messages)) == messages && Close in Typing(messages)
    decreases |messages|
  {
    var steps := Typing(messages);
    if messages == [] {
      assert steps[1..] == [];
      assert Legal(Next(s, Close), []);
    } else {
      var rest := Typing(messages[1..]);
      TypingIsLegal(Next(s, Read(messages[0])), messages[1..]);
      assert steps[1..] == rest && steps == [Read(messages[0])] + rest;
      assert Close in rest ==> Close in steps;
    }
  }

  /** Up to 64 messages typed at once, before the sender takes any, all reach the terminal in order. */
  lemma BurstArrives(messages: seq<Message>)
    requires |messages| <= 64
    ensures Legal(INIT, Typing(messages)) && Run(INIT, Typing(messages)).closed
    ensures Sent(Drained(Run(INIT, Typing(messages))).trace) == Wanted(messages)
  {
    TypingIsLegal(INIT, messages);
    hide *;
    TypedArrives(Typing(messages));
  }
}
