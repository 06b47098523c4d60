/** In-process fan-out of events to connected clients, each behind a bounded buffer. */
module Sse {
  import opened Records

  const BUFFER := 32
  const TWO_64 := 0x1_0000_0000_0000_0000

  datatype SubId = SubId(number: nat)
  datatype Message = Message(kind: string, data: string)
  datatype Event = Event(team: string, msg: Message)

  /** History: a message meant for this client and how full its buffer was when it came. */
  datatype Offer = Offer(msg: Message, queued: nat)

  datatype Subscriber = Subscriber(team: string, admin: bool, buffer: seq<Message>, received: seq<Message>,
    offers: seq<Offer>)

  /** `drawn` are the identifiers taken from the counter whose subscriber is not in the map yet. */
  datatype Broker = Broker(nextId: nat, drawn: set<SubId>, subscribers: map<SubId, Subscriber>)

  const INIT := Broker(0, {}, map[])

  /** Subscribing draws an identifier and, in a second step, enters the subscriber. */
  datatype Op =
    | Draw
    | Register(id: SubId, team: string, admin: bool)
    | Unsubscribe(id: SubId)
    | Dispatch(event: Event)
    | Receive(id: SubId)

  /** The counter is a 64-bit word. */
  function Bump(n: nat): nat {
    (n + 1) % TWO_64
  }

  predicate Wants(team: string, admin: bool, event: Event) {
    admin || team == event.team
  }

  /** A full buffer drops the event; nobody waits. */
  function Push(sub: Subscriber, event: Event): Subscriber {
    if !Wants(sub.team, sub.admin, event) then sub
    else
      sub.(offers := sub.offers + [Offer(event.msg, |sub.buffer|)],
           buffer := if |sub.buffer| < BUFFER then sub.buffer + [event.msg] else sub.buffer)
  }

  function Pop(sub: Subscriber): Subscriber {
    if sub.buffer == [] then sub else sub.(buffer := sub.buffer[1..], received := sub.received + [sub.buffer[0]])
  }

  function PushAll(subs: map<SubId, Subscriber>, event: Event): map<SubId, Subscriber> {
    map id | id in subs :: Push(subs[id], event)
  }

  function Exec(b: Broker, op: Op): Broker {
    match op
    case Draw => b.(nextId := Bump(b.nextId), drawn := b.drawn + {SubId(Bump(b.nextId))})
    case Register(id, team, admin) =>
      b.(drawn := b.drawn - {id}, subscribers := b.subscribers[id := Subscriber(team, admin, [], [], [])])
    case Unsubscribe(id) => b.(subscribers := b.subscribers - {id})
    case Dispatch(event) => b.(subscribers := PushAll(b.subscribers, event))
    case Receive(id) => if id in b.subscribers then b.(subscribers := b.subscribers[id := Pop(b.subscribers[id])])
      else b
  }

  /** Only an identifier that was drawn is entered. */
  predicate Legal(b: Broker, ops: seq<Op>)
    decreases |ops|
  {
    ops == [] || ((ops[0].Register? ==> ops[0].id in b.drawn) && Legal(Exec(b, ops[0]), ops[1..]))
  }

  function Run(b: Broker, ops: seq<Op>): Broker
    decreases |ops|
  {
    if ops == [] then b else Run(Exec(b, ops[0]), ops[1..])
  }

  // ---- What a client has ----

  function Kept(offers: seq<Offer>): seq<Message> {
    if offers == [] then []
    else
      var last := offers[|offers| - 1];
      Kept(offers[..|offers| - 1]) + if last.queued < BUFFER then [last.msg] else []
  }

  function Messages(offers: seq<Offer>): seq<Message> {
    seq(|offers|, i requires 0 <= i < |offers| => offers[i].msg)
  }

  /** Received and buffered messages are, in order, those offered while the buffer had room. */
  ghost predicate Good(sub: Subscriber) {
    && sub.received + sub.buffer == Kept(sub.offers)
    && |sub.buffer| <= BUFFER && forall i :: 0 <= i < |sub.offers| ==> sub.offers[i].queued <= BUFFER
  }

  lemma KeptSnoc(offers: seq<Offer>, o: Offer)
    ensures Kept(offers + [o]) == Kept(offers) + if o.queued < BUFFER then [o.msg] else []
  {
    assert (offers + [o])[..|offers|] == offers;
  }

  lemma PushKeepsGood(sub: Subscriber, event: Event)
    requires Good(sub)
    ensures Good(Push(sub, event))
  {
    if Wants(sub.team, sub.admin, event) {
      KeptSnoc(sub.offers, Offer(event.msg, |sub.buffer|));
      assert sub.received + (sub.buffer + [event.msg]) == sub.received + sub.buffer + [event.msg];
      assert Kept(sub.offers) + [] == Kept(sub.offers);
    }
  }

  lemma PopKeepsGood(sub: Subscriber)
    requires Good(sub)
    ensures Good(Pop(sub))
  {
    if sub.buffer != [] {
      assert sub.received + [sub.buffer[0]] + sub.buffer[1..] == sub.received + sub.buffer;
    }
  }

  ghost predicate AllGood(b: Broker) {
    forall id :: id in b.subscribers ==> Good(b.subscribers[id])
  }

  lemma ExecKeepsGood(b: Broker, op: Op)
    requires AllGood(b)
    ensures AllGood(Exec(b, op))
  {
    hide Good, Push, Pop;
    if op.Register? {
      NewIsGood(op.team, op.admin);
    } else if op.Dispatch? {
      forall id | id in b.subscribers ensures Good(Push(b.subscribers[id], op.event)) {
        PushKeepsGood(b.subscribers[id], op.event);
      }
    } else if op.Receive? && op.id in b.subscribers {
      PopKeepsGood(b.subscribers[op.id]);
    }
  }

  lemma NewIsGood(team: string, admin: bool)
    ensures Good(Subscriber(team, admin, [], [], []))
  {
  }

  /** Over every run, for every client. */
  lemma {:induction false} RunKeepsGood(b: Broker, ops: seq<Op>)
    requires AllGood(b)
    ensures AllGood(Run(b, ops))
    decreases |ops|
  {
    if ops != [] {
      ExecKeepsGood(b, ops[0]);
      RunKeepsGood(Exec(b, ops[0]), ops[1..]);
    }
  }

  // ---- What a client is offered ----

  /** The dispatched events meant for such a client, in order. */
  function Meant(ops: seq<Op>, team: string, admin: bool): seq<Message> {
    if ops == [] then []
    else
      One(ops[0], team, admin) + Meant(ops[1..], team, admin)
  }

  function Draws(ops: seq<Op>): nat {
    if ops == [] then 0 else (if ops[0].Draw? then 1 else 0) + Draws(ops[1..])
  }

  /** The identifier is in use: out of the counter and no longer waiting to be entered. */
  predicate InUse(b: Broker, id: SubId) {
    id in b.subscribers && id !in b.drawn && id.number <= b.nextId
  }

  /** A client that stays subscribed is offered exactly the events of its team, or every event if it is an
      administrator, dispatched since; other clients coming and going, in whatever interleaving, make no difference. */
  lemma {:induction false} OffersAreMeantEvents(b: Broker, ops: seq<Op>, id: SubId)
    requires InUse(b, id) && Legal(b, ops) && Unsubscribe(id) !in ops && b.nextId + Draws(ops) < TWO_64
    ensures id in Run(b, ops).subscribers
    ensures var was, now := b.subscribers[id], Run(b, ops).subscribers[id];
            && now.team == was.team && now.admin == was.admin
            && Messages(now.offers) == Messages(was.offers) + Meant(ops, was.team, was.admin)
    decreases |ops|
  {
    var was := b.subscribers[id];
    if ops == [] {
      assert Messages(was.offers) + [] == Messages(was.offers);
    } else {
      var next := Exec(b, ops[0]);
      OneStepOffers(b, ops[0], id);
      assert Unsubscribe(id) !in ops[1..];
      OffersAreMeantEvents(next, ops[1..], id);
      hide Exec, Messages;
      Associative(Messages(was.offers), One(ops[0], was.team, was.admin), Meant(ops[1..], was.team, was.admin));
    }
  }

  function One(op: Op, team: string, admin: bool): seq<Message> {
    if op.Dispatch? && Wants(team, admin, op.event) then [op.event.msg] else []
  }

  lemma OneStepOffers(b: Broker, op: Op, id: SubId)
    requires InUse(b, id) && op != Unsubscribe(id) && (op.Register? ==> op.id in b.drawn)
    requires b.nextId + (if op.Draw? then 1 else 0) < TWO_64
    ensures InUse(Exec(b, op), id) && Exec(b, op).nextId == b.nextId + (if op.Draw? then 1 else 0)
    ensures var was, now := b.subscribers[id], Exec(b, op).subscribers[id];
            && now.team == was.team && now.admin == was.admin
            && Messages(now.offers) == Messages(was.offers) + One(op, was.team, was.admin)
  {
    var was := b.subscribers[id];
    assert Messages(was.offers) + [] == Messages(was.offers);
    if op.Dispatch? && Wants(was.team, was.admin, op.event) {
      assert Messages(was.offers + [Offer(op.event.msg, |was.buffer|)]) == Messages(was.offers) + [op.event.msg];
    }
  }

  /** A client from the moment it is entered: what it has is an in-order selection of the events meant for it, missing
      only those that found its buffer full. */
  lemma ClientSeesItsEvents(b: Broker, id: SubId, team: string, admin: bool, ops: seq<Op>)
    requires AllGood(b) && id in b.drawn && id.number <= b.nextId
    requires Legal(Exec(b, Register(id, team, admin)), ops) && Unsubscribe(id) !in ops && b.nextId + Draws(ops) < TWO_64
    ensures var t := Run(Exec(b, Register(id, team, admin)), ops);
            && id in t.subscribers && Good(t.subscribers[id])
            && Messages(t.subscribers[id].offers) == Meant(ops, team, admin)
  {
    var start := Exec(b, Register(id, team, admin));
    assert start.nextId == b.nextId && InUse(start, id) && start.subscribers[id] == Subscriber(team, admin, [], [], []);
    hide Good, Exec, Run, Legal, Meant, Draws, InUse;
    ExecKeepsGood(b, Register(id, team, admin));
    RunKeepsGood(start, ops);
    OffersAreMeantEvents(start, ops, id);
    assert [] + Meant(ops, team, admin) == Meant(ops, team, admin);
  }

  // ---- Identifiers ----

  function Ids(b: Broker, ops: seq<Op>): seq<SubId>
    decreases |ops|
  {
    if ops == [] then []
    else (if ops[0].Draw? then [SubId(Bump(b.nextId))] else []) + Ids(Exec(b, ops[0]), ops[1..])
  }

  lemma {:induction false} IdsAreConsecutive(b: Broker, ops: seq<Op>)
    requires b.nextId < TWO_64
    ensures |Ids(b, ops)| == Draws(ops)
    ensures forall k :: 0 <= k < |Ids(b, ops)| ==> Ids(b, ops)[k].number == (b.nextId + 1 + k) % TWO_64
    decreases |ops|
  {
    if ops != [] {
      IdsAreConsecutive(Exec(b, ops[0]), ops[1..]);
    }
  }

  /** No identifier is handed out twice, until the counter has gone all the way round. */
  lemma IdsNeverReusedIff(ops: seq<Op>)
    ensures (forall i, j :: 0 <= i < j < |Ids(INIT, ops)| ==> Ids(INIT, ops)[i] != Ids(INIT, ops)[j])
       <==> Draws(ops) <= TWO_64
  {
    IdsAreConsecutive(INIT, ops);
    var ids := Ids(INIT, ops);
    if Draws(ops) > TWO_64 {
      assert ids[0] == ids[TWO_64];
    }
  }

  // ---- The broker as it runs ----

  class SSEBroker {
    var nextId: nat
    ghost var drawn: set<SubId>
    var subscribers: map<SubId, Subscriber>

    constructor ()
      ensures View() == INIT
    {
      nextId, drawn, subscribers := 0, {}, map[];
    }

    ghost function View(): Broker
      reads this
    {
      Broker(nextId, drawn, subscribers)
    }

    method DrawId() returns (id: SubId)
      modifies this
      ensures View() == Exec(old(View()), Draw) && id.number == nextId
    {
      nextId := (nextId + 1) % TWO_64;
      id := SubId(nextId);
      drawn := drawn + {id};
    }

    method Enter(id: SubId, team: string, admin: bool)
      modifies this
      ensures View() == Exec(old(View()), Register(id, team, admin))
    {
      subscribers := subscribers[id := Subscriber(team, admin, [], [], [])];
      drawn := drawn - {id};
    }

    method Subscribe(team: string, admin: bool) returns (id: SubId)
      modifies this
      ensures id == SubId(Bump(old(nextId)))
      ensures View() == Run(old(View()), [Draw, Register(id, team, admin)])
              && Legal(old(View()), [Draw, Register(id, team, admin)])
    {
      ghost var before := View();
      id := DrawId();
      Enter(id, team, admin);
      TwoOps(before, Draw, Register(id, team, admin));
    }

    method Unsubscribe(id: SubId)
      modifies this
      ensures View() == Exec(old(View()), Op.Unsubscribe(id))
    {
      subscribers := subscribers - {id};
    }

    /** Subscribers are visited in no particular order. */
    method Dispatch(event: Event)
      modifies this
      ensures View() == Exec(old(View()), Op.Dispatch(event))
    {
      var todo := subscribers.Keys;
      while todo != {}
        invariant todo <= subscribers.Keys == old(subscribers.Keys) && nextId == old(nextId) && drawn == old(drawn)
        invariant forall id :: id in subscribers ==>
          subscribers[id] == if id in todo then old(subscribers)[id] else Push(old(subscribers)[id], event)
        decreases |todo|
      {
        var id := Pick(todo);
        todo := todo - {id};
        var sub := subscribers[id];
        if !sub.admin && sub.team != event.team {
          continue;
        }
        if |sub.buffer| < BUFFER {
          subscribers := subscribers[id := sub.(buffer := sub.buffer + [event.msg],
                                                offers := sub.offers + [Offer(event.msg, |sub.buffer|)])];
        } else {
          subscribers := subscribers[id := sub.(offers := sub.offers + [Offer(event.msg, |sub.buffer|)])];
        }
      }
      assert subscribers == PushAll(old(subscribers), event);
    }
  }

  lemma TwoOps(b: Broker, p: Op, q: Op)
    ensures Run(b, [p, q]) == Exec(Exec(b, p), q)
    ensures Legal(b, [p, q]) <==> (p.Register? ==> p.id in b.drawn) && (q.Register? ==> q.id in Exec(b, p).drawn)
  {
    assert [p, q][1..] == [q] && [q][1..] == [];
    assert Run(Exec(Exec(b, p), q), []) == Exec(Exec(b, p), q);
    assert Legal(Exec(Exec(b, p), q), []);
    assert Legal(Exec(b, p), [q]) <==> (q.Register? ==> q.id in Exec(b, p).drawn);
  }

  // ---- One client among many ----

  function ClientOf(b: Broker, id: SubId): Option<Subscriber> {
    if id in b.subscribers then Some(b.subscribers[id]) else None
  }

  /** What an operation makes of one client, from that client alone: it enters empty, leaves for good, is offered
      exactly the events of its team, or all of them if it is an administrator, keeps those that find fewer than 32
      buffered, and receives the oldest. */
  function ClientAfter(client: Option<Subscriber>, op: Op, id: SubId): Option<Subscriber> {
    match op
    case Register(other, team, admin) => if other == id then Some(Subscriber(team, admin, [], [], [])) else client
    case Unsubscribe(other) => if other == id then None else client
    case Dispatch(event) =>
      if client.None? || !(client.value.admin || client.value.team == event.team) then client
      else
        var sub := client.value;
        Some(Subscriber(sub.team, sub.admin, if |sub.buffer| < 32 then sub.buffer + [event.msg] else sub.buffer,
                        sub.received, sub.offers + [Offer(event.msg, |sub.buffer|)]))
    case Receive(other) =>
      if other != id || client.None? || client.value.buffer == [] then client
      else
        var sub := client.value;
        Some(Subscriber(sub.team, sub.admin, sub.buffer[1..], sub.received + [sub.buffer[0]], sub.offers))
    case Draw => client
  }

  lemma ClientStep(b: Broker, op: Op, id: SubId)
    ensures ClientOf(Exec(b, op), id) == ClientAfter(ClientOf(b, id), op, id)
  {
  }

  function ClientRun(client: Option<Subscriber>, ops: seq<Op>, id: SubId): Option<Subscriber>
    decreases |ops|
  {
    if ops == [] then client else ClientRun(ClientAfter(client, ops[0], id), ops[1..], id)
  }

  /** What a client has after any run follows from its own part in it: no other client, however slow, matters. */
  lemma {:induction false} ClientAlone(b: Broker, ops: seq<Op>, id: SubId)
    ensures ClientOf(Run(b, ops), id) == ClientRun(ClientOf(b, id), ops, id)
    decreases |ops|
  {
    hide Exec, ClientAfter, ClientOf;
    if ops != [] {
      ClientStep(b, ops[0], id);
      ClientAlone(Exec(b, ops[0]), ops[1..], id);
    }
  }

  /** A client that has left stays away: until its identifier is entered again, nothing brings it back. */
  lemma LeftForGood(b: Broker, id: SubId, ops: seq<Op>)
    requires forall i :: 0 <= i < |ops| ==> !(ops[i].Register? && ops[i].id == id)
    ensures id !in Run(Exec(b, Unsubscribe(id)), ops).subscribers
  {
    ClientStep(b, Unsubscribe(id), id);
    StaysAway(Exec(b, Unsubscribe(id)), id, ops);
  }

  lemma {:induction false} StaysAway(b: Broker, id: SubId, ops: seq<Op>)
    requires id !in b.subscribers && forall i :: 0 <= i < |ops| ==> !(ops[i].Register? && ops[i].id == id)
    ensures id !in Run(b, ops).subscribers
    decreases |ops|
  {
    if ops != [] {
      ClientStep(b, ops[0], id);
      StaysAway(Exec(b, ops[0]), id, ops[1..]);
    }
  }

  /** A client that keeps up: when it receives all it has buffered, it has received everything it was offered that found
      fewer than 32 waiting, in order. */
  lemma {:induction false} CatchesUp(b: Broker, id: SubId)
    requires AllGood(b) && id in b.subscribers
    ensures var n := |b.subscribers[id].buffer|;
            var t := Run(b, seq(n, i => Receive(id)));
            && id in t.subscribers && t.subscribers[id].buffer == []
            && t.subscribers[id].received == Kept(b.subscribers[id].offers)
            && t.subscribers[id].offers == b.subscribers[id].offers
    decreases |b.subscribers[id].buffer|
  {
    var sub := b.subscribers[id];
    var ops := seq(|sub.buffer|, i => Receive(id));
    if sub.buffer == [] {
      assert sub.received + [] == sub.received;
    } else {
      ClientStep(b, Receive(id), id);
      ExecKeepsGood(b, Receive(id));
      var next := Exec(b, Receive(id));
      assert ops[1..] == seq(|sub.buffer| - 1, i => Receive(id));
      hide Exec, Good, Kept;
      CatchesUp(next, id);
    }
  }

  /** Subscribing enters a client with nothing buffered under the next number, modulo 2^64, and leaves every other
      client alone. */
  lemma SubscribeIsTwoSteps(b: Broker, team: string, admin: bool)
    ensures var id := SubId((b.nextId + 1) % 0x1_0000_0000_0000_0000);
            var ops := [Draw, Register(id, team, admin)];
            && Legal(b, ops) && Run(b, ops).nextId == id.number && id !in Run(b, ops).drawn
            && ClientOf(Run(b, ops), id) == Some(Subscriber(team, admin, [], [], []))
            && forall other :: other != id ==> ClientOf(Run(b, ops), other) == ClientOf(b, other)
  {
    var id := SubId((b.nextId + 1) % 0x1_0000_0000_0000_0000);
    TwoOps(b, Draw, Register(id, team, admin));
  }
}
