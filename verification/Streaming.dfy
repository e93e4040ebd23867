/** The hub that fans stored events out to live clients over bounded channels. */
module Streaming {
  import opened Events
  import opened Sums

  const BUFFER := 256

  /** A client's channel: what is buffered in it and whether it has been closed. */
  datatype Channel = Channel(buffer: seq<Event>, closed: bool)

  /** The channels ever made, by client id, and the ids now registered. */
  datatype Hub = Hub(nextId: nat, clients: set<nat>, channels: map<nat, Channel>)

  const NEW_HUB := Hub(0, {}, map[])

  /** Registered channels are open, all others closed, and ids are handed out in order. */
  predicate Valid(h: Hub) {
    && h.clients <= h.channels.Keys
    && (forall id | id in h.channels :: id < h.nextId)
    && (forall id | id in h.channels :: h.channels[id].closed <==> id !in h.clients)
    && (forall id | id in h.channels :: |h.channels[id].buffer| <= BUFFER)
  }

  function Subscribed(h: Hub): Hub {
    Hub(h.nextId + 1, h.clients + {h.nextId}, h.channels[h.nextId := Channel([], false)])
  }

  function Unsubscribed(h: Hub, id: nat): Hub {
    if id in h.clients && id in h.channels
    then Hub(h.nextId, h.clients - {id}, h.channels[id := h.channels[id].(closed := true)])
    else h
  }

  /** A send that does not wait: a full buffer loses the event. */
  function Offered(ch: Channel, e: Event): Channel {
    if |ch.buffer| < BUFFER then ch.(buffer := ch.buffer + [e]) else ch
  }

  function Published(h: Hub, e: Event): Hub {
    h.(channels := map id | id in h.channels ::
         if id in h.clients then Offered(h.channels[id], e) else h.channels[id])
  }

  /** A client takes the oldest buffered event, also from a channel closed meanwhile. */
  function Taken(h: Hub, id: nat): (Hub, Option<Event>) {
    if id in h.channels && h.channels[id].buffer != [] then
      var ch := h.channels[id];
      (h.(channels := h.channels[id := ch.(buffer := ch.buffer[1..])]), Some(ch.buffer[0]))
    else (h, None)
  }

  class StreamHub {
    var nextId: nat
    var clients: set<nat>
    var channels: map<nat, Channel>

    function View(): Hub
      reads this
    {
      Hub(nextId, clients, channels)
    }

    constructor ()
      ensures View() == NEW_HUB && Valid(View())
    {
      nextId, clients, channels := 0, {}, map[];
    }

    /** The new client's id has never been used before. */
    method Subscribe() returns (id: nat)
      requires Valid(View())
      modifies this
      ensures Valid(View()) && View() == Subscribed(old(View()))
      ensures id == old(nextId) && id !in old(channels) && channels[id] == Channel([], false)
    {
      id := nextId;
      nextId := nextId + 1;
      channels := channels[id := Channel([], false)];
      clients := clients + {id};
    }

    method Unsubscribe(id: nat)
      requires Valid(View())
      modifies this
      ensures Valid(View()) && View() == Unsubscribed(old(View()), id)
    {
      if id in clients {
        clients := clients - {id};
        channels := channels[id := channels[id].(closed := true)];
      }
    }

    /** Sending on a closed channel would end the program, hence the requirement. */
    method TrySend(id: nat, e: Event)
      requires id in channels && !channels[id].closed
      modifies this`channels
      ensures channels == old(channels)[id := Offered(old(channels)[id], e)]
    {
      if |channels[id].buffer| < BUFFER {
        channels := channels[id := channels[id].(buffer := channels[id].buffer + [e])];
      }
    }

    /** Visits the clients in an arbitrary order. */
    method Publish(e: Event)
      requires Valid(View())
      modifies this`channels
      ensures Valid(View()) && View() == Published(old(View()), e)
    {
      var left := clients;
      while left != {}
        invariant left <= clients
        invariant Valid(View())
        invariant channels.Keys == old(channels).Keys
        invariant forall id | id in channels ::
                    channels[id] == if id in clients && id !in left then Offered(old(channels)[id], e)
                                    else old(channels)[id]
        decreases left
      {
        var id :| id in left;
        TrySend(id, e);
        left := left - {id};
      }
    }

    method Receive(id: nat) returns (e: Option<Event>)
      requires Valid(View())
      modifies this`channels
      ensures Valid(View()) && (View(), e) == Taken(old(View()), id)
    {
      if id in channels && channels[id].buffer != [] {
        var ch := channels[id];
        e := Some(ch.buffer[0]);
        channels := channels[id := ch.(buffer := ch.buffer[1..])];
      } else {
        e := None;
      }
    }
  }

  // ----- runs ---------------------------------------------------------------------

  /** The hub's operations in the order they take effect. Publishing excludes subscribing and unsubscribing, and
      publishes are taken one at a time. */
  datatype HubOp = Subscribe | Unsubscribe(id: nat) | Publish(e: Event) | Receive(id: nat)

  function HubStep(h: Hub, op: HubOp): Hub {
    match op
    case Subscribe => Subscribed(h)
    case Unsubscribe(id) => Unsubscribed(h, id)
    case Publish(e) => Published(h, e)
    case Receive(id) => Taken(h, id).0
  }

  function HubAfter(ops: seq<HubOp>): Hub {
    if ops == [] then NEW_HUB else HubStep(HubAfter(ops[..|ops| - 1]), ops[|ops| - 1])
  }

  function BufferOf(h: Hub, id: nat): seq<Event> {
    if id in h.channels then h.channels[id].buffer else []
  }

  /** The events published while the client was registered. */
  function PublishedTo(ops: seq<HubOp>, id: nat): seq<Event> {
    if ops == [] then []
    else
      var front, op := ops[..|ops| - 1], ops[|ops| - 1];
      PublishedTo(front, id) + if op.Publish? && id in HubAfter(front).clients then [op.e] else []
  }

  /** How many of those found the client's buffer full. */
  function MissedBy(ops: seq<HubOp>, id: nat): nat {
    if ops == [] then 0
    else
      var front, op := ops[..|ops| - 1], ops[|ops| - 1];
      MissedBy(front, id) +
      if op.Publish? && id in HubAfter(front).clients && |BufferOf(HubAfter(front), id)| >= 256 then 1 else 0
  }

  /** The events the client has taken. */
  function ReceivedBy(ops: seq<HubOp>, id: nat): seq<Event> {
    if ops == [] then []
    else
      var front, op := ops[..|ops| - 1], ops[|ops| - 1];
      ReceivedBy(front, id) +
      if op == Receive(id) && BufferOf(HubAfter(front), id) != [] then [BufferOf(HubAfter(front), id)[0]] else []
  }

  lemma HubStepValid(h: Hub, op: HubOp)
    requires Valid(h)
    ensures Valid(HubStep(h, op))
    ensures h.nextId <= HubStep(h, op).nextId && h.channels.Keys <= HubStep(h, op).channels.Keys
  {
  }

  /** In every run the registered channels are open, so no send meets a closed one, and no id is used twice: a
      subscription takes an id larger than any channel's, and channels are never forgotten. */
  lemma {:induction false} HubRunsValid(ops: seq<HubOp>)
    ensures Valid(HubAfter(ops)) && HubAfter(ops).nextId !in HubAfter(ops).channels
  {
    if ops != [] {
      HubRunsValid(ops[..|ops| - 1]);
      HubStepValid(HubAfter(ops[..|ops| - 1]), ops[|ops| - 1]);
    }
  }

  /** What one operation does to one client's buffer. */
  lemma BufferStep(h: Hub, op: HubOp, id: nat)
    requires Valid(h)
    ensures var before, after := BufferOf(h, id), BufferOf(HubStep(h, op), id);
            match op
            case Publish(e) => after == if id in h.clients && |before| < BUFFER then before + [e] else before
            case Receive(other) => after == if other == id && before != [] then before[1..] else before
            case _ => after == before
  {
  }

  ghost predicate Accounts(got: seq<Event>, published: seq<Event>, missed: nat) {
    Subsequence(got, published) && |published| == |got| + missed
  }

  lemma PublishAccounts(received: seq<Event>, buffer: seq<Event>, published: seq<Event>, missed: nat, e: Event)
    requires Accounts(received + buffer, published, missed)
    ensures Accounts(received + (buffer + [e]), published + [e], missed)
    ensures Accounts(received + buffer, published + [e], missed + 1)
  {
    SubsequenceKeep(received + buffer, published, e);
    SubsequenceSkip(received + buffer, published, e);
    assert received + (buffer + [e]) == received + buffer + [e];
  }

  /** What a client has received and what is buffered for it is, in order, part of what was published while it was
      registered; it is short of exactly the events that found 256 buffered. */
  lemma {:induction false} ClientsMissOnlyOverflow(ops: seq<HubOp>, id: nat)
    ensures Accounts(ReceivedBy(ops, id) + BufferOf(HubAfter(ops), id), PublishedTo(ops, id), MissedBy(ops, id))
  {
    if ops != [] {
      var front, op := ops[..|ops| - 1], ops[|ops| - 1];
      ClientsMissOnlyOverflow(front, id);
      HubRunsValid(front);
      ClientStep(HubAfter(front), op, id, ReceivedBy(front, id), PublishedTo(front, id), MissedBy(front, id));
      var h, received := HubAfter(front), ReceivedBy(front, id);
      assert received + [] == received && PublishedTo(front, id) + [] == PublishedTo(front, id);
      assert BufferOf(HubAfter(ops), id) == BufferOf(HubStep(h, op), id);
    }
  }

  lemma ClientStep(h: Hub, op: HubOp, id: nat, received: seq<Event>, published: seq<Event>, missed: nat)
    requires Valid(h) && Accounts(received + BufferOf(h, id), published, missed)
    ensures var buffer, after := BufferOf(h, id), BufferOf(HubStep(h, op), id);
            if op.Publish? && id in h.clients then
              Accounts(received + after, published + [op.e], missed + if |buffer| >= BUFFER then 1 else 0)
            else if op == Receive(id) && buffer != [] then
              Accounts(received + [buffer[0]] + after, published, missed)
            else Accounts(received + after, published, missed)
  {
    BufferStep(h, op, id);
    var buffer := BufferOf(h, id);
    if op.Publish? {
      PublishAccounts(received, buffer, published, missed, op.e);
    } else if op == Receive(id) && buffer != [] {
      assert received + [buffer[0]] + buffer[1..] == received + buffer;
    }
  }

  lemma {:induction false} SubsequenceSameLength<T>(s: seq<T>, t: seq<T>)
    requires Subsequence(s, t)
    ensures |s| <= |t| && (|s| == |t| ==> s == t)
  {
    if s != [] && t != [] {
      var s', t' := s[..|s| - 1], t[..|t| - 1];
      if s[|s| - 1] == t[|t| - 1] && Subsequence(s', t') {
        SubsequenceSameLength(s', t');
      } else {
        SubsequenceSameLength(s, t');
      }
      assert s == s' + [s[|s| - 1]] && t == t' + [t[|t| - 1]];
    }
  }

  /** A client gets everything published while it was registered, in order, if and only if its buffer was never
      full at a publish. */
  lemma ClientGetsAllIffNeverFull(ops: seq<HubOp>, id: nat)
    ensures ReceivedBy(ops, id) + BufferOf(HubAfter(ops), id) == PublishedTo(ops, id) <==> MissedBy(ops, id) == 0
  {
    ClientsMissOnlyOverflow(ops, id);
    SubsequenceSameLength(ReceivedBy(ops, id) + BufferOf(HubAfter(ops), id), PublishedTo(ops, id));
  }
}
