/** The message queue through which the entities of a stage talk to each
    other: messages are queued by `SendMessage` and delivered, first in
    first out, by `Process`, each to the stage's nodes it is addressed to
    by its tag.

    An entity's `ReciveMessage` hook is game code; here each call is
    recorded, and what the hook does is the messages it sends back, given
    by `reply`. `Process` reads and writes the same queue (`current` and
    `prev` are one object), so those replies are delivered by the same
    call. */
module MessageQueues {
  import opened Sorting
  import opened Scene

  /** `Message`: the tag of its targets, the message, its values. */
  datatype Message<V> = Message(tag: string, message: string, values: seq<V>)

  /** A `ReciveMessage` call: who received which message. */
  datatype Delivery<V> = Delivery(to: Entity, message: Message<V>)

  /** What a `Process` call did: the deliveries, in order, and the queue it
      left. */
  datatype Processed<V> = Processed(delivered: seq<Delivery<V>>, queue: seq<Message<V>>)

  /** `GetByTag`: the entity has the tag and is enabled. */
  function TagIs(st: seq<EntityState>, tag: string): nat -> bool {
    (p: nat) => p < |st| && st[p].tag == tag && st[p].enabled
  }

  /** The positions of the nodes, with states `st`, that a message with
      `tag` goes to: every node for the empty tag, otherwise the ones
      `GetByTag` accepts. */
  function Addressees(st: seq<EntityState>, tag: string): seq<nat> {
    if tag == "" then Positions(|st|) else Filter<nat>(Positions(|st|), TagIs(st, tag))
  }

  /** A message goes to each node at most once, in stage order: to every
      node, enabled or not, when its tag is empty, and otherwise to exactly
      the enabled nodes with that tag. */
  lemma AddresseesSpec(st: seq<EntityState>, tag: string)
    ensures IndexList(Addressees(st, tag), |st|) && Increasing(Addressees(st, tag))
    ensures forall p: nat :: p in Addressees(st, tag) <==>
      p < |st| && (tag == "" || (st[p].tag == tag && st[p].enabled))
  {
    var ps := Positions(|st|);
    ProjectPositions(st);
    assert Increasing(ps);
    if tag != "" {
      FilterIn(ps, TagIs(st, tag));
      FilterIncreasing(ps, TagIs(st, tag));
      FilterIndexList(ps, TagIs(st, tag), |st|);
      forall p: nat | p < |st| && st[p].tag == tag && st[p].enabled
        ensures p in Addressees(st, tag)
      {
        assert ps[p] == p;
      }
    } else {
      forall p: nat | p < |st| ensures p in ps {
        assert ps[p] == p;
      }
    }
  }

  /** The entities a message with `tag` is delivered to, in order. */
  function Recipients(nodes: seq<Entity>, st: seq<EntityState>, tag: string): seq<Entity>
    requires |st| == |nodes|
  {
    AddresseesSpec(st, tag);
    Project(nodes, Addressees(st, tag))
  }

  /** When no entity occurs twice among the nodes, no entity receives a
      message twice. */
  lemma RecipientsOnce(nodes: seq<Entity>, st: seq<EntityState>, tag: string)
    requires |st| == |nodes| && Distinct(nodes)
    ensures Distinct(Recipients(nodes, st, tag))
  {
    AddresseesSpec(st, tag);
    var a := Addressees(st, tag);
    var r := Recipients(nodes, st, tag);
    forall i, j | 0 <= i < j < |r| ensures r[i] != r[j] {
      assert a[i] < a[j];
    }
  }

  /** The deliveries of `m` to `ts`, in order. */
  function Deliveries<V>(ts: seq<Entity>, m: Message<V>): (r: seq<Delivery<V>>)
    ensures |r| == |ts|
  {
    if ts == [] then [] else Deliveries(ts[..|ts| - 1], m) + [Delivery(ts[|ts| - 1], m)]
  }

  /** Delivery `j` is message `m` to target `j`. */
  lemma {:induction false} DeliveriesAt<V>(ts: seq<Entity>, m: Message<V>)
    ensures forall j :: 0 <= j < |ts| ==> Deliveries(ts, m)[j] == Delivery(ts[j], m)
  {
    if ts != [] {
      var init := ts[..|ts| - 1];
      DeliveriesAt(init, m);
      forall j | 0 <= j < |ts| ensures Deliveries(ts, m)[j] == Delivery(ts[j], m) {
        if j < |init| {
          assert Deliveries(ts, m)[j] == Deliveries(init, m)[j];
        }
      }
    }
  }

  /** The messages the recipients `ts` of `m` send back, in order. */
  function Replies<V>(ts: seq<Entity>, m: Message<V>, reply: (Entity, Message<V>) -> seq<Message<V>>): seq<Message<V>> {
    if ts == [] then [] else Replies(ts[..|ts| - 1], m, reply) + reply(ts[|ts| - 1], m)
  }

  /** The recipients of each tag among `nodes`, with states `st`. */
  function Route(nodes: seq<Entity>, st: seq<EntityState>): string -> seq<Entity>
    requires |st| == |nodes|
  {
    tag => Recipients(nodes, st, tag)
  }

  /** `Process` with at most `fuel` messages taken off the queue, where
      `to` gives the recipients of a tag: the head is dequeued, its
      recipients are fixed, each receives it in turn and its replies join
      the back of the same queue. */
  function Run<V>(queue: seq<Message<V>>, to: string -> seq<Entity>,
                  reply: (Entity, Message<V>) -> seq<Message<V>>, fuel: nat): Processed<V>
    decreases fuel
  {
    if fuel == 0 || queue == [] then Processed([], queue)
    else
      var m := queue[0];
      var rest := Run(queue[1..] + Replies(to(m.tag), m, reply), to, reply, fuel - 1);
      Processed(Deliveries(to(m.tag), m) + rest.delivered, rest.queue)
  }

  /** The deliveries of every message of `q`, in queue order. */
  function AllDeliveries<V>(q: seq<Message<V>>, to: string -> seq<Entity>): seq<Delivery<V>> {
    if q == [] then [] else Deliveries(to(q[0].tag), q[0]) + AllDeliveries(q[1..], to)
  }

  /** The replies to every message of `q`, in the order they are sent. */
  function AllReplies<V>(q: seq<Message<V>>, to: string -> seq<Entity>,
                         reply: (Entity, Message<V>) -> seq<Message<V>>): seq<Message<V>> {
    if q == [] then [] else Replies(to(q[0].tag), q[0], reply) + AllReplies(q[1..], to, reply)
  }

  /** The deliveries `d`, followed by what `p` did. */
  function Then<V>(d: seq<Delivery<V>>, p: Processed<V>): Processed<V> {
    Processed(d + p.delivered, p.queue)
  }

  /** One step of `Process`: the head is delivered, then the rest of the
      queue and the head's replies are processed. */
  lemma RunStep<V>(queue: seq<Message<V>>, tail: seq<Message<V>>, to: string -> seq<Entity>,
                   reply: (Entity, Message<V>) -> seq<Message<V>>, fuel: nat)
    requires queue != [] && fuel > 0
    ensures Run(queue + tail, to, reply, fuel) ==
      Then(Deliveries(to(queue[0].tag), queue[0]),
           Run(queue[1..] + (tail + Replies(to(queue[0].tag), queue[0], reply)), to, reply, fuel - 1))
  {
    var rs := Replies(to(queue[0].tag), queue[0], reply);
    assert (queue + tail)[0] == queue[0];
    assert (queue + tail)[1..] + rs == queue[1..] + (tail + rs);
  }

  /** First in, first out: with fuel for the messages of `q` and `left`
      more, `Process` first delivers each of them, in queue order, then goes
      on with what was behind them (`tail`) followed by the replies they
      caused. */
  lemma {:induction false} RunInOrder<V>(q: seq<Message<V>>, tail: seq<Message<V>>, to: string -> seq<Entity>,
                                         reply: (Entity, Message<V>) -> seq<Message<V>>, fuel: nat, left: nat)
    requires fuel == |q| + left
    ensures Run(q + tail, to, reply, fuel) == Then(AllDeliveries(q, to), Run(tail + AllReplies(q, to, reply), to, reply, left))
  {
    if q == [] {
      assert q + tail == tail && tail + [] == tail;
    } else {
      RunInOrder(q[1..], tail + Replies(to(q[0].tag), q[0], reply), to, reply, fuel - 1, left);
      InOrderStep(q, tail, to, reply, fuel, left);
    }
  }

  /** The inductive step of `RunInOrder`: its claim for `q` follows from
      its claim for the rest of `q`, with the head's replies behind
      `tail`. */
  lemma InOrderStep<V>(q: seq<Message<V>>, tail: seq<Message<V>>, to: string -> seq<Entity>,
                       reply: (Entity, Message<V>) -> seq<Message<V>>, fuel: nat, left: nat)
    requires q != [] && fuel == |q| + left
    requires Run(q[1..] + (tail + Replies(to(q[0].tag), q[0], reply)), to, reply, fuel - 1) ==
      Then(AllDeliveries(q[1..], to), Run(tail + Replies(to(q[0].tag), q[0], reply) + AllReplies(q[1..], to, reply), to, reply, left))
    ensures Run(q + tail, to, reply, fuel) == Then(AllDeliveries(q, to), Run(tail + AllReplies(q, to, reply), to, reply, left))
  {
    RunStep(q, tail, to, reply, fuel);
    ConsReplies(q, tail, to, reply);
    ConsDeliveries(q, to, Run(tail + AllReplies(q, to, reply), to, reply, left).delivered);
  }

  lemma ConsReplies<V>(q: seq<Message<V>>, tail: seq<Message<V>>, to: string -> seq<Entity>,
                       reply: (Entity, Message<V>) -> seq<Message<V>>)
    requires q != []
    ensures tail + Replies(to(q[0].tag), q[0], reply) + AllReplies(q[1..], to, reply) == tail + AllReplies(q, to, reply)
  {
    var rs := Replies(to(q[0].tag), q[0], reply);
    var later := AllReplies(q[1..], to, reply);
    assert AllReplies(q, to, reply) == rs + later;
    Associative(tail, rs, later);
  }

  lemma Associative<T>(a: seq<T>, b: seq<T>, c: seq<T>)
    ensures a + b + c == a + (b + c)
  {
  }

  lemma ConsDeliveries<V>(q: seq<Message<V>>, to: string -> seq<Entity>, after: seq<Delivery<V>>)
    requires q != []
    ensures Deliveries(to(q[0].tag), q[0]) + (AllDeliveries(q[1..], to) + after) == AllDeliveries(q, to) + after
  {
    assert AllDeliveries(q, to) == Deliveries(to(q[0].tag), q[0]) + AllDeliveries(q[1..], to);
  }

  /** When no receiver replies, a `Process` with fuel for the whole queue
      delivers every message in queue order and leaves the queue empty. */
  lemma QuietRun<V>(q: seq<Message<V>>, to: string -> seq<Entity>,
                    reply: (Entity, Message<V>) -> seq<Message<V>>, fuel: nat)
    requires |q| <= fuel
    requires forall e, m :: reply(e, m) == []
    ensures Run(q, to, reply, fuel) == Processed(AllDeliveries(q, to), [])
  {
    RunInOrder(q, [], to, reply, fuel, fuel - |q|);
    assert q + [] == q;
    NoReplies(q, to, reply);
  }

  lemma {:induction false} NoReplies<V>(q: seq<Message<V>>, to: string -> seq<Entity>,
                                        reply: (Entity, Message<V>) -> seq<Message<V>>)
    requires forall e, m :: reply(e, m) == []
    ensures AllReplies(q, to, reply) == []
  {
    if q != [] {
      NoReplies(q[1..], to, reply);
      SilentSender(to(q[0].tag), q[0], reply);
    }
  }

  /** A reply is delivered by the same `Process` call: when the only
      recipient `e` of `m` answers it with `r`, and nobody answers `r`,
      processing `[m]` delivers `m` to `e` and then `r` to its
      recipients, and empties the queue. */
  lemma ReplyInSameCall<V>(m: Message<V>, r: Message<V>, e: Entity, to: string -> seq<Entity>,
                           reply: (Entity, Message<V>) -> seq<Message<V>>)
    requires to(m.tag) == [e]
    requires reply(e, m) == [r] && forall x :: reply(x, r) == []
    ensures Run([m], to, reply, 2) == Processed([Delivery(e, m)] + Deliveries(to(r.tag), r), [])
  {
    assert Replies([e], m, reply) == [r] by {
      assert [e][..0] == [];
    }
    assert Deliveries([e], m) == [Delivery(e, m)] by {
      assert [e][..0] == [];
    }
    SilentSender(to(r.tag), r, reply);
    RunStep([m], [], to, reply, 2);
    assert [m] + [] == [m] && [m][1..] + ([] + [r]) == [r] + [];
    RunStep([r], [], to, reply, 1);
    assert [r] + [] == [r];
    var last := Run([r][1..] + ([] + []), to, reply, 0);
    assert last == Processed([], []);
  }

  /** Nobody answers a message to which `reply` gives no answer. */
  lemma {:induction false} SilentSender<V>(ts: seq<Entity>, m: Message<V>, reply: (Entity, Message<V>) -> seq<Message<V>>)
    requires forall x :: reply(x, m) == []
    ensures Replies(ts, m, reply) == []
  {
    if ts != [] {
      SilentSender(ts[..|ts| - 1], m, reply);
    }
  }

  /** `MessageQueue`: the queue (`prev`, which `Process` also reads as
      `current`), the stage whose nodes receive, and the deliveries made
      so far. */
  class MessageQueue<V> {
    var queue: seq<Message<V>>
    var delivered: seq<Delivery<V>>
    const scene: Stage

    constructor (scene: Stage)
      ensures queue == [] && delivered == [] && this.scene == scene
    {
      this.scene := scene;
      queue := [];
      delivered := [];
    }

    /** `SendMessage`: to the back of the queue. */
    method SendMessage(tag: string, message: string, values: seq<V>)
      modifies this`queue
      ensures queue == old(queue) + [Message(tag, message, values)]
    {
      queue := queue + [Message(tag, message, values)];
    }

    /** `Process`, taking at most `fuel` messages off the queue. */
    method Process(reply: (Entity, Message<V>) -> seq<Message<V>>, fuel: nat)
      modifies this`queue, this`delivered
      ensures delivered == old(delivered) + Run(old(queue), Route(scene.nodes, scene.States()), reply, fuel).delivered
      ensures queue == Run(old(queue), Route(scene.nodes, scene.States()), reply, fuel).queue
    {
      Drain(Route(scene.nodes, scene.States()), reply, fuel);
    }

    /** The loop of `Process`, where `to` gives the recipients of a tag. */
    method Drain(to: string -> seq<Entity>, reply: (Entity, Message<V>) -> seq<Message<V>>, fuel: nat)
      modifies this`queue, this`delivered
      ensures delivered == old(delivered) + Run(old(queue), to, reply, fuel).delivered
      ensures queue == Run(old(queue), to, reply, fuel).queue
    {
      var f := fuel;
      while f > 0 && queue != []
        invariant old(delivered) + Run(old(queue), to, reply, fuel).delivered ==
          delivered + Run(queue, to, reply, f).delivered
        invariant Run(queue, to, reply, f).queue == Run(old(queue), to, reply, fuel).queue
        decreases f
      {
        var read := queue[0];
        ghost var done := delivered;
        queue := queue[1..];
        Deliver(to(read.tag), read, reply);
        f := f - 1;
        Associative(done, Deliveries(to(read.tag), read), Run(queue, to, reply, f).delivered);
      }
    }

    /** Delivers `m` to each of `ts` in turn, queueing each one's replies. */
    method Deliver(ts: seq<Entity>, m: Message<V>, reply: (Entity, Message<V>) -> seq<Message<V>>)
      modifies this`queue, this`delivered
      ensures delivered == old(delivered) + Deliveries(ts, m)
      ensures queue == old(queue) + Replies(ts, m, reply)
    {
      for i := 0 to |ts|
        invariant delivered == old(delivered) + Deliveries(ts[..i], m)
        invariant queue == old(queue) + Replies(ts[..i], m, reply)
      {
        assert ts[..i + 1][..i] == ts[..i];
        delivered := delivered + [Delivery(ts[i], m)];
        queue := queue + reply(ts[i], m);
      }
      assert ts[..|ts|] == ts;
    }
  }
}
