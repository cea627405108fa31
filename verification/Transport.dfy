/** The gateway's object: the table of pending calls under its lock, and what the reader does with
    one message. The interleaving of these is in ReplyDelivery. */
module Transport {

  import opened Wrappers
  import opened Routing
  import CommandBus

  type Reply = CommandBus.Reply

  /** A channel of capacity one. */
  class Channel {
    var buffer: seq<Reply>

    constructor ()
      ensures buffer == []
    {
      buffer := [];
    }

    /** Sending without blocking: what does not fit is dropped. */
    method Offer(reply: Reply) returns (taken: bool)
      requires |buffer| <= 1
      modifies this
      ensures taken == (old(buffer) == [])
      ensures buffer == if taken then [reply] else old(buffer)
    {
      taken := |buffer| < 1;
      if taken {
        buffer := buffer + [reply];
      }
    }
  }

  class Gateway {
    const hash: string -> Uuid
    const replica: string
    var pending: map<Uuid, Channel>

    /** Every pending call has a channel of its own, holding at most a reply to that call. */
    ghost predicate Valid()
      reads this, pending.Values
    {
      && (forall a, b :: a in pending && b in pending && a != b ==> pending[a] != pending[b])
      && (forall id :: id in pending ==> |pending[id].buffer| <= 1 && forall r :: r in pending[id].buffer ==> r.id == id)
    }

    /** What the calls would receive now. */
    ghost function Inbox(): map<Uuid, seq<Reply>>
      reads this, pending.Values
    {
      map id | id in pending :: pending[id].buffer
    }

    constructor (hash: string -> Uuid, replica: string)
      ensures Valid() && pending == map[] && this.hash == hash && this.replica == replica
    {
      this.hash, this.replica, pending := hash, replica, map[];
    }

    /** The start of Send, for a command with a new id. */
    method Register(id: Uuid) returns (channel: Channel)
      requires Valid() && id !in pending
      modifies this
      ensures Valid() && fresh(channel) && pending == old(pending)[id := channel]
      ensures Inbox() == old(Inbox())[id := []]
    {
      channel := new Channel();
      pending := pending[id := channel];
    }

    /** The end of Send, however it ended. */
    method Forget(id: Uuid)
      requires Valid()
      modifies this
      ensures Valid() && pending == old(pending) - {id} && Inbox() == old(Inbox()) - {id}
    {
      pending := pending - {id};
    }

    /** One message of the replies topic: only a reply addressed here, to a call still pending, whose
        channel is empty, changes anything, and then only that channel. */
    method Dispatch(key: Uuid, reply: Option<Reply>)
      requires Valid()
      modifies pending.Values
      ensures Valid() && pending == old(pending)
      ensures Inbox() ==
                if key == ReplyKey(hash, replica) && reply.Some? && reply.value.id in old(Inbox()) && old(Inbox())[reply.value.id] == []
                then old(Inbox())[reply.value.id := [reply.value]] else old(Inbox())
    {
      if key != ReplyKey(hash, replica) || reply.None? {
        return;
      }
      if reply.value.id in pending {
        var channel := pending[reply.value.id];
        var taken := channel.Offer(reply.value);
      }
    }

    /** Any number of messages, in order: a call ends up with the first reply to it. */
    method DispatchAll(messages: seq<(Uuid, Option<Reply>)>)
      requires Valid() && forall id :: id in pending ==> pending[id].buffer == []
      modifies pending.Values
      ensures Valid() && pending == old(pending)
      ensures forall id :: id in pending ==> pending[id].buffer == FirstTo(ReplyKey(hash, replica), id, messages)
    {
      for i := 0 to |messages|
        invariant Valid() && pending == old(pending)
        invariant forall id :: id in pending ==> pending[id].buffer == FirstTo(ReplyKey(hash, replica), id, messages[..i])
      {
        assert messages[..i + 1][..i] == messages[..i];
        ghost var before := Inbox();
        Dispatch(messages[i].0, messages[i].1);
        forall id | id in pending ensures pending[id].buffer == FirstTo(ReplyKey(hash, replica), id, messages[..i + 1]) {
          assert pending[id].buffer == Inbox()[id] && before[id] == FirstTo(ReplyKey(hash, replica), id, messages[..i]);
        }
      }
      assert messages[..|messages|] == messages;
    }
  }

  /** The first of the messages that is a reply to a call, as a channel's contents. */
  function FirstTo(key: Uuid, id: Uuid, messages: seq<(Uuid, Option<Reply>)>): (r: seq<Reply>)
    ensures |r| <= 1
    ensures r == [] <==> forall m :: m in messages ==> !(m.0 == key && m.1.Some? && m.1.value.id == id)
    ensures r != [] ==> r[0].id == id && (key, Some(r[0])) in messages
  {
    if messages == [] then []
    else
      var last, before := messages[|messages| - 1], messages[..|messages| - 1];
      assert messages == before + [last];
      var r := FirstTo(key, id, before);
      if r == [] && last.0 == key && last.1.Some? && last.1.value.id == id then [last.1.value] else r
  }
}
