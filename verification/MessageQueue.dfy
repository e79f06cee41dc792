// A Redis stream read by one consumer group (internal/pkg/messagequeue/redis_mq.go).
module MessageQueue {
  import opened FanoutTasks
  import opened Wrappers

  // A message is identified by its place in the stream.
  datatype Message = Message(id: nat, values: Values)

  // Messages below the cursor were delivered; those of them not acknowledged are pending.
  datatype Group = Group(stream: seq<Values>, cursor: nat, pending: set<nat>, acked: set<nat>) {
    function Appended(values: Values): Group {
      this.(stream := stream + [values])
    }

    // XREADGROUP ">" with count 1.
    function Delivered(): Group {
      if cursor < |stream| then this.(cursor := cursor + 1, pending := pending + {cursor}) else this
    }

    // XACK of a message that is not pending does nothing.
    function Acknowledged(id: nat): Group {
      if id in pending then this.(pending := pending - {id}, acked := acked + {id}) else this
    }
  }

  const EMPTY_GROUP := Group([], 0, {}, {})

  class RedisMQ {
    var group: Group

    constructor ()
      ensures group == EMPTY_GROUP
    {
      group := EMPTY_GROUP;
    }

    method Enqueue(values: Values)
      modifies this
      ensures group == old(group).Appended(values)
    {
      group := group.(stream := group.stream + [values]);
    }

    // New messages only: one that was delivered before is never delivered again.
    method Dequeue() returns (message: Option<Message>)
      modifies this
      ensures group == old(group).Delivered()
      ensures message ==
        if old(group).cursor < |old(group).stream|
        then Some(Message(old(group).cursor, old(group).stream[old(group).cursor]))
        else None
    {
      if group.cursor >= |group.stream| {
        return None;
      }
      message := Some(Message(group.cursor, group.stream[group.cursor]));
      group := group.Delivered();
    }

    method Ack(id: nat)
      modifies this
      ensures group == old(group).Acknowledged(id)
    {
      group := group.Acknowledged(id);
    }
  }
}
