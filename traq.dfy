/**
 * The traQ message client, reduced to a log of the posts attempted, in order. Whether a post is
 * delivered, and the id traQ gives a new message, come from outside as a `Reply`.
 */
module Traq {
  import opened Wrappers
  import opened Kernel

  datatype Post = Create(message: NewMessage) | Edit(update: UpdateMessage)

  /** traQ's answer to one post. */
  datatype Reply = Delivered(messageId: Id) | Failed

  datatype TraqError = TraqUnexpected

  /** The answer a `create` call gets: the new message's id, or an error. */
  function Created(reply: Reply): (r: Result<Id, TraqError>)
    ensures r.Ok? <==> reply.Delivered?
    ensures r.Ok? ==> r.value == reply.messageId
  {
    match reply
    case Delivered(id) => Ok(id)
    case Failed => Err(TraqUnexpected)
  }

  class MessageClient {
    /** Every post attempted so far, delivered or not. */
    var sent: seq<Post>

    constructor ()
      ensures sent == []
    {
      sent := [];
    }

    method Create(m: NewMessage, reply: Reply) returns (r: Result<Id, TraqError>)
      modifies this
      ensures sent == old(sent) + [Post.Create(m)]
      ensures r == Created(reply)
    {
      sent := sent + [Post.Create(m)];
      r := Created(reply);
    }

    method Update(m: UpdateMessage, reply: Reply) returns (r: Result<(), TraqError>)
      modifies this
      ensures sent == old(sent) + [Edit(m)]
      ensures r.Ok? <==> reply.Delivered?
    {
      sent := sent + [Edit(m)];
      r := if reply.Delivered? then Ok(()) else Err(TraqUnexpected);
    }
  }
}
