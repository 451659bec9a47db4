/** Outgoing notices (securelog-server/src/webhooks.rs). `send_message`
    posts one message to every stored webhook, in table order; a failed
    post is only logged. The posts themselves are recorded, not sent. */
module ServerWebhooks {
  import opened SqlWebhooks

  /** One chat post: the endpoint, the name it posts under, the text. */
  datatype Post = Post(url: string, username: string, content: string)

  /** The posts one message makes to the given hooks. */
  function Posts(message: string, rows: seq<Webhook>): (ps: seq<Post>)
    ensures |ps| == |rows|
    ensures forall i :: 0 <= i < |rows| ==> ps[i].url == rows[i].url && ps[i].username == rows[i].username
    ensures forall p :: p in ps ==> p.content == message
  {
    if rows == [] then []
    else Posts(message, rows[..|rows| - 1]) + [Post(rows[|rows| - 1].url, rows[|rows| - 1].username, message)]
  }

  /** What has been handed to `send_message` and the posts it made. */
  class Outbox {
    var messages: seq<string>
    var posts: seq<Post>

    constructor ()
      ensures messages == [] && posts == []
    {
      messages := [];
      posts := [];
    }
  }

  /** `send_message`: one message, one post per webhook. Its only error
      is a failing `get_webhooks`, which is not modelled. */
  method SendMessage(message: string, hooks: WebhookStore, outbox: Outbox)
    modifies outbox
    ensures outbox.messages == old(outbox.messages) + [message]
    ensures outbox.posts == old(outbox.posts) + Posts(message, hooks.rows)
  {
    var webhooks := hooks.GetWebhooks();
    outbox.messages := outbox.messages + [message];
    for i := 0 to |webhooks|
      invariant outbox.messages == old(outbox.messages) + [message]
      invariant outbox.posts == old(outbox.posts) + Posts(message, hooks.rows[..i])
    {
      assert hooks.rows[..i + 1][..i] == hooks.rows[..i];
      outbox.posts := outbox.posts + [Post(webhooks[i].url, webhooks[i].username, message)];
    }
    assert hooks.rows[..|webhooks|] == hooks.rows;
  }
}
