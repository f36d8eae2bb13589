/**
 * The two records the server stores: a Conversation owned by one user and
 * the Messages that belong to it, with the defaults a new row gets.
 */
module Models {
  import opened Base
  import opened Text

  /** Conversation primary keys are UUIDs the server generates (never edited). */
  type ConversationId = string
  /** Message primary keys are auto-incremented integers. */
  type MessageId = nat
  type UserId = nat
  /** A timestamp, as the text `str(datetime)` renders it. */
  type Time = string

  /** The `choices` of `Message.sender`: only "user" and "ai" are stored. */
  datatype Sender = User | Ai {
    function Name(): string {
      if User? then "user" else "ai"
    }
  }

  const ACTIVE := "active"
  const ENDED := "ended"

  datatype Conversation = Conversation(
    owner: UserId,
    title: string,
    startTime: Time,
    endTime: Option<Time>,
    status: string,
    summary: Option<string>,
    insights: Option<string>,
    shareToken: Option<string>,
    isArchived: bool)

  datatype Message = Message(
    conversation: ConversationId,
    sender: Sender,
    content: string,
    timestamp: Time,
    isBookmarked: bool,
    reactions: Option<seq<string>>,
    parent: Option<MessageId>,
    branchName: Option<string>)

  /** A new Conversation row: status "active", not archived, no end time,
      summary, insights or share token. */
  function NewConversation(owner: UserId, title: string, now: Time): Conversation {
    Conversation(owner, title, now, None, ACTIVE, None, None, None, false)
  }

  /** A new Message row: not bookmarked, reactions the empty list. */
  function NewMessage(conversation: ConversationId, sender: Sender, content: string, now: Time,
                      parent: Option<MessageId>, branchName: Option<string>): Message {
    Message(conversation, sender, content, now, false, Some([]), parent, branchName)
  }

  /** `Message.__str__`: the sender, ": ", then at most the first 30
      characters of the content. */
  function MessageLabel(m: Message): (r: string)
    ensures |r| == |m.sender.Name()| + 2 + Min(|m.content|, 30)
    ensures r[..|m.sender.Name()| + 2] == m.sender.Name() + ": "
    ensures r[|m.sender.Name()| + 2..] <= m.content
  {
    m.sender.Name() + ": " + Take(m.content, 30)
  }
}
