/**
 * The chat window's send answered by the server's store: the calls the
 * window makes are served by `ChatViews.Store`, and each `conversationAPI`
 * wrapper settles the store's reply before the window sees it.
 */
module ClientServer {
  import opened Base
  import opened Text
  import opened Models
  import opened ApiClient
  import opened ChatWindow
  import ChatViews
  import ViewLogic

  /** What `sendMessage` gives the window for a `send_message` reply: the
      AI message's text when the status is ok, the wrapper's error
      otherwise. */
  function SentText(reply: Response<ChatViews.SendReply>): (r: Remote<string>)
    ensures r.Ok? <==> reply.Reply? && 200 <= reply.status < 300
    ensures r.Ok? ==> r.value == reply.body.aiResponse
    ensures r.Err? ==> r.message == Some(FailureText(SendMessage))
  {
    var settled := Settle(SendMessage, reply);
    if settled.Ok? then Ok(settled.value.aiResponse) else Err(settled.message)
  }

  /** `sendMessage` against the store: the exchange is kept exactly when
      the text is not blank by Python's test, and then the wrapper hands
      back the AI text the store kept; otherwise nothing changes. */
  method SendSettled(s: ChatViews.Store, user: UserId, id: ConversationId, text: string,
                     reply: ViewLogic.AiReply, now: Time)
    returns (sent: Remote<string>)
    requires s.Valid() && s.Owns(user, id)
    modifies s
    ensures s.Valid() && s.conversations == old(s.conversations)
    ensures sent.Ok? <==> !IsBlank(text)
    ensures sent.Err? ==> sent.message == Some(FailureText(SendMessage))
    ensures var n := old(s.nextId);
            sent.Ok? ==>
              && s.Thread(id) == old(s.Thread(id)) + [n] + [n + 1]
              && n in s.messages && n + 1 in s.messages
              && s.messages[n].content == text && sent.value == s.messages[n + 1].content
    ensures sent.Err? ==> s.messages == old(s.messages) && s.nextId == old(s.nextId)
  {
    var r := s.SendMessage(user, id, Some(text), reply, now);
    sent := SentText(r);
  }

  /** A send in an open conversation of `user`. The window appends the
      user's message, the store answers, and the window appends one AI
      message. The store keeps the exchange exactly when the text is not
      blank by Python's test, and the window then shows the text the store
      kept; a text only the client's test lets through (an information
      separator, say) is refused, nothing is stored and the window shows
      the apology. */
  method SendInConversation(w: ChatWindowState, s: ChatViews.Store, user: UserId, text: string,
                            reply: ViewLogic.AiReply, now: Time)
    returns (calls: seq<Call>)
    requires w.Valid() && s.Valid() && !w.isLoading && !IsJsBlank(text)
    requires Truthy(w.conversationId) && s.Owns(user, w.conversationId.value)
    modifies w, s
    ensures w.Valid() && s.Valid() && !w.isLoading
    ensures calls == [Send(old(w.conversationId).value, text)]
    ensures |w.messages| == |old(w.messages)| + 2 && w.messages[..|old(w.messages)|] == old(w.messages)
    ensures w.messages[|old(w.messages)|] == ClientMessage(None, User, text)
    ensures var id, n := old(w.conversationId).value, old(s.nextId);
            !IsBlank(text) ==>
              && s.Thread(id) == old(s.Thread(id)) + [n] + [n + 1]
              && n in s.messages && n + 1 in s.messages
              && s.messages[n].content == text
              && w.messages[|old(w.messages)| + 1].content == s.messages[n + 1].content
    ensures IsBlank(text) ==>
              && s.messages == old(s.messages) && s.nextId == old(s.nextId)
              && w.messages[|old(w.messages)| + 1].content == SEND_FALLBACK
  {
    var id := w.conversationId.value;
    var started := w.StartSend(text);
    var sent := SendSettled(s, user, id, text, reply, now);
    var createdId;
    calls, createdId := w.FinishSend(Err(None), sent);
  }

  /** The server's side of a first message: `create` stores an active
      conversation of `user` titled as requested and answers 201 with it,
      then `send_message` to it keeps the exchange exactly when the text is
      not blank by Python's test. */
  method CreateAndSend(s: ChatViews.Store, user: UserId, request: CreateRequest, text: string,
                       id: ConversationId, reply: ViewLogic.AiReply, now: Time)
    returns (created: Remote<ConversationInfo>, sent: Remote<string>)
    requires s.Valid() && id !in s.conversations
    modifies s
    ensures s.Valid()
    ensures created == Ok(ConversationInfo(id, request.title, Some(false), Some([])))
    ensures id in s.conversations && s.conversations[id].owner == user
    ensures s.conversations[id].title == request.title && s.conversations[id].status == ACTIVE
    ensures sent.Ok? <==> !IsBlank(text)
    ensures var n := old(s.nextId);
            !IsBlank(text) ==>
              && s.Thread(id) == [n, n + 1]
              && n in s.messages && n + 1 in s.messages
              && s.messages[n].content == text && sent.value == s.messages[n + 1].content
    ensures IsBlank(text) ==> s.Thread(id) == []
  {
    s.CreateConversation(user, request.title, id, now);
    created := Settle(CreateConversation, Reply(201, ConversationInfo(id, request.title, Some(false), Some([]))));
    sent := SendSettled(s, user, id, text, reply, now);
  }

  /** The first message of a new conversation. The window asks for an
      active conversation titled by `NewTitle`, and the store creates it
      under the fresh `id` with that title and status; the text is then
      sent there. The window reports the new id exactly when the store kept
      the exchange, and then shows the AI text the store kept. */
  method FirstMessage(w: ChatWindowState, s: ChatViews.Store, user: UserId, text: string,
                      id: ConversationId, reply: ViewLogic.AiReply, now: Time)
    returns (calls: seq<Call>, createdId: Option<ConversationId>)
    requires w.Valid() && s.Valid() && !w.isLoading && !IsJsBlank(text)
    requires !Truthy(w.conversationId) && id !in s.conversations
    modifies w, s
    ensures w.Valid() && s.Valid() && !w.isLoading
    ensures calls == [Create(NewTitle(text)), Send(id, text)]
    ensures id in s.conversations && s.conversations[id].owner == user
    ensures s.conversations[id].title == CreateConversationRequest(NewTitle(text)).title
    ensures s.conversations[id].status == CreateConversationRequest(NewTitle(text)).status
    ensures createdId.Some? <==> !IsBlank(text)
    ensures createdId.Some? ==> createdId == Some(id)
    ensures |w.messages| == |old(w.messages)| + 2 && w.messages[|old(w.messages)|] == ClientMessage(None, User, text)
    ensures var n := old(s.nextId);
            !IsBlank(text) ==>
              && s.Thread(id) == [n, n + 1]
              && n in s.messages && n + 1 in s.messages
              && s.messages[n].content == text
              && w.messages[|old(w.messages)| + 1].content == s.messages[n + 1].content
    ensures IsBlank(text) ==> s.Thread(id) == [] && w.messages[|old(w.messages)| + 1].content == SEND_FALLBACK
  {
    var started := w.StartSend(text);
    var created, sent := CreateAndSend(s, user, CreateConversationRequest(NewTitle(text)), text, id, reply, now);
    calls, createdId := w.FinishSend(created, sent);
  }
}
