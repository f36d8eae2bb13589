/**
 * The chat window's controller: the local message list it keeps in step
 * with the server, the optimistic send (create the conversation first when
 * there is none), the wholesale reload, and ending a conversation.
 *
 * Each awaited API call is a parameter holding what that call resolves to;
 * a handler that never reaches a call ignores its parameter. The calls a
 * handler makes are returned in order. A send is split at its await: the
 * `StartSend` half runs when the user sends, the `FinishSend` half when the
 * calls have resolved, and anything may happen in between.
 */
module ChatWindow {
  import opened Base
  import opened Text
  import opened Models
  import opened ApiClient
  import opened ChatInput

  const SEND_FALLBACK := "Sorry, I encountered an error. Please try again."
  const END_FAILED := "Failed to end conversation. Please try again."

  /** A remote call as the chat window makes it. */
  datatype Call =
    | Fetch(id: ConversationId)
    | Create(title: string)
    | Send(id: ConversationId, text: string)
    | EndCall(id: ConversationId)

  /** A send that has started and not yet finished: the text and the
      conversation id the handler read when it started. */
  datatype PendingSend = PendingSend(text: string, target: Option<ConversationId>)

  /** The title of a conversation created by its first message: its first
      50 characters, with "..." exactly when it is longer. */
  function NewTitle(text: string): (r: string)
    ensures |text| <= 50 ==> r == text
    ensures |text| > 50 ==> |r| == 53 && r[..50] == text[..50] && r[50..] == "..."
  {
    Take(text, 50) + (if |text| > 50 then "..." else "")
  }

  /** The AI message shown for a send: the reply, or the fixed apology
      when any call of the send failed. */
  function AiMessage(sent: Remote<string>): (r: ClientMessage)
    ensures r.id.None? && r.sender == Ai
    ensures r.content == if sent.Ok? then sent.value else SEND_FALLBACK
  {
    ClientMessage(None, Ai, if sent.Ok? then sent.value else SEND_FALLBACK)
  }

  class ChatWindowState {
    /** The `conversationId` prop. */
    var conversationId: Option<ConversationId>
    var messages: seq<ClientMessage>
    var isLoading: bool
    /** The send in flight, if any (the handler's own locals). */
    var sending: Option<PendingSend>
    var showEndDialog: bool
    var isEnding: bool
    var showSuccessDialog: bool
    var showErrorDialog: bool
    var errorMessage: string
    /** 2000 ms timers started by successful ends that have not fired. */
    var endTimers: nat

    /** `isLoading` is set exactly while a send is in flight. */
    ghost predicate Valid()
      reads this
    {
      isLoading <==> sending.Some?
    }

    constructor (id: Option<ConversationId>)
      ensures Valid()
      ensures conversationId == id && messages == [] && !isLoading && sending.None?
      ensures !showEndDialog && !isEnding && !showSuccessDialog && !showErrorDialog
      ensures errorMessage == "" && endTimers == 0
    {
      conversationId, messages, isLoading, sending := id, [], false, None;
      showEndDialog, isEnding, showSuccessDialog, showErrorDialog := false, false, false, false;
      errorMessage, endTimers := "", 0;
    }

    /** The effect on `conversationId`: a present id asks for a load (its
        result arrives through `LoadConversation`); null clears the list. */
    method ConversationIdChanged(id: Option<ConversationId>) returns (load: Option<ConversationId>)
      modifies this
      ensures conversationId == id
      ensures Truthy(id) ==> load == Some(id.value) && messages == old(messages)
      ensures !Truthy(id) ==> load.None? && messages == []
      ensures isLoading == old(isLoading) && sending == old(sending)
      ensures showEndDialog == old(showEndDialog) && isEnding == old(isEnding)
      ensures showSuccessDialog == old(showSuccessDialog) && showErrorDialog == old(showErrorDialog)
      ensures errorMessage == old(errorMessage) && endTimers == old(endTimers)
    {
      conversationId := id;
      if Truthy(id) {
        load := Some(id.value);
      } else {
        load := None;
        messages := [];
      }
    }

    /** `loadConversation`: the list is replaced wholesale when the fetched
        conversation has messages, and kept otherwise (also on failure).
        Nothing checks that `id` is still the current conversation. */
    method LoadConversation(id: ConversationId, result: Remote<ConversationInfo>) returns (calls: seq<Call>)
      modifies this
      ensures calls == [Fetch(id)]
      ensures result.Ok? && result.value.messages.Some? ==> messages == result.value.messages.value
      ensures !(result.Ok? && result.value.messages.Some?) ==> messages == old(messages)
      ensures conversationId == old(conversationId)
      ensures isLoading == old(isLoading) && sending == old(sending)
      ensures showEndDialog == old(showEndDialog) && isEnding == old(isEnding)
      ensures showSuccessDialog == old(showSuccessDialog) && showErrorDialog == old(showErrorDialog)
      ensures errorMessage == old(errorMessage) && endTimers == old(endTimers)
    {
      calls := [Fetch(id)];
      if result.Ok? && result.value.messages.Some? {
        messages := result.value.messages.value;
      }
    }

    /** `handleSend` up to its first await: nothing happens for blank text
        or while a send is in flight; otherwise the user's message (with no
        id) is appended at once and `isLoading` is set. */
    method StartSend(text: string) returns (started: bool)
      requires Valid()
      modifies this
      ensures Valid()
      ensures started <==> !IsJsBlank(text) && !old(isLoading)
      ensures !started ==> unchanged(this)
      ensures started ==>
                && messages == old(messages) + [ClientMessage(None, User, text)]
                && isLoading && sending == Some(PendingSend(text, conversationId))
                && conversationId == old(conversationId)
                && showEndDialog == old(showEndDialog) && isEnding == old(isEnding)
                && showSuccessDialog == old(showSuccessDialog) && showErrorDialog == old(showErrorDialog)
                && errorMessage == old(errorMessage) && endTimers == old(endTimers)
    {
      if IsJsBlank(text) || isLoading {
        return false;
      }
      messages := messages + [ClientMessage(None, User, text)];
      isLoading := true;
      sending := Some(PendingSend(text, conversationId));
      started := true;
    }

    /** `handleSend` after its awaits. With an id, the text is sent there.
        Without one, exactly one conversation is created (titled by
        `NewTitle`) and the text is sent to it; a failed create sends
        nothing. One AI message (the reply or the apology) is appended, and
        `createdId` carries the new id for `onConversationCreated` only when
        both calls succeeded. `isLoading` ends false on every path. */
    method FinishSend(created: Remote<ConversationInfo>, sent: Remote<string>)
      returns (calls: seq<Call>, createdId: Option<ConversationId>)
      requires Valid() && sending.Some?
      modifies this
      ensures Valid() && !isLoading
      ensures var p := old(sending.value);
              && (Truthy(p.target) ==>
                    calls == [Send(p.target.value, p.text)] && createdId.None? &&
                    messages == old(messages) + [AiMessage(sent)])
              && (!Truthy(p.target) && created.Err? ==>
                    calls == [Create(NewTitle(p.text))] && createdId.None? &&
                    messages == old(messages) + [AiMessage(Err(None))])
              && (!Truthy(p.target) && created.Ok? ==>
                    calls == [Create(NewTitle(p.text)), Send(created.value.id, p.text)] &&
                    createdId == (if sent.Ok? then Some(created.value.id) else None) &&
                    messages == old(messages) + [AiMessage(sent)])
      ensures conversationId == old(conversationId)
      ensures showEndDialog == old(showEndDialog) && isEnding == old(isEnding)
      ensures showSuccessDialog == old(showSuccessDialog) && showErrorDialog == old(showErrorDialog)
      ensures errorMessage == old(errorMessage) && endTimers == old(endTimers)
    {
      var p := sending.value;
      createdId := None;
      if Truthy(p.target) {
        calls := [Send(p.target.value, p.text)];
        messages := messages + [AiMessage(sent)];
      } else {
        calls := [Create(NewTitle(p.text))];
        if created.Err? {
          messages := messages + [AiMessage(Err(None))];
        } else {
          var id := created.value.id;
          calls := calls + [Send(id, p.text)];
          messages := messages + [AiMessage(sent)];
          if sent.Ok? {
            createdId := Some(id);
          }
        }
      }
      sending := None;
      isLoading := false;
    }

    /** A whole send with nothing in between its halves: either nothing
        happens, or the list grows by exactly the user's message and then
        one AI message, and `isLoading` is false again. */
    method HandleSend(text: string, created: Remote<ConversationInfo>, sent: Remote<string>)
      returns (calls: seq<Call>, createdId: Option<ConversationId>)
      requires Valid()
      modifies this
      ensures Valid() && isLoading == old(isLoading)
      ensures IsJsBlank(text) || old(isLoading) ==> unchanged(this) && calls == [] && createdId.None?
      ensures !IsJsBlank(text) && !old(isLoading) ==>
                && |messages| == |old(messages)| + 2
                && messages[..|old(messages)|] == old(messages)
                && messages[|old(messages)|] == ClientMessage(None, User, text)
                && messages[|old(messages)| + 1] == AiMessage(if Truthy(old(conversationId)) || created.Ok? then sent else Err(None))
                && (createdId.Some? <==> !Truthy(old(conversationId)) && created.Ok? && sent.Ok?)
                && (createdId.Some? ==> createdId == Some(created.value.id))
                && (Truthy(old(conversationId)) ==> calls == [Send(old(conversationId).value, text)])
                && (!Truthy(old(conversationId)) ==>
                      calls == [Create(NewTitle(text))] + (if created.Ok? then [Send(created.value.id, text)] else []))
      ensures conversationId == old(conversationId)
    {
      var started := StartSend(text);
      if !started {
        return [], None;
      }
      calls, createdId := FinishSend(created, sent);
    }

    /** `handleEndConversation`: nothing without an id. A successful end
        closes the confirmation dialog, shows the success dialog, reloads
        the list and starts the timer that later reports the end. A failed
        end closes the dialog, shows the fixed error text and keeps the
        list. `isEnding` is false afterwards on both paths. */
    method HandleEndConversation(ended: Remote<()>, reloaded: Remote<ConversationInfo>) returns (calls: seq<Call>)
      requires !isEnding
      modifies this
      ensures !isEnding
      ensures !Truthy(old(conversationId)) ==> unchanged(this) && calls == []
      ensures Truthy(old(conversationId)) && ended.Ok? ==>
                var id := old(conversationId).value;
                && calls == [EndCall(id), Fetch(id)]
                && !showEndDialog && showSuccessDialog
                && endTimers == old(endTimers) + 1
                && (reloaded.Ok? && reloaded.value.messages.Some? ==> messages == reloaded.value.messages.value)
                && (!(reloaded.Ok? && reloaded.value.messages.Some?) ==> messages == old(messages))
                && showErrorDialog == old(showErrorDialog) && errorMessage == old(errorMessage)
      ensures Truthy(old(conversationId)) && ended.Err? ==>
                && calls == [EndCall(old(conversationId).value)]
                && !showEndDialog && showErrorDialog && errorMessage == END_FAILED
                && messages == old(messages) && endTimers == old(endTimers)
                && showSuccessDialog == old(showSuccessDialog)
      ensures conversationId == old(conversationId) && isLoading == old(isLoading) && sending == old(sending)
    {
      if !Truthy(conversationId) {
        return [];
      }
      var id := conversationId.value;
      isEnding := true;
      calls := [EndCall(id)];
      if ended.Ok? {
        showEndDialog := false;
        showSuccessDialog := true;
        var loadCalls := LoadConversation(id, reloaded);
        calls := calls + loadCalls;
        endTimers := endTimers + 1;
      } else {
        showEndDialog := false;
        errorMessage := END_FAILED;
        showErrorDialog := true;
      }
      isEnding := false;
    }

    /** The end timer fires: the success dialog closes, and the caller is
        told the conversation ended: `ended` is the `onConversationEnded`
        notification, raised on every firing. */
    method FireEndTimer() returns (ended: bool)
      requires endTimers > 0
      modifies this
      ensures ended
      ensures !showSuccessDialog && endTimers == old(endTimers) - 1
      ensures conversationId == old(conversationId) && messages == old(messages)
      ensures isLoading == old(isLoading) && sending == old(sending)
      ensures showEndDialog == old(showEndDialog) && isEnding == old(isEnding)
      ensures showErrorDialog == old(showErrorDialog) && errorMessage == old(errorMessage)
    {
      showSuccessDialog := false;
      endTimers := endTimers - 1;
      ended := true;
    }
  }

  /** A load that resolves after the conversation changed still replaces
      the list: there is no guard against a stale response. */
  method StaleLoadStillApplies(w: ChatWindowState, first: ConversationId, second: ConversationId, fetched: seq<ClientMessage>)
    requires first != "" && second != "" && first != second
    modifies w
    ensures w.conversationId == Some(second) && w.messages == fetched
  {
    var load1 := w.ConversationIdChanged(Some(first));
    var load2 := w.ConversationIdChanged(Some(second));
    var calls := w.LoadConversation(load1.value, Ok(ConversationInfo(first, "", None, Some(fetched))));
  }

  /** A second send while the first is in flight is ignored, and the
      first one's reply still lands after its own user message. */
  method SendWhileSending(w: ChatWindowState, a: string, b: string, reply: string)
    requires w.Valid() && !w.isLoading && !IsJsBlank(a) && !IsJsBlank(b)
    requires w.conversationId == Some("c")
    modifies w
    ensures w.messages == old(w.messages) + [ClientMessage(None, User, a), ClientMessage(None, Ai, reply)]
    ensures !w.isLoading
  {
    var s1 := w.StartSend(a);
    var s2 := w.StartSend(b);
    var calls, createdId := w.FinishSend(Err(None), Ok(reply));
  }

  /** The message box wired to the window (`disabled` is the window's
      `isLoading`): while a send is in flight the box keeps its text and
      the window does not change; otherwise a non-blank text leaves the
      box and becomes the window's next user message. */
  method SubmitFromInput(w: ChatWindowState, box: ChatInputState, created: Remote<ConversationInfo>, sent: Remote<string>)
    returns (calls: seq<Call>, createdId: Option<ConversationId>)
    requires w.Valid() && box.Valid()
    modifies w, box
    ensures w.Valid() && box.Valid()
    ensures old(w.isLoading) || IsJsBlank(old(box.input)) ==>
              box.input == old(box.input) && w.messages == old(w.messages) && calls == []
    ensures !old(w.isLoading) && !IsJsBlank(old(box.input)) ==>
              && box.input == ""
              && |w.messages| == |old(w.messages)| + 2
              && w.messages[|old(w.messages)|] == ClientMessage(None, User, old(box.input))
              && !w.isLoading
  {
    var text := box.Submit(w.isLoading);
    if text.Some? {
      calls, createdId := w.HandleSend(text.value, created, sent);
    } else {
      calls, createdId := [], None;
    }
  }
}
