/**
 * The chat page: which conversation is current, the refresh counter the
 * sidebar watches, and the route it navigates to; plus the wiring of the
 * chat window's callbacks into it.
 */
module ChatPage {
  import opened Base
  import opened Text
  import opened Models
  import opened ApiClient
  import opened AppLayout
  import opened ChatWindow

  class ChatPageState {
    var currentConversationId: Option<ConversationId>
    /** Bumped to make the sidebar reload; it only ever grows. */
    var refreshTrigger: nat
    /** Where the page last navigated (the browser location). */
    var location: string

    /** The route parameter, when there is one, names the route of the
        current conversation. */
    ghost predicate Valid()
      reads this
    {
      RouteParam(location).Some? ==>
        currentConversationId.Some? && RouteParam(location) == RouteParam(ChatPath(currentConversationId))
    }

    /** Mounting on a path: the current id starts as its route parameter. */
    constructor (path: string)
      ensures Valid()
      ensures currentConversationId == RouteParam(path) && refreshTrigger == 0 && location == path
    {
      currentConversationId, refreshTrigger, location := RouteParam(path), 0, path;
      ChatPathRoundTrip(RouteParam(path));
    }

    /** The effect on the route parameter: a present one becomes current;
        an absent one leaves the current id alone. */
    method RouteParamChanged(param: Option<string>)
      modifies this
      ensures Truthy(param) ==> currentConversationId == param
      ensures !Truthy(param) ==> currentConversationId == old(currentConversationId)
      ensures refreshTrigger == old(refreshTrigger) && location == old(location)
    {
      if Truthy(param) {
        currentConversationId := param;
      }
    }

    /** `handleNewConversation`: to "/chats", with no current conversation. */
    method NewConversation()
      requires Valid()
      modifies this
      ensures Valid()
      ensures location == "/chats" && currentConversationId.None?
      ensures refreshTrigger == old(refreshTrigger)
    {
      location := "/chats";
      currentConversationId := None;
    }

    /** `handleSelectConversation`: to the id's chat route, and the id
        (whatever it is) becomes current. */
    method SelectConversation(id: Option<ConversationId>)
      requires Valid()
      modifies this
      ensures Valid()
      ensures location == ChatPath(id) && currentConversationId == id
      ensures refreshTrigger == old(refreshTrigger)
    {
      ChatPathRoundTrip(id);
      location := ChatPath(id);
      currentConversationId := id;
    }

    /** `handleConversationCreated`: to the new conversation, which becomes
        current, and the sidebar is refreshed. */
    method ConversationCreated(id: ConversationId)
      requires Valid()
      modifies this
      ensures Valid()
      ensures location == "/chats/" + id && currentConversationId == Some(id)
      ensures refreshTrigger == old(refreshTrigger) + 1
    {
      location := "/chats/" + id;
      currentConversationId := Some(id);
      refreshTrigger := refreshTrigger + 1;
    }

    /** `handleConversationEnded`: the sidebar is refreshed and the page
        goes back to "/chats" with no current conversation. */
    method ConversationEnded()
      requires Valid()
      modifies this
      ensures Valid()
      ensures location == "/chats" && currentConversationId.None?
      ensures refreshTrigger == old(refreshTrigger) + 1
    {
      refreshTrigger := refreshTrigger + 1;
      location := "/chats";
      currentConversationId := None;
    }
  }

  /** After any handler, the route parameter effect that follows the
      navigation keeps the page valid, and changes nothing when the
      current id is one path segment (as a UUID is). */
  method NavigationSettles(p: ChatPageState)
    requires p.Valid()
    modifies p
    ensures p.Valid() && p.location == old(p.location)
    ensures old(p.currentConversationId).None? || '/' !in old(p.currentConversationId).value ==>
              p.currentConversationId == old(p.currentConversationId)
  {
    ChatPathRoundTrip(p.currentConversationId);
    ChatPathRoundTrip(RouteParam(p.location));
    p.RouteParamChanged(RouteParam(p.location));
  }

  /** A send from the page: the window sends; when it reports a newly
      created conversation, the page adopts it, bumps the refresh counter,
      and the window (whose prop changed) asks to load it. */
  method SendFromPage(p: ChatPageState, w: ChatWindowState, text: string,
                      created: Remote<ConversationInfo>, sent: Remote<string>)
    returns (load: Option<ConversationId>)
    requires p.Valid() && w.Valid() && w.conversationId == p.currentConversationId
    modifies p, w
    ensures p.Valid() && w.Valid()
    ensures w.conversationId == p.currentConversationId
    ensures p.refreshTrigger == old(p.refreshTrigger) || p.refreshTrigger == old(p.refreshTrigger) + 1
    ensures !Truthy(old(p.currentConversationId)) && !IsJsBlank(text) && !old(w.isLoading) && created.Ok? && sent.Ok? ==>
              && p.currentConversationId == Some(created.value.id)
              && p.refreshTrigger == old(p.refreshTrigger) + 1
              && (created.value.id != "" ==> load == Some(created.value.id))
    ensures Truthy(old(p.currentConversationId)) ==>
              p.currentConversationId == old(p.currentConversationId) && p.refreshTrigger == old(p.refreshTrigger)
  {
    var calls, createdId := w.HandleSend(text, created, sent);
    load := None;
    if createdId.Some? {
      p.ConversationCreated(createdId.value);
      load := w.ConversationIdChanged(p.currentConversationId);
    }
  }

  /** The end timer fires: the window closes its dialog and notifies the
      page, which forgets the conversation and refreshes the sidebar; the
      window, whose prop is now null, clears its list. */
  method EndTimerElapsed(p: ChatPageState, w: ChatWindowState)
    requires p.Valid() && w.endTimers > 0
    modifies p, w
    ensures p.Valid()
    ensures p.currentConversationId.None? && w.conversationId.None? && w.messages == []
    ensures p.refreshTrigger == old(p.refreshTrigger) + 1
    ensures !w.showSuccessDialog
  {
    var ended := w.FireEndTimer();
    if ended {
      p.ConversationEnded();
    }
    var load := w.ConversationIdChanged(p.currentConversationId);
  }
}
