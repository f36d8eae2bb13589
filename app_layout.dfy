/**
 * The layout's routing decisions: which sidebar page a path selects, and
 * what "new conversation" and "select conversation" do when no callback
 * is given.
 */
module AppLayout {
  import opened Base

  datatype Page = Chat | Intelligence | Analytics | Bookmarks

  /** `s.startsWith(p)`. */
  predicate StartsWith(s: string, p: string) {
    p <= s
  }

  /** `getCurrentPage`: the first of "/intelligence", "/analytics",
      "/bookmarks" the path starts with, the chat page otherwise. */
  function CurrentPage(path: string): (r: Page)
    ensures r == Intelligence <==> StartsWith(path, "/intelligence")
    ensures r == Analytics <==> !StartsWith(path, "/intelligence") && StartsWith(path, "/analytics")
    ensures r == Bookmarks <==> !StartsWith(path, "/intelligence") && !StartsWith(path, "/analytics") && StartsWith(path, "/bookmarks")
    ensures r == Chat <==> !StartsWith(path, "/intelligence") && !StartsWith(path, "/analytics") && !StartsWith(path, "/bookmarks")
  {
    if StartsWith(path, "/intelligence") then Intelligence
    else if StartsWith(path, "/analytics") then Analytics
    else if StartsWith(path, "/bookmarks") then Bookmarks
    else Chat
  }

  /** The three prefixes exclude each other, so the order of the tests
      never decides the page. */
  lemma PagePrefixesExclusive(path: string)
    ensures !(StartsWith(path, "/intelligence") && StartsWith(path, "/analytics"))
    ensures !(StartsWith(path, "/intelligence") && StartsWith(path, "/bookmarks"))
    ensures !(StartsWith(path, "/analytics") && StartsWith(path, "/bookmarks"))
  {
    if StartsWith(path, "/intelligence") {
      assert path[1] == 'i';
    } else if StartsWith(path, "/analytics") {
      assert path[1] == 'a';
    }
  }

  /** The chat route for a conversation id: "/chats/<id>", or "/chats"
      for null or "". */
  function ChatPath(id: Option<string>): (r: string)
    ensures StartsWith(r, "/chats")
    ensures Truthy(id) ==> r == "/chats/" + id.value
    ensures !Truthy(id) ==> r == "/chats"
  {
    if Truthy(id) then "/chats/" + id.value else "/chats"
  }

  /** `s` without its trailing slashes. */
  function TrimTrailingSlashes(s: string): (r: string)
    ensures r <= s && (r == [] || r[|r| - 1] != '/')
    ensures forall i :: |r| <= i < |s| ==> s[i] == '/'
  {
    if s != [] && s[|s| - 1] == '/' then TrimTrailingSlashes(s[..|s| - 1]) else s
  }

  /** The `:conversationId` parameter the route "/chats/:conversationId?"
      reads from a path: the single non-empty segment after "/chats/",
      trailing slashes ignored. There is none for "/chats" itself, and
      none when the path is not this route (another prefix, or more than
      one segment after "/chats/"). */
  function RouteParam(path: string): (r: Option<string>)
    ensures r.Some? ==> r.value != "" && '/' !in r.value
    ensures r.Some? ==> StartsWith(path, "/chats/" + r.value)
    ensures r.Some? ==> forall i :: 7 + |r.value| <= i < |path| ==> path[i] == '/'
  {
    if StartsWith(path, "/chats/") then
      var segment := TrimTrailingSlashes(path[7..]);
      assert path == "/chats/" + path[7..];
      if segment != "" && '/' !in segment then Some(segment) else None
    else None
  }

  /** Navigating to the chat route of an id gives that id back as the
      route parameter when the id is one path segment (a UUID always is),
      with or without a trailing slash; null and "" give none. */
  lemma ChatPathRoundTrip(id: Option<string>)
    ensures !Truthy(id) ==> RouteParam(ChatPath(id)) == None
    ensures Truthy(id) && '/' !in id.value ==> RouteParam(ChatPath(id)) == id
    ensures Truthy(id) && '/' !in id.value ==> RouteParam(ChatPath(id) + "/") == id
  {
    if Truthy(id) && '/' !in id.value {
      var p := "/chats/" + id.value;
      assert p[7..] == id.value;
      assert (p + "/")[7..] == id.value + "/";
      assert (id.value + "/")[..|id.value|] == id.value;
    }
  }

  /** An id holding a slash does not survive the trip: "/chats/a/b" is not
      the chat route, and "/chats/a/" names "a". */
  lemma SlashedIdsDoNotRoundTrip()
    ensures RouteParam(ChatPath(Some("a/b"))) == None
    ensures RouteParam(ChatPath(Some("a/"))) == Some("a")
  {
    assert ChatPath(Some("a/b"))[7..] == "a/b";
    assert "a/b"[2] == 'b';
    assert ChatPath(Some("a/"))[7..] == "a/";
    assert "a/"[..1] == "a";
  }

  /** Every chat route shows the chat page in the sidebar. */
  lemma ChatPathIsChatPage(id: Option<string>)
    ensures CurrentPage(ChatPath(id)) == Chat
  {
    var p := ChatPath(id);
    assert p[1] == 'c';
  }

  /** What a layout handler does: call the page's callback, or navigate. */
  datatype Action = Delegate(id: Option<string>) | Navigate(path: string)

  /** `handleNewConversation`. */
  function NewConversationAction(hasCallback: bool): (r: Action)
    ensures r.Delegate? <==> hasCallback
    ensures r.Navigate? ==> r.path == "/chats"
  {
    if hasCallback then Delegate(None) else Navigate("/chats")
  }

  /** `handleSelectConversation`: the callback gets the id unchanged;
      without one the layout navigates to the id's chat route. */
  function SelectAction(hasCallback: bool, id: Option<string>): (r: Action)
    ensures r.Delegate? <==> hasCallback
    ensures r.Delegate? ==> r.id == id
    ensures r.Navigate? ==> r.path == ChatPath(id)
    ensures r.Navigate? && (id.None? || '/' !in id.value) ==> RouteParam(r.path) == (if Truthy(id) then id else None)
  {
    ChatPathRoundTrip(id);
    if hasCallback then Delegate(id) else Navigate(ChatPath(id))
  }
}
