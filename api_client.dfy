/**
 * The client's API layer: reading a cookie out of `document.cookie`, the
 * CSRF token header, the list query string, the records the server's JSON
 * is read into, and the ok-or-throw rule every wrapper follows.
 */
module ApiClient {
  import opened Base
  import opened Text
  import opened Models
  import opened ViewLogic

  /** The text the cookie jar is searched for: "; <name>=". */
  function CookieMarker(name: string): (r: string)
    ensures |r| == |name| + 3 && r[..2] == "; " && r[|r| - 1] == '='
  {
    "; " + name + "="
  }

  /** `getCookie`: the jar is prefixed with "; " and split at "; <name>=";
      exactly two parts means the name occurs once, and the value is the
      second part up to the next ';'. An empty value reads as null. */
  function GetCookie(cookie: string, name: string): (r: Option<string>)
    ensures r.Some? ==> r.value != "" && !Contains(r.value, ";")
  {
    var parts := Split("; " + cookie, CookieMarker(name));
    if |parts| == 2 then
      var v := Split(parts[1], ";")[0];
      if v == "" then None else Some(v)
    else None
  }

  /** A value found is what follows the one occurrence of "; <name>=". */
  lemma GetCookieFollowsMarker(cookie: string, name: string)
    requires GetCookie(cookie, name).Some?
    ensures IndexOf("; " + cookie, CookieMarker(name)).Some?
    ensures OccursAt("; " + cookie, CookieMarker(name) + GetCookie(cookie, name).value,
                     IndexOf("; " + cookie, CookieMarker(name)).value)
  {
    var s, marker := "; " + cookie, CookieMarker(name);
    var parts := Split(s, marker);
    SplitSecondPart(s, marker);
    var i := IndexOf(s, marker).value;
    var v := GetCookie(cookie, name).value;
    assert v <= parts[1];
    OccursFollowedBy(s, marker, i, v);
  }

  /** A name that does not occur reads as null. */
  lemma GetCookieAbsent(cookie: string, name: string)
    requires forall j :: 0 <= j ==> !OccursAt("; " + cookie, CookieMarker(name), j)
    ensures GetCookie(cookie, name) == None
  {
    SplitWithoutSeparator("; " + cookie, CookieMarker(name));
  }

  /** A name that occurs twice reads as null too. */
  lemma GetCookieRepeated(cookie: string, name: string, i: nat, j: nat)
    requires OccursAt("; " + cookie, CookieMarker(name), i)
    requires OccursAt("; " + cookie, CookieMarker(name), j) && i + |CookieMarker(name)| <= j
    ensures GetCookie(cookie, name) == None
  {
    SplitCountsOccurrences("; " + cookie, CookieMarker(name), i, j);
  }

  /** A name that occurs once, followed by a value and then ';' or the end
      of the jar, reads as that value (null when it is empty). */
  lemma GetCookieFinds(cookie: string, name: string, i: nat, v: string, tail: string)
    requires OccursAt("; " + cookie, CookieMarker(name), i)
    requires forall j :: 0 <= j && j != i ==> !OccursAt("; " + cookie, CookieMarker(name), j)
    requires ("; " + cookie)[i + |CookieMarker(name)|..] == v + tail
    requires forall k :: 0 <= k < |v| ==> v[k] != ';'
    requires tail == [] || tail[0] == ';'
    ensures GetCookie(cookie, name) == if v == "" then None else Some(v)
  {
    var s, marker := "; " + cookie, CookieMarker(name);
    SplitAtOnlyOccurrence(s, marker, i);
    forall j | 0 <= j < |v|
      ensures !OccursAt(v + tail, ";", j)
    {
      assert (v + tail)[j] == v[j];
    }
    if tail != [] {
      assert tail[0..1] == ";";
    }
    SplitHead(v, tail, ";");
  }

  /** `getCSRFToken`: the `csrftoken` cookie, or "" without one. */
  function CsrfToken(cookie: string): (r: string)
    ensures r == "" <==> GetCookie(cookie, "csrftoken").None?
    ensures r != "" ==> Some(r) == GetCookie(cookie, "csrftoken")
  {
    GetCookie(cookie, "csrftoken").GetOr("")
  }

  /** The query string `getAllConversations` puts after "/conversations/?". */
  function ListQuery(showArchived: bool): string {
    if showArchived then "show_archived=true" else ""
  }

  /** The `show_archived` parameter the server receives from that query. */
  function ShowArchivedParam(showArchived: bool): (r: Option<string>)
    ensures r.Some? <==> showArchived
    ensures ListQuery(showArchived) == if r.Some? then "show_archived=" + r.value else ""
  {
    if showArchived then Some("true") else None
  }

  /** The server reads back exactly the flag the client asked for. */
  lemma ListFlagRoundTrip(showArchived: bool)
    ensures ShowArchivedFlag(ShowArchivedParam(showArchived)) == showArchived
  {
    if showArchived {
      assert Lower("true") == "true";
    }
  }

  /** The client's `Message` record; messages made locally carry no id. */
  datatype ClientMessage = ClientMessage(id: Option<MessageId>, sender: Sender, content: string)

  /** The client's `Conversation` record, as far as the controllers read it. */
  datatype ConversationInfo = ConversationInfo(
    id: ConversationId, title: string, isArchived: Option<bool>, messages: Option<seq<ClientMessage>>)

  /** The body `createConversation` posts. */
  datatype CreateRequest = CreateRequest(title: string, status: string)

  /** `createConversation(title)` always asks for an "active" conversation. */
  function CreateConversationRequest(title: string): (r: CreateRequest)
    ensures r.title == title && r.status == ACTIVE
  {
    CreateRequest(title, "active")
  }

  /** The wrappers of `conversationAPI` and `messageAPI`. */
  datatype Endpoint =
    | GetAllConversations | GetConversation | CreateConversation | SendMessage
    | EndConversation | QueryConversations | GetSuggestions | ExportConversation
    | ArchiveConversation | DeleteConversation | ShareConversation
    | GetSharedConversation | GetAnalytics
    | BookmarkMessage | ReactToMessage | BranchMessage | GetBranches | GetBookmarkedMessages

  /** What each wrapper says it failed to do. */
  function FailedAction(e: Endpoint): string {
    match e
    case GetAllConversations => "fetch conversations"
    case GetConversation => "fetch conversation"
    case CreateConversation => "create conversation"
    case SendMessage => "send message"
    case EndConversation => "end conversation"
    case QueryConversations => "query conversations"
    case GetSuggestions => "get suggestions"
    case ExportConversation => "export conversation"
    case ArchiveConversation => "archive conversation"
    case DeleteConversation => "delete conversation"
    case ShareConversation => "share conversation"
    case GetSharedConversation => "get shared conversation"
    case GetAnalytics => "get analytics"
    case BookmarkMessage => "bookmark message"
    case ReactToMessage => "react to message"
    case BranchMessage => "branch message"
    case GetBranches => "get branches"
    case GetBookmarkedMessages => "get bookmarked messages"
  }

  /** The message each wrapper throws on a response that is not ok. */
  function FailureText(e: Endpoint): (r: string)
    ensures |r| > 10 && r[..10] == "Failed to "
  {
    "Failed to " + FailedAction(e)
  }

  /** What one call of a wrapper resolves to for the server's reply: the
      body exactly when the status is ok (2xx), otherwise an `Error` with
      the wrapper's own message, whatever error text the server sent. */
  function Settle<T>(e: Endpoint, reply: Response<T>): (r: Remote<T>)
    ensures r.Ok? <==> reply.Reply? && 200 <= reply.status < 300
    ensures r.Ok? ==> r.value == reply.body
    ensures r.Err? ==> r.message == Some(FailureText(e))
  {
    if reply.Reply? && 200 <= reply.status < 300 then Ok(reply.body) else Err(Some(FailureText(e)))
  }
}
