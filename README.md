# RecallAI conversation store and chat client, modelled in Dafny

RecallAI is a chat application. A Django server keeps each user's
conversations and their messages, asks an AI service for the replies, and
closes a conversation with a generated summary. A React client shows the
conversation list, one conversation at a time, and a few side pages.

This project models both halves.

On the server:

- `ChatViews.Store` holds the conversation and message tables. Its
  methods are the REST actions of `ConversationViewSet` and
  `MessageViewSet`, such as send, end, archive, share, export, bookmark,
  react, branch and delete.
- The small pure pieces of those actions live in `ViewLogic`: the "ai:"
  prefix strip, the reaction toggle, the list filter and the markdown
  export text.
- The record types and their defaults are in `Models`.
- Registration, login, logout and the current-user check are in
  `AuthViews.AuthService`.

On the client:

- Each component's state is a class, and each handler is a method.
- A remote call is a parameter holding what the call resolves to
  (`Remote.Ok(value)`, or `Err` with the thrown message).
- Each handler returns the calls, callbacks and toasts it makes, in order.
- Handlers that await in the middle are split into a start half and a
  finish half, so anything may happen in between.
- The client classes are `ChatWindow.ChatWindowState`,
  `ChatPage.ChatPageState`, `Sidebar.SidebarState`,
  `ChatInput.ChatInputState`, `ChatMessage.MessageActions`,
  `App.AppState`, `IntelligencePage.IntelligenceState` and
  `AuthPage.AuthPageState`.
- Pure client logic is modelled as functions: cookie lookup, route and
  page selection, date labels, and the inline-markup tokenizer of a chat
  bubble.

`ClientServer` joins the two halves for the chat window's send. The
store answers the window's calls, and each `conversationAPI` wrapper
settles the store's reply before the window sees it.

The two halves disagree on whitespace. The server's blank test is
Python's `str.isspace()` (`Text.IsSpace`). The client's is what
`String.prototype.trim()` removes (`Text.IsJsSpace`). A message made only
of U+001C passes the client's test, so the client sends it, but the server
refuses it. `ClientServer.SendInConversation` states what the window then
shows.

The tokenizer follows ECMAScript `String.prototype.split` with a capturing
regular expression: parts of plain text and matched tokens alternate. A
lazy `.*?` never crosses a line terminator.

Message order is creation order. Message ids increase, and a
conversation's messages (its thread) are its message ids in increasing
order. The store invariant `Store.Valid` states four things:

- every message belongs to a stored conversation;
- every message's parent is an older message of the same conversation;
- every stored reaction list has at most one entry;
- share tokens are unique.

Every operation preserves it.

Where the code and the design notes for the system disagree, the model
follows the code:

- `react` keeps at most one reaction per message. It does not keep an
  independent set per kind.
- `show_archived=true` lists archived and unarchived conversations
  together. It does not list archived ones alone.
- A branch is a message of its parent's conversation, so it also appears
  in that conversation's thread.
- `loadConversation` has no guard against a stale response.
- The sidebar clears the current conversation after a successful delete,
  not before it.
- `end` does not refuse a conversation that has already ended.
- A new conversation starts with no messages.

## Model

| member | source | states |
|---|---|---|
| Text.BlankDiffers | server/chat/views.py:79 | Python's blank test and `trim()` disagree both ways: U+001C alone is blank only to the server, and U+FEFF alone only to the client |
| Text.LStrip | server/chat/views.py:101 | `lstrip()`: the result is a suffix of the input, what was removed is all Python whitespace, and the result does not start with Python whitespace |
| Text.LStripBlankPrefix | server/chat/views.py:101 | stripping whitespace placed in front of a text that does not start with whitespace gives that text back |
| Text.Lower | server/chat/views.py:102 | `lower()`: same length, every character lowered |
| Text.Take | client/src/components/ChatWindow.tsx:94 | `substring(0, n)`: a prefix of length min(len, n) |
| Text.IndexOf | client/src/api/client.ts:5 | the first occurrence of the separator, or none at all |
| Text.Split | client/src/api/client.ts:5 | `split(sep)` yields at least one part, and the first part is a prefix holding no separator |
| Text.SplitJoin | client/src/api/client.ts:5 | joining the parts of a split with the separator gives the input back |
| Text.SplitWithoutSeparator | client/src/api/client.ts:5-6 | with no separator in the text the split is the text alone |
| Text.SplitCountsOccurrences | client/src/api/client.ts:6 | one occurrence gives at least two parts, two non-overlapping ones at least three |
| Text.SplitAtOnlyOccurrence | client/src/api/client.ts:6 | a single occurrence splits the text into what lies before it and what lies after it |
| Text.SplitHead | client/src/api/client.ts:6 | `split(';').shift()`: the text up to the first separator |
| Models.MessageLabel | server/chat/models.py:32-33 | `Message.__str__`: the sender name, ": ", then a prefix of the content of length min(len, 30) |
| ViewLogic.StripAiTag | server/chat/views.py:100-104 | text whose left-stripped form lacks a case-insensitive "ai:" is unchanged; otherwise the result is a proper suffix at least 3 shorter that does not start with whitespace |
| ViewLogic.StripAiTagRemovesTag | server/chat/views.py:100-104 | whitespace, any-case "ai:", whitespace and a body give back exactly the body |
| ViewLogic.StripAiTagOnlyOnce | server/chat/views.py:100-104 | only one tag is removed: "ai: ai: x" becomes "ai: x" |
| ViewLogic.SummaryText | server/chat/views.py:126-127 | the summary is the generated text, or "Summary generation failed." when the AI call failed |
| ViewLogic.SummaryMessageContent | server/chat/views.py:149-153 | the summary message is the bold heading, then exactly "\n\n", then the summary |
| ViewLogic.RemoveFirst | server/chat/views.py:409 | `list.remove`: the list with its first occurrence of the value cut out and the rest in order, so one element fewer and, as multisets, one copy of the value fewer |
| ViewLogic.ToggleReaction | server/chat/views.py:405-412 | a present kind is removed once; an absent kind replaces the whole list; null counts as [] |
| ViewLogic.ToggleKeepsAtMostOne | server/chat/views.py:408-412 | from at most one reaction, the result is [] or [kind] |
| ViewLogic.ToggleTwice | server/chat/views.py:408-412 | reacting twice with one kind restores the list if and only if the list was [] or [kind] |
| ViewLogic.ReactionsReplaceEachOther | server/chat/views.py:410-412 | "heart" then "thumbsup" leaves ["thumbsup"]: kinds are not independent |
| ViewLogic.ShowArchivedFlag | server/chat/views.py:51 | the flag holds exactly when the parameter lowers to "true"; a missing parameter means false |
| ViewLogic.ListedIds | server/chat/views.py:47-54 | only the requesting user's conversations are listed |
| ViewLogic.ListedWithAndWithoutFlag | server/chat/views.py:51-53 | with the flag, every conversation of the user is listed; without it, exactly the unarchived ones; the second list is contained in the first |
| ViewLogic.ExportFormatOf | server/chat/views.py:231-238 | exactly "pdf" selects PDF and exactly "markdown" selects markdown; anything else, missing included, selects JSON |
| ViewLogic.BlocksAppend | server/chat/views.py:275-277 | the message blocks of two lists joined are the blocks of each, joined |
| ViewLogic.MarkdownListsMessageInPlace | server/chat/views.py:265-277 | every message appears in the export, in order, between the blocks of the messages before and after it |
| ViewLogic.ExportMarkdown | server/chat/views.py:265-277 | the string built by appending in a loop equals the export text `MarkdownText` |
| ApiClient.CookieMarker | client/src/api/client.ts:5 | the searched marker is three characters longer than the name, opening with "; " and closing with "=" |
| ApiClient.GetCookie | client/src/api/client.ts:3-8 | a found value is non-empty and holds no ';' |
| ApiClient.GetCookieFollowsMarker | client/src/api/client.ts:4-6 | a found value directly follows the first marker in "; " + cookie |
| ApiClient.GetCookieAbsent | client/src/api/client.ts:6-7 | no marker gives null |
| ApiClient.GetCookieRepeated | client/src/api/client.ts:6-7 | a marker that occurs twice gives null |
| ApiClient.GetCookieFinds | client/src/api/client.ts:6 | a single marker followed by v and then ';' or the end gives v, or null when v is empty |
| ApiClient.CsrfToken | client/src/api/client.ts:10-12 | the token is '' exactly when there is no `csrftoken` cookie, and otherwise the cookie's value |
| ApiClient.ShowArchivedParam | client/src/api/client.ts:56-61 | `show_archived=true` is sent exactly when the flag is set; otherwise the query string is empty |
| ApiClient.ListFlagRoundTrip | client/src/api/client.ts:58-60 | the server reads back the flag the client sent |
| ApiClient.CreateConversationRequest | client/src/api/client.ts:84 | the request carries the title and status "active" |
| ApiClient.FailureText | client/src/api/client.ts:64 | every wrapper's error message starts with "Failed to " |
| ApiClient.Settle | client/src/api/client.ts:64-65 | for a server reply, a call resolves to the reply's body exactly when the status is 2xx; a refusal, a 404 or a non-2xx reply resolves to an Error with the wrapper's own message, whatever error the server sent |
| AuthViews.CurrentUser | server/chat/auth_views.py:65-75 | status 200 with the username and `is_authenticated` true if and only if there is a session user; otherwise 401 and false |
| AuthViews.AuthService.constructor | server/chat/auth_views.py:8-32 | no users and no session |
| AuthViews.AuthService.Register | server/chat/auth_views.py:8-32 | missing fields give 400 with no change; a taken name gives 400 with no change; otherwise exactly one user is added, the session is that user, and the reply is 201 |
| AuthViews.AuthService.Login | server/chat/auth_views.py:34-58 | the user table never changes; missing fields give 400; 200 if and only if the credentials authenticate, and otherwise 401 "Invalid credentials" |
| AuthViews.AuthService.Logout | server/chat/auth_views.py:60-63 | the session ends and the users are kept |
| AuthViews.RegisterLogoutLogin | server/chat/auth_views.py:26-58 | a new account can log in again after logout, and `current_user` then reports it |
| AuthViews.RegisterTwice | server/chat/auth_views.py:20-24 | a second registration of a name is refused, and the first password stays |
| ChatViews.BelowSelects | server/chat/models.py:23 | the selection holds exactly the selected ids, in increasing order |
| ChatViews.BelowFrame | server/chat/models.py:23 | a selection depends only on the messages below the bound |
| ChatViews.Reversed | server/chat/views.py:423 | the same ids, in the opposite order |
| ChatViews.Store.constructor | server/chat/models.py:5-33 | empty tables, and the invariant holds |
| ChatViews.Store.ThreadMessages | server/chat/models.py:23 | a conversation's messages in creation order, each belonging to it |
| ChatViews.Store.Append | server/chat/models.py:22-30 | the new message gets the next id and becomes the last of its conversation's thread and the last branch of its parent; the invariant holds |
| ChatViews.Store.CreateConversation | server/chat/views.py:56-57 | a new conversation of the user: active, not archived, no end time, summary or token, and no messages |
| ChatViews.Store.SendMessage | server/chat/views.py:72-115 | unknown conversation: 404 and no change; content missing or blank by Python's whitespace: 400 "Message content is required" and no change; otherwise the user message then the AI message (cleaned, or the apology) are appended to the thread, and the 200 reply echoes the two stored texts |
| ChatViews.Store.AppendExchange | server/chat/views.py:86-115 | exactly two messages, user then AI, become the thread's last two |
| ChatViews.Store.End | server/chat/views.py:117-160 | status "ended", end time, summary and insights are set, and exactly one summary message is appended; there is no guard |
| ChatViews.Store.Archive | server/chat/views.py:196-203 | flips `is_archived` and nothing else, and reports the new value |
| ChatViews.Store.Share | server/chat/views.py:205-217 | a token is stored only when there is none; the reply is the stored token and "/shared/" + token; tokens stay unique |
| ChatViews.Store.GetShared | server/chat/views.py:219-226 | the conversation holding the token if and only if one holds it; otherwise 404 "Conversation not found" |
| ChatViews.Store.Retrieve | server/chat/views.py:43-54 | the user's own conversation with its messages, or 404 |
| ChatViews.Store.Export | server/chat/views.py:228-238 | dispatches on the format parameter as the action reads it (content negotiation left out); a markdown export carries the export text of the conversation's thread |
| ChatViews.Store.DeleteConversation | server/chat/models.py:23 | the conversation and exactly its messages are deleted, and the other messages are unchanged (cascade) |
| ChatViews.Store.Bookmark | server/chat/views.py:393-398 | flips `is_bookmarked` and nothing else, and reports the new value |
| ChatViews.Store.React | server/chat/views.py:400-415 | stores `ToggleReaction`, never more than one reaction, and reports it |
| ChatViews.Store.Bookmarked | server/chat/views.py:417-425 | exactly the bookmarked messages of the user's conversations, newest first |
| ChatViews.Store.Branch | server/chat/views.py:427-442 | a new message in the parent's conversation, from its sender, pointing at it; the parent is unchanged; the new message becomes its last branch and the thread's last message |
| ChatViews.Store.GetBranches | server/chat/views.py:444-449 | exactly the messages whose parent is the given message |
| ChatViews.Store.DeleteMessage | server/chat/models.py:29 | the message and every branch below it are deleted, and the rest is unchanged (cascade) |
| ChatViews.ShareIsStable | server/chat/views.py:210-217 | sharing twice returns the same token and URL |
| ChatViews.ArchiveTwiceRestores | server/chat/views.py:199 | archiving twice restores the whole store |
| ChatViews.BookmarkTwiceRestores | server/chat/views.py:396 | bookmarking twice restores the whole store |
| ChatViews.EndTwiceAppendsTwice | server/chat/views.py:117-153 | ending twice appends two summary messages and leaves the conversation ended |
| ChatInput.Counter | client/src/components/ChatInput.tsx:66-70 | "<length>/4000" is shown if and only if the length exceeds 3800 |
| ChatInput.ChatInputState.constructor | client/src/components/ChatInput.tsx:13 | the box starts empty |
| ChatInput.ChatInputState.Change | client/src/components/ChatInput.tsx:55-64 | the box keeps a prefix of the typed value, cut at 4000 characters |
| ChatInput.ChatInputState.Submit | client/src/components/ChatInput.tsx:28-38 | sends the untrimmed text and clears the box if and only if the box is enabled and the text is not blank |
| ChatInput.ChatInputState.KeyDown | client/src/components/ChatInput.tsx:57-62 | Enter without Shift submits; any other key does nothing |
| ChatInput.TypeAndSend | client/src/components/ChatInput.tsx:28-40 | a text starting with a visible character is sent from an enabled box, and the box is emptied |
| ChatWindow.NewTitle | client/src/components/ChatWindow.tsx:94 | the first 50 characters, with "..." exactly when the text is longer |
| ChatWindow.AiMessage | client/src/components/ChatWindow.tsx:103-127 | an AI message with no id: the reply, or the fixed apology on failure |
| ChatWindow.ChatWindowState.constructor | client/src/components/ChatWindow.tsx:44-50 | empty list and every flag false |
| ChatWindow.ChatWindowState.ConversationIdChanged | client/src/components/ChatWindow.tsx:57-63 | a present id asks for a load; null clears the list |
| ChatWindow.ChatWindowState.LoadConversation | client/src/components/ChatWindow.tsx:69-79 | the list is replaced wholesale when the fetch returns messages, and kept otherwise, failure included |
| ChatWindow.ChatWindowState.StartSend | client/src/components/ChatWindow.tsx:81-90 | nothing happens when the text is blank or a send is in flight; otherwise the user's message, with no id, is appended and loading starts |
| ChatWindow.ChatWindowState.FinishSend | client/src/components/ChatWindow.tsx:92-130 | without an id, exactly one create titled `NewTitle` comes before the send; one AI message is appended; the new id is reported only when both calls succeed; loading ends |
| ChatWindow.ChatWindowState.HandleSend | client/src/components/ChatWindow.tsx:81-131 | a send is a no-op, or grows the list by exactly the user's message and one AI message, with the calls made in order |
| ChatWindow.ChatWindowState.HandleEndConversation | client/src/components/ChatWindow.tsx:133-156 | nothing without an id; on success the dialog switches, the list reloads and a timer starts; on failure the list is kept and the fixed error shows |
| ChatWindow.ChatWindowState.FireEndTimer | client/src/components/ChatWindow.tsx:144-147 | the success dialog closes, and every firing raises `onConversationEnded` (the `ended` result); nothing else changes |
| ChatWindow.StaleLoadStillApplies | client/src/components/ChatWindow.tsx:69-74 | a load for a previous id still replaces the list |
| ChatWindow.SendWhileSending | client/src/components/ChatWindow.tsx:82 | a second send in flight is ignored, and the first reply follows its own message |
| ChatWindow.SubmitFromInput | client/src/components/ChatWindow.tsx:262 | the box wired to the window: nothing while a send is in flight, otherwise the text moves from the box into the list |
| ChatPage.ChatPageState.constructor | client/src/pages/ChatPage.tsx:11-16 | the current id is the route parameter, and the counter is 0 |
| ChatPage.ChatPageState.RouteParamChanged | client/src/pages/ChatPage.tsx:18-22 | a present parameter becomes current; an absent one changes nothing |
| ChatPage.ChatPageState.NewConversation | client/src/pages/ChatPage.tsx:24-27 | to "/chats" with no current conversation |
| ChatPage.ChatPageState.SelectConversation | client/src/pages/ChatPage.tsx:29-36 | to the id's route; the id becomes current |
| ChatPage.ChatPageState.ConversationCreated | client/src/pages/ChatPage.tsx:38-45 | to the new id, which becomes current; the counter grows by one |
| ChatPage.ChatPageState.ConversationEnded | client/src/pages/ChatPage.tsx:47-51 | the counter grows by one; to "/chats" with no current conversation |
| ChatPage.NavigationSettles | client/src/pages/ChatPage.tsx:18-22 | the route effect after a navigation keeps the page valid, and leaves a one-segment current id (any UUID) alone |
| ChatPage.SendFromPage | client/src/pages/ChatPage.tsx:61-66 | the page adopts a created conversation and bumps the counter by one only then, and the window loads it |
| ChatPage.EndTimerElapsed | client/src/pages/ChatPage.tsx:47-51 | the window's end notification makes the page drop the current conversation and bump the counter by one, and the window then empties |
| AppLayout.CurrentPage | client/src/components/AppLayout.tsx:26-31 | the first matching prefix picks the page, and chat is the default (each case stated as an if-and-only-if) |
| AppLayout.PagePrefixesExclusive | client/src/components/AppLayout.tsx:27-29 | no path matches two of the prefixes |
| AppLayout.ChatPath | client/src/components/AppLayout.tsx:45-49 | "/chats/" + id, or "/chats" for null or "" |
| AppLayout.RouteParam | client/src/App.tsx:94 | "/chats/:conversationId?": a parameter is one non-empty segment without "/", and the path is "/chats/", then it, then only slashes |
| AppLayout.ChatPathRoundTrip | client/src/pages/ChatPage.tsx:29-36 | the route parameter of an id's route, with or without a trailing slash, is that id when the id is one segment; null and "" give none |
| AppLayout.SlashedIdsDoNotRoundTrip | client/src/App.tsx:94 | an id holding "/" does not come back: "/chats/a/b" is not the chat route, and "/chats/a/" names "a" |
| AppLayout.ChatPathIsChatPage | client/src/components/AppLayout.tsx:26-31 | every chat route selects the chat page |
| AppLayout.NewConversationAction | client/src/components/AppLayout.tsx:33-39 | delegates if and only if a callback is given, and otherwise navigates to "/chats" |
| AppLayout.SelectAction | client/src/components/AppLayout.tsx:41-51 | delegates the unchanged id if and only if a callback is given, and otherwise navigates to the id's route, whose parameter is a one-segment id |
| Sidebar.ArchiveToast | client/src/components/Sidebar.tsx:89 | "Chat archived" if and only if the server reports archived |
| Sidebar.LoadEffects | client/src/components/Sidebar.tsx:64-75 | one list call with the filter, plus an error toast exactly on failure |
| Sidebar.FormatDate | client/src/components/Sidebar.tsx:119-131 | "Today", "Yesterday", "<d>d ago" below 7, "<d/7>w ago" below 30, otherwise the locale date |
| Sidebar.WeekLabels | client/src/components/Sidebar.tsx:129 | 7 to 29 days read "1w ago" to "4w ago" |
| Sidebar.DayLabels | client/src/components/Sidebar.tsx:128 | 2 to 6 days read as one digit then "d ago"; a future date reads negative |
| Sidebar.ActiveFlags | client/src/components/Sidebar.tsx:228 | a row is active if and only if its id is the current id |
| Sidebar.OnlyCurrentRowActive | client/src/components/Sidebar.tsx:228 | with distinct ids exactly one row is active |
| Sidebar.SidebarState.constructor | client/src/components/Sidebar.tsx:40-52 | the first render: the given current id, an empty list that is not loading, without archived conversations, and the reload effect not yet run |
| Sidebar.SidebarState.CurrentChanged | client/src/components/Sidebar.tsx:41 | a new `currentConversationId` prop replaces the old one, so a later delete compares against it; nothing else changes |
| Sidebar.SidebarState.LoadConversations | client/src/components/Sidebar.tsx:64-75 | the list is replaced on success and kept on failure; loading ends |
| Sidebar.SidebarState.ArchiveConversation | client/src/components/Sidebar.tsx:86-95 | on success a toast from the returned flag, then a reload; on failure an error toast and no reload |
| Sidebar.SidebarState.DeleteConversation | client/src/components/Sidebar.tsx:97-109 | on success a toast, then the new-conversation callback exactly when the deleted conversation is current, then a reload; on failure neither |
| Sidebar.SidebarState.ToggleArchived | client/src/components/Sidebar.tsx:198 | the filter flips, and the list reloads with the new filter |
| Sidebar.SidebarState.RefreshTriggered | client/src/components/Sidebar.tsx:111-113 | the first render and every changed trigger value reload; an unchanged value does nothing |
| Sidebar.Mount | client/src/components/Sidebar.tsx:111-113 | mounting fetches the list at once, without archived conversations |
| ChatMessage.CloseFrom | client/src/components/ChatMessage.tsx:62 | lazy `.*?d`: ends at the first `d`, with no line terminator before it |
| ChatMessage.Delimited | client/src/components/ChatMessage.tsx:62 | a `d.*?d` match opens and closes with `d` on one line |
| ChatMessage.MatchAt | client/src/components/ChatMessage.tsx:62 | a match is non-empty and inside the text |
| ChatMessage.MatchIsToken | client/src/components/ChatMessage.tsx:62 | a match opens and closes with one of the delimiters and lies on one line |
| ChatMessage.SplitFromOdd | client/src/components/ChatMessage.tsx:62 | text and matches alternate, so the part count is odd |
| ChatMessage.Tokenize | client/src/components/ChatMessage.tsx:62 | the split gives an odd number of parts; with TokenizeConcat and TokenizeScans this fixes the split: the parts join to the text and are cut at exactly the leftmost matches |
| ChatMessage.ConcatAppend | client/src/components/ChatMessage.tsx:62 | joining two part lists joins their texts |
| ChatMessage.SplitFromConcat | client/src/components/ChatMessage.tsx:62 | the parts joined are the text |
| ChatMessage.TokenizeConcat | client/src/components/ChatMessage.tsx:62 | the split loses and adds nothing |
| ChatMessage.SplitFromTokens | client/src/components/ChatMessage.tsx:62 | every part at an odd position is a token with no line terminator |
| ChatMessage.TokenizeTokens | client/src/components/ChatMessage.tsx:62 | every part at an odd position is a `**…**`, `__…__` or backtick token with no line terminator inside |
| ChatMessage.SplitFromScans | client/src/components/ChatMessage.tsx:62 | the split scans left to right: no match starts inside a plain part, and each odd part is the match starting where the parts before it end |
| ChatMessage.TokenizeScans | client/src/components/ChatMessage.tsx:62 | with off(k) the length of the parts before part k: no match starts at any index inside an even part, and each odd part is `text[off(k)..MatchAt(text, off(k)).value]`, the leftmost match |
| ChatMessage.TokenizeFindsMatch | client/src/components/ChatMessage.tsx:62 | a text in which the pattern matches anywhere splits into three parts or more, so it is never returned whole |
| ChatMessage.SliceInner | client/src/components/ChatMessage.tsx:68 | `slice(a, -b)`: the middle, or "" when the ends cross |
| ChatMessage.RenderPart | client/src/components/ChatMessage.tsx:64-88 | a part is bold exactly when it opens and closes with "**", otherwise underlined exactly when it does so with "__", otherwise code exactly when it does so with a backtick; a part classified plain is shown unchanged |
| ChatMessage.TokenRewraps | client/src/components/ChatMessage.tsx:68 | a token is its delimiter, its inside and its delimiter again |
| ChatMessage.RenderTokenKeepsText | client/src/components/ChatMessage.tsx:65-87 | on a matched token, showing it only drops the delimiters |
| ChatMessage.LoneBacktickVanishes | client/src/components/ChatMessage.tsx:75-85 | as written, the message "`" is shown as an empty code span |
| ChatMessage.Render | client/src/components/ChatMessage.tsx:64-88 | corrected: only matched tokens are classified, and plain text is shown as it is |
| ChatMessage.RenderKeepsText | client/src/components/ChatMessage.tsx:61-90 | corrected: putting back the consumed delimiters gives every part, and the parts give the text |
| ChatMessage.SummaryMessageIsSummary | client/src/components/ChatMessage.tsx:34 | the message `end` stores is always detected as a summary |
| ChatMessage.CloseFromFirst | client/src/components/ChatMessage.tsx:62 | the lazy match closes at the first delimiter when no line terminator comes first |
| ChatMessage.SummaryMatch | client/src/components/ChatMessage.tsx:62 | the summary message's first match is its whole heading |
| ChatMessage.HeadingMatch | client/src/components/ChatMessage.tsx:62 | a text opening with the heading matches the heading first, in full |
| ChatMessage.SummaryHeadingIsBold | client/src/components/ChatMessage.tsx:62-70 | "Conversation Summary" is shown in bold |
| ChatMessage.ReactionButtons | client/src/components/ChatMessage.tsx:130-133 | heart, thumbsup and smile in order, each active if and only if it is in the local list |
| ChatMessage.AtMostOneActiveButton | client/src/components/ChatMessage.tsx:133 | with the server's single-reaction list, at most one button is active |
| ChatMessage.MessageActions.constructor | client/src/components/ChatMessage.tsx:28-37 | the local state starts from the props, defaulting to false and [] |
| ChatMessage.MessageActions.HandleBookmark | client/src/components/ChatMessage.tsx:39-48 | nothing without an id; otherwise the flag becomes the server's value and the parent is told, or nothing changes on failure |
| ChatMessage.MessageActions.HandleReaction | client/src/components/ChatMessage.tsx:50-59 | nothing without an id; otherwise the list becomes the server's and the parent is told, or nothing changes on failure |
| App.Resolve | client/src/App.tsx:16-40 | a protected page shows if and only if signed in, and otherwise redirects to /auth; /auth shows if and only if signed out, and otherwise redirects to /; shared pages are open |
| App.Landing | client/src/App.tsx:133-140 | following redirects ends on a shown page: never /auth or / when signed in, only /auth or a shared page when signed out |
| App.AppState.constructor | client/src/App.tsx:43-44 | signed out and loading |
| App.AppState.CheckAuth | client/src/App.tsx:60-69 | signed in exactly when the server says so; false on a throw; loading ends |
| App.AppState.InitApp | client/src/App.tsx:50-58 | the CSRF request, then `checkAuth`, whether or not the request failed |
| App.AppState.HandleLogout | client/src/App.tsx:71-73 | signed out, so every protected page redirects to /auth |
| App.AppState.HandleAuthSuccess | client/src/App.tsx:75-77 | signed in, so /auth leads to /chats |
| App.UserFlag | client/src/api/auth.ts:71-79 | an ok reply gives the server's flag; any other reply reads as signed out; neither throws |
| App.StartUp | client/src/App.tsx:50-69 | against the server, the shell is signed in if and only if the session holds a user |
| IntelligencePage.ExamplesAskable | client/src/pages/IntelligencePage.tsx:45-50 | every example question is non-blank |
| IntelligencePage.IntelligenceState.constructor | client/src/pages/IntelligencePage.tsx:13-17 | empty and idle |
| IntelligencePage.IntelligenceState.SetQuery | client/src/pages/IntelligencePage.tsx:70 | the question becomes the value, and nothing else changes |
| IntelligencePage.IntelligenceState.StartQuery | client/src/pages/IntelligencePage.tsx:26-32 | nothing for a blank question or while one is in flight; otherwise loading starts, the question counts as asked, and the answer and error clear |
| IntelligencePage.IntelligenceState.FinishQuery | client/src/pages/IntelligencePage.tsx:34-42 | the answer on success, the fixed error with no answer on failure; loading ends |
| IntelligencePage.IntelligenceState.HandleQuery | client/src/pages/IntelligencePage.tsx:26-43 | the whole handler: the guard, then one answer or one error; the question never changes |
| IntelligencePage.AskExample | client/src/pages/IntelligencePage.tsx:70 | clicking an example and asking always sends that example |
| AuthPage.SubmitError | client/src/pages/AuthPage.tsx:31 | the Error's message, or "Authentication failed" |
| AuthPage.AuthPageState.constructor | client/src/pages/AuthPage.tsx:12-16 | login mode, empty and idle |
| AuthPage.AuthPageState.Submit | client/src/pages/AuthPage.tsx:18-35 | login or register by mode; on success `onAuthSuccess` is called once and the error is clear; on failure the error text shows; loading ends |
| AuthPage.AuthPageState.ToggleMode | client/src/pages/AuthPage.tsx:84-87 | the mode flips and the error clears |
| AuthPage.ToggleTwice | client/src/pages/AuthPage.tsx:84-87 | switching twice restores the mode |
| AuthPage.Outcome | client/src/api/auth.ts:52-55 | success if and only if the reply is ok; otherwise an Error with the server's text when it is non-empty, and with the fallback in every other case |
| AuthPage.SignIn | client/src/pages/AuthPage.tsx:18-35 | against the server, sign-in succeeds if and only if the credentials authenticate, and otherwise shows "Invalid credentials" |
| ClientServer.SentText | client/src/api/client.ts:90-102 | `sendMessage` gives the window the AI text of a 2xx `send_message` reply, and the wrapper's error for any other |
| ClientServer.SendSettled | client/src/api/client.ts:90-102 | against the store, the send succeeds exactly when the text is not blank by Python's test; then the user and AI messages are appended to the thread and the AI text handed back is the one stored; otherwise nothing changes |
| ClientServer.SendInConversation | client/src/components/ChatWindow.tsx:109-119 | in an open conversation, the window shows the user's text and then the AI text the store kept; a text blank only by Python's test stores nothing and shows the apology |
| ClientServer.CreateAndSend | server/chat/views.py:56-57 | `create` stores an active conversation of the user with the requested title and answers 201 with it; the send that follows succeeds exactly for a non-blank text |
| ClientServer.FirstMessage | client/src/components/ChatWindow.tsx:92-108 | the conversation the window creates is stored with the requested title and the requested status "active"; the new id is reported exactly when the store kept the exchange, and the window shows the stored AI text |

## Left out

- The AI service and its 30 second timeout are not modelled. Each
  AI call is a parameter (`AiReply`). The prompts built from the
  conversation text are not modelled either.
- The `key_points` field of `end` is not modelled, because it parses AI
  output as JSON. Insights are stored as the AI text, or "" on failure.
- The `suggestions`, `query` and `analytics` actions are not modelled.
  They depend on the AI service, JSON parsing, ORM aggregation and
  floating point. The intelligence page takes the answer of `query` as a
  parameter.
- The PDF and JSON export payloads come from reportlab and `json.dumps`.
  Only their file names are modelled. The markdown text is modelled in
  full.
- ChatViews.Store.Export and ViewLogic.ExportFormatOf model the dispatch
  of server/chat/views.py:231-238 as if the `format` query parameter
  always reaches the action. DRF content negotiation is not modelled.
  With DRF's default `URL_FORMAT_OVERRIDE` of `format`, a value that
  names no renderer is refused with 404 before `export` runs. That would
  include the `pdf` and `markdown` values the client sends
  (client/src/api/client.ts:139-140), and only a missing parameter or
  `json` would reach the JSON export. The Django settings are not part of
  this model, so the model does not promise which of the two behaviours
  the deployed server has.
- The listing order by `-start_time` is not modelled, because the list is
  a set of ids.
- `ChatViews.Store.Bookmarked` orders by message id as a stand-in for the
  creation timestamp. The source orders by `-timestamp`, and timestamps
  here are opaque strings.
- `conversation.messages.all()` has no declared order in the source. It
  is modelled as creation order.
- Password hashing, `authenticate` and Django sessions are not modelled.
  Accounts are a map from username to password, and a session is the
  user it holds. Only one client's session is modelled.
- Generated values are parameters: conversation UUIDs, share tokens from
  `secrets.token_urlsafe` and `timezone.now()` timestamps.
- `ChatViews.Store.Share` requires the token parameter to be fresh and
  non-empty, which is what the token generator provides.
- The generic DRF actions (update and partial update) are not modelled,
  and neither is the serializer output beyond the fields used here.
- `ChatViews.Store.Branch` assumes the content is present. A missing
  `content` would fail at the database.
- `ChatViews.Store.React` takes the kind as a string. A request without
  `reaction` is not modelled.
- `Conversation.__str__` only returns the title, so it is not modelled.
- Case mapping is ASCII only in `Text.Lower`. Unicode case mappings are
  not modelled.
- The whitespace sets in `Text.IsSpace` and `Text.IsJsSpace` are the
  ones of current Unicode versions. Characters whose status changed
  between Unicode versions, such as U+180E, are not modelled.
- AppLayout.RouteParam does not percent-decode the parameter, and it
  matches "/chats" case-sensitively. The router decodes the parameter and
  ignores case.
- ClientServer.CreateAndSend: the store does not read the request's
  `status`. The serializer is not part of this model, so the stored status
  is the model default "active", which is also what the client asks for.
  The 201 body is reduced to the fields the client reads.
- JavaScript string lengths count UTF-16 code units, which the model
  counts as characters.
- Browser and network I/O are outside the model: fetch, cookies, blob
  download, clipboard, focus, scrolling and rendering.
- Toasts are modelled only in the sidebar, where they are part of the
  handler's order of effects. Navigation is a location field.
- The 2000 ms end timer is a separate later event,
  `ChatWindowState.FireEndTimer`.
- The share, export and suggestion buttons of the chat window are not
  modelled. They call wrappers whose results are only shown.
- The sidebar's logout button and username are not modelled.
- client/src/api/auth.ts is not part of this model, except where
  `App.UserFlag` and `AuthPage.Outcome` state what its wrappers yield.
- `Sidebar.FormatDate` takes the whole number of days as a parameter. The
  `Date` arithmetic and the locale date text are not modelled.
- client/src/pages/AnalyticsPage.tsx, client/src/pages/BookmarksPage.tsx
  and client/src/pages/SharedConversationPage.tsx are not part of this
  model.
- server/chat/migrations/0005_uuid_and_user_field.py and
  server/backend/urls.py are not part of this model.
- Handlers run one at a time. The only interleaving modelled is between
  the two halves of a send.

## Findings

| source | as written | input that shows it | evidently intended | confidence | as-written member | corrected member |
|---|---|---|---|---|---|---|
| client/src/components/ChatMessage.tsx:64-88 | every part of the split is classified by `startsWith`/`endsWith`, plain text included | the message "`" (a lone backtick) is plain text, yet it is shown as an empty code span and the backtick disappears | only matched tokens (odd positions) are classified; plain text is shown as it is | not executed | ChatMessage.LoneBacktickVanishes | ChatMessage.RenderKeepsText |
