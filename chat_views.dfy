/**
 * The server's conversation and message store and the actions of
 * `ConversationViewSet` and `MessageViewSet` that change or read it.
 *
 * Messages are kept by auto-incremented id; "creation order" is increasing
 * id. Conversation actions only see the requesting user's conversations
 * (anything else is 404); message actions look messages up without an
 * ownership check, as the message view set does.
 */
module ChatViews {
  import opened Base
  import opened Text
  import opened Models
  import opened ViewLogic

  /** The ids below `n` of the messages `keep` selects, in creation order. */
  function Below(msgs: map<MessageId, Message>, keep: Message -> bool, n: nat): (r: seq<MessageId>)
  {
    if n == 0 then []
    else Below(msgs, keep, n - 1) + (if n - 1 in msgs && keep(msgs[n - 1]) then [n - 1] else [])
  }

  /** The selection holds exactly the selected ids below `n`, in
      increasing order. */
  lemma {:induction false} BelowSelects(msgs: map<MessageId, Message>, keep: Message -> bool, n: nat)
    ensures forall k :: 0 <= k < |Below(msgs, keep, n)| ==>
              Below(msgs, keep, n)[k] < n && Below(msgs, keep, n)[k] in msgs && keep(msgs[Below(msgs, keep, n)[k]])
    ensures forall id :: id < n && id in msgs && keep(msgs[id]) ==> id in Below(msgs, keep, n)
    ensures forall a, b :: 0 <= a < b < |Below(msgs, keep, n)| ==> Below(msgs, keep, n)[a] < Below(msgs, keep, n)[b]
  {
    if n > 0 {
      BelowSelects(msgs, keep, n - 1);
      var prev := Below(msgs, keep, n - 1);
      var r := Below(msgs, keep, n);
      assert r == prev + (if n - 1 in msgs && keep(msgs[n - 1]) then [n - 1] else []);
      forall a, b | 0 <= a < b < |r|
        ensures r[a] < r[b]
      {
        if b < |prev| {
          assert r[a] == prev[a] && r[b] == prev[b];
        } else {
          assert r[a] == prev[a] && r[a] < n - 1;
        }
      }
    }
  }

  /** The selection below `n` only depends on the messages below `n` and on
      what `keep` says of them. */
  lemma {:induction false} BelowFrame(m1: map<MessageId, Message>, m2: map<MessageId, Message>, keep: Message -> bool, n: nat)
    requires forall id: MessageId :: id < n ==> (id in m1 <==> id in m2)
    requires forall id: MessageId :: id < n && id in m1 ==> keep(m1[id]) == keep(m2[id])
    ensures Below(m1, keep, n) == Below(m2, keep, n)
  {
    if n > 0 {
      BelowFrame(m1, m2, keep, n - 1);
    }
  }

  /** Nothing selected below `n` gives the empty selection. */
  lemma {:induction false} BelowNone(msgs: map<MessageId, Message>, keep: Message -> bool, n: nat)
    requires forall id :: id in msgs ==> !keep(msgs[id])
    ensures Below(msgs, keep, n) == []
  {
    if n > 0 {
      BelowNone(msgs, keep, n - 1);
    }
  }

  /** Newest first: the ids in reverse order. */
  function Reversed(s: seq<MessageId>): (r: seq<MessageId>)
    ensures |r| == |s|
    ensures forall k :: 0 <= k < |s| ==> r[k] == s[|s| - 1 - k]
    ensures forall x :: x in r <==> x in s
  {
    if s == [] then [] else Reversed(s[1..]) + [s[0]]
  }

  /** Creating message `n` adds it at the end of every selection it
      belongs to and leaves the others alone. */
  lemma BelowAppend(msgs: map<MessageId, Message>, keep: Message -> bool, n: nat, m: Message)
    requires forall id :: id in msgs ==> id < n
    ensures Below(msgs[n := m], keep, n + 1) == Below(msgs, keep, n) + (if keep(m) then [n] else [])
  {
    BelowFrame(msgs[n := m], msgs, keep, n);
  }

  /** A branch points back to an older message of the same conversation. */
  ghost predicate ParentLinked(msgs: map<MessageId, Message>, id: MessageId)
    requires id in msgs && msgs[id].parent.Some?
  {
    var p := msgs[id].parent.value;
    p < id && p in msgs && msgs[p].conversation == msgs[id].conversation
  }

  /** What every stored message satisfies: an id below `next` (ids start
      at 1), an existing conversation, a linked parent, at most one
      reaction. */
  ghost predicate MessagesValid(msgs: map<MessageId, Message>, convs: map<ConversationId, Conversation>, next: nat) {
    && (forall id :: id in msgs ==> 1 <= id < next)
    && (forall id :: id in msgs ==> msgs[id].conversation in convs)
    && (forall id :: id in msgs && msgs[id].parent.Some? ==> ParentLinked(msgs, id))
    && (forall id :: id in msgs ==> |CurrentReactions(msgs[id].reactions)| <= 1)
  }

  /** Storing a well-formed message under the next id keeps the messages
      valid. */
  lemma AppendValid(msgs: map<MessageId, Message>, convs: map<ConversationId, Conversation>, next: nat, m: Message)
    requires MessagesValid(msgs, convs, next) && 1 <= next
    requires m.conversation in convs
    requires m.parent.Some? ==> m.parent.value in msgs && msgs[m.parent.value].conversation == m.conversation
    requires |CurrentReactions(m.reactions)| <= 1
    ensures MessagesValid(msgs[next := m], convs, next + 1)
  {
    var msgs' := msgs[next := m];
    forall id | id in msgs' && msgs'[id].parent.Some?
      ensures ParentLinked(msgs', id)
    {
      if id != next {
        assert ParentLinked(msgs, id);
      }
    }
  }

  /** Storing a question and its answer (no parents) under the next two
      ids keeps the messages valid and appends both to their
      conversation. */
  lemma ExchangeValid(msgs: map<MessageId, Message>, convs: map<ConversationId, Conversation>, n: nat,
                      u: Message, a: Message)
    requires MessagesValid(msgs, convs, n) && 1 <= n
    requires u.conversation in convs && a.conversation == u.conversation
    requires u.parent.None? && a.parent.None?
    requires |CurrentReactions(u.reactions)| <= 1 && |CurrentReactions(a.reactions)| <= 1
    ensures MessagesValid(msgs[n := u][n + 1 := a], convs, n + 2)
    ensures Below(msgs[n := u][n + 1 := a], InConversation(u.conversation), n + 2)
            == Below(msgs, InConversation(u.conversation), n) + [n] + [n + 1]
  {
    AppendValid(msgs, convs, n, u);
    AppendValid(msgs[n := u], convs, n + 1, a);
    BelowAppend(msgs, InConversation(u.conversation), n, u);
    BelowAppend(msgs[n := u], InConversation(u.conversation), n + 1, a);
  }

  /** Replacing a stored message by one with the same conversation and
      parent and at most one reaction keeps the messages valid. */
  lemma ReplaceValid(msgs: map<MessageId, Message>, convs: map<ConversationId, Conversation>, next: nat,
                     mid: MessageId, m: Message)
    requires MessagesValid(msgs, convs, next) && mid in msgs
    requires m.conversation == msgs[mid].conversation && m.parent == msgs[mid].parent
    requires |CurrentReactions(m.reactions)| <= 1
    ensures MessagesValid(msgs[mid := m], convs, next)
  {
    var msgs' := msgs[mid := m];
    forall id | id in msgs' && msgs'[id].parent.Some?
      ensures ParentLinked(msgs', id)
    {
      assert ParentLinked(msgs, id);
    }
  }

  /** Every `Some` share token belongs to one conversation only. */
  ghost predicate TokensUnique(cs: map<ConversationId, Conversation>) {
    forall a, b :: a in cs && b in cs && a != b && cs[a].shareToken.Some? ==> cs[a].shareToken != cs[b].shareToken
  }

  /** `conversation.messages.all()`: the selector of one conversation. */
  function InConversation(c: ConversationId): Message -> bool {
    (m: Message) => m.conversation == c
  }

  /** `message.branches.all()`: the selector of one parent's children. */
  function ChildOf(p: MessageId): Message -> bool {
    (m: Message) => m.parent == Some(p)
  }

  /** A message is `root` or a branch of a branch of ... `root`. */
  predicate DescendsFrom(msgs: map<MessageId, Message>, id: MessageId, root: MessageId)
    decreases id
  {
    id == root ||
    (id in msgs && msgs[id].parent.Some? && msgs[id].parent.value < id &&
     DescendsFrom(msgs, msgs[id].parent.value, root))
  }

  datatype SendReply = SendReply(userMessage: string, aiResponse: string)
  datatype EndReply = EndReply(message: string, summary: string, insights: string)
  datatype ShareReply = ShareReply(shareToken: string, shareUrl: string)
  /** A conversation as the detail and shared views return it. */
  datatype ConversationView = ConversationView(id: ConversationId, conversation: Conversation, messages: seq<Message>)
  /** An export response: the payload kind and its attachment file name. */
  datatype ExportFile = JsonFile(filename: string) | PdfFile(filename: string) | MarkdownFile(filename: string, text: string)

  class Store {
    var conversations: map<ConversationId, Conversation>
    var messages: map<MessageId, Message>
    /** The id the next created message receives. */
    var nextId: MessageId

    ghost predicate Valid()
      reads this
    {
      && 1 <= nextId
      && MessagesValid(messages, conversations, nextId)
      && TokensUnique(conversations)
    }

    constructor ()
      ensures Valid()
      ensures conversations == map[] && messages == map[] && nextId == 1
    {
      conversations, messages, nextId := map[], map[], 1;
    }

    /** The conversation exists and belongs to `user` (`get_object`). */
    predicate Owns(user: UserId, id: ConversationId)
      reads this
    {
      id in conversations && conversations[id].owner == user
    }

    /** The ids of a conversation's messages, in creation order. */
    function Thread(c: ConversationId): seq<MessageId>
      reads this
    {
      Below(messages, InConversation(c), nextId)
    }

    /** The messages of a conversation, in creation order. */
    function ThreadMessages(c: ConversationId): (r: seq<Message>)
      reads this
      ensures |r| == |Thread(c)|
      ensures forall k :: 0 <= k < |r| ==> Thread(c)[k] in messages && r[k] == messages[Thread(c)[k]] && r[k].conversation == c
    {
      BelowSelects(messages, InConversation(c), nextId);
      var t := Thread(c);
      var ms := messages;
      seq(|t|, k requires 0 <= k < |t| => ms[t[k]])
    }

    /** The ids of a message's branches, in creation order. */
    function Children(p: MessageId): seq<MessageId>
      reads this
    {
      Below(messages, ChildOf(p), nextId)
    }

    /** Stores `m` under the next id: it becomes the last message of its
        conversation and the last branch of its parent. */
    method Append(m: Message) returns (n: MessageId)
      requires Valid()
      requires m.conversation in conversations
      requires m.parent.Some? ==> m.parent.value in messages && messages[m.parent.value].conversation == m.conversation
      requires |CurrentReactions(m.reactions)| <= 1
      modifies this
      ensures Valid()
      ensures n == old(nextId) && nextId == n + 1
      ensures messages == old(messages)[n := m] && conversations == old(conversations)
      ensures Thread(m.conversation) == old(Thread(m.conversation)) + [n]
      ensures m.parent.Some? ==> Children(m.parent.value) == old(Children(m.parent.value)) + [n]
    {
      n := nextId;
      AppendValid(messages, conversations, n, m);
      BelowAppend(messages, InConversation(m.conversation), n, m);
      if m.parent.Some? {
        BelowAppend(messages, ChildOf(m.parent.value), n, m);
      }
      messages := messages[n := m];
      nextId := n + 1;
    }

    /** `perform_create`: a new conversation of `user`; `id` stands for the
        freshly generated UUID. */
    method CreateConversation(user: UserId, title: string, id: ConversationId, now: Time)
      requires Valid() && id !in conversations
      modifies this
      ensures Valid()
      ensures conversations == old(conversations)[id := NewConversation(user, title, now)]
      ensures messages == old(messages) && nextId == old(nextId)
      ensures var c := conversations[id];
              c.status == ACTIVE && !c.isArchived && c.endTime.None? && c.summary.None? && c.shareToken.None?
      ensures Thread(id) == []
    {
      conversations := conversations[id := NewConversation(user, title, now)];
      BelowNone(messages, InConversation(id), nextId);
    }

    /** `send_message`: a blank message is refused; otherwise the user's
        message and then the AI's (cleaned) reply are stored. An AI failure
        still stores the apology and answers 200. */
    method SendMessage(user: UserId, id: ConversationId, content: Option<string>, reply: AiReply, now: Time)
      returns (r: Response<SendReply>)
      requires Valid()
      modifies this
      ensures Valid()
      ensures !old(Owns(user, id)) ==> r == NotFound && unchanged(this)
      ensures old(Owns(user, id)) && (content.None? || IsBlank(content.value)) ==>
                r == Refused(400, "Message content is required") && unchanged(this)
      ensures old(Owns(user, id)) && content.Some? && !IsBlank(content.value) ==>
                var n := old(nextId);
                && conversations == old(conversations)
                && nextId == n + 2
                && messages == old(messages)[n := NewMessage(id, User, content.value, now, None, None)]
                                            [n + 1 := NewMessage(id, Ai, AiMessageContent(reply), now, None, None)]
                && Thread(id) == old(Thread(id)) + [n] + [n + 1]
                && r == Reply(200, SendReply(content.value, AiMessageContent(reply)))
      ensures r.Reply? <==> old(Owns(user, id)) && content.Some? && !IsBlank(content.value)
      ensures r.Reply? ==>
                && r.status == 200 && old(nextId) in messages && old(nextId) + 1 in messages
                && r.body == SendReply(messages[old(nextId)].content, messages[old(nextId) + 1].content)
    {
      if !Owns(user, id) {
        r := NotFound;
      } else if content.None? || IsBlank(content.value) {
        r := Refused(400, "Message content is required");
      } else {
        r := AppendExchange(id, content.value, AiMessageContent(reply), now);
      }
    }

    /** The two messages of an accepted `send_message` and its reply. */
    method AppendExchange(id: ConversationId, text: string, aiText: string, now: Time)
      returns (r: Response<SendReply>)
      requires Valid() && id in conversations
      modifies this
      ensures Valid()
      ensures var n := old(nextId);
              && conversations == old(conversations)
              && nextId == n + 2
              && messages == old(messages)[n := NewMessage(id, User, text, now, None, None)]
                                          [n + 1 := NewMessage(id, Ai, aiText, now, None, None)]
              && Thread(id) == old(Thread(id)) + [n] + [n + 1]
              && r == Reply(200, SendReply(text, aiText))
    {
      var n := nextId;
      var userMessage := NewMessage(id, User, text, now, None, None);
      var aiMessage := NewMessage(id, Ai, aiText, now, None, None);
      ExchangeValid(messages, conversations, n, userMessage, aiMessage);
      messages := messages[n := userMessage][n + 1 := aiMessage];
      nextId := n + 2;
      r := Reply(200, SendReply(text, aiText));
    }

    /** `end`: the conversation is marked ended with its end time, summary
        and insights, and one summary message is appended. Nothing stops a
        conversation from being ended again. */
    method End(user: UserId, id: ConversationId, summaryReply: AiReply, insightsReply: AiReply, now: Time)
      returns (r: Response<EndReply>)
      requires Valid()
      modifies this
      ensures Valid()
      ensures !old(Owns(user, id)) ==> r == NotFound && unchanged(this)
      ensures old(Owns(user, id)) ==>
                var n := old(nextId);
                var summary := SummaryText(summaryReply);
                && conversations == old(conversations)[id := old(conversations[id]).(
                     endTime := Some(now), status := ENDED,
                     summary := Some(summary), insights := Some(InsightsText(insightsReply)))]
                && nextId == n + 1
                && messages == old(messages)[n := NewMessage(id, Ai, SummaryMessageContent(summary), now, None, None)]
                && Thread(id) == old(Thread(id)) + [n]
                && r == Reply(200, EndReply("Conversation ended", summary, InsightsText(insightsReply)))
    {
      if !Owns(user, id) {
        return NotFound;
      }
      var c := conversations[id];
      var summary := SummaryText(summaryReply);
      var insights := InsightsText(insightsReply);
      conversations := conversations[id := c.(endTime := Some(now), status := ENDED,
                                              summary := Some(summary), insights := Some(insights))];
      var n := Append(NewMessage(id, Ai, SummaryMessageContent(summary), now, None, None));
      r := Reply(200, EndReply("Conversation ended", summary, insights));
    }

    /** `archive`: flips `is_archived` and reports the new value. */
    method Archive(user: UserId, id: ConversationId) returns (r: Response<bool>)
      requires Valid()
      modifies this
      ensures Valid()
      ensures !old(Owns(user, id)) ==> r == NotFound && unchanged(this)
      ensures old(Owns(user, id)) ==>
                && conversations == old(conversations)[id := old(conversations[id]).(isArchived := !old(conversations[id].isArchived))]
                && messages == old(messages) && nextId == old(nextId)
                && r == Reply(200, conversations[id].isArchived)
    {
      if !Owns(user, id) {
        return NotFound;
      }
      var c := conversations[id];
      conversations := conversations[id := c.(isArchived := !c.isArchived)];
      r := Reply(200, !c.isArchived);
    }

    /** `share`: a token is generated only when the conversation has none
        (null or ""); the reply carries the token and "/shared/" + token.
        `token` stands for the output of `secrets.token_urlsafe(32)`. */
    method Share(user: UserId, id: ConversationId, token: string) returns (r: Response<ShareReply>)
      requires Valid()
      requires token != "" && forall c :: c in conversations ==> conversations[c].shareToken != Some(token)
      modifies this
      ensures Valid()
      ensures !old(Owns(user, id)) ==> r == NotFound && unchanged(this)
      ensures old(Owns(user, id)) && Truthy(old(conversations[id].shareToken)) ==>
                var t := old(conversations[id].shareToken.value);
                unchanged(this) && r == Reply(200, ShareReply(t, "/shared/" + t))
      ensures old(Owns(user, id)) && !Truthy(old(conversations[id].shareToken)) ==>
                && conversations == old(conversations)[id := old(conversations[id]).(shareToken := Some(token))]
                && messages == old(messages) && nextId == old(nextId)
                && r == Reply(200, ShareReply(token, "/shared/" + token))
    {
      if !Owns(user, id) {
        return NotFound;
      }
      var c := conversations[id];
      if !Truthy(c.shareToken) {
        c := c.(shareToken := Some(token));
        conversations := conversations[id := c];
      }
      var t := c.shareToken.value;
      r := Reply(200, ShareReply(t, "/shared/" + t));
    }

    /** `get_shared`: the conversation holding the token, for anyone; 404
        when no conversation holds it. */
    method GetShared(token: string) returns (r: Response<ConversationView>)
      requires Valid()
      ensures r.Reply? <==> exists c :: c in conversations && conversations[c].shareToken == Some(token)
      ensures r.Reply? ==> r.status == 200 && r.body.id in conversations &&
                           r.body.conversation == conversations[r.body.id] &&
                           r.body.conversation.shareToken == Some(token) &&
                           r.body.messages == ThreadMessages(r.body.id)
      ensures !r.Reply? ==> r == Refused(404, "Conversation not found")
    {
      if c :| c in conversations && conversations[c].shareToken == Some(token) {
        r := Reply(200, ConversationView(c, conversations[c], ThreadMessages(c)));
      } else {
        r := Refused(404, "Conversation not found");
      }
    }

    /** `retrieve`: one of the user's conversations with its messages. */
    method Retrieve(user: UserId, id: ConversationId) returns (r: Response<ConversationView>)
      requires Valid()
      ensures r.Reply? <==> Owns(user, id)
      ensures r.Reply? ==> r == Reply(200, ConversationView(id, conversations[id], ThreadMessages(id)))
      ensures !r.Reply? ==> r == NotFound
    {
      if !Owns(user, id) {
        return NotFound;
      }
      r := Reply(200, ConversationView(id, conversations[id], ThreadMessages(id)));
    }

    /** `export`: dispatches on the `format` parameter; only the markdown
        payload is modelled as text. */
    method Export(user: UserId, id: ConversationId, format: Option<string>) returns (r: Response<ExportFile>)
      requires Valid()
      ensures !Owns(user, id) ==> r == NotFound
      ensures Owns(user, id) ==> r.Reply? && r.status == 200
      ensures Owns(user, id) ==>
                match ExportFormatOf(format)
                case PdfExport => r.body == PdfFile("conversation_" + id + ".pdf")
                case MarkdownExport =>
                  r.body == MarkdownFile("conversation_" + id + ".md", MarkdownText(conversations[id], ThreadMessages(id)))
                case JsonExport => r.body == JsonFile("conversation_" + id + ".json")
    {
      if !Owns(user, id) {
        return NotFound;
      }
      var format := ExportFormatOf(format);
      match format
      case PdfExport =>
        r := Reply(200, PdfFile("conversation_" + id + ".pdf"));
      case MarkdownExport =>
        var text := ExportMarkdown(conversations[id], ThreadMessages(id));
        r := Reply(200, MarkdownFile("conversation_" + id + ".md", text));
      case JsonExport =>
        r := Reply(200, JsonFile("conversation_" + id + ".json"));
    }

    /** `destroy` on a conversation: it and all its messages are deleted. */
    method DeleteConversation(user: UserId, id: ConversationId) returns (r: Response<()>)
      requires Valid()
      modifies this
      ensures Valid()
      ensures !old(Owns(user, id)) ==> r == NotFound && unchanged(this)
      ensures old(Owns(user, id)) ==>
                && conversations == old(conversations) - {id}
                && (forall k :: k in messages <==> k in old(messages) && old(messages)[k].conversation != id)
                && (forall k :: k in messages ==> messages[k] == old(messages)[k])
                && nextId == old(nextId)
                && r == Reply(204, ())
    {
      if !Owns(user, id) {
        return NotFound;
      }
      var kept := map k | k in messages && messages[k].conversation != id :: messages[k];
      conversations := conversations - {id};
      messages := kept;
      r := Reply(204, ());
    }

    /** `bookmark`: flips `is_bookmarked` and reports the new value. */
    method Bookmark(mid: MessageId) returns (r: Response<bool>)
      requires Valid()
      modifies this
      ensures Valid()
      ensures mid !in old(messages) ==> r == NotFound && unchanged(this)
      ensures mid in old(messages) ==>
                && messages == old(messages)[mid := old(messages[mid]).(isBookmarked := !old(messages[mid].isBookmarked))]
                && conversations == old(conversations) && nextId == old(nextId)
                && r == Reply(200, messages[mid].isBookmarked)
    {
      if mid !in messages {
        return NotFound;
      }
      var m := messages[mid];
      ReplaceValid(messages, conversations, nextId, mid, m.(isBookmarked := !m.isBookmarked));
      messages := messages[mid := m.(isBookmarked := !m.isBookmarked)];
      r := Reply(200, !m.isBookmarked);
    }

    /** `react`: toggles one reaction kind; the message keeps at most one. */
    method React(mid: MessageId, kind: string) returns (r: Response<seq<string>>)
      requires Valid()
      modifies this
      ensures Valid()
      ensures mid !in old(messages) ==> r == NotFound && unchanged(this)
      ensures mid in old(messages) ==>
                var reactions := ToggleReaction(old(messages[mid].reactions), kind);
                && messages == old(messages)[mid := old(messages[mid]).(reactions := Some(reactions))]
                && conversations == old(conversations) && nextId == old(nextId)
                && |reactions| <= 1
                && r == Reply(200, reactions)
    {
      if mid !in messages {
        return NotFound;
      }
      var m := messages[mid];
      var reactions := ToggleReaction(m.reactions, kind);
      ToggleKeepsAtMostOne(m.reactions, kind);
      assert CurrentReactions(Some(reactions)) == reactions;
      ReplaceValid(messages, conversations, nextId, mid, m.(reactions := Some(reactions)));
      messages := messages[mid := m.(reactions := Some(reactions))];
      r := Reply(200, reactions);
    }

    /** `bookmarked`: the bookmarked messages of the user's conversations,
        newest first. */
    function Bookmarked(user: UserId): (r: seq<MessageId>)
      reads this
      ensures forall id :: id in r <==>
                id < nextId && id in messages && messages[id].isBookmarked &&
                messages[id].conversation in conversations &&
                conversations[messages[id].conversation].owner == user
      ensures forall a, b :: 0 <= a < b < |r| ==> r[a] > r[b]
    {
      var cs := conversations;
      BelowSelects(messages, (m: Message) => m.isBookmarked && m.conversation in cs && cs[m.conversation].owner == user, nextId);
      Reversed(Below(messages, (m: Message) => m.isBookmarked && m.conversation in cs && cs[m.conversation].owner == user, nextId))
    }

    /** `branch`: a new message in the parent's conversation, from the
        parent's sender, pointing at the parent and labelled with the given
        branch name or "Alternative response". The parent is not changed;
        the branch becomes the parent's last child and, being a message of
        the same conversation, also the conversation's last message. */
    method Branch(mid: MessageId, content: string, branchName: Option<string>, now: Time)
      returns (r: Response<Message>)
      requires Valid()
      modifies this
      ensures Valid()
      ensures mid !in old(messages) ==> r == NotFound && unchanged(this)
      ensures mid in old(messages) ==>
                var n := old(nextId);
                var p := old(messages[mid]);
                var b := NewMessage(p.conversation, p.sender, content, now, Some(mid), Some(branchName.GetOr(DEFAULT_BRANCH_NAME)));
                && messages == old(messages)[n := b]
                && messages[mid] == p
                && conversations == old(conversations) && nextId == n + 1
                && Children(mid) == old(Children(mid)) + [n]
                && Thread(p.conversation) == old(Thread(p.conversation)) + [n]
                && r == Reply(200, b)
    {
      if mid !in messages {
        return NotFound;
      }
      var p := messages[mid];
      var b := NewMessage(p.conversation, p.sender, content, now, Some(mid), Some(branchName.GetOr(DEFAULT_BRANCH_NAME)));
      var n := Append(b);
      r := Reply(200, b);
    }

    /** `get_branches`: exactly the messages whose parent is `mid`. */
    method GetBranches(mid: MessageId) returns (r: Response<seq<MessageId>>)
      requires Valid()
      ensures mid !in messages ==> r == NotFound
      ensures mid in messages ==> r.Reply? && r.status == 200
      ensures r.Reply? ==> forall id :: id in r.body <==> id in messages && messages[id].parent == Some(mid)
    {
      if mid !in messages {
        return NotFound;
      }
      BelowSelects(messages, ChildOf(mid), nextId);
      r := Reply(200, Children(mid));
    }

    /** `destroy` on a message: it and, by cascade, every branch below it
        are deleted. */
    method DeleteMessage(mid: MessageId) returns (r: Response<()>)
      requires Valid()
      modifies this
      ensures Valid()
      ensures mid !in old(messages) ==> r == NotFound && unchanged(this)
      ensures mid in old(messages) ==>
                && (forall k :: k in messages <==> k in old(messages) && !DescendsFrom(old(messages), k, mid))
                && (forall k :: k in messages ==> messages[k] == old(messages)[k])
                && conversations == old(conversations) && nextId == old(nextId)
                && r == Reply(204, ())
    {
      if mid !in messages {
        return NotFound;
      }
      var before := messages;
      messages := map k | k in before && !DescendsFrom(before, k, mid) :: before[k];
      forall id | id in messages && messages[id].parent.Some?
        ensures ParentLinked(messages, id)
      {
        var p := before[id].parent.value;
        assert p < id && p in before;
        assert DescendsFrom(before, p, mid) ==> DescendsFrom(before, id, mid);
      }
      r := Reply(204, ());
    }
  }

  /** Sharing twice returns the same token and URL: the second call finds
      the token the first one stored. */
  method ShareIsStable(s: Store, user: UserId, id: ConversationId, t1: string, t2: string)
    returns (first: Response<ShareReply>, second: Response<ShareReply>)
    requires s.Valid() && s.Owns(user, id)
    requires t1 != "" && forall c :: c in s.conversations ==> s.conversations[c].shareToken != Some(t1)
    requires t2 != "" && t2 != t1 && forall c :: c in s.conversations ==> s.conversations[c].shareToken != Some(t2)
    modifies s
    ensures first.Reply? && first == second
  {
    first := s.Share(user, id, t1);
    second := s.Share(user, id, t2);
  }

  /** Archiving twice restores the flag and the whole store. */
  method ArchiveTwiceRestores(s: Store, user: UserId, id: ConversationId)
    returns (first: Response<bool>, second: Response<bool>)
    requires s.Valid() && s.Owns(user, id)
    modifies s
    ensures first == Reply(200, !old(s.conversations[id].isArchived))
    ensures second == Reply(200, old(s.conversations[id].isArchived))
    ensures s.conversations == old(s.conversations) && s.messages == old(s.messages)
  {
    first := s.Archive(user, id);
    second := s.Archive(user, id);
  }

  /** Bookmarking twice restores the flag and the whole store. */
  method BookmarkTwiceRestores(s: Store, mid: MessageId)
    returns (first: Response<bool>, second: Response<bool>)
    requires s.Valid() && mid in s.messages
    modifies s
    ensures first == Reply(200, !old(s.messages[mid].isBookmarked))
    ensures second == Reply(200, old(s.messages[mid].isBookmarked))
    ensures s.conversations == old(s.conversations) && s.messages == old(s.messages)
  {
    first := s.Bookmark(mid);
    second := s.Bookmark(mid);
  }

  /** Ending twice appends two summary messages: there is no guard. */
  method EndTwiceAppendsTwice(s: Store, user: UserId, id: ConversationId, a: AiReply, b: AiReply, now: Time)
    requires s.Valid() && s.Owns(user, id)
    modifies s
    ensures |s.Thread(id)| == |old(s.Thread(id))| + 2
    ensures s.Owns(user, id) && s.conversations[id].status == ENDED
  {
    var r1 := s.End(user, id, a, a, now);
    var r2 := s.End(user, id, b, b, now);
  }
}
