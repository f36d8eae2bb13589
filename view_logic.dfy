/**
 * The pure decisions inside the conversation and message views: how the
 * AI reply is cleaned, how a reaction is toggled, which conversations the
 * list shows, which export is produced and the markdown export text.
 */
module ViewLogic {
  import opened Base
  import opened Text
  import opened Models

  const AI_APOLOGY := "I apologize, but I'm having trouble connecting to the AI service. Please check your GEMINI_API_KEY configuration or try again later."
  const SUMMARY_FAILED := "Summary generation failed."
  /** The summary message's heading: its title in bold markup. */
  const SUMMARY_TITLE := "Conversation Summary"
  const SUMMARY_HEADING := "**" + SUMMARY_TITLE + "**"
  const DEFAULT_BRANCH_NAME := "Alternative response"

  /** One call of the AI service: the stripped generated text, or a failure
      (any exception, including the 30 second timeout). */
  datatype AiReply = Generated(text: string) | Unavailable

  /** The `content` field `_generate_ai_response` reports. */
  function ReplyContent(r: AiReply): string {
    match r
    case Generated(t) => t
    case Unavailable => AI_APOLOGY
  }

  /** The (left-stripped) reply starts with "ai:" in any letter case. */
  predicate HasAiTag(t: string) {
    |t| >= 3 && Lower(t[..3]) == "ai:"
  }

  /** The cleaning `send_message` applies to the AI text before storing it. */
  function StripAiTag(s: string): (r: string)
    ensures !HasAiTag(LStrip(s)) ==> r == s
    ensures HasAiTag(LStrip(s)) ==> |r| + 3 <= |s| && r == s[|s| - |r|..] && (r == [] || !IsSpace(r[0]))
  {
    var t := LStrip(s);
    if HasAiTag(t) then LStrip(t[3..]) else s
  }

  /** A reply written as whitespace, a three-letter "ai:" tag in any case,
      more whitespace and a body is cleaned to exactly the body. */
  lemma StripAiTagRemovesTag(ws: string, tag: string, gap: string, body: string)
    requires IsBlank(ws) && IsBlank(gap)
    requires |tag| == 3 && Lower(tag) == "ai:"
    requires body == [] || !IsSpace(body[0])
    ensures StripAiTag(ws + tag + gap + body) == body
  {
    var t := tag + (gap + body);
    TaggedText(tag, gap + body);
    AppendAssoc(ws + tag, gap, body);
    AppendAssoc(ws, tag, gap + body);
    LStripBlankPrefix(ws, t);
    LStripBlankPrefix(gap, body);
  }

  /** Text opening with an "ai:" tag starts with a letter, carries the tag,
      and leaves the rest after it. */
  lemma TaggedText(tag: string, rest: string)
    requires |tag| == 3 && Lower(tag) == "ai:"
    ensures !IsSpace((tag + rest)[0]) && HasAiTag(tag + rest) && (tag + rest)[3..] == rest
  {
    var t := tag + rest;
    assert LowerChar(tag[0]) == Lower(tag)[0] == 'a';
    assert t[0] == tag[0];
    assert t[..3] == tag;
  }

  /** Only the first tag is removed: a reply that repeats the tag keeps the
      second one. */
  lemma StripAiTagOnlyOnce(body: string)
    requires body == [] || !IsSpace(body[0])
    ensures StripAiTag("ai: ai: " + body) == "ai: " + body
  {
    assert "ai: ai: " + body == [] + "ai:" + " " + ("ai: " + body);
    StripAiTagRemovesTag([], "ai:", " ", "ai: " + body);
  }

  /** The stored AI message content of `send_message`. */
  function AiMessageContent(r: AiReply): string {
    StripAiTag(ReplyContent(r))
  }

  /** The summary `end` stores: the generated text, or a fixed notice. */
  function SummaryText(r: AiReply): (s: string)
    ensures r.Generated? ==> s == r.text
    ensures r.Unavailable? ==> s == SUMMARY_FAILED
  {
    if r.Generated? then r.text else SUMMARY_FAILED
  }

  /** The insights `end` stores: the generated text, or "". */
  function InsightsText(r: AiReply): string {
    if r.Generated? then r.text else ""
  }

  /** The content of the message `end` appends. */
  function SummaryMessageContent(summary: string): (c: string)
    ensures |c| == |SUMMARY_HEADING| + 2 + |summary|
    ensures SUMMARY_HEADING <= c
    ensures c[|SUMMARY_HEADING|..|SUMMARY_HEADING| + 2] == "\n\n"
    ensures c[|SUMMARY_HEADING| + 2..] == summary
  {
    SUMMARY_HEADING + "\n\n" + summary
  }

  // ---------------------------------------------------------------------
  // Reactions

  /** `list.index(x)`: the position of the first occurrence of `x`. */
  function FirstIndex(s: seq<string>, x: string): (i: nat)
    requires x in s
    ensures i < |s| && s[i] == x && x !in s[..i]
  {
    if s[0] == x then 0
    else
      var j := FirstIndex(s[1..], x);
      assert s[..1 + j] == [s[0]] + s[1..][..j];
      1 + j
  }

  /** Dropping position `i` removes one copy of `s[i]` and nothing else. */
  lemma DropAt(s: seq<string>, i: nat)
    requires i < |s|
    ensures multiset(s[..i] + s[i + 1..]) == multiset(s) - multiset{s[i]}
  {
    assert s == s[..i] + [s[i]] + s[i + 1..];
  }

  /** Dropping position `j` of the tail and putting the head back is
      dropping position `j + 1`. */
  lemma ConsDropAt(s: seq<string>, j: nat)
    requires j + 1 < |s|
    ensures [s[0]] + (s[1..][..j] + s[1..][j + 1..]) == s[..j + 1] + s[j + 2..]
  {
    assert s[..j + 1] == [s[0]] + s[1..][..j];
    assert s[j + 2..] == s[1..][j + 1..];
  }

  /** `list.remove(x)`: drop the first occurrence of `x`, keeping the
      order of everything else. */
  function RemoveFirst(s: seq<string>, x: string): (r: seq<string>)
    requires x in s
    ensures r == s[..FirstIndex(s, x)] + s[FirstIndex(s, x) + 1..]
    ensures |r| == |s| - 1
    ensures multiset(r) == multiset(s) - multiset{x}
  {
    DropAt(s, FirstIndex(s, x));
    if s[0] == x then s[1..]
    else
      ConsDropAt(s, FirstIndex(s[1..], x));
      [s[0]] + RemoveFirst(s[1..], x)
  }

  /** The stored reactions as `react` first reads them: null is []. */
  function CurrentReactions(stored: Option<seq<string>>): seq<string> {
    if stored.None? then [] else stored.value
  }

  /** The reactions list `react` stores: a kind already present is removed
      (its first occurrence); otherwise the list is cleared and the kind
      becomes its only element. */
  function ToggleReaction(stored: Option<seq<string>>, kind: string): (r: seq<string>)
    ensures kind in CurrentReactions(stored) ==>
              |r| == |CurrentReactions(stored)| - 1 &&
              multiset(r) == multiset(CurrentReactions(stored)) - multiset{kind}
    ensures kind !in CurrentReactions(stored) ==> r == [kind]
  {
    var current := CurrentReactions(stored);
    if kind in current then RemoveFirst(current, kind) else [kind]
  }

  /** A message never carries more than one reaction once `react` has
      touched it: from at most one reaction the result is [] or [kind]. */
  lemma ToggleKeepsAtMostOne(stored: Option<seq<string>>, kind: string)
    requires |CurrentReactions(stored)| <= 1
    ensures ToggleReaction(stored, kind) == [] || ToggleReaction(stored, kind) == [kind]
  {
    var current := CurrentReactions(stored);
    if kind in current {
      assert current == [kind];
    }
  }

  /** Reacting twice with the same kind restores the reactions exactly when
      they were empty or that kind alone; a different kind is lost. */
  lemma ToggleTwice(stored: Option<seq<string>>, kind: string)
    requires |CurrentReactions(stored)| <= 1
    ensures var once := ToggleReaction(stored, kind);
            (ToggleReaction(Some(once), kind) == CurrentReactions(stored)) <==>
            (CurrentReactions(stored) == [] || CurrentReactions(stored) == [kind])
  {
    var current := CurrentReactions(stored);
    ToggleKeepsAtMostOne(stored, kind);
    if current != [] && current != [kind] {
      assert current == [current[0]] && current[0] != kind;
      assert ToggleReaction(stored, kind) == [kind];
      assert ToggleReaction(Some([kind]), kind) == [];
    } else if current == [kind] {
      assert ToggleReaction(stored, kind) == [];
    }
  }

  /** Reactions are not independent per kind: "heart" then "thumbsup" on a
      message without reactions leaves only "thumbsup". */
  lemma ReactionsReplaceEachOther()
    ensures ToggleReaction(Some(ToggleReaction(Some([]), "heart")), "thumbsup") == ["thumbsup"]
  {
    assert ToggleReaction(Some([]), "heart") == ["heart"];
    assert "thumbsup" !in ["heart"];
  }

  // ---------------------------------------------------------------------
  // The conversation list

  /** `show_archived` read from the query string: default "false", compared
      case-insensitively with "true". */
  function ShowArchivedFlag(param: Option<string>): (b: bool)
    ensures param.None? ==> !b
    ensures b <==> param.Some? && Lower(param.value) == "true"
  {
    Lower(param.GetOr("false")) == "true"
  }

  /** The ids the `list` action returns to `user`: the user's conversations,
      without the archived ones unless the flag is set. */
  function ListedIds(conversations: map<ConversationId, Conversation>, user: UserId, param: Option<string>): (r: set<ConversationId>)
    ensures r <= conversations.Keys
    ensures forall id :: id in r ==> conversations[id].owner == user
  {
    set id | id in conversations && conversations[id].owner == user &&
             (ShowArchivedFlag(param) || !conversations[id].isArchived)
  }

  /** The ids of the user's conversations, archived or not. */
  function OwnedIds(conversations: map<ConversationId, Conversation>, user: UserId): set<ConversationId> {
    set id | id in conversations && conversations[id].owner == user
  }

  /** With the flag set the list holds every conversation of the user,
      archived and unarchived alike; without it, exactly the unarchived
      ones. The two views therefore overlap rather than partition. */
  lemma ListedWithAndWithoutFlag(conversations: map<ConversationId, Conversation>, user: UserId, param: Option<string>)
    ensures ShowArchivedFlag(param) ==> ListedIds(conversations, user, param) == OwnedIds(conversations, user)
    ensures !ShowArchivedFlag(param) ==>
              ListedIds(conversations, user, param) ==
              set id | id in OwnedIds(conversations, user) && !conversations[id].isArchived
    ensures ListedIds(conversations, user, None) <= ListedIds(conversations, user, Some("true"))
  {
    assert ShowArchivedFlag(Some("true")) by { assert Lower("true") == "true"; }
  }

  // ---------------------------------------------------------------------
  // Export

  datatype ExportFormat = JsonExport | PdfExport | MarkdownExport

  /** The `format` query parameter (default "json"): "pdf" and "markdown"
      select those exports, any other value the JSON export. */
  function ExportFormatOf(param: Option<string>): (f: ExportFormat)
    ensures f == PdfExport <==> param == Some("pdf")
    ensures f == MarkdownExport <==> param == Some("markdown")
  {
    var format := param.GetOr("json");
    if format == "pdf" then PdfExport
    else if format == "markdown" then MarkdownExport
    else JsonExport
  }

  /** The text before the message list: title, start time, end time when
      set, summary when non-empty, then the "## Messages" heading. */
  function MarkdownHeader(c: Conversation): string {
    ("# " + c.title + "\n\n")
    + ("**Start Time:** " + c.startTime + "\n\n")
    + EndTimeLine(c)
    + SummarySection(c)
    + "## Messages\n\n"
  }

  function EndTimeLine(c: Conversation): string {
    if c.endTime.Some? then "**End Time:** " + c.endTime.value + "\n\n" else ""
  }

  /** Present only when the summary is set and non-empty. */
  function SummarySection(c: Conversation): string {
    if c.summary.Some? && c.summary.value != "" then "## Summary\n\n" + c.summary.value + "\n\n" else ""
  }

  function SenderLabel(s: Sender): string {
    if s == User then "**User:**" else "**AI:**"
  }

  /** The text one message contributes to the markdown export. */
  function MessageBlock(m: Message): string {
    SenderLabel(m.sender) + "\n\n" + m.content + "\n\n---\n\n"
  }

  /** The blocks of a sequence of messages, in order. */
  function Blocks(ms: seq<Message>): string {
    if ms == [] then "" else Blocks(ms[..|ms| - 1]) + MessageBlock(ms[|ms| - 1])
  }

  /** The whole markdown export of a conversation and its messages. */
  function MarkdownText(c: Conversation, ms: seq<Message>): string {
    MarkdownHeader(c) + Blocks(ms)
  }

  /** The blocks of two consecutive runs of messages are the concatenation
      of their blocks. */
  lemma {:induction false} BlocksAppend(a: seq<Message>, b: seq<Message>)
    ensures Blocks(a + b) == Blocks(a) + Blocks(b)
    decreases |b|
  {
    if b != [] {
      var b' := b[..|b| - 1];
      assert (a + b)[..|a + b| - 1] == a + b';
      assert (a + b)[|a + b| - 1] == b[|b| - 1];
      BlocksAppend(a, b');
      AppendAssoc(Blocks(a), Blocks(b'), MessageBlock(b[|b| - 1]));
    } else {
      assert a + b == a;
    }
  }

  /** Every message appears in the export, in order: the export is the
      header, the blocks before message k, its block, and the blocks after. */
  lemma MarkdownListsMessageInPlace(c: Conversation, ms: seq<Message>, k: nat)
    requires k < |ms|
    ensures MarkdownText(c, ms) ==
            MarkdownHeader(c) + Blocks(ms[..k]) + MessageBlock(ms[k]) + Blocks(ms[k + 1..])
  {
    var h, before, after := MarkdownHeader(c), ms[..k], ms[k + 1..];
    assert ms == before + [ms[k]] + after;
    BlocksAppend(before + [ms[k]], after);
    BlocksAppend(before, [ms[k]]);
    assert Blocks([ms[k]]) == MessageBlock(ms[k]) by {
      assert [ms[k]][..0] == [];
    }
    AppendAssoc(h, Blocks(before) + MessageBlock(ms[k]), Blocks(after));
    AppendAssoc(h, Blocks(before), MessageBlock(ms[k]));
  }

  /** `_export_markdown`: the text is built by appending to a string. */
  method ExportMarkdown(c: Conversation, ms: seq<Message>) returns (content: string)
    ensures content == MarkdownText(c, ms)
  {
    content := "# " + c.title + "\n\n";
    content := content + ("**Start Time:** " + c.startTime + "\n\n");
    if c.endTime.Some? {
      content := content + ("**End Time:** " + c.endTime.value + "\n\n");
    } else {
      assert content == content + EndTimeLine(c);
    }
    if c.summary.Some? && c.summary.value != "" {
      content := content + ("## Summary\n\n" + c.summary.value + "\n\n");
    } else {
      assert content == content + SummarySection(c);
    }
    content := content + "## Messages\n\n";
    assert content == MarkdownHeader(c) + Blocks(ms[..0]);
    for i := 0 to |ms|
      invariant content == MarkdownHeader(c) + Blocks(ms[..i])
    {
      assert ms[..i + 1][..i] == ms[..i];
      var senderLabel := if ms[i].sender == User then "**User:**" else "**AI:**";
      var block := senderLabel + "\n\n" + ms[i].content + "\n\n---\n\n";
      assert block == MessageBlock(ms[i]);
      assert Blocks(ms[..i + 1]) == Blocks(ms[..i]) + block;
      AppendAssoc(MarkdownHeader(c), Blocks(ms[..i]), block);
      content := content + block;
    }
    assert ms[..|ms|] == ms;
  }
}
