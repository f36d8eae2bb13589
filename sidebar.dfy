/**
 * The sidebar's conversation list: loading it (with or without archived
 * conversations), archiving and deleting from it, the reload triggers,
 * the relative date labels and the highlighted row.
 *
 * Each awaited call is a parameter holding what it resolves to; the calls,
 * callbacks and toasts a handler produces are returned in order.
 */
module Sidebar {
  import opened Base
  import opened Text
  import opened Models
  import opened ApiClient

  /** Something a sidebar handler does outside its own state. */
  datatype Effect =
    | ListCall(showArchived: bool)
    | ArchiveCall(id: ConversationId)
    | DeleteCall(id: ConversationId)
    | Toast(success: bool, text: string)
    | StartNewConversation

  const LOAD_FAILED := "Failed to load conversations"
  const ARCHIVE_FAILED := "Failed to archive chat"
  const DELETE_FAILED := "Failed to delete chat"

  /** The toast after a successful archive call, from the flag the server
      returned. */
  function ArchiveToast(isArchived: bool): (r: string)
    ensures isArchived <==> r == "Chat archived"
    ensures !isArchived <==> r == "Chat unarchived"
  {
    if isArchived then "Chat archived" else "Chat unarchived"
  }

  /** The effects of `loadConversations`. */
  function LoadEffects(showArchived: bool, result: Remote<seq<ConversationInfo>>): (r: seq<Effect>)
    ensures |r| >= 1 && r[0] == ListCall(showArchived)
    ensures result.Ok? <==> |r| == 1
  {
    [ListCall(showArchived)] + (if result.Ok? then [] else [Toast(false, LOAD_FAILED)])
  }

  /** `formatDate` on the whole number of days since the date (which may
      be negative for a future date): "Today", "Yesterday", "<d>d ago"
      below a week, "<w>w ago" below 30 days, otherwise the locale date. */
  function FormatDate(diffDays: int, localeDate: string): (r: string)
    ensures diffDays == 0 ==> r == "Today"
    ensures diffDays == 1 ==> r == "Yesterday"
    ensures diffDays < 7 && diffDays != 0 && diffDays != 1 ==> r == IntToString(diffDays) + "d ago"
    ensures 7 <= diffDays < 30 ==> r == NatToString(diffDays / 7) + "w ago"
    ensures 30 <= diffDays ==> r == localeDate
  {
    if diffDays == 0 then "Today"
    else if diffDays == 1 then "Yesterday"
    else if diffDays < 7 then IntToString(diffDays) + "d ago"
    else if diffDays < 30 then NatToString(diffDays / 7) + "w ago"
    else localeDate
  }

  /** Between a week and a month the label counts one to four weeks. */
  lemma WeekLabels(diffDays: int, localeDate: string)
    requires 7 <= diffDays < 30
    ensures FormatDate(diffDays, localeDate) in {"1w ago", "2w ago", "3w ago", "4w ago"}
  {
    var w := diffDays / 7;
    assert 1 <= w <= 4;
    assert FormatDate(diffDays, localeDate) == [DigitChar(w)] + "w ago";
    if w == 1 {
      assert [DigitChar(w)] + "w ago" == "1w ago";
    } else if w == 2 {
      assert [DigitChar(w)] + "w ago" == "2w ago";
    } else if w == 3 {
      assert [DigitChar(w)] + "w ago" == "3w ago";
    } else {
      assert [DigitChar(w)] + "w ago" == "4w ago";
    }
  }

  /** Two to six days read "2d ago" to "6d ago"; a future date reads as a
      negative count of days. */
  lemma DayLabels(diffDays: int, localeDate: string)
    requires diffDays < 7 && diffDays != 0 && diffDays != 1
    ensures 2 <= diffDays ==> FormatDate(diffDays, localeDate) == [DigitChar(diffDays)] + "d ago"
    ensures diffDays < 0 ==> FormatDate(diffDays, localeDate)[0] == '-'
  {
  }

  /** `currentConversationId === conv.id` for each row. */
  function ActiveFlags(convs: seq<ConversationInfo>, current: Option<ConversationId>): (r: seq<bool>)
    ensures |r| == |convs|
    ensures forall k :: 0 <= k < |convs| ==> (r[k] <==> current == Some(convs[k].id))
  {
    seq(|convs|, k requires 0 <= k < |convs| => current == Some(convs[k].id))
  }

  /** With distinct ids, the row holding the current id is the only one
      highlighted. */
  lemma OnlyCurrentRowActive(convs: seq<ConversationInfo>, a: nat)
    requires forall i, j :: 0 <= i < j < |convs| ==> convs[i].id != convs[j].id
    requires a < |convs|
    ensures forall k :: 0 <= k < |convs| ==> (ActiveFlags(convs, Some(convs[a].id))[k] <==> k == a)
  {
    var flags := ActiveFlags(convs, Some(convs[a].id));
    forall k | 0 <= k < |convs|
      ensures flags[k] <==> k == a
    {
      if k < a {
        assert convs[k].id != convs[a].id;
      } else if a < k {
        assert convs[a].id != convs[k].id;
      }
    }
  }

  class SidebarState {
    /** The `currentConversationId` prop. */
    var currentConversationId: Option<ConversationId>
    var conversations: seq<ConversationInfo>
    var isLoading: bool
    var showArchived: bool
    /** The `refreshTrigger` value the reload effect last ran for; none
        before the first render, so the effect also runs on mount. */
    var seenTrigger: Option<nat>

    /** The first render, before any effect has run. */
    constructor (current: Option<ConversationId>)
      ensures currentConversationId == current && conversations == [] && !isLoading && !showArchived
      ensures seenTrigger.None?
    {
      currentConversationId, conversations, isLoading, showArchived, seenTrigger := current, [], false, false, None;
    }

    /** A new `currentConversationId` prop from the parent: later handlers
        compare against the new value; nothing else changes. */
    method CurrentChanged(current: Option<ConversationId>)
      modifies this
      ensures currentConversationId == current
      ensures conversations == old(conversations) && isLoading == old(isLoading)
      ensures showArchived == old(showArchived) && seenTrigger == old(seenTrigger)
    {
      currentConversationId := current;
    }

    /** `loadConversations`: the list is replaced on success and kept on
        failure; `isLoading` ends false either way. */
    method LoadConversations(result: Remote<seq<ConversationInfo>>) returns (effects: seq<Effect>)
      modifies this
      ensures effects == LoadEffects(old(showArchived), result)
      ensures result.Ok? ==> conversations == result.value
      ensures result.Err? ==> conversations == old(conversations)
      ensures !isLoading
      ensures showArchived == old(showArchived) && seenTrigger == old(seenTrigger)
      ensures currentConversationId == old(currentConversationId)
    {
      isLoading := true;
      effects := [ListCall(showArchived)];
      if result.Ok? {
        conversations := result.value;
      } else {
        effects := effects + [Toast(false, LOAD_FAILED)];
      }
      isLoading := false;
    }

    /** `handleArchiveConversation`: on success a toast from the returned
        flag, then a reload; on failure an error toast and no reload. */
    method ArchiveConversation(id: ConversationId, archived: Remote<bool>, reload: Remote<seq<ConversationInfo>>)
      returns (effects: seq<Effect>)
      modifies this
      ensures archived.Ok? ==>
                && effects == [ArchiveCall(id), Toast(true, ArchiveToast(archived.value))] + LoadEffects(showArchived, reload)
                && conversations == (if reload.Ok? then reload.value else old(conversations))
      ensures archived.Err? ==>
                effects == [ArchiveCall(id), Toast(false, ARCHIVE_FAILED)] && conversations == old(conversations)
      ensures showArchived == old(showArchived) && seenTrigger == old(seenTrigger)
      ensures currentConversationId == old(currentConversationId)
      ensures archived.Err? ==> isLoading == old(isLoading)
      ensures archived.Ok? ==> !isLoading
    {
      effects := [ArchiveCall(id)];
      if archived.Ok? {
        effects := effects + [Toast(true, ArchiveToast(archived.value))];
        var loaded := LoadConversations(reload);
        effects := effects + loaded;
      } else {
        effects := effects + [Toast(false, ARCHIVE_FAILED)];
      }
    }

    /** `handleDeleteConversation`: on success a toast, then (only when the
        deleted conversation is the current one) the new-conversation
        callback, then a reload; on failure an error toast and neither. */
    method DeleteConversation(id: ConversationId, deleted: Remote<()>, reload: Remote<seq<ConversationInfo>>)
      returns (effects: seq<Effect>)
      modifies this
      ensures deleted.Ok? ==>
                && effects == [DeleteCall(id), Toast(true, "Chat deleted")]
                               + (if currentConversationId == Some(id) then [StartNewConversation] else [])
                               + LoadEffects(showArchived, reload)
                && conversations == (if reload.Ok? then reload.value else old(conversations))
      ensures deleted.Err? ==>
                effects == [DeleteCall(id), Toast(false, DELETE_FAILED)] && conversations == old(conversations)
      ensures StartNewConversation in effects <==> deleted.Ok? && currentConversationId == Some(id)
      ensures showArchived == old(showArchived) && seenTrigger == old(seenTrigger)
      ensures currentConversationId == old(currentConversationId)
    {
      effects := [DeleteCall(id)];
      if deleted.Ok? {
        effects := effects + [Toast(true, "Chat deleted")];
        if currentConversationId == Some(id) {
          effects := effects + [StartNewConversation];
        }
        var loaded := LoadConversations(reload);
        effects := effects + loaded;
      } else {
        effects := effects + [Toast(false, DELETE_FAILED)];
      }
    }

    /** The archived toggle: the filter flips and the list reloads with the
        new filter. */
    method ToggleArchived(reload: Remote<seq<ConversationInfo>>) returns (effects: seq<Effect>)
      modifies this
      ensures showArchived == !old(showArchived)
      ensures effects == LoadEffects(showArchived, reload)
      ensures conversations == (if reload.Ok? then reload.value else old(conversations))
      ensures seenTrigger == old(seenTrigger) && currentConversationId == old(currentConversationId)
    {
      showArchived := !showArchived;
      effects := LoadConversations(reload);
    }

    /** The reload effect on a render with `refreshTrigger` value
        `trigger`: the first render and every changed value reload; the
        same value does nothing. */
    method RefreshTriggered(trigger: nat, reload: Remote<seq<ConversationInfo>>) returns (effects: seq<Effect>)
      modifies this
      ensures old(seenTrigger) == Some(trigger) ==> effects == [] && unchanged(this)
      ensures old(seenTrigger) != Some(trigger) ==>
                && effects == LoadEffects(showArchived, reload)
                && conversations == (if reload.Ok? then reload.value else old(conversations))
                && seenTrigger == Some(trigger) && !isLoading
      ensures showArchived == old(showArchived) && currentConversationId == old(currentConversationId)
    {
      if seenTrigger == Some(trigger) {
        return [];
      }
      seenTrigger := Some(trigger);
      effects := LoadConversations(reload);
    }
  }

  /** Mounting the sidebar: the reload effect runs for the initial trigger
      (0 when the parent passes none), so the list is fetched at once,
      without archived conversations. */
  method Mount(current: Option<ConversationId>, trigger: nat, reload: Remote<seq<ConversationInfo>>)
    returns (s: SidebarState, effects: seq<Effect>)
    ensures fresh(s)
    ensures effects == LoadEffects(false, reload)
    ensures s.conversations == (if reload.Ok? then reload.value else [])
    ensures s.currentConversationId == current && !s.isLoading && !s.showArchived
    ensures s.seenTrigger == Some(trigger)
  {
    s := new SidebarState(current);
    effects := s.RefreshTriggered(trigger, reload);
  }
}
