/**
 * The message list of a text channel with its composer: reaction chips
 * under each message (one per emoji, with the number of reactions using
 * it), edit and delete controls on one's own messages, and the send and
 * edit-save paths with their guards.
 */
module MessageList {
  import opened Common
  import opened MessageFeed

  datatype Reaction = Reaction(emoji: string, userId: string)

  /** One chip under a message: an emoji and how many reactions use it. */
  datatype Chip = Chip(emoji: string, count: nat)

  function Emojis(rs: seq<Reaction>): (r: seq<string>)
    ensures |r| == |rs|
    ensures forall k :: 0 <= k < |rs| ==> r[k] == rs[k].emoji
  {
    seq(|rs|, k requires 0 <= k < |rs| => rs[k].emoji)
  }

  function ChipEmojis(cs: seq<Chip>): (r: seq<string>)
    ensures |r| == |cs|
    ensures forall k :: 0 <= k < |cs| ==> r[k] == cs[k].emoji
  {
    seq(|cs|, k requires 0 <= k < |cs| => cs[k].emoji)
  }

  /** A chip for each emoji of `d`, counted over `es`. */
  function ChipsFor(d: seq<string>, es: seq<string>): (r: seq<Chip>)
    ensures |r| == |d|
    ensures forall k :: 0 <= k < |d| ==> r[k] == Chip(d[k], Count(es, d[k]))
  {
    if d == [] then [] else ChipsFor(d[..|d| - 1], es) + [Chip(d[|d| - 1], Count(es, d[|d| - 1]))]
  }

  /**
   * The chips of a message: the reactions keyed by emoji in a `Map`
   * (which keeps each key where it was first inserted), each counted with
   * `filter(...).length`.
   */
  function ReactionChips(rs: seq<Reaction>): (r: seq<Chip>)
    ensures NoDuplicates(ChipEmojis(r))
    ensures forall e :: e in ChipEmojis(r) <==> e in Emojis(rs)
    ensures forall k :: 0 <= k < |r| ==> r[k].count == Count(Emojis(rs), r[k].emoji) >= 1
  {
    var d := Distinct(Emojis(rs));
    var r := ChipsFor(d, Emojis(rs));
    assert ChipEmojis(r) == d;
    r
  }

  function SumCounts(cs: seq<Chip>): nat {
    if cs == [] then 0 else SumCounts(cs[..|cs| - 1]) + cs[|cs| - 1].count
  }

  /** Occurrences in `es` of the elements of `d`, added up. */
  function Occurrences(d: seq<string>, es: seq<string>): nat {
    if d == [] then 0 else Occurrences(d[..|d| - 1], es) + Count(es, d[|d| - 1])
  }

  lemma {:induction false} SumChipsIsOccurrences(d: seq<string>, es: seq<string>)
    ensures SumCounts(ChipsFor(d, es)) == Occurrences(d, es)
  {
    if d != [] {
      var p := d[..|d| - 1];
      var cs := ChipsFor(d, es);
      assert cs[..|cs| - 1] == ChipsFor(p, es);
      SumChipsIsOccurrences(p, es);
    }
  }

  lemma {:induction false} OccurrencesOfEmpty(d: seq<string>)
    ensures Occurrences(d, []) == 0
  {
    if d != [] {
      OccurrencesOfEmpty(d[..|d| - 1]);
    }
  }

  lemma {:induction false} OccurrencesSnoc(d: seq<string>, es: seq<string>, x: string)
    ensures Occurrences(d, es + [x]) == Occurrences(d, es) + Count(d, x)
  {
    if d != [] {
      var p := d[..|d| - 1];
      OccurrencesSnoc(p, es, x);
      CountSnoc(es, x, d[|d| - 1]);
    }
  }

  /** Counting every element of `es` once per distinct value accounts for all of `es`. */
  lemma {:induction false} OccurrencesCoverAll(d: seq<string>, es: seq<string>)
    requires NoDuplicates(d)
    requires forall e :: e in es ==> e in d
    ensures Occurrences(d, es) == |es|
  {
    if es == [] {
      OccurrencesOfEmpty(d);
    } else {
      var p := es[..|es| - 1];
      var x := es[|es| - 1];
      assert es == p + [x];
      OccurrencesCoverAll(d, p);
      OccurrencesSnoc(d, p, x);
      CountInDistinct(d, x);
    }
  }

  /** The chip counts add up to the number of reactions. */
  lemma ChipCountsSumToReactions(rs: seq<Reaction>)
    ensures SumCounts(ReactionChips(rs)) == |rs|
  {
    var es := Emojis(rs);
    var d := Distinct(es);
    SumChipsIsOccurrences(d, es);
    OccurrencesCoverAll(d, es);
  }

  /** Chips appear in the order in which their emojis were first used. */
  lemma ChipsInFirstUseOrder(rs: seq<Reaction>, i: nat, j: nat)
    requires i < j < |ReactionChips(rs)|
    ensures ReactionChips(rs)[i].emoji in Emojis(rs) && ReactionChips(rs)[j].emoji in Emojis(rs)
    ensures FirstIndex(Emojis(rs), ReactionChips(rs)[i].emoji) < FirstIndex(Emojis(rs), ReactionChips(rs)[j].emoji)
  {
    var es := Emojis(rs);
    DistinctInFirstOccurrenceOrder(es, i, j);
  }

  /** Edit and delete controls show exactly on the signed-in user's own messages. */
  predicate OwnerControls(user: Option<Profile>, m: Message) {
    user.Some? && user.value.id == m.authorId
  }

  /** The ids of the messages that carry edit and delete controls. */
  function EditableIds(user: Option<Profile>, ms: seq<Message>): (r: seq<string>)
    ensures user.None? ==> r == []
    ensures forall id :: id in r <==> exists m :: m in ms && m.id == id && OwnerControls(user, m)
  {
    if ms == [] then []
    else
      var last := ms[|ms| - 1];
      assert forall m :: m in ms <==> m in ms[..|ms| - 1] || m == last;
      EditableIds(user, ms[..|ms| - 1]) + (if OwnerControls(user, last) then [last.id] else [])
  }

  /** The composer below the list, sending through the channel's message list. */
  class Composer {
    const feed: ChannelFeed
    var messageContent: string
    var isSubmitting: bool
    var editingId: Option<string>
    var editContent: string
    var toasts: seq<string>
    /** Updates and deletions requested from the database, in order. */
    var updates: seq<(string, string)>
    var deletions: seq<string>

    constructor (feed: ChannelFeed)
      ensures this.feed == feed && messageContent == "" && !isSubmitting && editingId == None && editContent == ""
      ensures toasts == [] && updates == [] && deletions == []
    {
      this.feed := feed;
      messageContent, isSubmitting, editingId, editContent := "", false, None, "";
      toasts, updates, deletions := [], [], [];
    }

    /**
     * Sends the composed text when it is not blank and somebody is signed
     * in: on success the composer is cleared, on failure a toast says so
     * and the text stays.
     */
    method HandleSendMessage(user: Option<Profile>, stored: Fetch<Message>, profile: Option<Profile>)
      modifies this, feed
      ensures IsBlank(old(messageContent)) || user.None? ==>
        messageContent == old(messageContent) && toasts == old(toasts) && feed.messages == old(feed.messages)
      ensures !IsBlank(old(messageContent)) && user.Some? && Truthy(feed.channelId) && stored.Fetched? ==>
        messageContent == "" && toasts == old(toasts) && feed.messages == old(feed.messages) + [stored.value.(author := profile)]
      ensures !IsBlank(old(messageContent)) && user.Some? && !(Truthy(feed.channelId) && stored.Fetched?) ==>
        messageContent == old(messageContent) && toasts == old(toasts) + ["Failed to send message"] &&
        feed.messages == old(feed.messages)
      ensures !isSubmitting
      ensures feed.channelId == old(feed.channelId) && feed.hasMore == old(feed.hasMore)
      ensures feed.isLoading == old(feed.isLoading) && feed.error == old(feed.error)
      ensures editingId == old(editingId) && editContent == old(editContent) && updates == old(updates) && deletions == old(deletions)
    {
      if IsBlank(messageContent) || user.None? {
        isSubmitting := false;
        return;
      }
      isSubmitting := true;
      var r := feed.SendMessage(user.value.id, messageContent, stored, profile);
      if r.Fetched? {
        messageContent := "";
      } else {
        toasts := toasts + ["Failed to send message"];
      }
      isSubmitting := false;
    }

    /** Typing in the message box replaces its text and nothing else. */
    method TypeMessage(text: string)
      modifies this
      ensures messageContent == text
      ensures isSubmitting == old(isSubmitting) && editingId == old(editingId) && editContent == old(editContent)
      ensures toasts == old(toasts) && updates == old(updates) && deletions == old(deletions)
    {
      messageContent := text;
    }

    /** Typing in the edit box replaces the edited text and nothing else. */
    method TypeEdit(text: string)
      modifies this
      ensures editContent == text
      ensures isSubmitting == old(isSubmitting) && editingId == old(editingId) && messageContent == old(messageContent)
      ensures toasts == old(toasts) && updates == old(updates) && deletions == old(deletions)
    {
      editContent := text;
    }

    /** The cancel control leaves editing; the edited text is kept but no longer shown. */
    method CancelEdit()
      modifies this
      ensures editingId == None
      ensures isSubmitting == old(isSubmitting) && editContent == old(editContent) && messageContent == old(messageContent)
      ensures toasts == old(toasts) && updates == old(updates) && deletions == old(deletions)
    {
      editingId := None;
    }

    /** The edit control of a message: only one's own messages have one. */
    method StartEdit(user: Option<Profile>, m: Message)
      modifies this
      ensures OwnerControls(user, m) ==> editingId == Some(m.id) && editContent == m.content
      ensures !OwnerControls(user, m) ==> editingId == old(editingId) && editContent == old(editContent)
      ensures messageContent == old(messageContent) && toasts == old(toasts) && updates == old(updates) && deletions == old(deletions)
      ensures isSubmitting == old(isSubmitting)
    {
      if OwnerControls(user, m) {
        editingId := Some(m.id);
        editContent := m.content;
      }
    }

    /** Saves an edit unless the edited text is blank; `ok` is whether the database accepted it. */
    method HandleEditMessage(messageId: string, ok: bool)
      modifies this
      ensures IsBlank(old(editContent)) ==>
        updates == old(updates) && editingId == old(editingId) && editContent == old(editContent) && toasts == old(toasts)
      ensures !IsBlank(old(editContent)) ==> updates == old(updates) + [(messageId, old(editContent))]
      ensures !IsBlank(old(editContent)) && ok ==> editingId == None && editContent == "" && toasts == old(toasts)
      ensures !IsBlank(old(editContent)) && !ok ==>
        editingId == old(editingId) && editContent == old(editContent) && toasts == old(toasts) + ["Failed to update message"]
      ensures messageContent == old(messageContent) && deletions == old(deletions) && isSubmitting == old(isSubmitting)
    {
      if IsBlank(editContent) {
        return;
      }
      updates := updates + [(messageId, editContent)];
      if ok {
        editingId := None;
        editContent := "";
      } else {
        toasts := toasts + ["Failed to update message"];
      }
    }

    /** The delete control: after the user confirms, the deletion is requested. */
    method HandleDeleteMessage(messageId: string, confirmed: bool, ok: bool)
      modifies this
      ensures confirmed ==> deletions == old(deletions) + [messageId]
      ensures !confirmed ==> deletions == old(deletions)
      ensures toasts == if confirmed && !ok then old(toasts) + ["Failed to delete message"] else old(toasts)
      ensures messageContent == old(messageContent) && editingId == old(editingId) && editContent == old(editContent)
      ensures updates == old(updates) && isSubmitting == old(isSubmitting)
    {
      if confirmed {
        deletions := deletions + [messageId];
        if !ok {
          toasts := toasts + ["Failed to delete message"];
        }
      }
    }
  }
}
