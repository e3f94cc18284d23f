/**
 * The message lists behind a text channel and a direct-message
 * conversation, as the `useMessages`, `useDMMessages` and `useDMs` hooks
 * keep them: a first page loaded when the channel opens, realtime
 * INSERT / UPDATE / DELETE rows applied as they arrive, sent messages
 * appended, and older pages put in front.
 *
 * The database is external: every query is a `Fetch` parameter holding
 * either the rows it returned or the failure it raised (with the
 * `Error.message`, when the thrown value was an `Error`).
 */
module MessageFeed {
  import opened Common

  /** Rows per page, both for the first page and for `loadMore`. */
  const PageSize: nat := 50

  datatype Profile = Profile(id: string, username: string, avatarUrl: Option<string>)

  /**
   * A message row. `containerId` is the channel (or the conversation) it
   * belongs to; `author` is the profile the client attaches, absent when
   * none was attached or the lookup found nothing.
   */
  datatype Message = Message(id: string, containerId: string, authorId: string, content: string, author: Option<Profile>)

  /** A realtime change notification; `Other` stands for any other event type. */
  datatype Change = Insert(row: Message) | Update(row: Message) | Delete(oldId: string) | Other

  function Ids(ms: seq<Message>): (r: seq<string>)
    ensures |r| == |ms|
    ensures forall i :: 0 <= i < |ms| ==> r[i] == ms[i].id
  {
    seq(|ms|, i requires 0 <= i < |ms| => ms[i].id)
  }

  /** `ms.map(m => m.id === id ? row : m)`. */
  function ReplaceWhere(ms: seq<Message>, id: string, row: Message): (r: seq<Message>)
    ensures |r| == |ms|
    ensures forall i :: 0 <= i < |ms| && ms[i].id == id ==> r[i] == row
    ensures forall i :: 0 <= i < |ms| && ms[i].id != id ==> r[i] == ms[i]
  {
    seq(|ms|, i requires 0 <= i < |ms| => if ms[i].id == id then row else ms[i])
  }

  /** `ms.filter(m => m.id !== id)`. */
  function RemoveById(ms: seq<Message>, id: string): (r: seq<Message>)
    ensures id !in Ids(r)
    ensures forall m :: m in r <==> m in ms && m.id != id
    ensures |r| <= |ms|
  {
    if ms == [] then []
    else
      var last := ms[|ms| - 1];
      var r := RemoveById(ms[..|ms| - 1], id) + (if last.id == id then [] else [last]);
      assert forall m :: m in ms <==> m in ms[..|ms| - 1] || m == last;
      assert id !in Ids(r) by {
        forall i | 0 <= i < |r| ensures r[i].id != id {
          assert r[i] in r;
        }
      }
      r
  }

  /** The channel list's realtime updater; an inserted row gets the author profile looked up for it. */
  function ApplyChannelChange(ms: seq<Message>, c: Change, profile: Option<Profile>): (r: seq<Message>)
    ensures c.Insert? ==> r == ms + [c.row.(author := profile)]
    ensures c.Update? ==> r == ReplaceWhere(ms, c.row.id, c.row)
    ensures c.Delete? ==> r == RemoveById(ms, c.oldId)
    ensures c.Other? ==> r == ms
  {
    match c
    case Insert(row) => ms + [row.(author := profile)]
    case Update(row) => ReplaceWhere(ms, row.id, row)
    case Delete(id) => RemoveById(ms, id)
    case Other => ms
  }

  /** The conversation list's realtime updater; an inserted row is appended as it came. */
  function ApplyDMChange(ms: seq<Message>, c: Change): (r: seq<Message>)
    ensures c.Insert? ==> r == ms + [c.row]
    ensures c.Update? ==> r == ReplaceWhere(ms, c.row.id, c.row)
    ensures c.Delete? ==> r == RemoveById(ms, c.oldId)
    ensures c.Other? ==> r == ms
  {
    match c
    case Insert(row) => ms + [row]
    case Update(row) => ReplaceWhere(ms, row.id, row)
    case Delete(id) => RemoveById(ms, id)
    case Other => ms
  }

  /** An UPDATE keeps every message's id, so the list's length and order of ids are kept. */
  lemma UpdateKeepsIds(ms: seq<Message>, row: Message)
    ensures Ids(ReplaceWhere(ms, row.id, row)) == Ids(ms)
  {
  }

  /** Of two UPDATEs of the same message, the later wins. */
  lemma UpdateLastWins(ms: seq<Message>, a: Message, b: Message)
    requires a.id == b.id
    ensures ReplaceWhere(ReplaceWhere(ms, a.id, a), b.id, b) == ReplaceWhere(ms, b.id, b)
  {
  }

  /** An UPDATE of a message the list does not hold changes nothing. */
  lemma UpdateOfAbsentIsNoOp(ms: seq<Message>, row: Message)
    requires row.id !in Ids(ms)
    ensures ReplaceWhere(ms, row.id, row) == ms
  {
    assert forall i :: 0 <= i < |ms| ==> ms[i].id != row.id by {
      forall i | 0 <= i < |ms| ensures ms[i].id != row.id {
        assert Ids(ms)[i] == ms[i].id;
      }
    }
  }

  lemma IdsSnoc(ms: seq<Message>, m: Message)
    ensures Ids(ms + [m]) == Ids(ms) + [m.id]
  {
  }

  /** A DELETE removes in place: filtering a concatenation filters each part, so the survivors keep their order. */
  lemma {:induction false} RemoveByIdConcat(a: seq<Message>, b: seq<Message>, id: string)
    ensures RemoveById(a + b, id) == RemoveById(a, id) + RemoveById(b, id)
  {
    if b != [] {
      var b' := b[..|b| - 1];
      assert (a + b)[..|a + b| - 1] == a + b';
      assert (a + b)[|a + b| - 1] == b[|b| - 1];
      RemoveByIdConcat(a, b', id);
    } else {
      assert a + b == a;
    }
  }

  /** A DELETE of an id the list does not hold changes nothing. */
  lemma {:induction false} RemoveAbsentIsNoOp(ms: seq<Message>, id: string)
    requires id !in Ids(ms)
    ensures RemoveById(ms, id) == ms
  {
    if ms != [] {
      var p, last := ms[..|ms| - 1], ms[|ms| - 1];
      assert id !in Ids(p) by {
        forall i | 0 <= i < |p|
          ensures Ids(p)[i] != id
        {
          assert Ids(p)[i] == Ids(ms)[i];
        }
      }
      assert last.id != id by { assert Ids(ms)[|ms| - 1] == last.id; }
      RemoveAbsentIsNoOp(p, id);
      assert RemoveById(ms, id) == RemoveById(p, id) + [last];
      assert ms == p + [last];
    }
  }

  /** Deleting twice is deleting once. */
  lemma DeleteIdempotent(ms: seq<Message>, id: string)
    ensures RemoveById(RemoveById(ms, id), id) == RemoveById(ms, id)
  {
    RemoveAbsentIsNoOp(RemoveById(ms, id), id);
  }

  /** The DELETE of a freshly inserted message restores the list. */
  lemma DeleteUndoesInsert(ms: seq<Message>, m: Message)
    requires m.id !in Ids(ms)
    ensures RemoveById(ms + [m], m.id) == ms
  {
    RemoveByIdConcat(ms, [m], m.id);
    RemoveAbsentIsNoOp(ms, m.id);
  }

  /** The list of a text channel (`useMessages`). */
  class ChannelFeed {
    var channelId: Option<string>
    var messages: seq<Message>
    var isLoading: bool
    var error: Option<string>
    var hasMore: bool

    constructor ()
      ensures channelId == None && messages == [] && isLoading && error == None && hasMore
    {
      channelId, messages := None, [];
      isLoading, error, hasMore := true, None, true;
    }

    /**
     * The effect run when the channel changes. Without a channel the list
     * is emptied; otherwise the first page replaces it, and there is more
     * to load exactly when that page was full. A failed load records the
     * error and leaves the list as it was.
     */
    method Open(id: Option<string>, firstPage: Fetch<seq<Message>>)
      modifies this
      ensures channelId == id && !isLoading
      ensures !Truthy(id) ==> messages == [] && hasMore == old(hasMore) && error == old(error)
      ensures Truthy(id) && firstPage.Fetched? ==>
        messages == firstPage.value && hasMore == (|firstPage.value| == PageSize) && error == old(error)
      ensures Truthy(id) && firstPage.Failed? ==>
        messages == old(messages) && hasMore == old(hasMore) &&
        error == Some(ErrorText(firstPage.message, "Failed to fetch messages"))
    {
      channelId := id;
      if !Truthy(id) {
        messages := [];
        isLoading := false;
        return;
      }
      isLoading := true;
      match firstPage {
        case Fetched(data) =>
          messages := data;
          hasMore := |data| == PageSize;
        case Failed(msg) =>
          error := Some(ErrorText(msg, "Failed to fetch messages"));
      }
      isLoading := false;
    }

    /** A realtime notification for the open channel. */
    method OnChange(c: Change, profile: Option<Profile>)
      modifies this
      ensures messages == ApplyChannelChange(old(messages), c, profile)
      ensures channelId == old(channelId) && isLoading == old(isLoading) && error == old(error) && hasMore == old(hasMore)
    {
      messages := ApplyChannelChange(messages, c, profile);
    }

    /**
     * Sends a message. Without a channel it fails with "No channel
     * selected"; a failed insert is passed on; otherwise the stored row,
     * with the author's profile attached, is appended, and the row is
     * returned as stored.
     */
    method SendMessage(authorId: string, content: string, stored: Fetch<Message>, profile: Option<Profile>)
      returns (r: Fetch<Message>)
      modifies this
      ensures !Truthy(old(channelId)) ==> r == Failed(Some("No channel selected")) && messages == old(messages)
      ensures Truthy(old(channelId)) ==> r == stored
      ensures Truthy(old(channelId)) && stored.Fetched? ==> messages == old(messages) + [stored.value.(author := profile)]
      ensures stored.Failed? ==> messages == old(messages)
      ensures channelId == old(channelId) && isLoading == old(isLoading) && error == old(error) && hasMore == old(hasMore)
    {
      if !Truthy(channelId) {
        return Failed(Some("No channel selected"));
      }
      r := stored;
      if stored.Fetched? {
        messages := messages + [stored.value.(author := profile)];
      }
    }

    /**
     * Loads an older page and puts it in front. A short page ends the
     * paging for good: `hasMore` can only go from true to false here.
     */
    method LoadMore(page: Fetch<seq<Message>>)
      modifies this
      ensures !Truthy(channelId) ==> messages == old(messages) && hasMore == old(hasMore) && error == old(error)
      ensures Truthy(channelId) && page.Fetched? ==>
        messages == page.value + old(messages) && hasMore == (old(hasMore) && |page.value| >= PageSize) &&
        error == old(error)
      ensures Truthy(channelId) && page.Failed? ==>
        messages == old(messages) && hasMore == old(hasMore) &&
        error == Some(ErrorText(page.message, "Failed to load more messages"))
      ensures hasMore ==> old(hasMore)
      ensures channelId == old(channelId) && isLoading == old(isLoading)
    {
      if !Truthy(channelId) {
        return;
      }
      match page
      case Fetched(older) =>
        if |older| < PageSize {
          hasMore := false;
        }
        messages := older + messages;
      case Failed(msg) =>
        error := Some(ErrorText(msg, "Failed to load more messages"));
    }
  }

  /** The list of a direct-message conversation (`useDMMessages`). */
  class DMFeed {
    var conversationId: Option<string>
    var messages: seq<Message>
    var isLoading: bool
    var error: Option<string>

    constructor ()
      ensures conversationId == None && messages == [] && isLoading && error == None
    {
      conversationId, messages := None, [];
      isLoading, error := true, None;
    }

    /** Without a conversation the list is emptied; otherwise the first page replaces it, or the error is recorded. */
    method Open(id: Option<string>, firstPage: Fetch<seq<Message>>)
      modifies this
      ensures conversationId == id && !isLoading
      ensures !Truthy(id) ==> messages == [] && error == old(error)
      ensures Truthy(id) && firstPage.Fetched? ==> messages == firstPage.value && error == old(error)
      ensures Truthy(id) && firstPage.Failed? ==>
        messages == old(messages) && error == Some(ErrorText(firstPage.message, "Failed to fetch messages"))
    {
      conversationId := id;
      if !Truthy(id) {
        messages := [];
        isLoading := false;
        return;
      }
      isLoading := true;
      match firstPage {
        case Fetched(data) =>
          messages := data;
        case Failed(msg) =>
          error := Some(ErrorText(msg, "Failed to fetch messages"));
      }
      isLoading := false;
    }

    method OnChange(c: Change)
      modifies this
      ensures messages == ApplyDMChange(old(messages), c)
      ensures conversationId == old(conversationId) && isLoading == old(isLoading) && error == old(error)
    {
      messages := ApplyDMChange(messages, c);
    }

    /** Without a conversation it fails with "No conversation selected"; otherwise the stored row is appended. */
    method SendMessage(authorId: string, content: string, stored: Fetch<Message>) returns (r: Fetch<Message>)
      modifies this
      ensures !Truthy(old(conversationId)) ==> r == Failed(Some("No conversation selected")) && messages == old(messages)
      ensures Truthy(old(conversationId)) ==> r == stored
      ensures Truthy(old(conversationId)) && stored.Fetched? ==> messages == old(messages) + [stored.value]
      ensures stored.Failed? ==> messages == old(messages)
      ensures conversationId == old(conversationId) && isLoading == old(isLoading) && error == old(error)
    {
      if !Truthy(conversationId) {
        return Failed(Some("No conversation selected"));
      }
      r := stored;
      if stored.Fetched? {
        messages := messages + [stored.value];
      }
    }
  }

  datatype Conversation = Conversation(id: string, name: Option<string>, participantIds: seq<string>)

  /** The signed-in user's conversation list (`useDMs`); `user` is the signed-in user's id, absent when signed out. */
  class Conversations {
    var conversations: seq<Conversation>
    var isLoading: bool
    var error: Option<string>

    constructor ()
      ensures conversations == [] && isLoading && error == None
    {
      conversations, isLoading, error := [], true, None;
    }

    /** Loads the list for a signed-in user; when signed out nothing happens at all. */
    method Load(user: Option<string>, fetched: Fetch<seq<Conversation>>)
      modifies this
      ensures user.None? ==> conversations == old(conversations) && isLoading == old(isLoading) && error == old(error)
      ensures user.Some? ==> !isLoading
      ensures user.Some? && fetched.Fetched? ==> conversations == fetched.value && error == old(error)
      ensures user.Some? && fetched.Failed? ==>
        conversations == old(conversations) && error == Some(ErrorText(fetched.message, "Failed to fetch conversations"))
    {
      if user.None? {
        return;
      }
      isLoading := true;
      match fetched {
        case Fetched(data) =>
          conversations := data;
        case Failed(msg) =>
          error := Some(ErrorText(msg, "Failed to fetch conversations"));
      }
      isLoading := false;
    }

    /**
     * Finds or creates the one-to-one conversation, then reloads the whole
     * list. Signed out it fails with "User not authenticated"; a failure
     * of either call is passed on and leaves the list unchanged.
     */
    method GetOrCreate(user: Option<string>, otherUserId: string, found: Fetch<Conversation>,
                       refreshed: Fetch<seq<Conversation>>) returns (r: Fetch<Conversation>)
      modifies this
      ensures user.None? ==> r == Failed(Some("User not authenticated"))
      ensures user.Some? && found.Failed? ==> r == found
      ensures user.Some? && found.Fetched? && refreshed.Failed? ==> r == Failed(refreshed.message)
      ensures user.Some? && found.Fetched? && refreshed.Fetched? ==> r == found && conversations == refreshed.value
      ensures !(user.Some? && found.Fetched? && refreshed.Fetched?) ==> conversations == old(conversations)
      ensures isLoading == old(isLoading) && error == old(error)
    {
      if user.None? {
        return Failed(Some("User not authenticated"));
      }
      if found.Failed? {
        return found;
      }
      if refreshed.Failed? {
        return Failed(refreshed.message);
      }
      conversations := refreshed.value;
      r := found;
    }

    /** Creates a group conversation and puts it at the front of the list. */
    method CreateGroupDM(user: Option<string>, userIds: seq<string>, name: Option<string>, created: Fetch<Conversation>)
      returns (r: Fetch<Conversation>)
      modifies this
      ensures user.None? ==> r == Failed(Some("User not authenticated")) && conversations == old(conversations)
      ensures user.Some? ==> r == created
      ensures user.Some? && created.Fetched? ==> conversations == [created.value] + old(conversations)
      ensures created.Failed? ==> conversations == old(conversations)
      ensures isLoading == old(isLoading) && error == old(error)
    {
      if user.None? {
        return Failed(Some("User not authenticated"));
      }
      r := created;
      if created.Fetched? {
        conversations := [created.value] + conversations;
      }
    }
  }
}
