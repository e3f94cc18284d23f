/**
 * The chat panel of one text channel: the message list fed by the
 * realtime relay, the "is typing" line, and sending with an optimistic
 * temporary message that the stored message replaces, or that is
 * withdrawn when the store fails.
 *
 * What the panel sends to the realtime server is the log `sent`
 * (`socketUp` says whether a socket exists at the moment of the emit).
 * The three-second timers are explicit calls: `ExpireTyping` is the
 * oldest "typing" display timer firing, `TypingIdle` the idle timer of
 * the local composer.
 */
module ChannelChat {
  import opened Common
  import opened MessageFeed

  /** How long a remote "is typing" entry and the local idle timer last. */
  const TypingDisplayMs: nat := 3000

  /** A "started typing" notice, as sent and as relayed to the others in the channel. */
  datatype TypingStart = TypingStart(channelId: string, userId: string, username: string)

  /** A "stopped typing" notice; the name is absent when the sender left it out. */
  datatype TypingStop = TypingStop(channelId: string, userId: string, username: Option<string>)

  datatype ChatEmit =
    | JoinedRoom(channelId: string)
    | TypingStarted(start: TypingStart)
    | TypingStopped(stop: TypingStop)
    | MessageRelayed(channelId: string, message: Message)

  /** The stop notice as the socket service builds it: channel and user id, no name. */
  function StopNoticeAsWritten(channelId: string, userId: string): (n: TypingStop)
    ensures n.channelId == channelId && n.userId == userId
    ensures n.username.None?
  {
    TypingStop(channelId, userId, None)
  }

  /** The stop notice carrying the name the receivers list typists by. */
  function StopNotice(channelId: string, user: Profile): (n: TypingStop)
    ensures n.channelId == channelId && n.userId == user.id
    ensures n.username == Some(user.username)
  {
    TypingStop(channelId, user.id, Some(user.username))
  }

  /** A typing notice is shown when it is for this channel and from somebody other than the signed-in user. */
  predicate ShowsTyping(channelId: string, me: Option<Profile>, n: TypingStart) {
    n.channelId == channelId && (me.None? || n.userId != me.value.id)
  }

  /** `[...new Set([...typing, data.username])]` for a notice that is shown. */
  function AfterTypingStart(typing: seq<string>, channelId: string, me: Option<Profile>, n: TypingStart): (r: seq<string>)
    ensures ShowsTyping(channelId, me, n) ==> NoDuplicates(r) && forall u :: u in r <==> u in typing || u == n.username
    ensures !ShowsTyping(channelId, me, n) ==> r == typing
  {
    if ShowsTyping(channelId, me, n) then Distinct(typing + [n.username]) else typing
  }

  /** A new typist goes after those already listed; a listed one leaves the list as it is. */
  lemma TypingStartAppendsNewTypist(typing: seq<string>, channelId: string, me: Option<Profile>, n: TypingStart)
    requires NoDuplicates(typing) && ShowsTyping(channelId, me, n)
    ensures n.username !in typing ==> AfterTypingStart(typing, channelId, me, n) == typing + [n.username]
    ensures n.username in typing ==> AfterTypingStart(typing, channelId, me, n) == typing
  {
    var t := typing + [n.username];
    if n.username !in typing {
      DistinctOfDistinct(t);
    } else {
      assert t[..|t| - 1] == typing;
      DistinctOfDistinct(typing);
    }
  }

  /** `typing.filter(u => u !== data.username)` for a stop notice of this channel; `undefined` equals no name. */
  function AfterTypingStop(typing: seq<string>, channelId: string, n: TypingStop): (r: seq<string>)
    ensures n.channelId != channelId ==> r == typing
    ensures forall u :: u in r <==> u in typing && (n.channelId != channelId || n.username != Some(u))
  {
    if n.channelId == channelId && n.username.Some? then Without(typing, n.username.value) else typing
  }

  /**
   * The effect of a typist stopping, as the receiving panel sees it when
   * the notice is built as written: nothing is removed, whoever stopped.
   */
  lemma StopAsWrittenRemovesNobody(typing: seq<string>, channelId: string, typist: Profile)
    ensures AfterTypingStop(typing, channelId, StopNoticeAsWritten(channelId, typist.id)) == typing
  {
  }

  /** A concrete case: "alice" stops typing and is still shown as typing. */
  lemma StopAsWrittenKeepsAlice()
    ensures var alice := Profile("u1", "alice", None);
      "alice" in AfterTypingStop(["alice"], "c1", StopNoticeAsWritten("c1", alice.id))
  {
  }

  /** With the name in the notice, the typist disappears and everybody else stays, in order. */
  lemma StopRemovesTypist(typing: seq<string>, channelId: string, typist: Profile)
    ensures var r := AfterTypingStop(typing, channelId, StopNotice(channelId, typist));
      typist.username !in r && r == Without(typing, typist.username)
  {
  }

  /** The list of typists never lists anybody twice, whatever notices arrive. */
  lemma TypingStaysDistinct(typing: seq<string>, channelId: string, me: Option<Profile>, start: TypingStart, stop: TypingStop)
    requires NoDuplicates(typing)
    ensures NoDuplicates(AfterTypingStart(typing, channelId, me, start))
    ensures NoDuplicates(AfterTypingStop(typing, channelId, stop))
  {
    WithoutKeepsDistinct(typing, if stop.username.Some? then stop.username.value else "");
  }

  lemma {:induction false} WithoutKeepsDistinct(s: seq<string>, y: string)
    requires NoDuplicates(s)
    ensures NoDuplicates(Without(s, y))
  {
    if s != [] {
      var p := s[..|s| - 1];
      assert NoDuplicates(p);
      WithoutKeepsDistinct(p, y);
      assert s[|s| - 1] !in p;
    }
  }

  /** The relayed message handler as written: every message of this channel is appended. */
  function IncomingAsWritten(ms: seq<Message>, channelId: string, m: Message): (r: seq<Message>)
    ensures m.containerId == channelId ==> r == ms + [m]
    ensures m.containerId != channelId ==> r == ms
  {
    if m.containerId == channelId then ms + [m] else ms
  }

  /** The relayed message handler, skipping a message the list already holds. */
  function Incoming(ms: seq<Message>, channelId: string, m: Message): (r: seq<Message>)
    ensures m.containerId == channelId && m.id !in Ids(ms) ==> r == ms + [m]
    ensures m.containerId != channelId || m.id in Ids(ms) ==> r == ms
  {
    if m.containerId == channelId && m.id !in Ids(ms) then ms + [m] else ms
  }

  lemma CountIdsSnoc(ms: seq<Message>, m: Message, id: string)
    ensures Count(Ids(ms + [m]), id) == Count(Ids(ms), id) + (if m.id == id then 1 else 0)
  {
    IdsSnoc(ms, m);
    assert (Ids(ms) + [m.id])[..|Ids(ms)|] == Ids(ms);
  }

  /**
   * Sending a message, as written: the stored message replaces the
   * temporary one, the relay echoes it back to the sender as well, and
   * the sender's list then holds it twice.
   */
  lemma EchoDuplicatesAsWritten(ms: seq<Message>, optimistic: Message, stored: Message, channelId: string)
    requires optimistic.id !in Ids(ms) && stored.id !in Ids(ms)
    requires stored.containerId == channelId
    ensures Count(Ids(IncomingAsWritten(ReplaceWhere(ms + [optimistic], optimistic.id, stored), channelId, stored)), stored.id) == 2
  {
    SendSuccessShowsStored(ms, optimistic, stored);
    CountIdsSnoc(ms, stored, stored.id);
    CountIdsSnoc(ms + [stored], stored, stored.id);
    assert Count(Ids(ms), stored.id) == 0;
  }

  /** With the echo skipped, the sender's list holds the sent message exactly once. */
  lemma EchoKeepsOneCopy(ms: seq<Message>, optimistic: Message, stored: Message, channelId: string)
    requires optimistic.id !in Ids(ms) && stored.id !in Ids(ms)
    ensures Count(Ids(Incoming(ReplaceWhere(ms + [optimistic], optimistic.id, stored), channelId, stored)), stored.id) == 1
  {
    SendSuccessShowsStored(ms, optimistic, stored);
    IdsSnoc(ms, stored);
    assert stored.id in Ids(ms + [stored]);
    CountIdsSnoc(ms, stored, stored.id);
  }

  /** For a message the list does not hold yet, skipping known ids changes nothing. */
  lemma NewMessagesAppendAsBefore(ms: seq<Message>, channelId: string, m: Message)
    requires m.id !in Ids(ms)
    ensures Incoming(ms, channelId, m) == IncomingAsWritten(ms, channelId, m)
  {
  }

  /** A successful send ends with the stored message where the temporary one was. */
  lemma SendSuccessShowsStored(ms: seq<Message>, optimistic: Message, stored: Message)
    requires optimistic.id !in Ids(ms)
    ensures ReplaceWhere(ms + [optimistic], optimistic.id, stored) == ms + [stored]
  {
    UpdateOfAbsentIsNoOp(ms, optimistic);
    var r := ReplaceWhere(ms + [optimistic], optimistic.id, stored);
    assert forall i :: 0 <= i < |ms| ==> r[i] == ms[i] by {
      forall i | 0 <= i < |ms| ensures r[i] == ms[i] {
        assert Ids(ms)[i] == ms[i].id;
      }
    }
  }

  /** A failed send leaves the list exactly as it was before the send. */
  lemma SendFailureRestores(ms: seq<Message>, optimistic: Message)
    requires optimistic.id !in Ids(ms)
    ensures RemoveById(ms + [optimistic], optimistic.id) == ms
  {
    DeleteUndoesInsert(ms, optimistic);
  }

  /** The prefix of the temporary id `temp-<milliseconds>` an optimistic message carries. */
  const TempIdPrefix := "temp-"

  /** The temporary id of a message sent at `now`. */
  function TempId(now: nat): string {
    Stamped(TempIdPrefix, now)
  }

  /** The message shown while the send is in flight. */
  function Optimistic(channelId: string, user: Profile, now: nat, text: string): (m: Message)
    ensures m.id == TempId(now) && m.containerId == channelId && m.authorId == user.id
    ensures m.content == text && m.author == Some(user)
  {
    Message(TempId(now), channelId, user.id, text, Some(user))
  }

  class ChatPanel {
    const channelId: string
    var messages: seq<Message>
    var input: string
    var typing: seq<string>
    /** Names whose three-second display timers are pending, oldest first. */
    var expiries: seq<string>
    /** The stop notice the local idle timer will send, when one is armed. */
    var idleStop: Option<TypingStop>
    var sent: seq<ChatEmit>

    ghost predicate Valid()
      reads this
    {
      NoDuplicates(typing)
    }

    /** Mounting the panel joins the channel's room. */
    constructor (channelId: string, socketUp: bool)
      ensures Valid()
      ensures this.channelId == channelId && messages == [] && input == "" && typing == [] && expiries == []
      ensures idleStop == None && sent == Emit([], socketUp, JoinedRoom(channelId))
    {
      this.channelId := channelId;
      messages, input, typing, expiries, idleStop := [], "", [], [], None;
      sent := Emit([], socketUp, JoinedRoom(channelId));
    }

    method Load(data: seq<Message>)
      requires Valid()
      modifies this
      ensures Valid()
      ensures messages == data
      ensures input == old(input) && typing == old(typing) && expiries == old(expiries) && idleStop == old(idleStop) && sent == old(sent)
    {
      messages := data;
    }

    method Edit(text: string)
      requires Valid()
      modifies this
      ensures Valid()
      ensures input == text
      ensures messages == old(messages) && typing == old(typing) && expiries == old(expiries) && idleStop == old(idleStop) && sent == old(sent)
    {
      input := text;
    }

    /**
     * A relayed message arrives. The panel uses the handler that skips
     * known ids; for any message it does not hold yet this is exactly the
     * handler as written.
     */
    method OnMessage(m: Message)
      requires Valid()
      modifies this
      ensures Valid()
      ensures messages == Incoming(old(messages), channelId, m)
      ensures m.id !in Ids(old(messages)) ==> messages == IncomingAsWritten(old(messages), channelId, m)
      ensures input == old(input) && typing == old(typing) && expiries == old(expiries) && idleStop == old(idleStop) && sent == old(sent)
    {
      messages := Incoming(messages, channelId, m);
    }

    /** A typing notice arrives; when it is shown, its three-second display timer starts. */
    method OnTyping(n: TypingStart, me: Option<Profile>)
      requires Valid()
      modifies this
      ensures Valid()
      ensures typing == AfterTypingStart(old(typing), channelId, me, n)
      ensures ShowsTyping(channelId, me, n) ==> expiries == old(expiries) + [n.username]
      ensures !ShowsTyping(channelId, me, n) ==> expiries == old(expiries)
      ensures messages == old(messages) && input == old(input) && idleStop == old(idleStop) && sent == old(sent)
    {
      TypingStaysDistinct(typing, channelId, me, n, TypingStop(channelId, n.userId, None));
      if ShowsTyping(channelId, me, n) {
        typing := Distinct(typing + [n.username]);
        expiries := expiries + [n.username];
      }
    }

    method OnTypingStop(n: TypingStop)
      requires Valid()
      modifies this
      ensures Valid()
      ensures typing == AfterTypingStop(old(typing), channelId, n)
      ensures messages == old(messages) && input == old(input) && expiries == old(expiries) && idleStop == old(idleStop) && sent == old(sent)
    {
      TypingStaysDistinct(typing, channelId, None, TypingStart(channelId, "", ""), n);
      typing := AfterTypingStop(typing, channelId, n);
    }

    /** The oldest display timer fires (they all last three seconds, so they fire in the order they started). */
    method ExpireTyping()
      requires Valid()
      modifies this
      ensures Valid()
      ensures old(expiries) == [] ==> typing == old(typing) && expiries == []
      ensures old(expiries) != [] ==> typing == Without(old(typing), old(expiries)[0]) && expiries == old(expiries)[1..]
      ensures messages == old(messages) && input == old(input) && idleStop == old(idleStop) && sent == old(sent)
    {
      if expiries != [] {
        WithoutKeepsDistinct(typing, expiries[0]);
        typing := Without(typing, expiries[0]);
        expiries := expiries[1..];
      }
    }

    /**
     * A keystroke: announce typing and (re)arm the idle timer that will
     * announce the stop. The armed notice is the one carrying the name; it
     * differs from the notice as written in the name alone.
     */
    method HandleTyping(user: Option<Profile>, socketUp: bool)
      requires Valid()
      modifies this
      ensures Valid()
      ensures user.None? ==> sent == old(sent) && idleStop == old(idleStop)
      ensures user.Some? ==>
        sent == Emit(old(sent), socketUp, TypingStarted(TypingStart(channelId, user.value.id, user.value.username))) &&
        idleStop == Some(StopNotice(channelId, user.value))
      ensures user.Some? ==> idleStop.value.(username := None) == StopNoticeAsWritten(channelId, user.value.id)
      ensures messages == old(messages) && input == old(input) && typing == old(typing) && expiries == old(expiries)
    {
      if user.None? {
        return;
      }
      sent := Emit(sent, socketUp, TypingStarted(TypingStart(channelId, user.value.id, user.value.username)));
      idleStop := Some(StopNotice(channelId, user.value));
    }

    /** The idle timer fires and sends the stop notice it was armed with. */
    method TypingIdle(socketUp: bool)
      requires Valid()
      modifies this
      ensures Valid()
      ensures old(idleStop).Some? ==> sent == Emit(old(sent), socketUp, TypingStopped(old(idleStop).value))
      ensures old(idleStop).None? ==> sent == old(sent)
      ensures idleStop == None
      ensures messages == old(messages) && input == old(input) && typing == old(typing) && expiries == old(expiries)
    {
      if idleStop.Some? {
        sent := Emit(sent, socketUp, TypingStopped(idleStop.value));
      }
      idleStop := None;
    }

    /**
     * Sends the composed text. Blank text or no signed-in user: nothing
     * happens. Otherwise a temporary message is shown at once, the
     * composer is cleared and typing is announced as stopped; then the
     * stored message replaces the temporary one and is relayed, or, when
     * storing fails, the temporary message is withdrawn.
     */
    method HandleSend(user: Option<Profile>, now: nat, stored: Fetch<Message>, socketUp: bool)
      requires Valid()
      modifies this
      ensures Valid()
      ensures IsBlank(old(input)) || user.None? ==>
        messages == old(messages) && input == old(input) && sent == old(sent)
      ensures !IsBlank(old(input)) && user.Some? ==> input == ""
      ensures !IsBlank(old(input)) && user.Some? && stored.Fetched? ==>
        (messages == ReplaceWhere(old(messages) + [Optimistic(channelId, user.value, now, old(input))], TempId(now), stored.value) &&
         sent == Emit(Emit(old(sent), socketUp, TypingStopped(StopNotice(channelId, user.value))), socketUp,
                      MessageRelayed(channelId, stored.value)))
      ensures !IsBlank(old(input)) && user.Some? && stored.Failed? ==>
        (messages == RemoveById(old(messages) + [Optimistic(channelId, user.value, now, old(input))], TempId(now)) &&
         sent == Emit(old(sent), socketUp, TypingStopped(StopNotice(channelId, user.value))))
      ensures typing == old(typing) && expiries == old(expiries) && idleStop == old(idleStop)
    {
      if IsBlank(input) || user.None? {
        return;
      }
      var tempId := TempId(now);
      var optimistic := Optimistic(channelId, user.value, now, input);
      messages := messages + [optimistic];
      input := "";
      sent := Emit(sent, socketUp, TypingStopped(StopNotice(channelId, user.value)));
      match stored {
        case Fetched(m) =>
          messages := ReplaceWhere(messages, tempId, m);
          sent := Emit(sent, socketUp, MessageRelayed(channelId, m));
        case Failed(_) =>
          messages := RemoveById(messages, tempId);
      }
    }
  }
}
