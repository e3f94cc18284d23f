/**
 * The page's voice state: for every voice channel the list of people the
 * server says are in it and whether this browser joined it, plus this
 * user's own channel, mute and deafen flags.
 *
 * Server notices arrive as `VoiceNotice` values and are folded in by pure
 * reducers. The session actions talk to two outside parties: the media
 * transport (token service, room connection, microphone), whose outcomes
 * are parameters and whose requests are logged in `transport`, and the
 * presence client of `VoicePresenceClient`, held by reference.
 */
module VoiceHook {
  import opened Common
  import VoicePresenceClient

  datatype Participant = Participant(
    userId: string,
    username: string,
    avatarUrl: Option<string>,
    muted: bool,
    deafened: bool,
    speaking: bool,
    isSelf: Option<bool>)

  datatype ChannelView = ChannelView(isJoinedBySelf: bool, participants: seq<Participant>)

  type VoiceState = map<string, ChannelView>

  /** The signed-in user as the hook sees it. */
  datatype SelfUser = SelfUser(id: string, username: string, avatarUrl: Option<string>)

  datatype VoiceNotice =
    | UserList(channelId: string, participants: seq<Participant>)
    | UserJoin(channelId: string, user: Participant)
    | UserLeave(channelId: string, userId: string)
    | StateUpdate(channelId: string, userId: string, muted: bool, deafened: bool)
    | SpeakingUpdate(channelId: string, userId: string, speaking: bool)

  /** `prev[channelId]?.isJoinedBySelf || false`. */
  function JoinedFlag(vs: VoiceState, c: string): bool {
    c in vs && vs[c].isJoinedBySelf
  }

  /** `prev[channelId]?.participants || []`. */
  function Listed(vs: VoiceState, c: string): seq<Participant> {
    if c in vs then vs[c].participants else []
  }

  predicate ListsUser(ps: seq<Participant>, u: string) {
    exists i :: 0 <= i < |ps| && ps[i].userId == u
  }

  /** `participants.filter(p => p.userId !== userId)`. */
  function DropUser(ps: seq<Participant>, u: string): (r: seq<Participant>)
    ensures !ListsUser(r, u)
    ensures forall p :: p in r <==> p in ps && p.userId != u
    ensures !ListsUser(ps, u) ==> r == ps
  {
    if ps == [] then []
    else
      var init, last := ps[..|ps| - 1], ps[|ps| - 1];
      var rest := DropUser(init, u);
      assert ps == init + [last];
      assert forall p :: p in ps <==> p in init || p == last;
      assert !ListsUser(ps, u) ==> !ListsUser(init, u) && last.userId != u by {
        if ListsUser(init, u) {
          var i :| 0 <= i < |init| && init[i].userId == u;
          assert ps[i].userId == u;
        }
        assert ps[|ps| - 1] == last;
      }
      var r := rest + (if last.userId == u then [] else [last]);
      assert !ListsUser(r, u) by {
        forall i | 0 <= i < |r|
          ensures r[i].userId != u
        {
          if i < |rest| {
            assert r[i] == rest[i];
          }
        }
      }
      r
  }

  /** `participants.map(p => p.userId === userId ? {...p, muted, deafened} : p)`. */
  function SetFlags(ps: seq<Participant>, u: string, muted: bool, deafened: bool): (r: seq<Participant>)
    ensures |r| == |ps|
    ensures forall i :: 0 <= i < |ps| && ps[i].userId == u ==> r[i] == ps[i].(muted := muted, deafened := deafened)
    ensures forall i :: 0 <= i < |ps| && ps[i].userId != u ==> r[i] == ps[i]
  {
    seq(|ps|, i requires 0 <= i < |ps| =>
      if ps[i].userId == u then ps[i].(muted := muted, deafened := deafened) else ps[i])
  }

  /** `participants.map(p => p.userId === userId ? {...p, speaking} : p)`. */
  function SetSpeaking(ps: seq<Participant>, u: string, speaking: bool): (r: seq<Participant>)
    ensures |r| == |ps|
    ensures forall i :: 0 <= i < |ps| && ps[i].userId == u ==> r[i] == ps[i].(speaking := speaking)
    ensures forall i :: 0 <= i < |ps| && ps[i].userId != u ==> r[i] == ps[i]
  {
    seq(|ps|, i requires 0 <= i < |ps| =>
      if ps[i].userId == u then ps[i].(speaking := speaking) else ps[i])
  }

  /**
   * The window-event handlers. Each touches only the notice's channel;
   * the state and speaking handlers spread the previous entry, so a
   * missing entry's `isJoinedBySelf` is undefined, which the page treats
   * as false.
   */
  function Reduce(vs: VoiceState, n: VoiceNotice): (r: VoiceState)
    ensures r.Keys == vs.Keys + {n.channelId}
    ensures forall c :: c in vs && c != n.channelId ==> r[c] == vs[c]
    ensures r[n.channelId].isJoinedBySelf == JoinedFlag(vs, n.channelId)
    ensures n.UserJoin? ==> Listed(r, n.channelId) == Listed(vs, n.channelId) + [n.user]
  {
    var c := n.channelId;
    var joined := JoinedFlag(vs, c);
    var before := Listed(vs, c);
    match n
    case UserList(_, ps) => vs[c := ChannelView(joined, ps)]
    case UserJoin(_, p) => vs[c := ChannelView(joined, before + [p])]
    case UserLeave(_, u) => vs[c := ChannelView(joined, DropUser(before, u))]
    case StateUpdate(_, u, m, d) => vs[c := ChannelView(joined, SetFlags(before, u, m, d))]
    case SpeakingUpdate(_, u, s) => vs[c := ChannelView(joined, SetSpeaking(before, u, s))]
  }

  /** A user-list notice replaces the channel's list wholesale. */
  lemma UserListReplaces(vs: VoiceState, c: string, ps: seq<Participant>)
    ensures Listed(Reduce(vs, UserList(c, ps)), c) == ps
  {
  }

  /**
   * A join is not de-duplicated: a user the channel already lists is
   * listed once more, at the end.
   */
  lemma {:induction false} RepeatedJoinListsTwice(vs: VoiceState, c: string, p: Participant)
    requires p in Listed(vs, c)
    ensures var before, after := Listed(vs, c), Listed(Reduce(vs, UserJoin(c, p)), c);
      && |after| == |before| + 1
      && multiset(after)[p] == multiset(before)[p] + 1 >= 2
  {
    var before := Listed(vs, c);
    assert Listed(Reduce(vs, UserJoin(c, p)), c) == before + [p];
    assert multiset(before + [p]) == multiset(before) + multiset{p};
    assert multiset(before)[p] >= 1;
  }

  /**
   * A leave undoes a join: after a newcomer's join notice and the same
   * user's leave notice the channel lists exactly who it listed before.
   */
  lemma {:induction false} LeaveUndoesJoin(vs: VoiceState, c: string, p: Participant)
    requires !ListsUser(Listed(vs, c), p.userId)
    ensures Listed(Reduce(Reduce(vs, UserJoin(c, p)), UserLeave(c, p.userId)), c) == Listed(vs, c)
  {
    var before := Listed(vs, c);
    var joined := before + [p];
    assert joined[..|joined| - 1] == before;
    assert DropUser(joined, p.userId) == DropUser(before, p.userId);
  }

  /** A leave notice removes every entry of the user and keeps everyone else. */
  lemma LeaveRemovesUser(vs: VoiceState, c: string, u: string)
    ensures var after := Listed(Reduce(vs, UserLeave(c, u)), c);
      && !ListsUser(after, u)
      && forall p :: p in Listed(vs, c) && p.userId != u ==> p in after
  {
  }

  /**
   * Flag notices change who is listed in no way: the same user ids in the
   * same order, and only the named user's flags.
   */
  lemma FlagUpdatesKeepMembership(vs: VoiceState, n: VoiceNotice)
    requires n.StateUpdate? || n.SpeakingUpdate?
    ensures var before, after := Listed(vs, n.channelId), Listed(Reduce(vs, n), n.channelId);
      && |after| == |before|
      && (forall i :: 0 <= i < |before| ==> after[i].userId == before[i].userId && after[i].username == before[i].username)
      && (forall i :: 0 <= i < |before| && before[i].userId != n.userId ==> after[i] == before[i])
  {
  }

  /** An update about a user the channel does not list leaves the list as it was. */
  lemma UpdateForAbsentUserIsNoOp(vs: VoiceState, n: VoiceNotice)
    requires n.StateUpdate? || n.SpeakingUpdate? || n.UserLeave?
    requires !ListsUser(Listed(vs, n.channelId), n.userId)
    ensures Listed(Reduce(vs, n), n.channelId) == Listed(vs, n.channelId)
  {
    var before := Listed(vs, n.channelId);
    if n.StateUpdate? {
      assert SetFlags(before, n.userId, n.muted, n.deafened) == before;
    } else if n.SpeakingUpdate? {
      assert SetSpeaking(before, n.userId, n.speaking) == before;
    }
  }

  /** What the page asks of the media transport, in order. */
  datatype TransportOp =
    | RequestToken(channelId: string, userId: string)
    | Connect(channelId: string, token: string)
    | SetMic(muted: bool)
    | SetDeafened(deafened: bool)
    | Disconnect

  datatype Notice = JoinedToast | JoinFailedToast | LeftToast

  /** How an action's promise ends: it resolves, or a transport failure escapes it. */
  datatype Settled = Resolved | Rejected

  /** `{ channelId: isJoinedBySelf := flag, participants kept }`. */
  function MarkJoined(vs: VoiceState, c: string, flag: bool): (r: VoiceState)
    ensures r.Keys == vs.Keys + {c}
    ensures r[c].isJoinedBySelf == flag && Listed(r, c) == Listed(vs, c)
    ensures forall d :: d in vs && d != c ==> r[d] == vs[d]
  {
    vs[c := ChannelView(flag, Listed(vs, c))]
  }

  class VoiceSession {
    var voiceState: VoiceState
    var currentChannelId: Option<string>
    var selfMuted: bool
    var selfDeafened: bool
    var transport: seq<TransportOp>
    var notices: seq<Notice>
    /** The channel the speaking callback forwards to, once one is registered. */
    var speakingRoute: Option<string>
    const presence: VoicePresenceClient.PresenceClient

    ghost predicate Valid()
      reads this, presence
    {
      presence.Valid()
    }

    constructor (presence: VoicePresenceClient.PresenceClient)
      requires presence.Valid()
      ensures Valid()
      ensures this.presence == presence
      ensures voiceState == map[] && currentChannelId == None
      ensures !selfMuted && !selfDeafened
      ensures transport == [] && notices == [] && speakingRoute == None
    {
      this.presence := presence;
      voiceState, currentChannelId := map[], None;
      selfMuted, selfDeafened := false, false;
      transport, notices, speakingRoute := [], [], None;
    }

    /** A relayed server notice. */
    method Receive(n: VoiceNotice)
      requires Valid()
      modifies this
      ensures Valid()
      ensures voiceState == Reduce(old(voiceState), n)
      ensures currentChannelId == old(currentChannelId) && selfMuted == old(selfMuted) && selfDeafened == old(selfDeafened)
      ensures transport == old(transport) && notices == old(notices) && speakingRoute == old(speakingRoute)
    {
      voiceState := Reduce(voiceState, n);
    }

    /**
     * `joinVoice`. Nothing without a user. Otherwise a token is requested;
     * `token` is the token, or None when the request fails or is refused.
     * With a token the room is connected and the microphone set to the
     * current mute flag; if every step succeeds the join is announced, the
     * channel becomes current and joined, speaking reports are routed to
     * it and a success notice shown. Any failure shows a failure notice
     * and changes no state.
     */
    method JoinVoice(channelId: string, user: Option<SelfUser>, token: Option<string>,
                     connectOk: bool, micOk: bool, socketUp: bool)
      requires Valid()
      modifies this, presence
      ensures Valid()
      ensures user.None? ==> transport == old(transport) && notices == old(notices)
      ensures user.Some? ==> transport == old(transport) + JoinRequests(channelId, user.value.id, token, connectOk, old(selfMuted))
      ensures user.Some? && token.Some? && connectOk && micOk ==> (
        && presence.relaying == old(presence.relaying)
        && presence.sent == Emit(old(presence.sent), socketUp,
             VoicePresenceClient.JoinSent(channelId, VoicePresenceClient.UserRef(user.value.id, user.value.username, user.value.avatarUrl)))
        && presence.heartbeatInterval.Some?
        && presence.timers == map[presence.heartbeatInterval.value := VoicePresenceClient.HeartbeatTarget(channelId, user.value.id)]
        && currentChannelId == Some(channelId)
        && voiceState == MarkJoined(old(voiceState), channelId, true)
        && speakingRoute == Some(channelId)
        && notices == old(notices) + [JoinedToast])
      ensures !(user.Some? && token.Some? && connectOk && micOk) ==> (
        && unchanged(presence)
        && currentChannelId == old(currentChannelId)
        && voiceState == old(voiceState)
        && speakingRoute == old(speakingRoute)
        && notices == old(notices) + (if user.Some? then [JoinFailedToast] else []))
      ensures selfMuted == old(selfMuted) && selfDeafened == old(selfDeafened)
    {
      if user.None? {
        return;
      }
      var u := user.value;
      transport := transport + [RequestToken(channelId, u.id)];
      if token.None? {
        notices := notices + [JoinFailedToast];
        return;
      }
      transport := transport + [Connect(channelId, token.value)];
      if !connectOk {
        notices := notices + [JoinFailedToast];
        return;
      }
      transport := transport + [SetMic(selfMuted)];
      if !micOk {
        notices := notices + [JoinFailedToast];
        return;
      }
      presence.JoinVoice(channelId, VoicePresenceClient.UserRef(u.id, u.username, u.avatarUrl), socketUp);
      currentChannelId := Some(channelId);
      voiceState := MarkJoined(voiceState, channelId, true);
      speakingRoute := Some(channelId);
      notices := notices + [JoinedToast];
    }

    /**
     * `leaveVoice`. Nothing unless a channel is current and a user signed
     * in. The room is disconnected first; if that fails the promise
     * rejects with nothing else changed. Otherwise the leave is announced,
     * the heartbeat stops, the channel is marked not joined (its list
     * kept), no channel is current and a notice is shown.
     */
    method LeaveVoice(user: Option<SelfUser>, disconnectOk: bool, socketUp: bool) returns (outcome: Settled)
      requires Valid()
      modifies this, presence
      ensures Valid()
      ensures !old(Active(user)) ==> (
        && outcome == Resolved && transport == old(transport) && currentChannelId == old(currentChannelId)
        && voiceState == old(voiceState) && notices == old(notices) && unchanged(presence))
      ensures old(Active(user)) ==> transport == old(transport) + [Disconnect]
      ensures old(Active(user)) && !disconnectOk ==> (
        && outcome == Rejected && currentChannelId == old(currentChannelId)
        && voiceState == old(voiceState) && notices == old(notices) && unchanged(presence))
      ensures old(Active(user)) && disconnectOk ==> (
        && outcome == Resolved
        && presence.relaying == old(presence.relaying) && presence.nextHandle == old(presence.nextHandle)
        && presence.sent == Emit(old(presence.sent), socketUp,
             VoicePresenceClient.LeaveSent(old(currentChannelId).value, user.value.id))
        && presence.timers == map[]
        && voiceState == MarkJoined(old(voiceState), old(currentChannelId).value, false)
        && currentChannelId == None
        && notices == old(notices) + [LeftToast])
      ensures selfMuted == old(selfMuted) && selfDeafened == old(selfDeafened) && speakingRoute == old(speakingRoute)
    {
      if !Truthy(currentChannelId) || user.None? {
        return Resolved;
      }
      var c := currentChannelId.value;
      transport := transport + [Disconnect];
      if !disconnectOk {
        return Rejected;
      }
      presence.LeaveVoice(c, user.value.id, socketUp);
      voiceState := MarkJoined(voiceState, c, false);
      currentChannelId := None;
      notices := notices + [LeftToast];
      outcome := Resolved;
    }

    /**
     * `toggleMute`: flips the mute flag before the microphone call, and
     * reports the new flags only if that call succeeds. The deafen flag is
     * reported as it is, so unmuting while deafened reports a deafened,
     * unmuted user.
     */
    method ToggleMute(user: Option<SelfUser>, micOk: bool, socketUp: bool) returns (outcome: Settled)
      requires Valid()
      modifies this, presence
      ensures Valid()
      ensures !old(Active(user)) ==> (
        && outcome == Resolved && selfMuted == old(selfMuted)
        && transport == old(transport) && presence.sent == old(presence.sent))
      ensures old(Active(user)) ==> selfMuted == !old(selfMuted) && transport == old(transport) + [SetMic(!old(selfMuted))]
      ensures old(Active(user)) && !micOk ==> outcome == Rejected && presence.sent == old(presence.sent)
      ensures old(Active(user)) && micOk ==> (
        && outcome == Resolved
        && presence.sent == Emit(old(presence.sent), socketUp,
             VoicePresenceClient.StateSent(old(currentChannelId).value, user.value.id, !old(selfMuted), old(selfDeafened))))
      ensures selfDeafened == old(selfDeafened) && currentChannelId == old(currentChannelId)
      ensures voiceState == old(voiceState) && notices == old(notices) && speakingRoute == old(speakingRoute)
      ensures presence.timers == old(presence.timers) && presence.heartbeatInterval == old(presence.heartbeatInterval)
      ensures presence.nextHandle == old(presence.nextHandle) && presence.relaying == old(presence.relaying)
    {
      if !Truthy(currentChannelId) || user.None? {
        return Resolved;
      }
      var newMuted := !selfMuted;
      selfMuted := newMuted;
      transport := transport + [SetMic(newMuted)];
      if !micOk {
        return Rejected;
      }
      presence.UpdateState(currentChannelId.value, user.value.id, newMuted, selfDeafened, socketUp);
      outcome := Resolved;
    }

    /**
     * `toggleDeafen`: flips the deafen flag; deafening an unmuted user
     * also mutes the microphone. The reported state says muted whenever
     * the user is now deafened.
     */
    method ToggleDeafen(user: Option<SelfUser>, micOk: bool, socketUp: bool) returns (outcome: Settled)
      requires Valid()
      modifies this, presence
      ensures Valid()
      ensures !old(Active(user)) ==> (
        && outcome == Resolved && selfMuted == old(selfMuted) && selfDeafened == old(selfDeafened)
        && transport == old(transport) && presence.sent == old(presence.sent))
      ensures old(Active(user)) ==> (
        && selfDeafened == !old(selfDeafened)
        && selfMuted == (old(selfMuted) || !old(selfDeafened))
        && transport == old(transport) + [SetDeafened(!old(selfDeafened))] + old(ForcedMute()))
      ensures old(Active(user)) && old(ForcedMute()) != [] && !micOk ==> outcome == Rejected && presence.sent == old(presence.sent)
      ensures old(Active(user)) && (old(ForcedMute()) == [] || micOk) ==> (
        && outcome == Resolved
        && presence.sent == Emit(old(presence.sent), socketUp,
             VoicePresenceClient.StateSent(old(currentChannelId).value, user.value.id,
               !old(selfDeafened) || old(selfMuted), !old(selfDeafened))))
      ensures old(Active(user)) ==> DeafenedImpliesMuted()
      ensures currentChannelId == old(currentChannelId)
      ensures voiceState == old(voiceState) && notices == old(notices) && speakingRoute == old(speakingRoute)
      ensures presence.timers == old(presence.timers) && presence.heartbeatInterval == old(presence.heartbeatInterval)
      ensures presence.nextHandle == old(presence.nextHandle) && presence.relaying == old(presence.relaying)
    {
      if !Truthy(currentChannelId) || user.None? {
        return Resolved;
      }
      var wasMuted := selfMuted;
      var newDeafened := !selfDeafened;
      selfDeafened := newDeafened;
      transport := transport + [SetDeafened(newDeafened)];
      if newDeafened && !wasMuted {
        selfMuted := true;
        transport := transport + [SetMic(true)];
        if !micOk {
          return Rejected;
        }
      }
      presence.UpdateState(currentChannelId.value, user.value.id, if newDeafened then true else wasMuted, newDeafened, socketUp);
      outcome := Resolved;
    }

    /** The guard of the three in-call actions: a current channel and a signed-in user. */
    predicate Active(user: Option<SelfUser>)
      reads this
    {
      Truthy(currentChannelId) && user.Some?
    }

    /** Deafening an unmuted user also turns the microphone off. */
    function ForcedMute(): seq<TransportOp>
      reads this
    {
      if !selfDeafened && !selfMuted then [SetMic(true)] else []
    }

    /** A deafened user is muted. */
    predicate DeafenedImpliesMuted()
      reads this
    {
      selfDeafened ==> selfMuted
    }

    /** The registered speaking callback fires: it forwards to the channel it was registered for. */
    method OnSpeaking(userId: string, speaking: bool, socketUp: bool)
      requires Valid()
      modifies presence
      ensures Valid()
      ensures speakingRoute.Some? ==>
        presence.sent == Emit(old(presence.sent), socketUp, VoicePresenceClient.SpeakingSent(speakingRoute.value, userId, speaking))
      ensures speakingRoute.None? ==> presence.sent == old(presence.sent)
      ensures presence.timers == old(presence.timers) && presence.heartbeatInterval == old(presence.heartbeatInterval)
      ensures presence.nextHandle == old(presence.nextHandle) && presence.relaying == old(presence.relaying)
    {
      if speakingRoute.Some? {
        presence.UpdateSpeaking(speakingRoute.value, userId, speaking, socketUp);
      }
    }
  }

  /** The transport requests `joinVoice` makes for a signed-in user, up to the first failure. */
  function JoinRequests(channelId: string, userId: string, token: Option<string>, connectOk: bool, muted: bool): (r: seq<TransportOp>)
    ensures 1 <= |r| <= 3 && r[0] == RequestToken(channelId, userId)
    ensures |r| == 3 <==> token.Some? && connectOk
    ensures |r| == 3 ==> r[2] == SetMic(muted)
  {
    [RequestToken(channelId, userId)]
    + (if token.Some? then [Connect(channelId, token.value)] else [])
    + (if token.Some? && connectOk then [SetMic(muted)] else [])
  }
}
