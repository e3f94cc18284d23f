/**
 * The browser's side of voice presence: it sends join / leave / state /
 * speaking notices to the realtime server and, while joined, keeps the
 * membership alive with one heartbeat every 15 seconds.
 *
 * The socket is external: whether one exists at the moment of a call is
 * the parameter `socketUp` (sends without a socket are dropped, exactly
 * as the optional-chained `emit` drops them), what reached it is the log
 * `sent`. Interval timers are the map `timers` from handle to target;
 * `Tick(h)` is the timer with handle `h` firing.
 */
module VoicePresenceClient {
  import opened Common

  const HeartbeatEveryMs: nat := 15000

  datatype UserRef = UserRef(id: string, username: string, avatarUrl: Option<string>)

  datatype ClientEmit =
    | JoinSent(channelId: string, user: UserRef)
    | LeaveSent(channelId: string, userId: string)
    | StateSent(channelId: string, userId: string, muted: bool, deafened: bool)
    | SpeakingSent(channelId: string, userId: string, speaking: bool)
    | HeartbeatSent(channelId: string, userId: string)

  /** What a heartbeat interval sends each time it fires. */
  datatype HeartbeatTarget = HeartbeatTarget(channelId: string, userId: string)

  /** The server events this client relays to the page while subscribed. */
  const RelayedEvents: set<string> :=
    {"voice:userlist", "voice:join", "voice:leave", "voice:state", "voice:speaking"}

  class PresenceClient {
    var heartbeatInterval: Option<nat>
    var timers: map<nat, HeartbeatTarget>
    var nextHandle: nat
    var sent: seq<ClientEmit>
    var relaying: set<string>

    /** At most one heartbeat interval is alive, and it is the one the client holds. */
    ghost predicate Valid()
      reads this
    {
      && (heartbeatInterval.None? ==> timers == map[])
      && (heartbeatInterval.Some? ==> timers.Keys == {heartbeatInterval.value})
      && (forall h :: h in timers ==> h < nextHandle)
    }

    constructor ()
      ensures Valid()
      ensures heartbeatInterval == None && timers == map[] && sent == [] && relaying == {}
    {
      heartbeatInterval, timers, nextHandle := None, map[], 0;
      sent, relaying := [], {};
    }

    /** Installs the relays for the five voice events when a socket exists. */
    method Subscribe(socketUp: bool)
      requires Valid()
      modifies this
      ensures Valid()
      ensures relaying == if socketUp then old(relaying) + RelayedEvents else old(relaying)
      ensures heartbeatInterval == old(heartbeatInterval) && timers == old(timers) && sent == old(sent)
      ensures nextHandle == old(nextHandle)
    {
      if !socketUp {
        return;
      }
      relaying := relaying + RelayedEvents;
    }

    /**
     * Removes the relays and stops the heartbeat. Without a socket it
     * returns first, so the heartbeat keeps running.
     */
    method Unsubscribe(socketUp: bool)
      requires Valid()
      modifies this
      ensures Valid()
      ensures socketUp ==> relaying == old(relaying) - RelayedEvents && heartbeatInterval == None && timers == map[]
      ensures !socketUp ==> relaying == old(relaying) && heartbeatInterval == old(heartbeatInterval) && timers == old(timers)
      ensures sent == old(sent) && nextHandle == old(nextHandle)
    {
      if !socketUp {
        return;
      }
      relaying := relaying - RelayedEvents;
      StopHeartbeat();
    }

    /** Announces the join, then replaces any running heartbeat by one for this membership. */
    method JoinVoice(channelId: string, user: UserRef, socketUp: bool)
      requires Valid()
      modifies this
      ensures Valid()
      ensures sent == Emit(old(sent), socketUp, JoinSent(channelId, user))
      ensures heartbeatInterval.Some?
      ensures timers == map[heartbeatInterval.value := HeartbeatTarget(channelId, user.id)]
      ensures relaying == old(relaying) && nextHandle == old(nextHandle) + 1
    {
      sent := Emit(sent, socketUp, JoinSent(channelId, user));
      StartHeartbeat(channelId, user.id);
    }

    /** Announces the leave and stops the heartbeat. */
    method LeaveVoice(channelId: string, userId: string, socketUp: bool)
      requires Valid()
      modifies this
      ensures Valid()
      ensures sent == Emit(old(sent), socketUp, LeaveSent(channelId, userId))
      ensures heartbeatInterval == None && timers == map[]
      ensures relaying == old(relaying) && nextHandle == old(nextHandle)
    {
      sent := Emit(sent, socketUp, LeaveSent(channelId, userId));
      StopHeartbeat();
    }

    method UpdateState(channelId: string, userId: string, muted: bool, deafened: bool, socketUp: bool)
      requires Valid()
      modifies this
      ensures Valid()
      ensures sent == Emit(old(sent), socketUp, StateSent(channelId, userId, muted, deafened))
      ensures heartbeatInterval == old(heartbeatInterval) && timers == old(timers) && relaying == old(relaying)
      ensures nextHandle == old(nextHandle)
    {
      sent := Emit(sent, socketUp, StateSent(channelId, userId, muted, deafened));
    }

    method UpdateSpeaking(channelId: string, userId: string, speaking: bool, socketUp: bool)
      requires Valid()
      modifies this
      ensures Valid()
      ensures sent == Emit(old(sent), socketUp, SpeakingSent(channelId, userId, speaking))
      ensures heartbeatInterval == old(heartbeatInterval) && timers == old(timers) && relaying == old(relaying)
      ensures nextHandle == old(nextHandle)
    {
      sent := Emit(sent, socketUp, SpeakingSent(channelId, userId, speaking));
    }

    /** Clears the running interval, then starts a fresh one under a new handle. */
    method StartHeartbeat(channelId: string, userId: string)
      requires Valid()
      modifies this
      ensures Valid()
      ensures heartbeatInterval == Some(old(nextHandle))
      ensures timers == map[old(nextHandle) := HeartbeatTarget(channelId, userId)]
      ensures sent == old(sent) && relaying == old(relaying) && nextHandle == old(nextHandle) + 1
    {
      StopHeartbeat();
      var h := nextHandle;
      nextHandle := nextHandle + 1;
      timers := timers[h := HeartbeatTarget(channelId, userId)];
      heartbeatInterval := Some(h);
    }

    method StopHeartbeat()
      requires Valid()
      modifies this
      ensures Valid()
      ensures heartbeatInterval == None && timers == map[]
      ensures nextHandle == old(nextHandle) && sent == old(sent) && relaying == old(relaying)
    {
      if heartbeatInterval.Some? {
        timers := timers - {heartbeatInterval.value};
        heartbeatInterval := None;
      }
    }

    /** Timer `h` fires: a live heartbeat interval sends its heartbeat; a cleared one never fires. */
    method Tick(h: nat, socketUp: bool)
      requires Valid()
      modifies this
      ensures Valid()
      ensures h in old(timers) ==>
        sent == Emit(old(sent), socketUp, HeartbeatSent(old(timers)[h].channelId, old(timers)[h].userId))
      ensures h !in old(timers) ==> sent == old(sent)
      ensures heartbeatInterval == old(heartbeatInterval) && timers == old(timers) && relaying == old(relaying)
      ensures nextHandle == old(nextHandle)
    {
      if h in timers {
        sent := Emit(sent, socketUp, HeartbeatSent(timers[h].channelId, timers[h].userId));
      }
    }
  }

  /**
   * Heartbeats follow the current membership: after joining one channel
   * and then another, only the second channel's heartbeat can fire, and
   * after leaving none can.
   */
  method RejoinKeepsOneHeartbeat(c1: string, c2: string, user: UserRef, socketUp: bool)
    returns (live: map<nat, HeartbeatTarget>, afterLeave: map<nat, HeartbeatTarget>)
    ensures |live| == 1
    ensures forall h :: h in live ==> live[h] == HeartbeatTarget(c2, user.id)
    ensures afterLeave == map[]
  {
    var client := new PresenceClient();
    client.JoinVoice(c1, user, socketUp);
    client.JoinVoice(c2, user, socketUp);
    live := client.timers;
    assert live.Keys == {client.heartbeatInterval.value};
    client.LeaveVoice(c2, user.id, socketUp);
    afterLeave := client.timers;
  }
}
