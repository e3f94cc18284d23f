/**
 * The server's authoritative voice roster: a table from voice channel id
 * to a table from user id to participant, changed by the `voice:join`,
 * `voice:leave`, `voice:state`, `voice:speaking` and `voice:heartbeat`
 * socket events and by a periodic sweep that expires participants whose
 * last heartbeat is more than 30 seconds old (a lease table).
 *
 * The clock is the parameter `now` (milliseconds); the 15-second
 * `setInterval` that drives the sweep is a call to `Sweep`. What the
 * server sends is appended to `outbox`: `ToAll` for `io.emit`, `ToSender`
 * for `socket.emit`.
 */
module VoiceRoster {
  import opened Common

  /** The expiry threshold of `cleanupStaleUsers`. */
  const StaleTimeoutMs: int := 30000
  /** The period of the sweep timer. */
  const SweepIntervalMs: int := 15000

  datatype UserInfo = UserInfo(id: string, username: string, avatarUrl: Option<string>)

  datatype Participant = Participant(
    userId: string,
    username: string,
    avatarUrl: Option<string>,
    muted: bool,
    deafened: bool,
    speaking: bool,
    lastHeartbeat: int)

  type Channel = map<string, Participant>
  type Roster = map<string, Channel>

  datatype VoiceEvent =
    | Joined(channelId: string, user: Participant)
    | Left(channelId: string, userId: string)
    | StateChanged(channelId: string, userId: string, muted: bool, deafened: bool)
    | SpeakingChanged(channelId: string, userId: string, speaking: bool)
    | UserList(channelId: string, participants: seq<Participant>)

  datatype Outgoing = ToAll(event: VoiceEvent) | ToSender(event: VoiceEvent)

  /** Every participant is filed under its own user id. */
  ghost predicate WellKeyed(r: Roster) {
    forall c, u :: c in r && u in r[c] ==> r[c][u].userId == u
  }

  /** The record a `voice:join` stores: not muted, not deafened, not speaking, heartbeat now. */
  function Arrival(user: UserInfo, now: int): Participant {
    Participant(user.id, user.username, user.avatarUrl, false, false, false, now)
  }

  /** The channel's table, or an empty one when the channel was never created. */
  function ChannelOf(r: Roster, c: string): Channel {
    if c in r then r[c] else map[]
  }

  predicate IsStale(p: Participant, now: int) {
    now - p.lastHeartbeat > StaleTimeoutMs
  }

  predicate Present(r: Roster, c: string, u: string) {
    c in r && u in r[c]
  }

  // ---------------------------------------------------------------------
  // The roster after each event, as functions of the roster before it.
  // ---------------------------------------------------------------------

  function JoinRoster(r: Roster, c: string, user: UserInfo, now: int): Roster {
    r[c := ChannelOf(r, c)[user.id := Arrival(user, now)]]
  }

  function LeaveRoster(r: Roster, c: string, u: string): Roster {
    if c in r then r[c := r[c] - {u}] else r
  }

  function StateRoster(r: Roster, c: string, u: string, muted: bool, deafened: bool, now: int): Roster {
    if Present(r, c, u)
    then r[c := r[c][u := r[c][u].(muted := muted, deafened := deafened, lastHeartbeat := now)]]
    else r
  }

  function SpeakingRoster(r: Roster, c: string, u: string, speaking: bool): Roster {
    if Present(r, c, u) then r[c := r[c][u := r[c][u].(speaking := speaking)]] else r
  }

  function HeartbeatRoster(r: Roster, c: string, u: string, now: int): Roster {
    if Present(r, c, u) then r[c := r[c][u := r[c][u].(lastHeartbeat := now)]] else r
  }

  function SweepChannel(ps: Channel, now: int): Channel {
    map u | u in ps && !IsStale(ps[u], now) :: ps[u]
  }

  function SweepRoster(r: Roster, now: int): Roster {
    map c | c in r :: SweepChannel(r[c], now)
  }

  // ---------------------------------------------------------------------
  // What each event does to the roster.
  // ---------------------------------------------------------------------

  /** Join stores a fresh record for the user (creating the channel if needed), overwriting an earlier one. */
  lemma JoinStoresArrival(r: Roster, c: string, user: UserInfo, now: int)
    ensures var r' := JoinRoster(r, c, user, now);
      && Present(r', c, user.id)
      && r'[c][user.id] == Participant(user.id, user.username, user.avatarUrl, false, false, false, now)
      && r'[c].Keys == ChannelOf(r, c).Keys + {user.id}
      && (forall u :: u in ChannelOf(r, c) && u != user.id ==> r'[c][u] == r[c][u])
  {
  }

  /**
   * Join touches only its own channel. In particular it does not remove the
   * user from another channel, so one user can be listed in two channels.
   */
  lemma JoinLeavesOtherChannels(r: Roster, c: string, user: UserInfo, now: int, other: string)
    requires other != c
    ensures var r' := JoinRoster(r, c, user, now);
      && (other in r' <==> other in r)
      && (other in r ==> r'[other] == r[other])
      && (Present(r, other, user.id) ==> Present(r', other, user.id) && Present(r', c, user.id))
  {
  }

  /** Leaving after joining a channel one was not in restores the roster. */
  lemma LeaveUndoesJoin(r: Roster, c: string, user: UserInfo, now: int)
    requires c in r && user.id !in r[c]
    ensures LeaveRoster(JoinRoster(r, c, user, now), c, user.id) == r
  {
    var r' := LeaveRoster(JoinRoster(r, c, user, now), c, user.id);
    assert r'[c] == r[c];
  }

  /** Leave removes only that user from that channel; an unknown channel is left alone. */
  lemma LeaveRemovesOnlyThatUser(r: Roster, c: string, u: string)
    ensures var r' := LeaveRoster(r, c, u);
      && r'.Keys == r.Keys
      && !Present(r', c, u)
      && (forall c', u' :: Present(r, c', u') && (c' != c || u' != u) ==> Present(r', c', u') && r'[c'][u'] == r[c'][u'])
      && (forall c', u' :: Present(r', c', u') ==> Present(r, c', u'))
  {
  }

  /** A state event updates the flags and the heartbeat of a present participant and nothing else. */
  lemma StateUpdatesPresentOnly(r: Roster, c: string, u: string, muted: bool, deafened: bool, now: int)
    ensures var r' := StateRoster(r, c, u, muted, deafened, now);
      && (!Present(r, c, u) ==> r' == r)
      && (Present(r, c, u) ==>
            r'.Keys == r.Keys && r'[c].Keys == r[c].Keys
            && r'[c][u] == r[c][u].(muted := muted, deafened := deafened, lastHeartbeat := now)
            && (forall c', u' :: Present(r, c', u') && (c' != c || u' != u) ==> r'[c'][u'] == r[c'][u']))
  {
  }

  /** A speaking event changes only the speaking flag, and does not refresh the heartbeat. */
  lemma SpeakingChangesOnlyTheFlag(r: Roster, c: string, u: string, speaking: bool)
    ensures var r' := SpeakingRoster(r, c, u, speaking);
      && (!Present(r, c, u) ==> r' == r)
      && (Present(r, c, u) ==>
            r'.Keys == r.Keys && r'[c].Keys == r[c].Keys
            && r'[c][u].speaking == speaking
            && r'[c][u].(speaking := r[c][u].speaking) == r[c][u]
            && r'[c][u].lastHeartbeat == r[c][u].lastHeartbeat
            && (forall c', u' :: Present(r, c', u') && (c' != c || u' != u) ==> r'[c'][u'] == r[c'][u']))
  {
  }

  /** A heartbeat never creates an entry; it only moves a present participant's lease. */
  lemma HeartbeatOnlyRefreshes(r: Roster, c: string, u: string, now: int)
    ensures var r' := HeartbeatRoster(r, c, u, now);
      && (forall c', u' :: Present(r', c', u') <==> Present(r, c', u'))
      && (Present(r, c, u) ==> r'[c][u] == r[c][u].(lastHeartbeat := now))
      && (forall c', u' :: Present(r, c', u') && (c' != c || u' != u) ==> r'[c'][u'] == r[c'][u'])
  {
  }

  /**
   * The sweep removes exactly the participants whose lease is more than
   * 30000 ms old (one at exactly 30000 ms survives), leaves the others as
   * they were, and never removes a channel entry, even an empty one.
   */
  lemma SweepRemovesExactlyStale(r: Roster, now: int, c: string, u: string)
    ensures var r' := SweepRoster(r, now);
      && r'.Keys == r.Keys
      && (Present(r', c, u) <==> Present(r, c, u) && now - r[c][u].lastHeartbeat <= 30000)
      && (Present(r', c, u) ==> r'[c][u] == r[c][u])
  {
  }

  /** Sweeping twice at the same instant removes nothing more. */
  lemma SweepIdempotent(r: Roster, now: int)
    ensures SweepRoster(SweepRoster(r, now), now) == SweepRoster(r, now)
  {
    var once := SweepRoster(r, now);
    forall c | c in once
      ensures SweepChannel(once[c], now) == once[c]
    {
    }
  }

  /** A sweep at an earlier time is subsumed by a later one: leases only expire. */
  lemma SweepLaterSubsumesEarlier(r: Roster, t1: int, t2: int)
    requires t1 <= t2
    ensures SweepRoster(SweepRoster(r, t1), t2) == SweepRoster(r, t2)
  {
    var a := SweepRoster(SweepRoster(r, t1), t2);
    var b := SweepRoster(r, t2);
    forall c | c in r
      ensures a[c] == b[c]
    {
      assert a[c].Keys == b[c].Keys;
    }
  }

  /** Each event keeps every participant filed under its own user id. */
  lemma EventsKeepWellKeyed(r: Roster, c: string, user: UserInfo, u: string, b1: bool, b2: bool, now: int)
    requires WellKeyed(r)
    ensures WellKeyed(JoinRoster(r, c, user, now))
    ensures WellKeyed(LeaveRoster(r, c, u))
    ensures WellKeyed(StateRoster(r, c, u, b1, b2, now))
    ensures WellKeyed(SpeakingRoster(r, c, u, b1))
    ensures WellKeyed(HeartbeatRoster(r, c, u, now))
    ensures WellKeyed(SweepRoster(r, now))
  {
  }

  // ---------------------------------------------------------------------
  // Insertion order: a `Map` iterates its keys in the order they were
  // first set, and `Array.from(values())` lists the participants so.
  // ---------------------------------------------------------------------

  /** For each channel, its participants' user ids in insertion order. */
  type Arrivals = map<string, seq<string>>

  /** `ks` lists every key of `ch` once. */
  ghost predicate Enumerates(ks: seq<string>, ch: Channel) {
    NoDuplicates(ks) && forall u :: u in ks <==> u in ch
  }

  /** The order records exactly the roster's channels and, for each, its keys. */
  ghost predicate InStep(a: Arrivals, r: Roster) {
    a.Keys == r.Keys && forall c :: c in r ==> Enumerates(a[c], r[c])
  }

  function OrderOf(a: Arrivals, c: string): seq<string> {
    if c in a then a[c] else []
  }

  /** `set` on a channel's table: a new key goes last, a key already there keeps its place. */
  function JoinOrder(a: Arrivals, c: string, u: string): Arrivals {
    var ks := OrderOf(a, c);
    a[c := if u in ks then ks else ks + [u]]
  }

  /** The keys of `ks` that `live` still holds, in the same order. */
  function KeepIn(ks: seq<string>, live: Channel): (r: seq<string>)
    ensures forall u :: u in r <==> u in ks && u in live
    ensures NoDuplicates(ks) ==> NoDuplicates(r)
    ensures (forall u :: u in ks ==> u in live) ==> r == ks
  {
    if ks == [] then []
    else
      var init, last := ks[..|ks| - 1], ks[|ks| - 1];
      assert ks == init + [last];
      assert NoDuplicates(ks) ==> NoDuplicates(init) && last !in init;
      KeepIn(init, live) + (if last in live then [last] else [])
  }

  /** `delete`, by a leave or by the sweep: the remaining keys keep their places. */
  function Prune(a: Arrivals, r: Roster): Arrivals {
    map c | c in a :: KeepIn(a[c], ChannelOf(r, c))
  }

  /** `Array.from(table.values())`: the participants in insertion order. */
  function InArrivalOrder(ch: Channel, ks: seq<string>): (ps: seq<Participant>)
    requires forall u :: u in ks ==> u in ch
    ensures |ps| == |ks| && forall i :: 0 <= i < |ks| ==> ps[i] == ch[ks[i]]
  {
    seq(|ks|, i requires 0 <= i < |ks| => ch[ks[i]])
  }

  lemma JoinKeepsInStep(a: Arrivals, r: Roster, c: string, user: UserInfo, now: int)
    requires InStep(a, r)
    ensures InStep(JoinOrder(a, c, user.id), JoinRoster(r, c, user, now))
  {
    var ks := OrderOf(a, c);
    var a', r' := JoinOrder(a, c, user.id), JoinRoster(r, c, user, now);
    assert forall u :: u in ks <==> u in ChannelOf(r, c);
    if user.id !in ks {
      assert NoDuplicates(ks + [user.id]);
    }
    assert Enumerates(a'[c], r'[c]);
    forall d | d in r' && d != c
      ensures Enumerates(a'[d], r'[d])
    {
      assert a'[d] == a[d] && r'[d] == r[d];
    }
  }

  /** What a join keeps of the server's invariant, and what the roster it sends may read. */
  lemma JoinKeepsServerValid(a: Arrivals, r: Roster, c: string, user: UserInfo, now: int)
    requires WellKeyed(r) && InStep(a, r)
    ensures var a', r' := JoinOrder(a, c, user.id), JoinRoster(r, c, user, now);
      && WellKeyed(r') && InStep(a', r')
      && (forall v :: v in a'[c] ==> v in r'[c])
      && r'[c].Keys == ChannelOf(r, c).Keys + {user.id}
  {
    JoinKeepsInStep(a, r, c, user, now);
    EventsKeepWellKeyed(r, c, user, user.id, false, false, now);
    var a', r' := JoinOrder(a, c, user.id), JoinRoster(r, c, user, now);
    assert Enumerates(a'[c], r'[c]);
  }

  /** Deleting keys, wherever they are, keeps the pruned order in step. */
  lemma PruneKeepsInStep(a: Arrivals, r: Roster, r': Roster)
    requires InStep(a, r)
    requires r'.Keys == r.Keys
    requires forall c, u :: c in r' && u in r'[c] ==> u in r[c]
    ensures InStep(Prune(a, r'), r')
  {
    forall c | c in r'
      ensures Enumerates(Prune(a, r')[c], r'[c])
    {
      assert ChannelOf(r', c) == r'[c];
    }
  }

  lemma SweepKeepsInStep(a: Arrivals, r: Roster, now: int)
    requires InStep(a, r)
    ensures InStep(Prune(a, SweepRoster(r, now)), SweepRoster(r, now))
  {
    PruneKeepsInStep(a, r, SweepRoster(r, now));
  }

  /**
   * The roster sent to a joiner lists the channel's participants in
   * insertion order: a newcomer after everyone already there, a
   * participant who joins again in their old place with the fresh record.
   */
  lemma UserListInArrivalOrder(a: Arrivals, r: Roster, c: string, user: UserInfo, now: int)
    requires InStep(a, r)
    ensures var r', a' := JoinRoster(r, c, user, now), JoinOrder(a, c, user.id);
      var old_ := InArrivalOrder(ChannelOf(r, c), OrderOf(a, c));
      InStep(a', r') &&
      (user.id !in ChannelOf(r, c) ==> InArrivalOrder(r'[c], a'[c]) == old_ + [Arrival(user, now)]) &&
      (user.id in ChannelOf(r, c) ==>
        var now_ := InArrivalOrder(r'[c], a'[c]);
        |now_| == |old_| &&
        forall i :: 0 <= i < |old_| ==> now_[i] == if OrderOf(a, c)[i] == user.id then Arrival(user, now) else old_[i])
  {
    JoinKeepsInStep(a, r, c, user, now);
    var ch, ks := ChannelOf(r, c), OrderOf(a, c);
    var r', a' := JoinRoster(r, c, user, now), JoinOrder(a, c, user.id);
    assert forall v :: v in ks <==> v in ch;
    var before := InArrivalOrder(ch, ks);
    var after := InArrivalOrder(r'[c], a'[c]);
    if user.id !in ch {
      assert a'[c] == ks + [user.id];
      forall i | 0 <= i < |ks|
        ensures after[i] == before[i]
      {
        assert ks[i] != user.id;
      }
      assert after == before + [Arrival(user, now)];
    } else {
      assert a'[c] == ks;
      forall i | 0 <= i < |ks|
        ensures after[i] == if ks[i] == user.id then Arrival(user, now) else before[i]
      {
      }
    }
  }

  // ---------------------------------------------------------------------
  // Lease liveness over a run of heartbeats and sweeps.
  // ---------------------------------------------------------------------

  datatype LeaseOp = HeartbeatAt(channelId: string, userId: string, at: int) | SweepAt(at: int)

  function ApplyLeaseOp(r: Roster, op: LeaseOp): Roster {
    match op
    case HeartbeatAt(c, u, t) => HeartbeatRoster(r, c, u, t)
    case SweepAt(t) => SweepRoster(r, t)
  }

  function Replay(r: Roster, ops: seq<LeaseOp>): Roster
    decreases |ops|
  {
    if ops == [] then r else Replay(ApplyLeaseOp(r, ops[0]), ops[1..])
  }

  /**
   * Every sweep in `ops` runs at most 30000 ms after the latest heartbeat of
   * (c, u) before it, `last` being the lease at the start.
   */
  predicate KeptAlive(ops: seq<LeaseOp>, c: string, u: string, last: int)
    decreases |ops|
  {
    ops == [] ||
    match ops[0]
    case HeartbeatAt(c', u', t) => KeptAlive(ops[1..], c, u, if c' == c && u' == u then t else last)
    case SweepAt(t) => t - last <= StaleTimeoutMs && KeptAlive(ops[1..], c, u, last)
  }

  /** A participant whose heartbeats keep up with the sweeps is never expired. */
  lemma {:induction false} HeartbeatingParticipantSurvives(r: Roster, ops: seq<LeaseOp>, c: string, u: string)
    requires Present(r, c, u)
    requires KeptAlive(ops, c, u, r[c][u].lastHeartbeat)
    ensures Present(Replay(r, ops), c, u)
    decreases |ops|
  {
    if ops != [] {
      var r1 := ApplyLeaseOp(r, ops[0]);
      match ops[0]
      case HeartbeatAt(c', u', t) =>
        HeartbeatOnlyRefreshes(r, c', u', t);
        HeartbeatingParticipantSurvives(r1, ops[1..], c, u);
      case SweepAt(t) =>
        SweepRemovesExactlyStale(r, t, c, u);
        HeartbeatingParticipantSurvives(r1, ops[1..], c, u);
    }
  }

  // ---------------------------------------------------------------------
  // The server object.
  // ---------------------------------------------------------------------

  class VoiceServer {
    var voicePresence: Roster
    /** The insertion order of every channel's table, which `Array.from` follows. */
    var arrivals: Arrivals
    var outbox: seq<Outgoing>

    ghost predicate Valid()
      reads this
    {
      WellKeyed(voicePresence) && InStep(arrivals, voicePresence)
    }

    constructor ()
      ensures Valid() && voicePresence == map[] && arrivals == map[] && outbox == []
    {
      voicePresence := map[];
      arrivals := map[];
      outbox := [];
    }

    /**
     * `voice:join`: store the arrival, announce it to everyone, and send the
     * joiner the channel's whole roster in insertion order, which therefore
     * holds the joiner and everyone who was already there.
     */
    method Join(channelId: string, user: UserInfo, now: int)
      requires Valid()
      modifies this
      ensures Valid()
      ensures voicePresence == JoinRoster(old(voicePresence), channelId, user, now)
      ensures arrivals == JoinOrder(old(arrivals), channelId, user.id)
      ensures outbox == old(outbox) + [ToAll(Joined(channelId, Arrival(user, now))),
                                       ToSender(UserList(channelId, InArrivalOrder(voicePresence[channelId], arrivals[channelId])))]
      ensures voicePresence[channelId].Keys == ChannelOf(old(voicePresence), channelId).Keys + {user.id}
    {
      ghost var r0 := voicePresence;
      JoinKeepsServerValid(arrivals, r0, channelId, user, now);
      var table := if channelId in voicePresence then voicePresence[channelId] else map[];
      var participant := Arrival(user, now);
      voicePresence := voicePresence[channelId := table[user.id := participant]];
      assert voicePresence == JoinRoster(r0, channelId, user, now);
      arrivals := JoinOrder(arrivals, channelId, user.id);
      outbox := outbox + [ToAll(Joined(channelId, participant))];
      var participants := InArrivalOrder(voicePresence[channelId], arrivals[channelId]);
      outbox := outbox + [ToSender(UserList(channelId, participants))];
    }

    /** `voice:leave`: remove and announce, but only when the channel table exists. */
    method Leave(channelId: string, userId: string)
      requires Valid()
      modifies this
      ensures Valid()
      ensures voicePresence == LeaveRoster(old(voicePresence), channelId, userId)
      ensures arrivals == Prune(old(arrivals), voicePresence)
      ensures outbox == old(outbox) + (if channelId in old(voicePresence) then [ToAll(Left(channelId, userId))] else [])
    {
      PruneKeepsInStep(arrivals, voicePresence, LeaveRoster(voicePresence, channelId, userId));
      if channelId in voicePresence {
        voicePresence := voicePresence[channelId := voicePresence[channelId] - {userId}];
        outbox := outbox + [ToAll(Left(channelId, userId))];
      }
      arrivals := Prune(arrivals, voicePresence);
    }

    /** `voice:state`: for a present participant only, set the flags, refresh the lease, announce. */
    method State(channelId: string, userId: string, muted: bool, deafened: bool, now: int)
      requires Valid()
      modifies this
      ensures Valid()
      ensures voicePresence == StateRoster(old(voicePresence), channelId, userId, muted, deafened, now)
      ensures arrivals == old(arrivals)
      ensures outbox == old(outbox) +
        (if Present(old(voicePresence), channelId, userId) then [ToAll(StateChanged(channelId, userId, muted, deafened))] else [])
    {
      if channelId in voicePresence {
        if userId in voicePresence[channelId] {
          var p := voicePresence[channelId][userId];
          p := p.(muted := muted, deafened := deafened, lastHeartbeat := now);
          voicePresence := voicePresence[channelId := voicePresence[channelId][userId := p]];
          outbox := outbox + [ToAll(StateChanged(channelId, userId, muted, deafened))];
        }
      }
    }

    /** `voice:speaking`: for a present participant only, set the flag and announce. */
    method Speaking(channelId: string, userId: string, speaking: bool)
      requires Valid()
      modifies this
      ensures Valid()
      ensures voicePresence == SpeakingRoster(old(voicePresence), channelId, userId, speaking)
      ensures arrivals == old(arrivals)
      ensures outbox == old(outbox) +
        (if Present(old(voicePresence), channelId, userId) then [ToAll(SpeakingChanged(channelId, userId, speaking))] else [])
    {
      if channelId in voicePresence {
        if userId in voicePresence[channelId] {
          var p := voicePresence[channelId][userId].(speaking := speaking);
          voicePresence := voicePresence[channelId := voicePresence[channelId][userId := p]];
          outbox := outbox + [ToAll(SpeakingChanged(channelId, userId, speaking))];
        }
      }
    }

    /** `voice:heartbeat`: refresh a present participant's lease; never announced. */
    method Heartbeat(channelId: string, userId: string, now: int)
      requires Valid()
      modifies this
      ensures Valid()
      ensures voicePresence == HeartbeatRoster(old(voicePresence), channelId, userId, now)
      ensures arrivals == old(arrivals)
      ensures outbox == old(outbox)
    {
      if channelId in voicePresence {
        if userId in voicePresence[channelId] {
          var p := voicePresence[channelId][userId].(lastHeartbeat := now);
          voicePresence := voicePresence[channelId := voicePresence[channelId][userId := p]];
        }
      }
    }

    /** `cleanupStaleUsers`: for every channel, delete every participant whose lease has expired. */
    method Sweep(now: int)
      requires Valid()
      modifies this
      ensures Valid()
      ensures voicePresence == SweepRoster(old(voicePresence), now)
      ensures arrivals == Prune(old(arrivals), voicePresence)
      ensures outbox == old(outbox)
    {
      ghost var start := voicePresence;
      EventsKeepWellKeyed(start, "", UserInfo("", "", None), "", false, false, now);
      SweepKeepsInStep(arrivals, start, now);
      DeleteStale(now);
      arrivals := Prune(arrivals, voicePresence);
    }

    /** The nested `forEach` of the sweep: each table loses its expired participants. */
    method DeleteStale(now: int)
      modifies this
      ensures voicePresence == SweepRoster(old(voicePresence), now)
      ensures outbox == old(outbox) && arrivals == old(arrivals)
    {
      ghost var start := voicePresence;
      var channels := voicePresence.Keys;
      while channels != {}
        invariant channels <= start.Keys && voicePresence.Keys == start.Keys
        invariant forall c :: c in start ==>
          voicePresence[c] == if c in channels then start[c] else SweepChannel(start[c], now)
        invariant outbox == old(outbox) && arrivals == old(arrivals)
        decreases channels
      {
        var c :| c in channels;
        var users := voicePresence[c].Keys;
        while users != {}
          invariant users <= start[c].Keys && voicePresence.Keys == start.Keys
          invariant forall c' :: c' in start && c' != c ==>
            voicePresence[c'] == if c' in channels then start[c'] else SweepChannel(start[c'], now)
          invariant forall u :: u in voicePresence[c] <==> u in start[c] && (u in users || !IsStale(start[c][u], now))
          invariant forall u :: u in voicePresence[c] ==> voicePresence[c][u] == start[c][u]
          invariant outbox == old(outbox) && arrivals == old(arrivals)
          decreases users
        {
          var u :| u in users;
          if now - voicePresence[c][u].lastHeartbeat > StaleTimeoutMs {
            voicePresence := voicePresence[c := voicePresence[c] - {u}];
          }
          users := users - {u};
        }
        assert voicePresence[c] == SweepChannel(start[c], now);
        channels := channels - {c};
      }
      assert voicePresence == SweepRoster(start, now);
    }
  }
}
