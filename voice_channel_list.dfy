/**
 * The sidebar list of a community's voice channels. For the channel this
 * browser has joined, the signed-in user's own entries show the local
 * mute and deafen flags and are marked as self; if the server has not
 * listed the user yet, a provisional self entry is appended.
 */
module VoiceChannelList {
  import opened Common
  import opened VoiceHook

  datatype ChannelInfo = ChannelInfo(id: string, name: string, kind: string)

  datatype ChannelRow = ChannelRow(channelId: string, name: string, isJoined: bool, participants: seq<Participant>)

  /** `channels.filter(c => c.type === 'voice')`. */
  function VoiceOnly(channels: seq<ChannelInfo>): (r: seq<ChannelInfo>)
    ensures forall c :: c in r <==> c in channels && c.kind == "voice"
    ensures |r| <= |channels|
  {
    if channels == [] then []
    else
      var last := channels[|channels| - 1];
      assert forall c :: c in channels <==> c in channels[..|channels| - 1] || c == last;
      VoiceOnly(channels[..|channels| - 1]) + (if last.kind == "voice" then [last] else [])
  }

  /** The local flags laid over every entry of the signed-in user. */
  function OverlaySelf(ps: seq<Participant>, user: SelfUser, muted: bool, deafened: bool): (r: seq<Participant>)
    ensures |r| == |ps|
    ensures forall i :: 0 <= i < |ps| && ps[i].userId == user.id ==>
      r[i] == ps[i].(muted := muted, deafened := deafened, isSelf := Some(true))
    ensures forall i :: 0 <= i < |ps| && ps[i].userId != user.id ==> r[i] == ps[i]
  {
    seq(|ps|, i requires 0 <= i < |ps| =>
      if ps[i].userId == user.id then ps[i].(muted := muted, deafened := deafened, isSelf := Some(true)) else ps[i])
  }

  /** The provisional entry shown before the server lists the user. */
  function SelfEntry(user: SelfUser, muted: bool, deafened: bool): Participant {
    Participant(user.id, user.username, user.avatarUrl, muted, deafened, false, Some(true))
  }

  /** The participants a channel row shows. */
  function Shown(ps: seq<Participant>, isJoined: bool, user: Option<SelfUser>, muted: bool, deafened: bool): seq<Participant> {
    if isJoined && user.Some? then
      var overlaid := OverlaySelf(ps, user.value, muted, deafened);
      if ListsUser(overlaid, user.value.id) then overlaid else overlaid + [SelfEntry(user.value, muted, deafened)]
    else ps
  }

  function Row(c: ChannelInfo, vs: VoiceState, current: Option<string>, user: Option<SelfUser>,
               muted: bool, deafened: bool): ChannelRow
  {
    var isJoined := current == Some(c.id);
    ChannelRow(c.id, c.name, isJoined, Shown(Listed(vs, c.id), isJoined, user, muted, deafened))
  }

  /** The component: nothing when there is no voice channel, otherwise one row per voice channel in order. */
  function Render(channels: seq<ChannelInfo>, vs: VoiceState, current: Option<string>, user: Option<SelfUser>,
                  muted: bool, deafened: bool): (r: Option<seq<ChannelRow>>)
    ensures r.None? <==> (forall c :: c in channels ==> c.kind != "voice")
    ensures r.Some? ==> |r.value| == |VoiceOnly(channels)|
    ensures r.Some? ==> forall i :: 0 <= i < |r.value| ==>
      r.value[i].channelId == VoiceOnly(channels)[i].id && r.value[i].isJoined == (current == Some(r.value[i].channelId))
  {
    var voice := VoiceOnly(channels);
    if voice == [] then None
    else
      assert voice[0] in channels;
      Some(seq(|voice|, i requires 0 <= i < |voice| => Row(voice[i], vs, current, user, muted, deafened)))
  }

  /** Number of entries of user `u`. */
  function CountUser(ps: seq<Participant>, u: string): (n: nat)
    ensures n <= |ps|
    ensures n == 0 <==> !ListsUser(ps, u)
  {
    if ps == [] then 0
    else
      var prefix := ps[..|ps| - 1];
      assert ListsUser(ps, u) <==> ListsUser(prefix, u) || ps[|ps| - 1].userId == u by {
        if ListsUser(ps, u) && ps[|ps| - 1].userId != u {
          var i :| 0 <= i < |ps| && ps[i].userId == u;
          assert prefix[i] == ps[i];
        }
        if ListsUser(prefix, u) {
          var i :| 0 <= i < |prefix| && prefix[i].userId == u;
          assert ps[i] == prefix[i];
        }
      }
      CountUser(prefix, u) + (if ps[|ps| - 1].userId == u then 1 else 0)
  }

  lemma {:induction false} OverlayKeepsCount(ps: seq<Participant>, user: SelfUser, muted: bool, deafened: bool, u: string)
    ensures CountUser(OverlaySelf(ps, user, muted, deafened), u) == CountUser(ps, u)
  {
    if ps != [] {
      var prefix := ps[..|ps| - 1];
      var o := OverlaySelf(ps, user, muted, deafened);
      assert o[..|o| - 1] == OverlaySelf(prefix, user, muted, deafened);
      OverlayKeepsCount(prefix, user, muted, deafened, u);
    }
  }

  lemma {:induction false} OverlayKeepsOthers(ps: seq<Participant>, user: SelfUser, muted: bool, deafened: bool)
    ensures DropUser(OverlaySelf(ps, user, muted, deafened), user.id) == DropUser(ps, user.id)
  {
    if ps != [] {
      var prefix := ps[..|ps| - 1];
      var o := OverlaySelf(ps, user, muted, deafened);
      assert o[..|o| - 1] == OverlaySelf(prefix, user, muted, deafened);
      OverlayKeepsOthers(prefix, user, muted, deafened);
    }
  }

  lemma DropUserAppendSelf(ps: seq<Participant>, p: Participant)
    ensures DropUser(ps + [p], p.userId) == DropUser(ps, p.userId)
  {
    assert (ps + [p])[..|ps|] == ps;
  }

  lemma CountUserAppend(ps: seq<Participant>, p: Participant, u: string)
    ensures CountUser(ps + [p], u) == CountUser(ps, u) + (if p.userId == u then 1 else 0)
  {
    assert (ps + [p])[..|ps|] == ps;
  }

  /**
   * In the joined channel the signed-in user is shown as many times as
   * the server lists them if it does, and exactly once otherwise.
   */
  lemma {:induction false} JoinedChannelCountsSelf(ps: seq<Participant>, user: SelfUser, muted: bool, deafened: bool)
    ensures CountUser(Shown(ps, true, Some(user), muted, deafened), user.id) ==
      if CountUser(ps, user.id) == 0 then 1 else CountUser(ps, user.id)
  {
    var o := OverlaySelf(ps, user, muted, deafened);
    OverlayKeepsCount(ps, user, muted, deafened, user.id);
    if !ListsUser(o, user.id) {
      CountUserAppend(o, SelfEntry(user, muted, deafened), user.id);
    }
  }

  /**
   * In the joined channel every entry of the signed-in user carries the
   * local flags and the self mark. When the server does not list the
   * user, its list is shown unchanged with one provisional entry appended
   * last, not speaking; when it does, nothing is appended.
   */
  lemma JoinedChannelMarksSelf(ps: seq<Participant>, user: SelfUser, muted: bool, deafened: bool)
    ensures var r := Shown(ps, true, Some(user), muted, deafened);
      forall i :: 0 <= i < |r| && r[i].userId == user.id ==>
        r[i].muted == muted && r[i].deafened == deafened && r[i].isSelf == Some(true)
    ensures !ListsUser(ps, user.id) ==> Shown(ps, true, Some(user), muted, deafened) == ps + [SelfEntry(user, muted, deafened)]
    ensures ListsUser(ps, user.id) ==> |Shown(ps, true, Some(user), muted, deafened)| == |ps|
    ensures SelfEntry(user, muted, deafened).userId == user.id && !SelfEntry(user, muted, deafened).speaking
  {
    var o := OverlaySelf(ps, user, muted, deafened);
    if !ListsUser(ps, user.id) {
      assert o == ps;
    } else {
      var i :| 0 <= i < |ps| && ps[i].userId == user.id;
      assert o[i].userId == user.id;
    }
  }

  /** In the joined channel everybody else's entries are shown unchanged and in order. */
  lemma {:induction false} JoinedChannelKeepsOthers(ps: seq<Participant>, user: SelfUser, muted: bool, deafened: bool)
    ensures DropUser(Shown(ps, true, Some(user), muted, deafened), user.id) == DropUser(ps, user.id)
  {
    var o := OverlaySelf(ps, user, muted, deafened);
    OverlayKeepsOthers(ps, user, muted, deafened);
    if !ListsUser(o, user.id) {
      DropUserAppendSelf(o, SelfEntry(user, muted, deafened));
    }
  }

  /** Channels other than the joined one, and every channel when nobody is signed in, show the server's list as it is. */
  lemma OtherChannelsShowServerList(ps: seq<Participant>, isJoined: bool, user: Option<SelfUser>, muted: bool, deafened: bool)
    requires !isJoined || user.None?
    ensures Shown(ps, isJoined, user, muted, deafened) == ps
  {
  }
}
