/**
 * The presence bus of one community: each client publishes one full-state
 * record (which text channel it is viewing, which voice channel it has
 * joined) on a pub/sub channel, and the merged snapshot of everybody's
 * records is grouped into "who is in which text channel" and "who is in
 * which voice channel", one entry per user, voice taking priority.
 *
 * The pub/sub channel itself is external: `track` calls are appended to
 * `tracked`, torn-down channels to `closed`, callback invocations to
 * `invoked`; the snapshot `presenceState()` is the parameter `state`
 * (the values of the keyed snapshot, in iteration order).
 */
module PresenceBus {
  import opened Common

  datatype PresenceMeta = PresenceMeta(
    serverId: string,
    userId: string,
    username: string,
    avatarUrl: Option<string>,
    activeTextChannelId: Option<string>,
    activeVoiceChannelId: Option<string>)

  /** `if (meta.activeVoiceChannelId)`: a non-null, non-empty voice channel id. */
  predicate InVoice(m: PresenceMeta) { Truthy(m.activeVoiceChannelId) }
  predicate InText(m: PresenceMeta) { Truthy(m.activeTextChannelId) }

  /** The snapshot's records in the order the two nested `forEach` loops visit them. */
  function Flatten(state: seq<seq<PresenceMeta>>): seq<PresenceMeta> {
    if state == [] then [] else Flatten(state[..|state| - 1]) + state[|state| - 1]
  }

  predicate HasUser(s: seq<PresenceMeta>, u: string) {
    exists i :: 0 <= i < |s| && s[i].userId == u
  }

  predicate HasVoiceRecord(s: seq<PresenceMeta>, u: string) {
    exists i :: 0 <= i < |s| && s[i].userId == u && InVoice(s[i])
  }

  predicate UniqueUsers(s: seq<PresenceMeta>) {
    forall i, j :: 0 <= i < j < |s| ==> s[i].userId != s[j].userId
  }

  /** The first record of user `u` in `s`, as `Map.get` finds it. */
  function Lookup(s: seq<PresenceMeta>, u: string): (r: Option<PresenceMeta>)
    ensures r.Some? <==> HasUser(s, u)
    ensures r.Some? ==> r.value in s && r.value.userId == u
  {
    if s == [] then None
    else if s[0].userId == u then Some(s[0])
    else
      assert forall i :: 1 <= i < |s| ==> s[i] == s[1..][i - 1];
      Lookup(s[1..], u)
  }

  lemma HasUserCons(x: PresenceMeta, s: seq<PresenceMeta>, u: string)
    ensures HasUser([x] + s, u) <==> x.userId == u || HasUser(s, u)
  {
    var t := [x] + s;
    assert forall i :: 0 <= i < |s| ==> t[i + 1] == s[i];
    assert t[0] == x;
    if HasUser(t, u) && x.userId != u {
      var i :| 0 <= i < |t| && t[i].userId == u;
      assert s[i - 1].userId == u;
    }
  }

  lemma LookupCons(x: PresenceMeta, s: seq<PresenceMeta>, u: string)
    ensures Lookup([x] + s, u) == if x.userId == u then Some(x) else Lookup(s, u)
  {
    assert ([x] + s)[1..] == s;
  }

  lemma UniqueCons(x: PresenceMeta, s: seq<PresenceMeta>)
    ensures UniqueUsers([x] + s) <==> !HasUser(s, x.userId) && UniqueUsers(s)
  {
    var t := [x] + s;
    assert forall i :: 0 <= i < |s| ==> t[i + 1] == s[i];
    if UniqueUsers(t) {
      forall i, j | 0 <= i < j < |s| ensures s[i].userId != s[j].userId {
        assert t[i + 1] == s[i] && t[j + 1] == s[j];
      }
      forall i | 0 <= i < |s| ensures s[i].userId != x.userId {
        assert t[i + 1] == s[i] && t[0] == x;
      }
    }
  }

  lemma AppendUnique(b: seq<PresenceMeta>, m: PresenceMeta)
    requires UniqueUsers(b) && !HasUser(b, m.userId)
    ensures UniqueUsers(b + [m])
  {
  }

  /**
   * One step of de-duplication, on `seenUsers` as an insertion-ordered
   * table: a new user is added at the end; a known user's record is
   * replaced in place only when the new record has a voice channel.
   */
  function Remember(seen: seq<PresenceMeta>, meta: PresenceMeta): (r: seq<PresenceMeta>)
    ensures forall m :: m in r ==> m in seen || m == meta
  {
    if seen == [] then [meta]
    else if seen[0].userId == meta.userId then
      if InVoice(meta) then [meta] + seen[1..] else seen
    else
      [seen[0]] + Remember(seen[1..], meta)
  }

  /** Remembering a record adds its user and no other. */
  lemma {:induction false} RememberUsers(seen: seq<PresenceMeta>, meta: PresenceMeta, u: string)
    ensures HasUser(Remember(seen, meta), u) <==> HasUser(seen, u) || u == meta.userId
  {
    if seen != [] {
      assert seen == [seen[0]] + seen[1..];
      HasUserCons(seen[0], seen[1..], u);
      if seen[0].userId == meta.userId {
        HasUserCons(meta, seen[1..], u);
      } else {
        RememberUsers(seen[1..], meta, u);
        HasUserCons(seen[0], Remember(seen[1..], meta), u);
      }
    } else {
      assert Remember(seen, meta)[0] == meta;
    }
  }

  /**
   * After remembering `meta`, other users' records are untouched; the
   * user of `meta` maps to `meta` if it was new or `meta` has a voice
   * channel, and to its earlier record otherwise.
   */
  lemma {:induction false} RememberLookup(seen: seq<PresenceMeta>, meta: PresenceMeta, u: string)
    ensures Lookup(Remember(seen, meta), u) ==
      if u != meta.userId then Lookup(seen, u)
      else if Lookup(seen, u).None? || InVoice(meta) then Some(meta)
      else Lookup(seen, u)
  {
    if seen != [] {
      assert seen == [seen[0]] + seen[1..];
      LookupCons(seen[0], seen[1..], u);
      if seen[0].userId == meta.userId {
        LookupCons(meta, seen[1..], u);
      } else {
        RememberLookup(seen[1..], meta, u);
        LookupCons(seen[0], Remember(seen[1..], meta), u);
      }
    }
  }

  lemma {:induction false} RememberUnique(seen: seq<PresenceMeta>, meta: PresenceMeta)
    requires UniqueUsers(seen)
    ensures UniqueUsers(Remember(seen, meta))
  {
    if seen != [] {
      assert seen == [seen[0]] + seen[1..];
      UniqueCons(seen[0], seen[1..]);
      if seen[0].userId == meta.userId {
        UniqueCons(meta, seen[1..]);
      } else {
        RememberUnique(seen[1..], meta);
        RememberUsers(seen[1..], meta, seen[0].userId);
        UniqueCons(seen[0], Remember(seen[1..], meta));
      }
    }
  }

  /** `seenUsers` after the first loop of `getGroupedPresence`. */
  function Dedup(ms: seq<PresenceMeta>): (r: seq<PresenceMeta>)
    ensures forall m :: m in r ==> m in ms
  {
    if ms == [] then []
    else
      var prefix := ms[..|ms| - 1];
      assert forall m :: m in prefix ==> m in ms;
      Remember(Dedup(prefix), ms[|ms| - 1])
  }

  lemma HasUserSnoc(s: seq<PresenceMeta>, m: PresenceMeta, u: string)
    ensures HasUser(s + [m], u) <==> HasUser(s, u) || m.userId == u
  {
    var t := s + [m];
    assert forall i :: 0 <= i < |s| ==> t[i] == s[i];
    assert t[|s|] == m;
    if HasUser(t, u) && m.userId != u {
      var i :| 0 <= i < |t| && t[i].userId == u;
      assert i < |s| && s[i].userId == u;
    }
  }

  /** De-duplication keeps exactly the users of the snapshot, one record each. */
  lemma {:induction false} DedupFacts(ms: seq<PresenceMeta>)
    ensures UniqueUsers(Dedup(ms))
    ensures forall u :: HasUser(Dedup(ms), u) <==> HasUser(ms, u)
  {
    if ms != [] {
      var prefix, m := ms[..|ms| - 1], ms[|ms| - 1];
      assert ms == prefix + [m];
      DedupFacts(prefix);
      RememberUnique(Dedup(prefix), m);
      forall u ensures HasUser(Dedup(ms), u) <==> HasUser(ms, u) {
        RememberUsers(Dedup(prefix), m, u);
        HasUserSnoc(prefix, m, u);
      }
    }
  }

  lemma LookupSnoc(s: seq<PresenceMeta>, m: PresenceMeta, u: string)
    ensures Lookup(s + [m], u) ==
      if HasUser(s, u) then Lookup(s, u) else if m.userId == u then Some(m) else None
  {
    if s != [] {
      assert s + [m] == [s[0]] + (s[1..] + [m]);
      assert s == [s[0]] + s[1..];
      LookupCons(s[0], s[1..] + [m], u);
      LookupCons(s[0], s[1..], u);
      HasUserCons(s[0], s[1..], u);
      LookupSnoc(s[1..], m, u);
    }
  }

  lemma HasVoiceRecordSnoc(s: seq<PresenceMeta>, m: PresenceMeta, u: string)
    ensures HasVoiceRecord(s + [m], u) <==> HasVoiceRecord(s, u) || (m.userId == u && InVoice(m))
  {
    var t := s + [m];
    assert forall i :: 0 <= i < |s| ==> t[i] == s[i];
    if HasVoiceRecord(t, u) && !(m.userId == u && InVoice(m)) {
      var i :| 0 <= i < |t| && t[i].userId == u && InVoice(t[i]);
      assert i < |s| && s[i] == t[i];
    }
    if HasVoiceRecord(s, u) {
      var i :| 0 <= i < |s| && s[i].userId == u && InVoice(s[i]);
      assert t[i] == s[i];
    }
    if m.userId == u && InVoice(m) {
      assert t[|s|] == m;
    }
  }

  /**
   * The user's last record with a voice channel, in the order the
   * snapshot is visited: no record after it is a voice record of the user.
   */
  ghost function LastVoiceRecord(ms: seq<PresenceMeta>, u: string): (m: PresenceMeta)
    requires HasVoiceRecord(ms, u)
    ensures m.userId == u && InVoice(m)
    ensures exists i :: 0 <= i < |ms| && ms[i] == m && !HasVoiceRecord(ms[i + 1..], u)
    decreases |ms|
  {
    var prefix, last := ms[..|ms| - 1], ms[|ms| - 1];
    assert ms == prefix + [last];
    HasVoiceRecordSnoc(prefix, last, u);
    if last.userId == u && InVoice(last) then
      assert ms[|ms|..] == [];
      last
    else
      var m := LastVoiceRecord(prefix, u);
      var i :| 0 <= i < |prefix| && prefix[i] == m && !HasVoiceRecord(prefix[i + 1..], u);
      assert ms[i + 1..] == prefix[i + 1..] + [last];
      HasVoiceRecordSnoc(prefix[i + 1..], last, u);
      assert ms[i] == m;
      m
  }

  /**
   * Which record survives de-duplication: if any record of the user has a
   * voice channel, the survivor is the user's last such record (a later
   * voice record overwrites an earlier one); otherwise it is the user's
   * first record.
   */
  lemma {:induction false} DedupChoice(ms: seq<PresenceMeta>, u: string)
    ensures HasVoiceRecord(ms, u) ==> Lookup(Dedup(ms), u).Some? && InVoice(Lookup(Dedup(ms), u).value)
    ensures HasVoiceRecord(ms, u) ==> Lookup(Dedup(ms), u) == Some(LastVoiceRecord(ms, u))
    ensures !HasVoiceRecord(ms, u) ==> Lookup(Dedup(ms), u) == Lookup(ms, u)
    decreases |ms|
  {
    if ms != [] {
      var prefix, m := ms[..|ms| - 1], ms[|ms| - 1];
      assert ms == prefix + [m];
      DedupChoice(prefix, u);
      DedupFacts(prefix);
      LookupSnoc(prefix, m, u);
      HasVoiceRecordSnoc(prefix, m, u);
      RememberLookup(Dedup(prefix), m, u);
    }
  }

  lemma {:induction false} LookupUnique(s: seq<PresenceMeta>, m: PresenceMeta)
    requires UniqueUsers(s) && m in s
    ensures Lookup(s, m.userId) == Some(m)
  {
    assert s == [s[0]] + s[1..];
    LookupCons(s[0], s[1..], m.userId);
    if s[0] != m {
      UniqueCons(s[0], s[1..]);
      assert m in s[1..];
      assert s[0].userId != m.userId by {
        var k :| 0 <= k < |s[1..]| && s[1..][k] == m;
      }
      LookupUnique(s[1..], m);
    }
  }

  // ---------------------------------------------------------------------
  // Bucketing: the second loop of `getGroupedPresence`.
  // ---------------------------------------------------------------------

  datatype Grouped = Grouped(
    textByChannel: map<string, seq<PresenceMeta>>,
    voiceByChannel: map<string, seq<PresenceMeta>>)

  const NoPresence: Grouped := Grouped(map[], map[])

  /** `list = map.get(key) || []; list.push(meta); map.set(key, list)`. */
  function Push(buckets: map<string, seq<PresenceMeta>>, key: string, meta: PresenceMeta): map<string, seq<PresenceMeta>> {
    buckets[key := Bucket(buckets, key) + [meta]]
  }

  function Bucket(buckets: map<string, seq<PresenceMeta>>, key: string): seq<PresenceMeta> {
    if key in buckets then buckets[key] else []
  }

  function Place(g: Grouped, meta: PresenceMeta): Grouped {
    if InVoice(meta) then g.(voiceByChannel := Push(g.voiceByChannel, meta.activeVoiceChannelId.value, meta))
    else if InText(meta) then g.(textByChannel := Push(g.textByChannel, meta.activeTextChannelId.value, meta))
    else g
  }

  /** Every record in a voice bucket is a voice record of the table, in the bucket of its channel. */
  predicate VoiceSound(v: map<string, seq<PresenceMeta>>, seen: seq<PresenceMeta>) {
    forall c, m :: c in v && m in v[c] ==> m in seen && InVoice(m) && m.activeVoiceChannelId.value == c
  }

  /** Every record in a text bucket is a text-only record of the table, in the bucket of its channel. */
  predicate TextSound(t: map<string, seq<PresenceMeta>>, seen: seq<PresenceMeta>) {
    forall c, m :: c in t && m in t[c] ==> m in seen && !InVoice(m) && InText(m) && m.activeTextChannelId.value == c
  }

  /** Every voice record of the table is in the bucket of its voice channel. */
  predicate VoiceComplete(v: map<string, seq<PresenceMeta>>, seen: seq<PresenceMeta>) {
    forall m :: m in seen && InVoice(m) ==>
      m.activeVoiceChannelId.value in v && m in v[m.activeVoiceChannelId.value]
  }

  /** Every text-only record of the table is in the bucket of its text channel. */
  predicate TextComplete(t: map<string, seq<PresenceMeta>>, seen: seq<PresenceMeta>) {
    forall m :: m in seen && !InVoice(m) && InText(m) ==>
      m.activeTextChannelId.value in t && m in t[m.activeTextChannelId.value]
  }

  predicate NoEmptyBucket(b: map<string, seq<PresenceMeta>>) {
    forall c :: c in b ==> b[c] != []
  }

  /**
   * What grouping guarantees about a table: a record lands in the voice
   * bucket of its voice channel when it has one, otherwise in the text
   * bucket of its text channel when it has one, otherwise nowhere; no
   * bucket is empty.
   */
  predicate Placed(g: Grouped, seen: seq<PresenceMeta>) {
    && VoiceSound(g.voiceByChannel, seen) && TextSound(g.textByChannel, seen)
    && VoiceComplete(g.voiceByChannel, seen) && TextComplete(g.textByChannel, seen)
    && NoEmptyBucket(g.voiceByChannel) && NoEmptyBucket(g.textByChannel)
  }

  lemma PushKeepsNonEmpty(b: map<string, seq<PresenceMeta>>, key: string, meta: PresenceMeta)
    requires NoEmptyBucket(b)
    ensures NoEmptyBucket(Push(b, key, meta))
  {
  }

  lemma PushVoice(v: map<string, seq<PresenceMeta>>, seen: seq<PresenceMeta>, meta: PresenceMeta)
    requires InVoice(meta) && VoiceSound(v, seen) && VoiceComplete(v, seen)
    ensures VoiceSound(Push(v, meta.activeVoiceChannelId.value, meta), seen + [meta])
    ensures VoiceComplete(Push(v, meta.activeVoiceChannelId.value, meta), seen + [meta])
  {
    var key := meta.activeVoiceChannelId.value;
    var w := Push(v, key, meta);
    var t := seen + [meta];
    forall c, m | c in w && m in w[c]
      ensures m in t && InVoice(m) && m.activeVoiceChannelId.value == c
    {
      if c == key && m !in Bucket(v, key) {
        assert m == meta;
      }
    }
    forall m | m in t && InVoice(m)
      ensures m.activeVoiceChannelId.value in w && m in w[m.activeVoiceChannelId.value]
    {
      if m != meta {
        assert m in seen;
      }
    }
  }

  lemma PushText(tb: map<string, seq<PresenceMeta>>, seen: seq<PresenceMeta>, meta: PresenceMeta)
    requires !InVoice(meta) && InText(meta) && TextSound(tb, seen) && TextComplete(tb, seen)
    ensures TextSound(Push(tb, meta.activeTextChannelId.value, meta), seen + [meta])
    ensures TextComplete(Push(tb, meta.activeTextChannelId.value, meta), seen + [meta])
  {
    var key := meta.activeTextChannelId.value;
    var w := Push(tb, key, meta);
    var t := seen + [meta];
    forall c, m | c in w && m in w[c]
      ensures m in t && !InVoice(m) && InText(m) && m.activeTextChannelId.value == c
    {
      if c == key && m !in Bucket(tb, key) {
        assert m == meta;
      }
    }
    forall m | m in t && !InVoice(m) && InText(m)
      ensures m.activeTextChannelId.value in w && m in w[m.activeTextChannelId.value]
    {
      if m != meta {
        assert m in seen;
      }
    }
  }

  lemma PlaceKeepsPlaced(g: Grouped, seen: seq<PresenceMeta>, meta: PresenceMeta)
    requires Placed(g, seen)
    ensures Placed(Place(g, meta), seen + [meta])
  {
    var t := seen + [meta];
    assert forall m :: m in seen ==> m in t;
    if InVoice(meta) {
      PushVoice(g.voiceByChannel, seen, meta);
      PushKeepsNonEmpty(g.voiceByChannel, meta.activeVoiceChannelId.value, meta);
      assert TextComplete(g.textByChannel, t) by {
        forall m | m in t && !InVoice(m) && InText(m)
          ensures m.activeTextChannelId.value in g.textByChannel && m in g.textByChannel[m.activeTextChannelId.value]
        {
          assert m in seen;
        }
      }
    } else if InText(meta) {
      PushText(g.textByChannel, seen, meta);
      PushKeepsNonEmpty(g.textByChannel, meta.activeTextChannelId.value, meta);
      assert VoiceComplete(g.voiceByChannel, t) by {
        forall m | m in t && InVoice(m)
          ensures m.activeVoiceChannelId.value in g.voiceByChannel && m in g.voiceByChannel[m.activeVoiceChannelId.value]
        {
          assert m in seen;
        }
      }
    } else {
      assert VoiceComplete(g.voiceByChannel, t) by {
        forall m | m in t && InVoice(m)
          ensures m.activeVoiceChannelId.value in g.voiceByChannel && m in g.voiceByChannel[m.activeVoiceChannelId.value]
        {
          assert m in seen;
        }
      }
      assert TextComplete(g.textByChannel, t) by {
        forall m | m in t && !InVoice(m) && InText(m)
          ensures m.activeTextChannelId.value in g.textByChannel && m in g.textByChannel[m.activeTextChannelId.value]
        {
          assert m in seen;
        }
      }
    }
  }

  /** The second loop's result, as a value: every record pushed in turn onto its bucket. */
  function PlaceAll(seen: seq<PresenceMeta>): (g: Grouped)
    ensures Placed(g, seen)
  {
    if seen == [] then NoPresence
    else
      var prefix := seen[..|seen| - 1];
      assert seen == prefix + [seen[|seen| - 1]];
      PlaceKeepsPlaced(PlaceAll(prefix), prefix, seen[|seen| - 1]);
      Place(PlaceAll(prefix), seen[|seen| - 1])
  }

  predicate BucketsUnique(g: Grouped) {
    && (forall c :: c in g.voiceByChannel ==> UniqueUsers(g.voiceByChannel[c]))
    && (forall c :: c in g.textByChannel ==> UniqueUsers(g.textByChannel[c]))
  }

  /** Pushing a user's record keeps buckets duplicate-free when the user is in none of them. */
  lemma PlaceUnique(g: Grouped, m: PresenceMeta)
    requires BucketsUnique(g)
    requires forall c :: !InVoiceBucket(g, c, m.userId) && !InTextBucket(g, c, m.userId)
    ensures BucketsUnique(Place(g, m))
  {
    if InVoice(m) {
      assert !InVoiceBucket(g, m.activeVoiceChannelId.value, m.userId);
      AppendUnique(Bucket(g.voiceByChannel, m.activeVoiceChannelId.value), m);
    } else if InText(m) {
      assert !InTextBucket(g, m.activeTextChannelId.value, m.userId);
      AppendUnique(Bucket(g.textByChannel, m.activeTextChannelId.value), m);
    }
  }

  /** Bucketing a table with one record per user lists each user at most once per bucket. */
  lemma {:induction false} PlaceAllUnique(seen: seq<PresenceMeta>)
    requires UniqueUsers(seen)
    ensures BucketsUnique(PlaceAll(seen))
  {
    if seen != [] {
      var prefix, m := seen[..|seen| - 1], seen[|seen| - 1];
      assert seen == prefix + [m];
      assert UniqueUsers(prefix) by {
        forall i, j | 0 <= i < j < |prefix| ensures prefix[i].userId != prefix[j].userId {
          assert prefix[i] == seen[i] && prefix[j] == seen[j];
        }
      }
      PlaceAllUnique(prefix);
      var g0 := PlaceAll(prefix);
      forall x | x in prefix ensures x.userId != m.userId {
        var i :| 0 <= i < |prefix| && prefix[i] == x;
        assert seen[i] == x;
      }
      forall c ensures !InVoiceBucket(g0, c, m.userId) && !InTextBucket(g0, c, m.userId) {
        if c in g0.voiceByChannel {
          var b := g0.voiceByChannel[c];
          forall i | 0 <= i < |b| ensures b[i].userId != m.userId {
            assert b[i] in b;
          }
        }
        if c in g0.textByChannel {
          var b := g0.textByChannel[c];
          forall i | 0 <= i < |b| ensures b[i].userId != m.userId {
            assert b[i] in b;
          }
        }
      }
      PlaceUnique(g0, m);
    }
  }

  /** What `getGroupedPresence` computes from an open channel's snapshot. */
  function GroupPresence(state: seq<seq<PresenceMeta>>): Grouped {
    PlaceAll(Dedup(Flatten(state)))
  }

  predicate InVoiceBucket(g: Grouped, c: string, u: string) {
    c in g.voiceByChannel && HasUser(g.voiceByChannel[c], u)
  }

  predicate InTextBucket(g: Grouped, c: string, u: string) {
    c in g.textByChannel && HasUser(g.textByChannel[c], u)
  }

  /** The only record of `u` in any bucket is the one de-duplication chose. */
  lemma BucketEntryIsChosen(seen: seq<PresenceMeta>, u: string)
    requires UniqueUsers(seen)
    ensures var g := PlaceAll(seen);
      && (forall c :: InVoiceBucket(g, c, u) ==>
            Lookup(seen, u).Some? && InVoice(Lookup(seen, u).value) && Lookup(seen, u).value.activeVoiceChannelId.value == c)
      && (forall c :: InTextBucket(g, c, u) ==>
            Lookup(seen, u).Some? && !InVoice(Lookup(seen, u).value) && Lookup(seen, u).value.activeTextChannelId.value == c)
  {
    var g := PlaceAll(seen);
    forall c | InVoiceBucket(g, c, u)
      ensures Lookup(seen, u).Some? && InVoice(Lookup(seen, u).value) && Lookup(seen, u).value.activeVoiceChannelId.value == c
    {
      var i :| 0 <= i < |g.voiceByChannel[c]| && g.voiceByChannel[c][i].userId == u;
      LookupUnique(seen, g.voiceByChannel[c][i]);
    }
    forall c | InTextBucket(g, c, u)
      ensures Lookup(seen, u).Some? && !InVoice(Lookup(seen, u).value) && Lookup(seen, u).value.activeTextChannelId.value == c
    {
      var i :| 0 <= i < |g.textByChannel[c]| && g.textByChannel[c][i].userId == u;
      LookupUnique(seen, g.textByChannel[c][i]);
    }
  }

  /** A record of the table is listed in the bucket its channels select. */
  lemma RecordIsPlaced(seen: seq<PresenceMeta>, m: PresenceMeta)
    requires m in seen
    ensures InVoice(m) ==> InVoiceBucket(PlaceAll(seen), m.activeVoiceChannelId.value, m.userId)
    ensures !InVoice(m) && InText(m) ==> InTextBucket(PlaceAll(seen), m.activeTextChannelId.value, m.userId)
  {
    var g := PlaceAll(seen);
    if InVoice(m) {
      var b := g.voiceByChannel[m.activeVoiceChannelId.value];
      var i :| 0 <= i < |b| && b[i] == m;
    } else if InText(m) {
      var b := g.textByChannel[m.activeTextChannelId.value];
      var i :| 0 <= i < |b| && b[i] == m;
    }
  }

  /** Placing a table with one record per user puts each user in at most one place. */
  lemma PlacedOnce(seen: seq<PresenceMeta>, u: string)
    requires UniqueUsers(seen)
    ensures var g := PlaceAll(seen);
      && (forall c1, c2 :: InVoiceBucket(g, c1, u) && InVoiceBucket(g, c2, u) ==> c1 == c2)
      && (forall c1, c2 :: InTextBucket(g, c1, u) && InTextBucket(g, c2, u) ==> c1 == c2)
      && (forall c1, c2 :: !(InVoiceBucket(g, c1, u) && InTextBucket(g, c2, u)))
  {
    var g := PlaceAll(seen);
    BucketEntryIsChosen(seen, u);
    forall c1, c2 | InVoiceBucket(g, c1, u) && InVoiceBucket(g, c2, u)
      ensures c1 == c2
    {
    }
    forall c1, c2 | InTextBucket(g, c1, u) && InTextBucket(g, c2, u)
      ensures c1 == c2
    {
    }
    forall c1, c2
      ensures !(InVoiceBucket(g, c1, u) && InTextBucket(g, c2, u))
    {
    }
  }

  /**
   * Every user is shown in at most one place: in at most one voice bucket,
   * at most one text bucket, never in both kinds, and at most once inside
   * any bucket.
   */
  lemma AtMostOneLocation(state: seq<seq<PresenceMeta>>, u: string)
    ensures var g := GroupPresence(state);
      && (forall c1, c2 :: InVoiceBucket(g, c1, u) && InVoiceBucket(g, c2, u) ==> c1 == c2)
      && (forall c1, c2 :: InTextBucket(g, c1, u) && InTextBucket(g, c2, u) ==> c1 == c2)
      && (forall c1, c2 :: !(InVoiceBucket(g, c1, u) && InTextBucket(g, c2, u)))
      && BucketsUnique(g)
  {
    var seen := Dedup(Flatten(state));
    DedupFacts(Flatten(state));
    PlacedOnce(seen, u);
    PlaceAllUnique(seen);
  }

  /** A de-duplicated table's voice record is bucketed under its voice channel and in no text bucket. */
  lemma VoiceRecordPlaced(seen: seq<PresenceMeta>, u: string)
    requires UniqueUsers(seen) && Lookup(seen, u).Some? && InVoice(Lookup(seen, u).value)
    ensures InVoiceBucket(PlaceAll(seen), Lookup(seen, u).value.activeVoiceChannelId.value, u)
    ensures forall c :: !InTextBucket(PlaceAll(seen), c, u)
  {
    var g := PlaceAll(seen);
    var chosen := Lookup(seen, u).value;
    assert chosen in seen && chosen.userId == u;
    BucketEntryIsChosen(seen, u);
    RecordIsPlaced(seen, chosen);
    forall c
      ensures !InTextBucket(g, c, u)
    {
    }
  }

  /**
   * Voice takes priority: a user with a voice record anywhere in the
   * snapshot is shown in the voice bucket of the channel of the user's
   * last voice record, and in no text bucket.
   */
  lemma VoiceRecordWins(state: seq<seq<PresenceMeta>>, u: string)
    requires HasVoiceRecord(Flatten(state), u)
    ensures var g := GroupPresence(state);
      var chosen := Lookup(Dedup(Flatten(state)), u);
      && chosen.Some? && chosen.value in Flatten(state) && InVoice(chosen.value)
      && chosen.value == LastVoiceRecord(Flatten(state), u)
      && InVoiceBucket(g, chosen.value.activeVoiceChannelId.value, u)
      && forall c :: !InTextBucket(g, c, u)
  {
    var all := Flatten(state);
    var seen := Dedup(all);
    DedupFacts(all);
    DedupChoice(all, u);
    assert Lookup(seen, u).value in seen;
    VoiceRecordPlaced(seen, u);
  }

  /**
   * Without a voice record the user's first record decides: shown in the
   * text bucket of its text channel if it names one, otherwise nowhere;
   * never in a voice bucket. A user absent from the snapshot is shown
   * nowhere.
   */
  lemma FirstRecordDecides(state: seq<seq<PresenceMeta>>, u: string)
    requires !HasVoiceRecord(Flatten(state), u)
    ensures var g := GroupPresence(state);
      var first := Lookup(Flatten(state), u);
      && (forall c :: !InVoiceBucket(g, c, u))
      && (first.Some? && InText(first.value) ==> InTextBucket(g, first.value.activeTextChannelId.value, u))
      && (first.None? || !InText(first.value) ==> forall c :: !InTextBucket(g, c, u))
  {
    var seen := Dedup(Flatten(state));
    DedupFacts(Flatten(state));
    DedupChoice(Flatten(state), u);
    BucketEntryIsChosen(seen, u);
    var first := Lookup(Flatten(state), u);
    if first.Some? {
      assert !InVoice(first.value) by {
        var i :| 0 <= i < |Flatten(state)| && Flatten(state)[i] == first.value;
      }
      RecordIsPlaced(seen, first.value);
    }
  }

  lemma DedupSnoc(ms: seq<PresenceMeta>, m: PresenceMeta)
    ensures Dedup(ms + [m]) == Remember(Dedup(ms), m)
  {
    assert (ms + [m])[..|ms|] == ms;
  }

  lemma DedupStep(visited: seq<PresenceMeta>, presences: seq<PresenceMeta>, i: nat)
    requires i < |presences|
    ensures Dedup(visited + presences[..i + 1]) == Remember(Dedup(visited + presences[..i]), presences[i])
  {
    assert visited + presences[..i + 1] == (visited + presences[..i]) + [presences[i]];
    DedupSnoc(visited + presences[..i], presences[i]);
  }

  lemma FlattenSnoc(state: seq<seq<PresenceMeta>>, k: nat)
    requires k < |state|
    ensures Flatten(state[..k + 1]) == Flatten(state[..k]) + state[k]
  {
    assert state[..k + 1][..k] == state[..k];
  }

  /** The first loop of `getGroupedPresence`: one pass over the snapshot, remembering each record. */
  method DedupSnapshot(state: seq<seq<PresenceMeta>>) returns (seenUsers: seq<PresenceMeta>)
    ensures seenUsers == Dedup(Flatten(state))
  {
    seenUsers := [];
    ghost var visited: seq<PresenceMeta> := [];
    var k := 0;
    while k < |state|
      invariant 0 <= k <= |state|
      invariant visited == Flatten(state[..k])
      invariant seenUsers == Dedup(visited)
    {
      var presences := state[k];
      var i := 0;
      assert visited + presences[..0] == visited;
      while i < |presences|
        invariant 0 <= i <= |presences|
        invariant seenUsers == Dedup(visited + presences[..i])
      {
        DedupStep(visited, presences, i);
        seenUsers := Remember(seenUsers, presences[i]);
        i := i + 1;
      }
      assert presences[..i] == presences;
      FlattenSnoc(state, k);
      visited := visited + presences;
      k := k + 1;
    }
    assert state[..k] == state;
  }

  /** The second loop of `getGroupedPresence`: each remembered record pushed onto its bucket. */
  method BucketRecords(seenUsers: seq<PresenceMeta>) returns (g: Grouped)
    ensures g == PlaceAll(seenUsers)
  {
    g := NoPresence;
    var j := 0;
    while j < |seenUsers|
      invariant 0 <= j <= |seenUsers|
      invariant g == PlaceAll(seenUsers[..j])
    {
      assert seenUsers[..j + 1][..j] == seenUsers[..j];
      g := Place(g, seenUsers[j]);
      j := j + 1;
    }
    assert seenUsers[..j] == seenUsers;
  }

  // ---------------------------------------------------------------------
  // The manager object.
  // ---------------------------------------------------------------------

  datatype ChannelHandle = ChannelHandle(topic: string, presenceKey: string)

  /** Callbacks are identified by a number standing for the function object. */
  type CallbackId = nat

  /** The function `onChange` returns: it deletes exactly its own callback. */
  datatype Unsubscriber = Unsubscriber(callback: CallbackId)

  function Topic(serverId: string, nonce: string): string {
    "voice-presence:" + serverId + ":" + nonce
  }

  /** Registering a callback that was absent and then disposing of it restores the listener list. */
  lemma {:induction false} DisposeUndoesOnChange(listeners: seq<CallbackId>, cb: CallbackId)
    requires cb !in listeners
    ensures Without(listeners + [cb], cb) == listeners
  {
    var s := listeners + [cb];
    assert s[..|s| - 1] == listeners;
    WithoutAbsent(listeners, cb);
  }

  lemma {:induction false} WithoutAbsent(s: seq<CallbackId>, y: CallbackId)
    requires y !in s
    ensures Without(s, y) == s
  {
    if s != [] {
      var init := s[..|s| - 1];
      assert s == init + [s[|s| - 1]];
      assert y !in init && s[|s| - 1] != y;
      WithoutAbsent(init, y);
      assert Without(s, y) == Without(init, y) + [s[|s| - 1]];
    }
  }

  class PresenceManager {
    var channel: Option<ChannelHandle>
    var currentMeta: Option<PresenceMeta>
    /** The `Set` of listeners, in insertion order. */
    var listeners: seq<CallbackId>
    var tracked: seq<PresenceMeta>
    var closed: seq<ChannelHandle>
    var invoked: seq<CallbackId>

    ghost predicate Valid()
      reads this
    {
      && (channel.Some? <==> currentMeta.Some?)
      && (channel.Some? ==> currentMeta.value.userId == channel.value.presenceKey)
      && NoDuplicates(listeners)
    }

    constructor ()
      ensures Valid()
      ensures channel == None && currentMeta == None
      ensures listeners == [] && tracked == [] && closed == [] && invoked == []
    {
      channel, currentMeta := None, None;
      listeners, tracked, closed, invoked := [], [], [], [];
    }

    /** Tears down any open channel, then opens one with a record naming no channel. */
    method Subscribe(serverId: string, nonce: string, userId: string, username: string, avatarUrl: Option<string>)
      requires Valid()
      modifies this
      ensures Valid()
      ensures closed == old(closed) + (if old(channel).Some? then [old(channel).value] else [])
      ensures currentMeta == Some(PresenceMeta(serverId, userId, username, avatarUrl, None, None))
      ensures channel == Some(ChannelHandle(Topic(serverId, nonce), userId))
      ensures listeners == old(listeners) && tracked == old(tracked) && invoked == old(invoked)
    {
      if channel.Some? {
        Unsubscribe();
      }
      currentMeta := Some(PresenceMeta(serverId, userId, username, avatarUrl, None, None));
      channel := Some(ChannelHandle(Topic(serverId, nonce), userId));
    }

    /** The channel's status callback: once subscribed, publish the current record. */
    method OnStatus(status: string)
      requires Valid()
      modifies this
      ensures Valid()
      ensures tracked == old(tracked) +
        (if status == "SUBSCRIBED" && old(channel).Some? then [old(currentMeta).value] else [])
      ensures channel == old(channel) && currentMeta == old(currentMeta)
      ensures listeners == old(listeners) && closed == old(closed) && invoked == old(invoked)
    {
      if status == "SUBSCRIBED" && channel.Some? {
        tracked := tracked + [currentMeta.value];
      }
    }

    /** The channel's `sync` callback: tell every listener. */
    method OnSync()
      requires Valid()
      modifies this
      ensures Valid()
      ensures invoked == old(invoked) + listeners
      ensures channel == old(channel) && currentMeta == old(currentMeta)
      ensures listeners == old(listeners) && tracked == old(tracked) && closed == old(closed)
    {
      NotifyListeners();
    }

    /** Closes the channel if one is open and forgets the record. */
    method Unsubscribe()
      requires Valid()
      modifies this
      ensures Valid()
      ensures channel == None && currentMeta == None
      ensures closed == old(closed) + (if old(channel).Some? then [old(channel).value] else [])
      ensures listeners == old(listeners) && tracked == old(tracked) && invoked == old(invoked)
    {
      if channel.Some? {
        closed := closed + [channel.value];
        channel := None;
      }
      currentMeta := None;
    }

    /** Without an open channel nothing happens; otherwise the text channel is set and the whole record republished. */
    method SetActiveText(channelId: Option<string>)
      requires Valid()
      modifies this
      ensures Valid()
      ensures old(channel).None? ==> currentMeta == old(currentMeta) && tracked == old(tracked)
      ensures old(channel).Some? ==>
        && currentMeta == Some(old(currentMeta).value.(activeTextChannelId := channelId))
        && tracked == old(tracked) + [currentMeta.value]
      ensures channel == old(channel)
      ensures listeners == old(listeners) && closed == old(closed) && invoked == old(invoked)
    {
      if currentMeta.None? || channel.None? {
        return;
      }
      currentMeta := Some(currentMeta.value.(activeTextChannelId := channelId));
      tracked := tracked + [currentMeta.value];
    }

    /** Without an open channel nothing happens; otherwise the voice channel is set and the whole record republished. */
    method JoinVoice(channelId: string)
      requires Valid()
      modifies this
      ensures Valid()
      ensures old(channel).None? ==> currentMeta == old(currentMeta) && tracked == old(tracked)
      ensures old(channel).Some? ==>
        && currentMeta == Some(old(currentMeta).value.(activeVoiceChannelId := Some(channelId)))
        && tracked == old(tracked) + [currentMeta.value]
      ensures channel == old(channel)
      ensures listeners == old(listeners) && closed == old(closed) && invoked == old(invoked)
    {
      if currentMeta.None? || channel.None? {
        return;
      }
      currentMeta := Some(currentMeta.value.(activeVoiceChannelId := Some(channelId)));
      tracked := tracked + [currentMeta.value];
    }

    /** Without an open channel nothing happens; otherwise the voice channel is cleared and the whole record republished. */
    method LeaveVoice()
      requires Valid()
      modifies this
      ensures Valid()
      ensures old(channel).None? ==> currentMeta == old(currentMeta) && tracked == old(tracked)
      ensures old(channel).Some? ==>
        && currentMeta == Some(old(currentMeta).value.(activeVoiceChannelId := None))
        && tracked == old(tracked) + [currentMeta.value]
      ensures channel == old(channel)
      ensures listeners == old(listeners) && closed == old(closed) && invoked == old(invoked)
    {
      if currentMeta.None? || channel.None? {
        return;
      }
      currentMeta := Some(currentMeta.value.(activeVoiceChannelId := None));
      tracked := tracked + [currentMeta.value];
    }

    /** Registers `cb` (a set: registering twice is one registration) and returns its remover. */
    method OnChange(cb: CallbackId) returns (h: Unsubscriber)
      requires Valid()
      modifies this
      ensures Valid()
      ensures h == Unsubscriber(cb)
      ensures listeners == if cb in old(listeners) then old(listeners) else old(listeners) + [cb]
      ensures channel == old(channel) && currentMeta == old(currentMeta)
      ensures tracked == old(tracked) && closed == old(closed) && invoked == old(invoked)
    {
      if cb !in listeners {
        listeners := listeners + [cb];
      }
      h := Unsubscriber(cb);
    }

    /** Calling the function `onChange` returned: removes exactly that callback. */
    method Dispose(h: Unsubscriber)
      requires Valid()
      modifies this
      ensures Valid()
      ensures listeners == Without(old(listeners), h.callback)
      ensures channel == old(channel) && currentMeta == old(currentMeta)
      ensures tracked == old(tracked) && closed == old(closed) && invoked == old(invoked)
    {
      listeners := Without(listeners, h.callback);
      WithoutKeepsNoDuplicates(old(listeners), h.callback);
    }

    /** `notifyListeners`: every registered callback, in registration order. */
    method NotifyListeners()
      requires Valid()
      modifies this
      ensures Valid()
      ensures invoked == old(invoked) + listeners
      ensures channel == old(channel) && currentMeta == old(currentMeta)
      ensures listeners == old(listeners) && tracked == old(tracked) && closed == old(closed)
    {
      var i := 0;
      while i < |listeners|
        invariant 0 <= i <= |listeners|
        invariant invoked == old(invoked) + listeners[..i]
        invariant channel == old(channel) && currentMeta == old(currentMeta)
        invariant listeners == old(listeners) && tracked == old(tracked) && closed == old(closed)
      {
        invoked := invoked + [listeners[i]];
        i := i + 1;
      }
    }

    /**
     * `getGroupedPresence`: two empty tables without an open channel,
     * otherwise the de-duplicated, bucketed snapshot.
     */
    method GetGroupedPresence(state: seq<seq<PresenceMeta>>) returns (g: Grouped)
      ensures channel.None? ==> g == NoPresence
      ensures channel.Some? ==> g == GroupPresence(state)
    {
      if channel.None? {
        return NoPresence;
      }
      var seenUsers := DedupSnapshot(state);
      g := BucketRecords(seenUsers);
    }
  }

  lemma {:induction false} WithoutKeepsNoDuplicates(s: seq<CallbackId>, y: CallbackId)
    requires NoDuplicates(s)
    ensures NoDuplicates(Without(s, y))
  {
    if s != [] {
      var p := s[..|s| - 1];
      WithoutKeepsNoDuplicates(p, y);
      assert s[|s| - 1] !in p;
    }
  }
}
