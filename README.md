# Voice, presence and messaging core of a Discord-style chat app, in Dafny

This project models the parts of the chat application that coordinate
state and can be stated exactly:

- **Server voice roster.** The voice server keeps a table from channel id to participants. The `voice:*` socket events change it, and a 30-second heartbeat lease expires stale participants.
- **Presence grouping.** The presence manager groups one record per client into text and voice buckets. Records are de-duplicated per user, and a voice record wins over a text one.
- **Client voice state.** This covers the voice hook's event reducers and its join, leave, mute and deafen actions. It also covers the voice channel list, which overlays the local flags on the self entry, and the presence client's single heartbeat timer.
- **Message lists.** The channel and DM message feeds apply realtime insert, update and delete changes, pagination and sends. The chat panel adds optimistic sends and the typing line. The message list groups reactions into chips and guards sending and editing.
- **Small utilities and validators:**
  - the highest-position role colour;
  - the capped exponential-backoff retry loop;
  - recursive redaction of secrets in log metadata;
  - the registration and profile form checks;
  - the mock user store with register and login, and its base64-of-JSON tokens.

There is one Dafny module per source file, plus `Common`:

| module | file | source |
|---|---|---|
| `Common` | common.dfy | JavaScript semantics used throughout |
| `VoiceRoster` | voice_roster.dfy | server/sockets/handlers.ts |
| `PresenceBus` | presence_bus.dfy | client/services/PresenceManager.ts |
| `VoiceHook` | voice_hook.dfy | client/hooks/useVoice.ts |
| `VoiceChannelList` | voice_channel_list.dfy | client/components/VoiceChannels.tsx |
| `VoicePresenceClient` | presence_client.dfy | client/services/PresenceClient.ts |
| `MessageFeed` | message_feed.dfy | client/hooks/useMessages.ts, client/hooks/useDMs.ts |
| `ChannelChat` | channel_chat.dfy | client/components/channel/ChannelChat.tsx |
| `MessageList` | message_list.dfy | client/components/MessageList.tsx |
| `RoleUtils` | role_utils.dfy | client/utils/roleUtils.ts |
| `Retry` | retry.dfy | server/utils/retry.ts |
| `Logger` | logger.dfy | server/utils/logger.ts |
| `RegisterPage` | register.dfy | client/pages/Register.tsx |
| `AuthTokens` | auth_tokens.dfy | server/routes/auth.ts (token encoding) |
| `AuthRoutes` | auth.dfy | server/routes/auth.ts |
| `ProfilePage` | profile_page.dfy | client/components/settings/pages/ProfilePage.tsx |

`Common` holds the JavaScript semantics used throughout:

- Truthiness: an empty string is falsy.
- `trim()` whitespace.
- `.length` in UTF-16 code units.
- The regular-expression character classes.
- `includes`.
- Set and Map insertion order.
- The error-message fallback `err instanceof Error ? err.message : fallback`: the message of an `Error`, otherwise the fallback.

Components whose state changes step by step are classes:

- The fields of each class are the component's state. Its methods are the handlers, with `modifies this`.
- Each method's `ensures` gives the new state as a function of the old one.
- Whatever the component sends is appended to a log field. Socket emits go to `sent` or `outbox`, toasts to `toasts`, and backend calls to `updates`, `uploads` and so on.

The pure pieces are functions and lemmas.

Parameters stand in for outside inputs:

- The clock is a parameter `now`.
- Timers firing are explicit method calls.
- A backend call's outcome is a `Fetch<T>` parameter: `Fetched(value)`, or `Failed(message)` where the message may be absent.

## Model

| member | source | states |
|---|---|---|
| VoiceRoster.JoinStoresArrival | server/sockets/handlers.ts:100-114 | A join creates the channel's table if it is missing. It stores the user as not muted, not deafened, not speaking, with the heartbeat at `now`, overwriting any earlier record. The channel's other participants are unchanged. |
| VoiceRoster.JoinLeavesOtherChannels | server/sockets/handlers.ts:114 | A join changes no other channel. A user already in another channel stays there, so one user can be listed in two channels. |
| VoiceRoster.LeaveUndoesJoin | server/sockets/handlers.ts:122-129 | Leaving right after joining a channel one was not in restores the roster exactly. |
| VoiceRoster.LeaveRemovesOnlyThatUser | server/sockets/handlers.ts:122-129 | A leave removes exactly that user from that channel. It keeps every channel entry and every other participant. An unknown channel is left alone. |
| VoiceRoster.StateUpdatesPresentOnly | server/sockets/handlers.ts:131-143 | For a present participant, a state event sets muted and deafened and refreshes the heartbeat, and nothing else changes. For an absent one the roster is unchanged. |
| VoiceRoster.SpeakingChangesOnlyTheFlag | server/sockets/handlers.ts:145-155 | A speaking event changes only the speaking flag of a present participant. It does not refresh the heartbeat. |
| VoiceRoster.HeartbeatOnlyRefreshes | server/sockets/handlers.ts:157-166 | A heartbeat never creates or removes an entry. It moves only the named participant's heartbeat. |
| VoiceRoster.SweepRemovesExactlyStale | server/sockets/handlers.ts:15-26 | The sweep keeps a participant exactly when `now - lastHeartbeat <= 30000`, so one at exactly 30000 ms survives. Survivors are unchanged, and no channel entry is removed, even an empty one. |
| VoiceRoster.SweepIdempotent | server/sockets/handlers.ts:15-26 | Sweeping twice at the same instant removes nothing more. |
| VoiceRoster.SweepLaterSubsumesEarlier | server/sockets/handlers.ts:15-26 | An earlier sweep followed by a later one equals the later sweep alone. |
| VoiceRoster.EventsKeepWellKeyed | server/sockets/handlers.ts:97-166 | Every event and the sweep keep each participant filed under its own user id. |
| VoiceRoster.HeartbeatingParticipantSurvives | server/sockets/handlers.ts:15-28 | Take any run of heartbeats and sweeps in which every sweep comes at most 30000 ms after the participant's latest heartbeat. That participant is still present at the end. |
| VoiceRoster.VoiceServer.constructor | server/sockets/handlers.ts:13 | The roster starts empty, and nothing has been sent. |
| VoiceRoster.KeepIn | server/sockets/handlers.ts:126 | A deletion keeps the remaining keys in their insertion order, each still listed once. |
| VoiceRoster.InArrivalOrder | server/sockets/handlers.ts:118 | `Array.from(values())`: one participant per key, in the table's insertion order. |
| VoiceRoster.JoinKeepsInStep | server/sockets/handlers.ts:100-114 | After a join, the recorded insertion order still lists each channel's participants exactly once. A newcomer goes last, and a participant who is already there keeps their place. |
| VoiceRoster.PruneKeepsInStep | server/sockets/handlers.ts:122-129 | After a leave, the pruned insertion order still lists exactly the remaining participants, once each. |
| VoiceRoster.SweepKeepsInStep | server/sockets/handlers.ts:15-26 | After the sweep, the pruned insertion order still lists exactly the surviving participants, once each. |
| VoiceRoster.UserListInArrivalOrder | server/sockets/handlers.ts:114-119 | The roster sent to a joiner is in insertion order. A newcomer is listed after everyone already there. A participant who joins again keeps their place, with the fresh record. |
| VoiceRoster.VoiceServer.Join | server/sockets/handlers.ts:97-120 | The roster becomes the join's result, and the insertion order records a newcomer last. The arrival is broadcast to all. The joiner is then sent the channel's participants as a list in insertion order, which holds the joiner and everyone already there. |
| VoiceRoster.VoiceServer.Leave | server/sockets/handlers.ts:122-129 | The roster becomes the leave's result, and the remaining participants keep their insertion order. The leave is broadcast only when the channel's table exists. |
| VoiceRoster.VoiceServer.State | server/sockets/handlers.ts:131-143 | The state update is applied and broadcast only for a present participant. |
| VoiceRoster.VoiceServer.Speaking | server/sockets/handlers.ts:145-155 | The speaking flag is applied and broadcast only for a present participant. |
| VoiceRoster.VoiceServer.Heartbeat | server/sockets/handlers.ts:157-166 | The lease is refreshed and nothing is sent. |
| VoiceRoster.VoiceServer.Sweep | server/sockets/handlers.ts:15-26 | The roster becomes the sweep function's result, survivors keep their insertion order, and nothing is sent. |
| VoiceRoster.VoiceServer.DeleteStale | server/sockets/handlers.ts:19-25 | The nested loop over channels and participants leaves the roster equal to the sweep function. |
| PresenceBus.Lookup | client/services/PresenceManager.ts:85 | `seenUsers.get`: the first record of the user in the table, present exactly when the user has one. |
| PresenceBus.Remember | client/services/PresenceManager.ts:85-88 | One de-duplication step keeps only records already held or the new record. |
| PresenceBus.Dedup | client/services/PresenceManager.ts:83-90 | The de-duplicated table holds only records from the snapshot. |
| PresenceBus.DedupFacts | client/services/PresenceManager.ts:83-90 | After de-duplication every user has exactly one record, and the same users appear as in the snapshot. |
| PresenceBus.LastVoiceRecord | client/services/PresenceManager.ts:83-90 | The user's voice record with no voice record of that user after it in visiting order. |
| PresenceBus.DedupChoice | client/services/PresenceManager.ts:85-89 | A user with a voice record anywhere keeps exactly the last voice record in snapshot order, because a later voice record overwrites an earlier one. Otherwise the user's first record is kept. |
| PresenceBus.PlaceAll | client/services/PresenceManager.ts:92-102 | Every voice bucket lists only records in that voice channel. Every text bucket lists only records with no voice channel, in that text channel. Every record is listed where its channels say, and no bucket is empty. |
| PresenceBus.PlaceAllUnique | client/services/PresenceManager.ts:92-102 | From a table with one record per user, no bucket lists a user twice. |
| PresenceBus.BucketEntryIsChosen | client/services/PresenceManager.ts:92-102 | The only record of a user in any bucket is the one de-duplication chose, filed by that record's channel. |
| PresenceBus.RecordIsPlaced | client/services/PresenceManager.ts:93-100 | A record with a voice channel is in that voice bucket. One with only a text channel is in that text bucket. |
| PresenceBus.PlacedOnce | client/services/PresenceManager.ts:92-102 | A user appears in at most one voice bucket and at most one text bucket, never in both kinds. |
| PresenceBus.AtMostOneLocation | client/services/PresenceManager.ts:83-102 | For any snapshot, each user appears at most once across both maps combined. |
| PresenceBus.VoiceRecordWins | client/services/PresenceManager.ts:85-97 | A user with a voice record anywhere in the snapshot appears in the voice bucket of the channel of their last voice record in snapshot order. That user is never in a text bucket. |
| PresenceBus.FirstRecordDecides | client/services/PresenceManager.ts:85-102 | A user with no voice record is in no voice bucket. If the first record names a text channel, the user is in that text bucket. Otherwise, or when absent, the user is in no text bucket. |
| PresenceBus.DedupSnapshot | client/services/PresenceManager.ts:81-90 | The nested loop over the snapshot's presence lists computes the de-duplicated table. |
| PresenceBus.BucketRecords | client/services/PresenceManager.ts:92-102 | The loop over the table computes the two bucket maps. |
| PresenceBus.DisposeUndoesOnChange | client/services/PresenceManager.ts:107-110 | Adding a new callback and then running its returned handle restores the listener set. |
| PresenceBus.WithoutAbsent | client/services/PresenceManager.ts:109 | Deleting a callback that is not registered changes nothing. |
| PresenceBus.WithoutKeepsNoDuplicates | client/services/PresenceManager.ts:16 | Deleting keeps the listener list free of duplicates, as a `Set` is. |
| PresenceBus.PresenceManager.constructor | client/services/PresenceManager.ts:14-16 | No channel, no record, no listeners. |
| PresenceBus.PresenceManager.Subscribe | client/services/PresenceManager.ts:18-45 | An open channel is closed first. The record restarts with both channel ids null, and a new channel is opened. |
| PresenceBus.PresenceManager.OnStatus | client/services/PresenceManager.ts:40-44 | On `SUBSCRIBED`, the current record is published. Other statuses do nothing. |
| PresenceBus.PresenceManager.OnSync | client/services/PresenceManager.ts:37-39 | A sync invokes every registered listener. |
| PresenceBus.PresenceManager.Unsubscribe | client/services/PresenceManager.ts:47-53 | The channel is closed if open. Both the channel and the record are cleared. |
| PresenceBus.PresenceManager.SetActiveText | client/services/PresenceManager.ts:55-59 | Without a channel, this is a no-op. Otherwise only the text channel id changes, and the whole record is republished. |
| PresenceBus.PresenceManager.JoinVoice | client/services/PresenceManager.ts:61-65 | Without a channel, this is a no-op. Otherwise only the voice channel id changes, and the whole record is republished. |
| PresenceBus.PresenceManager.LeaveVoice | client/services/PresenceManager.ts:67-71 | Without a channel, this is a no-op. Otherwise the voice channel id becomes null, and the whole record is republished. |
| PresenceBus.PresenceManager.OnChange | client/services/PresenceManager.ts:107-110 | The callback is added once, as a `Set` adds. The handle names exactly that callback. |
| PresenceBus.PresenceManager.Dispose | client/services/PresenceManager.ts:109 | The handle removes exactly its callback. |
| PresenceBus.PresenceManager.NotifyListeners | client/services/PresenceManager.ts:112-114 | Every registered callback is invoked, in registration order. |
| PresenceBus.PresenceManager.GetGroupedPresence | client/services/PresenceManager.ts:73-105 | Without a channel, both maps are empty. Otherwise the result is the grouping of the snapshot. |
| VoiceHook.DropUser | client/hooks/useVoice.ts:51 | Every entry of the user is removed and every other entry kept. A list without the user is unchanged. |
| VoiceHook.SetFlags | client/hooks/useVoice.ts:62-64 | Same length and order. The user's entries get the new muted and deafened flags, and the others are unchanged. |
| VoiceHook.SetSpeaking | client/hooks/useVoice.ts:75-77 | Same length and order. The user's entries get the new speaking flag, and the others are unchanged. |
| VoiceHook.Reduce | client/hooks/useVoice.ts:23-80 | Each window event touches only its own channel's entry and keeps that channel's `isJoinedBySelf`, which defaults to false. A join appends the participant at the end of the channel's list, with no check for an entry already there. |
| VoiceHook.RepeatedJoinListsTwice | client/hooks/useVoice.ts:34-43 | A join by a participant already listed adds a second copy at the end. |
| VoiceHook.UserListReplaces | client/hooks/useVoice.ts:23-32 | A user list replaces the channel's participants wholesale. |
| VoiceHook.LeaveUndoesJoin | client/hooks/useVoice.ts:34-54 | For a newcomer, a join appended without de-duplication followed by that user's leave restores the list. |
| VoiceHook.LeaveRemovesUser | client/hooks/useVoice.ts:45-54 | After a leave the channel lists no entry of the user, and every other entry remains. |
| VoiceHook.FlagUpdatesKeepMembership | client/hooks/useVoice.ts:56-80 | State and speaking events keep length, order, ids and names. They change only the named user's entries. |
| VoiceHook.UpdateForAbsentUserIsNoOp | client/hooks/useVoice.ts:45-80 | An event about a user the channel does not list leaves the list unchanged. |
| VoiceHook.MarkJoined | client/hooks/useVoice.ts:125-131 | Only the channel's `isJoinedBySelf` flag is set, and its participants are kept. |
| VoiceHook.JoinRequests | client/hooks/useVoice.ts:105-116 | The token is requested first. Connect and microphone come after it, and each step happens only if the one before succeeded. |
| VoiceHook.VoiceSession.constructor | client/hooks/useVoice.ts:10-13 | Empty voice state, no current channel, not muted or deafened. |
| VoiceHook.VoiceSession.Receive | client/hooks/useVoice.ts:23-80 | An incoming event changes only the voice state, as the reducer says. |
| VoiceHook.VoiceSession.JoinVoice | client/hooks/useVoice.ts:102-142 | The signalling join is emitted and the current channel set only after the token, `connect` and `setMicMuted` all succeed. Any failure leaves the channel unchanged and emits no join. |
| VoiceHook.VoiceSession.LeaveVoice | client/hooks/useVoice.ts:144-160 | Without a current channel or user, this is a no-op. Otherwise it disconnects first; a failed disconnect rejects with nothing else changed. After a disconnect it signals the leave, stops the heartbeat, marks the channel not joined (keeping its participants) and clears the current channel. |
| VoiceHook.VoiceSession.ToggleMute | client/hooks/useVoice.ts:162-169 | Without a current channel or user, this is a no-op. Otherwise it flips `selfMuted` and emits the new value with the current deafened flag. |
| VoiceHook.VoiceSession.ToggleDeafen | client/hooks/useVoice.ts:171-184 | Deafening forces `selfMuted` and emits `muted = true`. Un-deafening leaves `selfMuted` as it was. |
| VoiceHook.VoiceSession.OnSpeaking | client/hooks/useVoice.ts:133-135 | A speaking callback forwards to the channel it was registered for. |
| VoiceChannelList.VoiceOnly | client/components/VoiceChannels.tsx:17 | Exactly the channels of type `voice`. |
| VoiceChannelList.OverlaySelf | client/components/VoiceChannels.tsx:29-31 | Every self entry gets the local flags and `isSelf`, and every other entry is unchanged. |
| VoiceChannelList.Render | client/components/VoiceChannels.tsx:17-44 | Nothing is rendered exactly when no channel is a voice channel. Otherwise there is one list per voice channel, and `isJoined` holds exactly for the current channel. |
| VoiceChannelList.CountUser | client/components/VoiceChannels.tsx:33 | The count is zero exactly when `some(p => p.userId === id)` fails. |
| VoiceChannelList.OverlayKeepsCount | client/components/VoiceChannels.tsx:29-31 | The overlay never changes how often a user is listed. |
| VoiceChannelList.OverlayKeepsOthers | client/components/VoiceChannels.tsx:29-31 | The overlay leaves the other users' entries as they were. |
| VoiceChannelList.JoinedChannelCountsSelf | client/components/VoiceChannels.tsx:28-44 | In the joined channel, self is listed as often as before, or exactly once if absent. So self appears exactly once when the list had at most one self entry. |
| VoiceChannelList.JoinedChannelMarksSelf | client/components/VoiceChannels.tsx:29-43 | Every self entry shown carries the local flags. If the server does not list the user, the list is shown unchanged with one synthesised self entry appended last, not speaking. If it does, nothing is appended. |
| VoiceChannelList.JoinedChannelKeepsOthers | client/components/VoiceChannels.tsx:28-44 | Other users' entries are shown as received. |
| VoiceChannelList.OtherChannelsShowServerList | client/components/VoiceChannels.tsx:26-28 | A channel that is not joined, or one shown with no user, passes its list through unchanged. |
| VoicePresenceClient.PresenceClient.constructor | client/services/PresenceClient.ts:5 | No heartbeat timer. |
| VoicePresenceClient.PresenceClient.Subscribe | client/services/PresenceClient.ts:7-20 | With a socket, the five relays are registered. Without one, nothing changes. |
| VoicePresenceClient.PresenceClient.Unsubscribe | client/services/PresenceClient.ts:22-33 | Without a socket it returns before stopping the heartbeat. With one it removes the relays and stops the timer. |
| VoicePresenceClient.PresenceClient.JoinVoice | client/services/PresenceClient.ts:35-42 | Emits `voice:join` and then runs exactly one heartbeat timer for this channel and user. |
| VoicePresenceClient.PresenceClient.LeaveVoice | client/services/PresenceClient.ts:44-51 | Emits `voice:leave` and then leaves no timer running. |
| VoicePresenceClient.PresenceClient.UpdateState | client/services/PresenceClient.ts:53-55 | Forwards its arguments unchanged as a single emit. |
| VoicePresenceClient.PresenceClient.UpdateSpeaking | client/services/PresenceClient.ts:57-59 | Forwards its arguments unchanged as a single emit. |
| VoicePresenceClient.PresenceClient.StartHeartbeat | client/services/PresenceClient.ts:61-66 | The previous timer is stopped first, so exactly one timer runs, for the captured channel and user. |
| VoicePresenceClient.PresenceClient.StopHeartbeat | client/services/PresenceClient.ts:68-73 | Idempotent. No timer is left. |
| VoicePresenceClient.PresenceClient.Tick | client/services/PresenceClient.ts:63-65 | A live timer's tick emits `voice:heartbeat` with the ids captured at start. A cleared timer emits nothing. |
| VoicePresenceClient.RejoinKeepsOneHeartbeat | client/services/PresenceClient.ts:35-73 | Joining twice leaves one timer, for the second channel, and leaving clears it. |
| MessageFeed.ReplaceWhere | client/hooks/useMessages.ts:43 | Same length and order. Rows with the id become the new row, and the others are unchanged. |
| MessageFeed.RemoveById | client/hooks/useMessages.ts:45 | Exactly the rows without the id remain. |
| MessageFeed.ApplyChannelChange | client/hooks/useMessages.ts:33-47 | An insert appends the row with its author at the end. An update replaces the rows with its id. A delete removes them. |
| MessageFeed.ApplyDMChange | client/hooks/useDMs.ts:89-97 | An insert appends `payload.new` at the end. An update replaces the rows with its id. A delete removes them. |
| MessageFeed.UpdateKeepsIds | client/hooks/useMessages.ts:43 | An update never changes the sequence of ids. |
| MessageFeed.UpdateLastWins | client/hooks/useMessages.ts:43 | Two updates of the same id leave the second one's row. |
| MessageFeed.UpdateOfAbsentIsNoOp | client/hooks/useMessages.ts:43 | An update for an id the list does not hold changes nothing. |
| MessageFeed.RemoveAbsentIsNoOp | client/hooks/useMessages.ts:45 | A delete for an id the list does not hold changes nothing. |
| MessageFeed.DeleteIdempotent | client/hooks/useMessages.ts:45 | Deleting twice equals deleting once. |
| MessageFeed.DeleteUndoesInsert | client/hooks/useMessages.ts:41-45 | Deleting a freshly inserted row restores the list. |
| MessageFeed.RemoveByIdConcat | client/hooks/useMessages.ts:45 | Deleting keeps the relative order of everything else. |
| MessageFeed.ChannelFeed.constructor | client/hooks/useMessages.ts:5-8 | Empty, loading, no error, `hasMore` true. |
| MessageFeed.ChannelFeed.Open | client/hooks/useMessages.ts:10-30 | No channel gives an empty list. Otherwise the first page is shown, `hasMore` is true exactly when it had 50 rows, and a failure records its message. |
| MessageFeed.ChannelFeed.OnChange | client/hooks/useMessages.ts:33-47 | The list becomes the change applied to it, and nothing else changes. |
| MessageFeed.ChannelFeed.SendMessage | client/hooks/useMessages.ts:54-69 | Without a channel it fails with "No channel selected" and the list is unchanged. Otherwise the stored message is appended with its author. |
| MessageFeed.ChannelFeed.LoadMore | client/hooks/useMessages.ts:103-112 | Older rows go before the current ones. A short page sets `hasMore` false, which never becomes true again. A failure records its message. |
| MessageFeed.DMFeed.constructor | client/hooks/useDMs.ts:63-65 | Empty, loading, no error. |
| MessageFeed.DMFeed.Open | client/hooks/useDMs.ts:67-86 | No conversation gives an empty list. Otherwise the first page is shown, or the failure's message is recorded. |
| MessageFeed.DMFeed.OnChange | client/hooks/useDMs.ts:89-97 | The list becomes the change applied to it. |
| MessageFeed.DMFeed.SendMessage | client/hooks/useDMs.ts:104-113 | Without a conversation it fails with "No conversation selected". Otherwise the stored message is appended. |
| MessageFeed.Conversations.constructor | client/hooks/useDMs.ts:7-9 | Empty, loading, no error. |
| MessageFeed.Conversations.Load | client/hooks/useDMs.ts:11-27 | Without a user, nothing happens. Otherwise the fetched list is shown, or the failure's message is recorded. |
| MessageFeed.Conversations.GetOrCreate | client/hooks/useDMs.ts:29-40 | Without a user it fails with "User not authenticated". Otherwise the list is refreshed and the conversation returned. |
| MessageFeed.Conversations.CreateGroupDM | client/hooks/useDMs.ts:42-51 | Without a user it fails with "User not authenticated". Otherwise the new conversation goes first. |
| ChannelChat.StopNoticeAsWritten | client/services/socketService.ts:133-135 | The stop notice carries the channel and user id and no name. |
| ChannelChat.StopNotice | client/services/socketService.ts:133-135 | The corrected stop notice also carries the typist's name. |
| ChannelChat.AfterTypingStart | client/components/channel/ChannelChat.tsx:32-34 | A notice for this channel from someone else adds the name with no duplicates. Any other notice changes nothing. |
| ChannelChat.TypingStartAppendsNewTypist | client/components/channel/ChannelChat.tsx:34 | A new typist goes last, and a listed one leaves the list as it was. |
| ChannelChat.AfterTypingStop | client/components/channel/ChannelChat.tsx:41-45 | A stop notice for this channel removes exactly the entries equal to its name. Others change nothing. |
| ChannelChat.StopAsWrittenRemovesNobody | client/components/channel/ChannelChat.tsx:41-45 | With the notice as sent, no typist is ever removed. |
| ChannelChat.StopAsWrittenKeepsAlice | client/components/channel/ChannelChat.tsx:41-45 | Concretely, "alice" stops typing and is still shown. |
| ChannelChat.StopRemovesTypist | client/components/channel/ChannelChat.tsx:41-45 | With the name in the notice, the typist disappears and the rest stay in order. |
| ChannelChat.TypingStaysDistinct | client/components/channel/ChannelChat.tsx:32-45 | The typing list never lists a name twice. |
| ChannelChat.IncomingAsWritten | client/components/channel/ChannelChat.tsx:26-30 | A message for this channel is appended, and any other is ignored. |
| ChannelChat.Incoming | client/components/channel/ChannelChat.tsx:26-30 | The corrected handler also skips a message whose id the list already holds. |
| ChannelChat.EchoDuplicatesAsWritten | client/components/channel/ChannelChat.tsx:26-30 | After a successful send, the relayed echo leaves the sender's list holding the message twice. |
| ChannelChat.EchoKeepsOneCopy | client/components/channel/ChannelChat.tsx:26-30 | With the corrected handler, the sent message is held exactly once. |
| ChannelChat.NewMessagesAppendAsBefore | client/components/channel/ChannelChat.tsx:26-30 | For messages not yet held, the corrected handler behaves as written. |
| ChannelChat.SendSuccessShowsStored | client/components/channel/ChannelChat.tsx:79-84 | On success the stored message takes the temporary one's place at the end. |
| ChannelChat.SendFailureRestores | client/components/channel/ChannelChat.tsx:86-88 | On failure the list is exactly what it was before the send. |
| Common.Stamped | client/components/channel/ChannelChat.tsx:70 | A time-stamped id, such as `temp-${Date.now()}` here and `user_${Date.now()}` at sign-up, starts with its prefix, and the rest is decimal digits. |
| Common.StampsDistinct | server/routes/auth.ts:73 | Ids with the same prefix stamped at different milliseconds differ. |
| ChannelChat.Optimistic | client/components/channel/ChannelChat.tsx:71-78 | The temporary message carries the input, the user and the channel. |
| ChannelChat.ChatPanel.constructor | client/components/channel/ChannelChat.tsx:16-24 | Empty panel, and the channel room joined. |
| ChannelChat.ChatPanel.Load | client/components/channel/ChannelChat.tsx:63-66 | The list becomes the fetched messages. |
| ChannelChat.ChatPanel.Edit | client/components/channel/ChannelChat.tsx:17 | Only the input changes. |
| ChannelChat.ChatPanel.OnMessage | client/components/channel/ChannelChat.tsx:26-30 | The list becomes the corrected handler's result. For any message the list does not hold yet, this is exactly the handler as written. |
| ChannelChat.ChatPanel.OnTyping | client/components/channel/ChannelChat.tsx:32-39 | The typing list is updated, and a shown notice schedules its own removal. |
| ChannelChat.ChatPanel.OnTypingStop | client/components/channel/ChannelChat.tsx:41-45 | The typing list becomes the stop handler's result. |
| ChannelChat.ChatPanel.ExpireTyping | client/components/channel/ChannelChat.tsx:35-37 | The oldest scheduled removal filters out its name. |
| ChannelChat.ChatPanel.HandleTyping | client/components/channel/ChannelChat.tsx:92-99 | With a user, this emits the start and re-arms the single idle timer with the corrected stop notice that names the user. That notice differs from the one as written only in the name. Without a user, nothing happens. |
| ChannelChat.ChatPanel.TypingIdle | client/components/channel/ChannelChat.tsx:96-98 | The idle timer emits the stop notice. |
| ChannelChat.ChatPanel.HandleSend | client/components/channel/ChannelChat.tsx:68-90 | Whitespace-only input, or no user, is a no-op. Otherwise one temporary message is appended, the input cleared and the corrected stop notice, which names the typist, emitted. Success replaces the temporary message in place and relays the stored one. Failure removes it and leaves everything else unchanged. |
| MessageList.ChipsFor | client/components/MessageList.tsx:163-166 | One chip per emoji, with the number of reactions using it. |
| MessageList.ReactionChips | client/components/MessageList.tsx:159-166 | Exactly one chip per distinct emoji, each counting the reactions with that emoji, at least 1. |
| MessageList.SumChipsIsOccurrences | client/components/MessageList.tsx:164-166 | The chip counts add up to the occurrences of their emojis. |
| MessageList.OccurrencesCoverAll | client/components/MessageList.tsx:159-166 | Over the distinct emojis, the occurrences cover every reaction. |
| MessageList.ChipCountsSumToReactions | client/components/MessageList.tsx:159-166 | The chip counts sum to the number of reactions. |
| MessageList.ChipsInFirstUseOrder | client/components/MessageList.tsx:159-162 | Chips follow the first use of each emoji, which is `Map` insertion order. |
| MessageList.EditableIds | client/components/MessageList.tsx:182 | Edit and delete controls are offered exactly on the user's own messages. |
| MessageList.Composer.constructor | client/components/MessageList.tsx:14-20 | Empty composer, not submitting, not editing. |
| MessageList.Composer.HandleSendMessage | client/components/MessageList.tsx:31-44 | Blank content, or no user, is a no-op. Otherwise the message is sent: success clears the input, and failure shows "Failed to send message". |
| MessageList.Composer.StartEdit | client/components/MessageList.tsx:182-188 | Only the user's own message can be put in editing. |
| MessageList.Composer.HandleEditMessage | client/components/MessageList.tsx:56-65 | Blank edit content is a no-op. Otherwise the update is requested: success leaves editing, and failure shows a toast. |
| MessageList.Composer.HandleDeleteMessage | client/components/MessageList.tsx:46-54 | The delete happens only when confirmed. A failure shows "Failed to delete message". |
| MessageList.Composer.TypeMessage | client/components/MessageList.tsx:213 | The message box takes the typed text. Nothing else changes. |
| MessageList.Composer.TypeEdit | client/components/MessageList.tsx:132 | The edit box takes the typed text. Nothing else changes. |
| MessageList.Composer.CancelEdit | client/components/MessageList.tsx:146 | Editing ends. The edited text and everything else are kept. |
| RoleUtils.Position | client/utils/roleUtils.ts:7 | A missing role or position counts as 0. |
| RoleUtils.SortByPosition | client/utils/roleUtils.ts:6-8 | The sorted copy is a permutation of the input. |
| RoleUtils.InsertKeepsSorted | client/utils/roleUtils.ts:6-8 | Insertion keeps the copy sorted by descending position. |
| RoleUtils.SortIsSorted | client/utils/roleUtils.ts:6-8 | The copy is sorted by descending position. |
| RoleUtils.TopIndex | client/utils/roleUtils.ts:6-10 | The first role of maximal position. |
| RoleUtils.SortHeadIsTop | client/utils/roleUtils.ts:6-10 | The stable sort's head is the first role of maximal position. |
| RoleUtils.ColorOrDefault | client/utils/roleUtils.ts:10 | A falsy colour gives `#ffffff`. |
| RoleUtils.RoleColor | client/utils/roleUtils.ts:3-11 | An absent or empty list gives `#ffffff`. |
| RoleUtils.RoleColorIsTopColor | client/utils/roleUtils.ts:3-11 | The colour is the top role's colour, or `#ffffff` if it has none. |
| RoleUtils.UniqueTopDecides | client/utils/roleUtils.ts:6-10 | A role strictly above all others decides the colour. |
| Retry.Status | server/utils/retry.ts:19 | `error?.response?.status \|\| error?.statusCode`. A 0 status falls through, and a missing error has none. |
| Retry.DefaultShouldRetryCases | server/utils/retry.ts:18-21 | Retry exactly when there is no status, or it is at least 500, or it is 429. Other 4xx are not retried. |
| Retry.Resolve | server/utils/retry.ts:14-22 | The defaults are 3 retries, 1000 ms base and 16000 ms cap. |
| Retry.Delay | server/utils/retry.ts:36 | `min(baseDelay * 2^k, maxDelay)`, never above the cap. |
| Retry.DelayNonDecreasing | server/utils/retry.ts:36 | The waits never shrink from one attempt to the next. |
| Retry.WithRetry | server/utils/retry.ts:10-46 | The attempt loop returns the run the specification function describes. |
| Retry.CallsBounded | server/utils/retry.ts:26 | At most `maxRetries + 1` calls, at least one when `maxRetries >= 0`, and one wait between consecutive calls. |
| Retry.RunOutcome | server/utils/retry.ts:26-34 | Every call but the last threw a retryable error before the final attempt. A success is returned at once. A thrown error is final, or the last attempt's. |
| Retry.WaitsAreDelays | server/utils/retry.ts:36-41 | The k-th wait is `Delay(k)`. |
| Retry.DefaultRun | server/utils/retry.ts:15-17 | With defaults, 1 to 4 calls and waits of 1000·2^k. |
| Retry.NegativeMaxRetries | server/utils/retry.ts:26-45 | With a negative `maxRetries`, nothing is called and `undefined` is thrown. |
| Logger.Redacted | server/utils/logger.ts:11-25 | Falsy and non-object values pass unchanged. Arrays and objects keep their length and keys. |
| Logger.RedactedField | server/utils/logger.ts:16-21 | A field keeps its key. |
| Logger.IndexKeysNeverSensitive | server/utils/logger.ts:16-17 | Array indices never match a sensitive name. |
| Logger.SensitiveEntriesRedacted | server/utils/logger.ts:9-21 | A key whose lower-case form contains a sensitive name maps to `[REDACTED]`. Other object values are redacted recursively, and other scalars are kept. |
| Logger.RedactedIsClean | server/utils/logger.ts:11-25 | No sensitive key keeps a value other than `[REDACTED]`, at any depth. |
| Logger.RedactionIdempotent | server/utils/logger.ts:11-25 | Redacting a redacted value changes nothing. |
| Logger.RedactSensitive | server/utils/logger.ts:11-25 | The copy-and-overwrite loop computes the redaction. The input value is not changed. |
| RegisterPage.ValidateForm | client/pages/Register.tsx:21-59 | A reported error is never empty. |
| RegisterPage.ValidExactlyWhenAcceptable | client/pages/Register.tsx:21-59 | The form passes exactly when every field is filled, the password has at least 8 UTF-16 units and matches the confirmation, the username is `[a-zA-Z0-9_-]+`, and the password has an upper-case letter, a digit and one of `!@#$%^&*`. |
| RegisterPage.EmptyFieldReportedFirst | client/pages/Register.tsx:22-25 | An empty field gives "All fields are required", whatever else is wrong. |
| RegisterPage.UsernameBeforeStrength | client/pages/Register.tsx:37-56 | The username check comes before the strength checks. |
| RegisterPage.WithField | client/pages/Register.tsx:86-89 | The named field reads back as the new value. Every other field keeps its old value. |
| RegisterPage.SignUp.constructor | client/pages/Register.tsx:16-17 | No error, not loading. |
| RegisterPage.SignUp.HandleSubmit | client/pages/Register.tsx:61-84 | A failing form shows its message, and `register` is never called. Otherwise the form is submitted and success navigates to `/app/channels`. |
| RegisterPage.SignUp.HandleChange | client/pages/Register.tsx:86-89 | Only the named field of the form changes. The error, loading flag, submissions and navigation are untouched. |
| AuthTokens.HexValue | server/routes/auth.ts:9-10 | A hex digit, of either case, has a value below 16. |
| AuthTokens.HexDigitRoundTrip | server/routes/auth.ts:9-10 | Lower-case hex digits read back. |
| AuthTokens.EscapeChar | server/routes/auth.ts:9-10 | `JSON.stringify` escapes exactly `"`, `\` and control characters. |
| AuthTokens.ReadQuoted | server/routes/auth.ts:9-10 | Reading a JSON string recovers the escaped text and leaves the rest. |
| AuthTokens.Payload | server/routes/auth.ts:9-10 | `{"userId":…,"type":…}` with no spaces. |
| AuthTokens.PayloadRoundTrip | server/routes/auth.ts:9-10 | The payload reads back to its claims. |
| AuthTokens.EncodeChar | server/routes/auth.ts:9-10 | UTF-8 uses 1 to 4 bytes, with 1 byte exactly for ASCII. |
| AuthTokens.DecodeEncodedChar | server/routes/auth.ts:9-10 | Each character's bytes decode back to it. |
| AuthTokens.Utf8RoundTrip | server/routes/auth.ts:9-10 | `Buffer.from(text)` decodes back to the text. |
| AuthTokens.Base64DigitRoundTrip | server/routes/auth.ts:9-10 | Each 6-bit value's digit reads back. |
| AuthTokens.Base64Encode | server/routes/auth.ts:9-10 | The output length is a multiple of 4, padded with `=`. |
| AuthTokens.Base64Group | server/routes/auth.ts:9-10 | A full 3-byte group decodes back, given the rest does. |
| AuthTokens.Base64RoundTrip | server/routes/auth.ts:9-10 | `toString("base64")` decodes back to the bytes. |
| AuthTokens.Token | server/routes/auth.ts:9-10 | A token is non-empty and 4-aligned. |
| AuthTokens.GenerateTokens | server/routes/auth.ts:8-12 | Both tokens decode to the user id, with type `access` and `refresh`, and they differ. |
| AuthTokens.TokenRoundTrip | server/routes/auth.ts:8-12 | Decoding a token recovers its claims. |
| AuthTokens.TokensIdentifyTheUser | server/routes/auth.ts:8-12 | Equal tokens mean equal users. |
| AuthRoutes.Public | server/routes/auth.ts:74-83 | The response user is the stored user without the password. |
| AuthRoutes.Authenticated | server/routes/auth.ts:87-96 | The response carries the user, both tokens decoding to its id, and `expires_in` 604800. |
| AuthRoutes.Set | server/routes/auth.ts:85 | `users.set`: replaces the entry with that id in place, or appends. |
| AuthRoutes.FindByEmail | server/routes/auth.ts:118 | A stored user with the email, with no earlier user having that email (the first match). Absent exactly when no user has the email. |
| AuthRoutes.RegistrationError | server/routes/auth.ts:19-57 | No error exactly when all fields are present, the password has at least 8 units and has an upper-case letter, a digit and a special character. |
| AuthRoutes.RegistrationMessagesInOrder | server/routes/auth.ts:19-57 | The checks run in the order above. The message reported is the one of the first check that fails. |
| AuthRoutes.NewUser | server/routes/auth.ts:74-85 | Status `online`, not verified, the request's fields and password. |
| AuthRoutes.Registration | server/routes/auth.ts:14-104 | A validation failure gives 400 and a taken email or username gives 409, both with the store unchanged. Success gives 201 and exactly the new user stored. |
| AuthRoutes.Login | server/routes/auth.ts:106-155 | A missing field gives 400. Status 200 happens only when `FindByEmail` (the first user with the email) has an equal password, and the response carries that user. Everything else gives 401. |
| AuthRoutes.UserStore.constructor | server/routes/auth.ts:5 | An empty store. |
| AuthRoutes.UserStore.Register | server/routes/auth.ts:14-104 | The conflict search loop and store update give the registration's response and store. The store stays well formed. |
| AuthRoutes.RegistrationKeepsStoreWellFormed | server/routes/auth.ts:60-85 | Ids, emails and usernames stay distinct. |
| AuthRoutes.RegistrationAddsOneUser | server/routes/auth.ts:73-96 | A successful registration adds exactly one user, at the end. |
| AuthRoutes.FindsStoredUser | server/routes/auth.ts:118 | In a store with distinct emails, the lookup finds that user. |
| AuthRoutes.SignInAfterSignUp | server/routes/auth.ts:14-155 | Signing in with the credentials just registered gives 200 for the new user. |
| AuthRoutes.SecondSignUpConflicts | server/routes/auth.ts:60-70 | Registering the same email or username again gives 409. |
| AuthRoutes.FailedSignInsLookAlike | server/routes/auth.ts:118-126 | An unknown email and a wrong password give the same 401 response. |
| AuthRoutes.SignInExactlyWithMatchingPassword | server/routes/auth.ts:110-126 | Login gives 200 exactly when both fields are present and the stored user with that email has that password. |
| AuthRoutes.SameMillisecondReplacesEarlierUser | server/routes/auth.ts:73-85 | Two registrations in the same millisecond share an id, and the second replaces the first. |
| AuthRoutes.AcceptedFormPassesServerChecks | server/routes/auth.ts:19-57 | A form the sign-up page accepts passes the server's field checks. |
| ProfilePage.AvatarProblem | client/components/settings/pages/ProfilePage.tsx:41-49 | Size is checked first, over 5·1024·1024 bytes. The file is accepted exactly when it is within the size and png, jpeg or webp. |
| ProfilePage.UsernameProblem | client/components/settings/pages/ProfilePage.tsx:69-82 | A whitespace-only name gives "Username is required". |
| ProfilePage.NameTokenIsNotBlank | client/components/settings/pages/ProfilePage.tsx:69-82 | A name of letters, digits, `_` and `-` is never blank. |
| ProfilePage.UsernameAcceptedExactly | client/components/settings/pages/ProfilePage.tsx:69-82 | A name passes exactly when it is `[a-zA-Z0-9_-]+` with 3 to 32 characters. |
| ProfilePage.PaddedShortNameFailsOnCharacters | client/components/settings/pages/ProfilePage.tsx:74-82 | The untrimmed length counts padding, so "  ab" passes the length check and fails on characters. |
| ProfilePage.ProfileEditor.constructor | client/components/settings/pages/ProfilePage.tsx:18-35 | Fields as given, nothing pending. |
| ProfilePage.ProfileEditor.TypeUsername | client/components/settings/pages/ProfilePage.tsx:156 | The username field takes the typed text. Nothing else changes. |
| ProfilePage.ProfileEditor.TypeBio | client/components/settings/pages/ProfilePage.tsx:167 | The bio field takes the typed text. Nothing else changes. |
| ProfilePage.ProfileEditor.HandleAvatarUpload | client/components/settings/pages/ProfilePage.tsx:27-66 | Without a file or a user, this is a no-op. A failing file is refused with a toast before any upload. Otherwise the file is uploaded and the profile updated, and the signed-in user gets the new avatar only when both succeed. On success the username, bio and avatar fields are refilled from the returned profile row (an absent column becomes ""). On every other path the username and bio are unchanged. |
| ProfilePage.ProfileEditor.HandleSave | client/components/settings/pages/ProfilePage.tsx:68-101 | A failing name only sets the username error. Otherwise the error is cleared and the update requested. A failure mentioning "taken" becomes the username error instead of a toast. On success the three fields are refilled from the returned profile row. On a refusal or failure they are unchanged. |

## Left out

- React rendering and JSX: only the computations of the components are modelled.
- Supabase queries and subscriptions are not modelled, including the message, DM and profile services and the realtime channel. Their results are `Fetch` parameters and presence snapshots.
- socket.io transport: emits and broadcasts are appended to a log.
- The media transport (LiveKit) and the voice token route: their outcomes are boolean and optional parameters.
- Timers, `Date.now()` and `new Date().toISOString()`:
  - Time is a parameter.
  - Timer firings are explicit calls.
  - The created and updated timestamps of stored users are whole milliseconds, not ISO strings.
- Async interleavings: every handler runs to completion before the next event.
- `formatLog` and the log levels: these are formatting and I/O.
- Logger.Redacted: JSON values only. Functions, class instances, `Date` objects and cyclic values are not modelled.
- Logger.Redacted: lower-casing is ASCII only. Non-ASCII case mappings of `toLowerCase` are not modelled, so such keys are never sensitive in the model.
- The 500 branches of register and login: the handlers' bodies cannot throw on the modelled inputs.
- `handleGetMe`, `handleLogout` and the refresh route: these are fixed mock responses outside the modelled store.
- AuthRoutes.Login: does not model the `avatar_url` field of the login response; stored users never have one.
- AuthTokens.ReadToken: the reader is a reference inverse written for the model; the server has no token decoder. Its JSON reading refuses `\u` escapes that are surrogate halves, which `JSON.parse` would pair.
- AuthTokens.Utf8Encode: only scalar values are encoded. Lone surrogates, which `Buffer.from` replaces with U+FFFD, cannot occur in Dafny strings.
- MessageFeed.ChannelFeed.LoadMore: the `offset` argument goes only to the page fetch, which is a parameter, so it has no effect in the model.
- MessageFeed.Conversations.CreateGroupDM: prepends to the conversations current at the call. The source's callback may hold an older copy of the list, which is not modelled.
- ChannelChat.ChatPanel.OnMessage: the panel uses the corrected handler, which skips an id it already holds. The handler as written appends every message of the channel. The two differ only for the sender's own echo, as the second finding shows.
- ChannelChat.ChatPanel.HandleTyping: the idle timer is armed with the corrected stop notice, which names the typist. As written, the notice carries only the channel and user id, as the first finding shows.
- ChannelChat.ChatPanel.HandleSend: emits the corrected stop notice that names the typist, for the same reason as `HandleTyping`.
- VoiceHook.VoiceSession.ToggleMute: unmuting while deafened is allowed, as in the source. So "deafened implies muted" holds after `ToggleDeafen` only, not after every action.
- The speaking callback registered by the voice hook is a single route, and later registrations replace it.
- Role management, server and channel routes, friends, members lists and settings pages are plain data access.

## Findings

| source | as written | input that shows it | evidently intended | confidence | as-written member | corrected member |
|---|---|---|---|---|---|---|
| client/services/socketService.ts:133-135 | The typing-stop notice carries only the channel and user id. The receiving panel filters its typing list by `data.username`, which is undefined, so nothing is removed. | "alice" types in channel c1 and then stops. The other panels still show her as typing until her 3-second display timer fires. | The notice names the typist, so the stop removes that name at once. | not executed | ChannelChat.StopAsWrittenRemovesNobody | ChannelChat.StopRemovesTypist |
| client/components/channel/ChannelChat.tsx:26-30 | The sender's panel replaces its temporary message with the stored one and relays it. The server sends the relay to the whole room, sender included, and the handler appends it without checking the id. | Send "hi" in an empty channel. The sender's list then holds the stored message twice. | The echo of a message already held is skipped, so the sender sees the message once. | not executed | ChannelChat.EchoDuplicatesAsWritten | ChannelChat.EchoKeepsOneCopy |
