# Relay backend: a verified model

This Dafny project models the stateful core of the Relay chat backend and proves what that core is meant to keep, over
whole runs and for all inputs.

| file | content |
|---|---|
| `Calls.dfy`, `CallInvariant.dfy`, `CallEffects.dfy`, `CallOutcomes.dfy`, `CallRuns.dfy`, `CallService.dfy` | The voice-call engine: calls, busy locks and the conversation index in Redis, every operation, its invariant, its effects, its full outcome field by field, its runs, and the service class |
| `CallMembership.dfy` | Calls beside the conversation table, with evictions as later steps |
| `LikePattern.dfy` | Literal search through ILIKE |
| `DeadlineQueue.dfy`, `ScheduledMessages.dfy` | Deadline-ordered batches, scheduled messages, and the claim protocol between dispatchers |
| `ReadReceipts.dfy` | Unread counts against `seenBy` lists |
| `PairKey.dfy`, `GroupRows.dfy`, `Conversations.dfy`, `ConversationOutcomes.dfy` | Private chats, group roles and owner succession |
| `Messages.dfy`, `MessageOutcomes.dfy`, `MessageRuns.dfy` | Sending, forwarding, tombstones, pins, expiry, and whole runs: the tombstone law, the drain, attachment clean-up |
| `Limiter.dfy`, `InviteWindow.dfy` | The in-flight limiter and the sliding-window invite limit |
| `BlockFlags.dfy` | Batched against single block flags |
| `RefreshTokens.dfy`, `AuthTokens.dfy`, `TokenOutcomes.dfy` | Refresh-token rotation, one-time tokens, invitations |
| `InviteRaces.dfy`, `InviteCounters.dfy`, `InviteLimits.dfy` | Registrations, uses, revocations and consumptions that interleave between reading and saving a token, and what that does to counters, revocations and limits |
| `Ids.dfy`, `Lists.dfy` | Ids and order-preserving list operations shared by the above |

How it is built. Each operation that updates state is a method of a class holding the source's tables as maps. Its
contract equates result and new state with a function of the old state. About those functions the lemmas prove what the
service promises: an invariant each operation keeps, safety at the end of every run, and, in the lemmas named `...Outcome`,
the operation's whole effect: each refusal if and only if its cause holds, each field afterwards, and what stays as it was,
said of the tables themselves and not through the functions the operations are made of. `dafny verify dfyconfig.toml` checks everything.

Conventions. Ids stand for UUIDs; generated ids are new. A one-time token is named by its secret. A Redis entry carries
the millisecond at which it expires, so that a call and its locks expiring together is proved rather than supposed.
Database timestamps are microseconds where the service compares them with JavaScript dates. Each service operation is one atomic step unless a module says otherwise;
the steps of scheduled dispatch and cancellation, of removal and eviction, of registrations, and of the tasks that use,
revoke and consume one-time tokens interleave.

## Where the code does less than it intends

- The comment on call revocation says call membership cannot outlive conversation membership. It can after `deleteGroup`,
  which evicts nobody: `CallMembership.DeleteGroupCoverage` and, for whole runs, `MembershipNeverOutlives` give the exact
  condition and `DeletedGroupKeepsItsCall` an instance.
- Cancelling a scheduled message is a read followed by an unconditional save. `ScheduledMessages.CancelHoldsExactlyWhenUntaken`
  says exactly when a cancellation holds; `RacedCancelIsSent` and `RaceIsReachable` show the race.
- An unread count and a `seenBy` list can contradict each other within one millisecond, and marking a thread as seen
  can leave a message of the same millisecond unread: `ReadReceipts.UnreadIsNotSeen` and `MarkSeenClears` say exactly
  when, `SeenYetUnread` and `MarkedButUnread` are an instance, reached through `MarkSeen`.
- Registrations that all check an invitation before any of them uses it can exceed its limit.
  `InviteLimits.OpenLimitExactly` says exactly when an open invitation keeps it, `OpenInvitationOvershoots` is an instance
  and `OpenHasNoBound` shows there is no bound. The unique index on addresses protects invitations for one address
  (`AddressedNeverOvershoot`), except when the account is deactivated while such a registration is under way:
  `FreeingExactly`, `FreedAddressOvershoots`.
- Using and revoking an invitation, and consuming a verification or reset token, read a record and save it. A use can be
  lost, a revocation undone, and a reset link used twice: `InviteCounters.CountersExactly`,
  `InviteLimits.RevocationHoldsExactly` and `InviteCounters.ConsumedOnceExactly` say exactly when, `UseIsLost`,
  `RevocationIsUndone` and `ResetTwice` are instances.
- A forwarded message shares its file with the original, and whichever is deleted first has the file cleaned up:
  `MessageRuns.CleanExactly`, `ForwardedFileIsLost`.
- Pair keys identify pairs only for ids without a colon, which UUIDs are: `PairKey.KeyIdentifiesPair`, `ColonsCollide`.
- The refusal "Host is already in the call" is dead code: `CallInvariant.HostAlreadyInIsDead`.

## Model

| member | source | states |
|---|---|---|
| `CallRuns.CallSafety` | apps/api-gateway/src/chat/call-session.service.ts:83-795 | At the end of any run from the empty store - any operations, any passing of time, any loss or spoiling of index entries - a conversation has at most one live call; every busy lock names a live call whose member the user is, joined, ringing or hosting; status, `connectedAt` and hold agree; holder, sharer and host are members, somebody is joined, and a private host is joined |
| `CallRuns.EveryRunIsSound` | apps/api-gateway/src/chat/call-session.service.ts:83-795 | Every reachable store satisfies the full roster, lock and uniqueness invariant, ids are issued once, and a call is active exactly when an accept has seated somebody in it |
| `CallRuns.EveryRunEvolves` | apps/api-gateway/src/chat/call-session.service.ts:83-795 | From any sound state, however many steps follow: an ended call id never returns, conversation, kind, media and creation time of a call are fixed, and `connectedAt` once set keeps its value |
| `CallRuns.SweptKeepsInv` | apps/api-gateway/src/chat/call-session.service.ts:762-795 | When time passes, a call and the locks on it vanish at the same moment, because `persist` gave them one deadline: no lock outlives its call |
| `CallRuns.SweptOutcome` | apps/api-gateway/src/chat/call-session.service.ts:762-795 | The passing of time takes exactly the calls, locks and index entries whose deadline has come, and changes nothing else |
| `CallRuns.SilentCallExpires` | apps/api-gateway/src/chat/call-session.service.ts:762-795 | In every sound state a call that nobody saves again lasts exactly until its deadline, and each lock on it exactly as long |
| `CallInvariant.IndexAgreesWithSearch` | apps/api-gateway/src/chat/call-session.service.ts:169-235 | For any content of the conversation index, the lookup yields exactly the one stored call of the conversation, or none if there is none, leaves its index entry agreeing with that, and touches no call and no lock |
| `CallInvariant.LookupIgnoresIndex` | apps/api-gateway/src/chat/call-session.service.ts:169-185 | Two stores with the same calls and different indexes give the same lookup result, and looking up twice changes nothing more |
| `CallInvariant.RosterPartition` | apps/api-gateway/src/chat/call-session.service.ts:550-558 | Members split exactly into joined, ringing, and declined-or-left, as sets and in number |
| `CallInvariant.PersistedKeepsInv` | apps/api-gateway/src/chat/call-session.service.ts:762-795 | Saving a sound roster keeps the whole invariant when no other call has its conversation and no outsider is locked to it |
| `CallInvariant.CreateKeepsInv` | apps/api-gateway/src/chat/call-session.service.ts:83-167 | Creating a call keeps the invariant, in particular one call per conversation, from any index content |
| `CallInvariant.AcceptKeepsInv` | apps/api-gateway/src/chat/call-session.service.ts:339-377 | Accepting keeps rosters, locks and uniqueness |
| `CallInvariant.DeclineKeepsInv` | apps/api-gateway/src/chat/call-session.service.ts:379-414 | Declining keeps them, in group and private calls |
| `CallInvariant.LeaveKeepsInv` | apps/api-gateway/src/chat/call-session.service.ts:416-462 | Leaving keeps them, whether the call ends or goes on |
| `CallInvariant.RevokeKeepsInv` | apps/api-gateway/src/chat/call-session.service.ts:468-532 | Revoking a user keeps them, including host succession to a joined member |
| `CallInvariant.EndedKeepsInv` | apps/api-gateway/src/chat/call-session.service.ts:534-548 | Ending a call keeps them, although it deletes members' locks whatever they point to |
| `CallInvariant.InviteMoreKeepsInv` | apps/api-gateway/src/chat/call-session.service.ts:564-625 | Mid-call invitations keep them |
| `CallInvariant.InviteMoreRings` | apps/api-gateway/src/chat/call-session.service.ts:584-624 | After a successful invitation the invited are distinct, allowed and all ringing; joined, host and status are unchanged; the roster grew by exactly the invited; a requested free user is passed over only when the call is full |
| `CallInvariant.HoldKeepsInv` | apps/api-gateway/src/chat/call-session.service.ts:627-656 | Hold and resume keep the invariant: on hold exactly with a holder, who is a member |
| `CallInvariant.MuteKeepsInv` | apps/api-gateway/src/chat/call-session.service.ts:658-676 | Mute-all keeps the invariant |
| `CallInvariant.ShareKeepsInv` | apps/api-gateway/src/chat/call-session.service.ts:678-699 | Screen sharing keeps the invariant: the sharer is a member |
| `CallInvariant.MarkUnansweredKeepsInv` | apps/api-gateway/src/chat/call-session.service.ts:702-732 | The soft timeout keeps the invariant for any list of user ids |
| `CallInvariant.HostAlreadyInIsDead` | apps/api-gateway/src/chat/call-session.service.ts:350-355 | The refusal "Host is already in the call" can never be given: a private host is always joined |
| `CallEffects.StartEffect` | apps/api-gateway/src/chat/call-session.service.ts:120-166 | Once the conversation has no call, one starts exactly when somebody besides the host is invited and a private peer is free; then the host sits alone, everybody else rings, all are locked for 50 s, and nobody else is affected |
| `CallEffects.CreateEffect` | apps/api-gateway/src/chat/call-session.service.ts:83-167 | The whole of creating a call: it succeeds exactly for a host not engaged, in a conversation without a call that may not be replaced, with somebody else invited and, in private, a peer who is free once the replaced call is gone; a replaced call is gone with all its locks, even when the start is then refused; the new call is settled; other calls and outsiders' locks are untouched |
| `CallEffects.CreateRefusals` | apps/api-gateway/src/chat/call-session.service.ts:91-118 | Creation is refused as "already in a call" exactly for an engaged host, and as "in progress" exactly when somebody else hosts a call of two or more there |
| `CallEffects.EngagedHost` | apps/api-gateway/src/chat/call-session.service.ts:91-105 | Being engaged means: locked to a live call as its host or participant |
| `CallEffects.AcceptEffect` | apps/api-gateway/src/chat/call-session.service.ts:343-376 | Accepting is refused exactly to outsiders and to users locked to another call; otherwise exactly the accepting user takes a seat, stops ringing and is locked, for 3600 s, and other calls are untouched |
| `CallEffects.DeclineEffect` | apps/api-gateway/src/chat/call-session.service.ts:386-413 | Declining succeeds exactly for members not joined; it ends a private call with all its locks, and in a group silences exactly the decliner |
| `CallEffects.LeaveEffect` | apps/api-gateway/src/chat/call-session.service.ts:423-461 | Leaving succeeds exactly for members; the call ends exactly when it is private or nobody else is joined; otherwise exactly the leaver's seat and ringing stop |
| `CallEffects.RevokeEffect` | apps/api-gateway/src/chat/call-session.service.ts:480-531 | The conversation's one call loses the user from members, joined, ringing, hold and share and the user's lock is gone; a revoked host is succeeded by the first joined; the call ends exactly when private or otherwise deserted |
| `CallEffects.EndEffect` | apps/api-gateway/src/chat/call-session.service.ts:534-548 | Ending removes the call, every lock on it and its index entry, and changes no other call |
| `CallEffects.TimeoutEffect` | apps/api-gateway/src/chat/call-session.service.ts:702-732 | The soft timeout silences exactly the listed users still ringing, frees them unless they host, and moves nobody's seat |
| `CallEffects.PersistedSettles` | apps/api-gateway/src/chat/call-session.service.ts:762-795 | After a save the members locked are exactly the joined, the ringing and the host, all under the call's own deadline, and no outsider's lock changed |
| `CallEffects.ReinviteRings` | apps/api-gateway/src/chat/call-session.service.ts:595-624 | Anybody who declined or left, and is not locked elsewhere, is rung again by any participant's invitation |
| `CallEffects.DeclineThenReinvite` | apps/api-gateway/src/chat/call-session.service.ts:379-625 | Declining and being invited again restores who rings, who sits and, for every member, who is locked to the call under its one deadline; the host who left and was rung again included |
| `CallEffects.LeaveThenRejoin` | apps/api-gateway/src/chat/call-session.service.ts:277-285 | A participant who leaves a group call that goes on may rejoin, and accepting restores exactly the same participants and ringing set, with `connectedAt` unchanged |
| `CallOutcomes.CreateErrors` | apps/api-gateway/src/chat/call-session.service.ts:83-167 | Creating a call is refused as "already in a call" exactly for a host locked to a live call as its host or participant, as "in progress" exactly when somebody else hosts a call of two or more there, and as lacking participants exactly when, beyond these, nobody else is invited |
| `CallOutcomes.CreateOutcome` | apps/api-gateway/src/chat/call-session.service.ts:83-167 | It succeeds exactly otherwise, if in private the first invited who is not the host is free; the new call then has the asked conversation, kind, media and host, each invited user once as member, in the order of the request, and the host, who alone has joined, nobody declined or left, no hold, mute or share, is ringing, created now and not connected, and is saved for 50 s |
| `CallOutcomes.CreateRefused` | apps/api-gateway/src/chat/call-session.service.ts:91-136 | A refusal leaves an engaged host's locks alone and otherwise takes the stale lock; when the call in the way was already ended, exactly its members' locks are gone too; no call appears but a new one |
| `CallOutcomes.ReadOutcome` | apps/api-gateway/src/chat/call-session.service.ts:287-313 | Reading a call repairs its own index entry, for the remaining lifetime rounded to the second or an hour, and changes nothing else |
| `CallOutcomes.LookupOutcome` | apps/api-gateway/src/chat/call-session.service.ts:169-235 | A lookup leaves the entry pointing at the conversation's call, kept if it already did and otherwise with the call's rounded lifetime, or takes it away; at most the conversation a stale entry really belonged to has its entry repaired |
| `CallOutcomes.ClearOutcome` | apps/api-gateway/src/chat/call-session.service.ts:320-329 | Clearing takes the user's lock exactly if it is on the call given, when one is given, and nothing else |
| `CallOutcomes.EndOutcome` | apps/api-gateway/src/chat/call-session.service.ts:534-548 | Ending returns the call marked as ended, takes it and every lock on it, and no other call or outsider's lock |
| `CallOutcomes.UnknownCall` | apps/api-gateway/src/chat/call-session.service.ts:339-732 | Every operation on a call that is not stored is refused and changes nothing |
| `CallOutcomes.AcceptOutcome` | apps/api-gateway/src/chat/call-session.service.ts:339-377 | Accepting: both refusals exactly; a participant's is answered with the call as it is; otherwise the user is appended to the joined and struck from the declined and left, the call is active, connected from now unless it was, every other field stays, and it is saved for an hour |
| `CallOutcomes.DeclineOutcome` | apps/api-gateway/src/chat/call-session.service.ts:379-414 | Declining: refused exactly to outsiders and participants; otherwise only the declined list gains the user, and the call is gone if private or saved for the lifetime of its status |
| `CallOutcomes.LeaveOutcome` | apps/api-gateway/src/chat/call-session.service.ts:416-462 | Leaving: refused exactly to outsiders; otherwise the user moves from the joined to the left list and no other field changes; the call is gone exactly if private or deserted, and otherwise saved for an hour with the joined as those remaining |
| `CallOutcomes.RevokeOutcome` | apps/api-gateway/src/chat/call-session.service.ts:468-532 | Revoking: strikes the user from members, joined and declined in order, adds to the left, takes share and hold exactly if they are the user's and the host role exactly if it is, giving it to the first joined; every other field stays; the call is gone exactly if private or deserted, and otherwise saved for an hour; other calls and outsiders' locks stay |
| `CallOutcomes.RevokeNothing` | apps/api-gateway/src/chat/call-session.service.ts:473-478 | In a conversation without a call there is nobody to revoke and no call or lock changes |
| `CallOutcomes.InviteErrors` | apps/api-gateway/src/chat/call-session.service.ts:564-622 | Inviting, for any request and any allowed list: each refusal exactly, success exactly if somebody asked for is allowed, not the actor, not joined, not locked to another call, and on the roster or with a place of eight left; a refusal changes no call and no lock |
| `CallOutcomes.InviteOutcome` | apps/api-gateway/src/chat/call-session.service.ts:592-624 | On success exactly such users are invited, each once, all of them unless the roster is full; they are members, neither declined nor left, ring, and are locked to the call; no other field changes, and the call is saved for the lifetime of its status with other calls and outsiders' locks as they were |
| `CallOutcomes.InviteOrder` | apps/api-gateway/src/chat/call-session.service.ts:592-614 | Invitations go out in the order of the request, new members come at the end of the roster in that order, and whoever is left out for want of a place was asked for after everybody who got one |
| `CallOutcomes.HoldOutcome` | apps/api-gateway/src/chat/call-session.service.ts:627-656 | Holding and resuming: refused exactly to those not joined and, for resuming, to those who are neither the holder nor the host while somebody holds; otherwise the call is on hold exactly as asked, held by the actor or by nobody, every other field stays, and it is saved for an hour |
| `CallOutcomes.MuteOutcome` | apps/api-gateway/src/chat/call-session.service.ts:658-676 | Muting all: refused exactly to anybody but the host and to a host not joined; otherwise the mark is exactly as asked, every other field stays, and the call is saved for an hour |
| `CallOutcomes.ShareOutcome` | apps/api-gateway/src/chat/call-session.service.ts:678-699 | Sharing: refused exactly to those not joined and, for stopping, to those who are neither the sharer nor the host; otherwise the sharer is the actor or nobody as asked, every other field stays, and the call is saved for an hour |
| `CallOutcomes.TimeoutOutcome` | apps/api-gateway/src/chat/call-session.service.ts:702-732 | The soft timeout appends to the left list exactly the listed users neither joined nor declined, once; the call is saved for the lifetime of its status if that changed it, and otherwise exactly these users lose a lock on it |
| `CallOutcomes.OtherEntriesWhenSeating` | apps/api-gateway/src/chat/call-session.service.ts:339-377 | Accepting and ending leave the index entries of other conversations as they are, and ending takes its own |
| `CallOutcomes.OtherEntriesWhenDeclining` | apps/api-gateway/src/chat/call-session.service.ts:379-414 | So does declining |
| `CallOutcomes.OtherEntriesWhenLeaving` | apps/api-gateway/src/chat/call-session.service.ts:416-462 | So does leaving |
| `CallOutcomes.OtherEntriesWhenInviting` | apps/api-gateway/src/chat/call-session.service.ts:564-625 | Inviting leaves other conversations' index entries as they are |
| `CallOutcomes.OtherEntriesWhenSetting` | apps/api-gateway/src/chat/call-session.service.ts:627-699 | So do hold, mute and share |
| `CallOutcomes.OtherEntriesAtTimeout` | apps/api-gateway/src/chat/call-session.service.ts:702-732 | So does the soft timeout |
| `CallService.CallSessionService.constructor` | apps/api-gateway/src/chat/call-session.service.ts:77-81 | A fresh service holds nothing and is sound |
| `CallService.CallSessionService.Get` | apps/api-gateway/src/chat/call-session.service.ts:287-313 | Reading a call returns what is stored and repairs its index entry with the rounded remaining lifetime |
| `CallService.CallSessionService.ClearUserBusy` | apps/api-gateway/src/chat/call-session.service.ts:320-329 | Deletes the user's lock, only if it points at the given call when one is given |
| `CallService.CallSessionService.Persist` | apps/api-gateway/src/chat/call-session.service.ts:762-795 | The loop over members leaves exactly the declarative store: session, index entry, and one lock per busy member |
| `CallService.CallSessionService.End` | apps/api-gateway/src/chat/call-session.service.ts:534-548 | Deletes session, index entry and every member's lock, and returns the session as ended |
| `CallService.CallSessionService.FindSessionByConversation` | apps/api-gateway/src/chat/call-session.service.ts:188-235 | A scan in any key order finds the conversation's unique call and indexes it, or finds nothing |
| `CallService.CallSessionService.GetByConversation` | apps/api-gateway/src/chat/call-session.service.ts:169-185 | Index read, stale-entry deletion and scan together equal the plain search plus an index entry that agrees with it |
| `CallService.CallSessionService.CreateCall` | apps/api-gateway/src/chat/call-session.service.ts:83-167 | Releases a stale host lock, refuses an engaged host, ends or respects the conversation's call, refuses too few participants and a busy private peer, and saves the new call: result and store are those of `Calls.Create`, and the invariant is kept |
| `CallService.CallSessionService.AcceptCall` | apps/api-gateway/src/chat/call-session.service.ts:339-377 | Seats a member who is not locked elsewhere and saves with 3600 s, or refuses: result and store are those of `Calls.Accept`, and the invariant is kept |
| `CallService.CallSessionService.DeclineCall` | apps/api-gateway/src/chat/call-session.service.ts:379-414 | Ends a private call and marks the decliner of a group call: result and store are those of `Calls.Decline`, and the invariant is kept |
| `CallService.CallSessionService.LeaveCall` | apps/api-gateway/src/chat/call-session.service.ts:416-462 | Ends a private or deserted call and otherwise moves the leaver to the left list: result and store are those of `Calls.Leave`, and the invariant is kept |
| `CallService.CallSessionService.RevokeUserFromConversation` | apps/api-gateway/src/chat/call-session.service.ts:468-532 | Finds the conversation's call by any index, strikes the user from every list, hands on the host role, and ends or saves the call: result and store are those of `Calls.Revoke`, and the invariant is kept |
| `CallService.CallSessionService.InviteMoreUsers` | apps/api-gateway/src/chat/call-session.service.ts:564-625 | Result and store are those of `Calls.InviteMore`, which `CallOutcomes.InviteErrors`, `InviteOutcome` and `InviteOrder` pin for any request: who is invited, in what order, the roster, what is saved and every refusal; the invariant is kept |
| `CallService.CallSessionService.InviteLoop` | apps/api-gateway/src/chat/call-session.service.ts:592-614 | The invitation loop considers the requested users one after another, against the growing roster |
| `CallService.CallSessionService.SetOnHold` | apps/api-gateway/src/chat/call-session.service.ts:627-656 | Result and store are those of `Calls.SetHold`, which `CallOutcomes.HoldOutcome` pins: who may hold, who may resume, and the exact call saved; the invariant is kept |
| `CallService.CallSessionService.MuteAll` | apps/api-gateway/src/chat/call-session.service.ts:658-676 | Only the joined host mutes or unmutes all: result and store are those of `Calls.SetForceMute`, which `CallOutcomes.MuteOutcome` pins, and the invariant is kept |
| `CallService.CallSessionService.ShareScreen` | apps/api-gateway/src/chat/call-session.service.ts:678-699 | A joined member starts sharing, the sharer or the host stops it: result and store are those of `Calls.SetScreenShare`, which `CallOutcomes.ShareOutcome` pins, and the invariant is kept |
| `CallService.CallSessionService.MarkUnansweredAsLeft` | apps/api-gateway/src/chat/call-session.service.ts:702-732 | Listed members still ringing join the left list, lose their lock on this call, and the call is saved if anybody did: result and store are those of `Calls.MarkUnanswered`, and the invariant is kept |
| `CallService.CallSessionService.MarkLoop` | apps/api-gateway/src/chat/call-session.service.ts:710-723 | The loop adds every unanswered id to the left list once, releases their locks on this call, and reports a change exactly when the list grew |
| `CallMembership.MembershipNeverOutlives` | apps/api-gateway/src/chat/call-session.service.ts:464-532 | In every interleaving of conversation requests (the groups and roles of `Conversations`), call operations and the evictions that removing and leaving start: at all times each live call lists only active members and users whose eviction is pending, has its conversation's kind and at most 8 members, if and only if no group is deleted while its call lists somebody who does not await eviction |
| `CallMembership.StaysCovered` | apps/api-gateway/src/chat/chat.controller.ts:944-988 | While no deletion strands a call, the call invariant, the soundness of the conversation table and the coverage of calls hold together in every run |
| `CallMembership.ChatKeepsCovered` | apps/api-gateway/src/chat/chat.controller.ts:958-988 | A request other than deletion keeps a call covered: whoever loses a seat has just become pending |
| `CallMembership.SettledCallsAreMembersOnly` | apps/api-gateway/src/chat/chat.gateway.ts:836-873 | Once no eviction of a conversation is pending, its call lists active members only, unless a deletion stranded one |
| `CallMembership.RevokeEvicts` | apps/api-gateway/src/chat/call-session.service.ts:468-501 | After a revocation no call of the conversation lists the user; this rests on the call being unique and found whatever the index says |
| `CallMembership.RevokeAllEvicts` | apps/api-gateway/src/chat/chat.gateway.ts:836-873 | After the eviction loop no call of the conversation lists any of the users, and nobody was added |
| `CallMembership.EvictUsersFromConversation` | apps/api-gateway/src/chat/chat.gateway.ts:836-873 | The loop revokes the users one after another |
| `CallMembership.PrepareVoiceCall` | apps/chat-service/src/chat/chat.service.ts:1850-1905 | The loop over members equals the declarative check: membership, at least two active, at most eight in a group, blocks fatal in private and merely skipping peers in a group, somebody reachable |
| `CallMembership.PrepareOutcome` | apps/chat-service/src/chat/chat.service.ts:1850-1905 | Preparing a call: each refusal exactly, in terms of active rows and of blocks in either direction; the members are exactly the active users, and the peers those of them other than the actor whom no block separates |
| `CallMembership.EvictedLostTheirSeat` | apps/api-gateway/src/chat/chat.controller.ts:958-988 | An eviction is started for exactly those who have just lost their seat, except by the deletion of the group |
| `CallMembership.DeleteGroupCoverage` | apps/chat-service/src/chat/chat.service.ts:1781-1805 | Deleting a group keeps call membership within conversation membership if and only if the group has no live call or everybody in it already awaits eviction |
| `CallMembership.DeletedGroupKeepsItsCall` | apps/chat-service/src/chat/chat.service.ts:1781-1805 | A run from the empty service: a group of two is created, starts a call and is deleted, and the call goes on with two non-members |
| `LikePattern.ThreePassesAreOne` | apps/chat-service/src/chat/chat.service.ts:83-85 | The three successive global replacements equal one character-wise escaping pass |
| `LikePattern.SearchIsLiteral` | apps/chat-service/src/chat/chat.service.ts:370-372 | Against a LIKE matcher the search pattern matches exactly the texts that contain the query |
| `LikePattern.SearchIsLiteralUpToCase` | apps/chat-service/src/chat/chat.service.ts:441-443 | Under any case folding of characters to texts that leaves the special characters alone and makes no others, ILIKE with the search pattern finds exactly the texts whose folding contains the folded query, and the pattern never ends in a dangling escape |
| `LikePattern.NeverDangling` | apps/chat-service/src/chat/chat.service.ts:83-85 | An escaped query never leaves an escape character open |
| `LikePattern.EscapedMatchesItself` | apps/chat-service/src/chat/chat.service.ts:83-85 | An escaped text at the head of a pattern matches exactly itself |
| `LikePattern.UnescapedSearchIsNotLiteral` | apps/chat-service/src/chat/chat.service.ts:83-85 | Without escaping, the query `_` finds texts that do not contain it |
| `ScheduledMessages.AtMostOnce` | apps/chat-service/src/chat/chat.service.ts:1175-1222 | Any dispatchers and cancellers interleaved at read, claim, send and save, crashes included: no row is passed to `sendMessage` twice |
| `ScheduledMessages.EveryDispatchRunSendsAtMostOnce` | apps/chat-service/src/chat/chat.service.ts:1186-1193 | The same from the empty table: the rows sent in any run are pairwise distinct |
| `ScheduledMessages.CancelHoldsExactlyWhenUntaken` | apps/chat-service/src/chat/chat.service.ts:1166-1171 | A cancellation keeps its row from ever being sent, in all continuations, if and only if no dispatcher had claimed or sent the row when it was saved |
| `ScheduledMessages.AtomicCancelHolds` | apps/chat-service/src/chat/chat.service.ts:1166-1171 | A row still pending when the cancellation is saved is never sent |
| `ScheduledMessages.RacedCancelIsSent` | apps/chat-service/src/chat/chat.service.ts:1166-1171 | Claim, send and save between the two halves of a cancellation leave the row both sent and cancelled |
| `ScheduledMessages.RaceIsReachable` | apps/chat-service/src/chat/chat.service.ts:1156-1171 | That race is reachable from the empty table with a row that scheduling accepts |
| `ScheduledMessages.ScheduledTable.ScheduleMessage` | apps/chat-service/src/chat/chat.service.ts:998-1140 | Refuses empty content, call messages, times unparsable, too near or too far, outsiders, blocked senders, a twenty-first pending row and foreign or deleted reply targets, in this order, and otherwise stores exactly one pending row |
| `ScheduledMessages.ScheduledTable.CancelScheduledMessage` | apps/chat-service/src/chat/chat.service.ts:1154-1173 | Cancels exactly a member's own pending row; refuses outsiders, unknown or foreign rows, and rows no longer pending, changing nothing |
| `ScheduledMessages.ScheduledTable.Claim` | apps/chat-service/src/chat/chat.service.ts:1187-1193 | The compare-and-set from pending to sending reports whether it hit |
| `ScheduledMessages.ScheduledTable.DispatchDueScheduled` | apps/chat-service/src/chat/chat.service.ts:1175-1222 | One tick serves a batch of at most 25 due rows, earliest first; a row of it is stored as sent, with the message id, exactly if its send succeeded, and as failed otherwise; every other field and row stays; and the delivered are those whose send succeeded |
| `ScheduledMessages.ScheduleOutcome` | apps/chat-service/src/chat/chat.service.ts:998-1140 | Scheduling: each refusal exactly, in its order, with times from one minute to thirty days ahead and at most twenty pending rows; otherwise the row has the asked conversation, sender and time, is pending and unsent |
| `ScheduledMessages.CancelOutcome` | apps/chat-service/src/chat/chat.service.ts:1154-1173 | Cancelling: each refusal exactly; otherwise the row's status is cancelled and nothing else changes |
| `ScheduledMessages.TickOutcome` | apps/chat-service/src/chat/chat.service.ts:1186-1217 | After a tick a row of its batch is sent with its message's id exactly if the send returned one, and otherwise failed with its message id as before; all other fields and rows stay; and the batch is at most 25 pending rows that were due |
| `ScheduledMessages.StatusTellsHistory` | apps/chat-service/src/chat/chat.service.ts:998-1222 | At the end of any run from the empty table a row is sent with a message id exactly if a tick took it with that outcome, failed exactly if a tick took it without one, and cancelled exactly if a cancellation hit it |
| `ScheduledMessages.HeldRowIsSettled` | apps/chat-service/src/chat/chat.service.ts:1194-1217 | Between interleaving dispatchers too, a claimed row is passed on once and saved as sent or failed according to what came of it |
| `ScheduledMessages.ClaimOrCrash` | apps/chat-service/src/chat/chat.service.ts:1186-1193 | A dispatcher takes the next row of its batch exactly if it is still pending, marking it as being sent, and passes it by otherwise; a crash leaves table and sends as they are |
| `ScheduledMessages.EveryDueRowIsSettled` | apps/chat-service/src/chat/chat.service.ts:998-1222 | In every run of scheduling, cancelling and dispatching, a row due at time T is sent, failed or cancelled after ceil(n/25) ticks, n rows being due at T |
| `ScheduledMessages.OperationIsEvent` | apps/chat-service/src/chat/chat.service.ts:998-1222 | An accepted schedule files a row with a deadline still ahead, a cancellation withdraws one, a tick serves a batch, and nothing else touches the pending queue |
| `DeadlineQueue.EveryDueRowIsServed` | apps/chat-service/src/chat/chat.service.ts:1176-1183 | A row due at time T no longer waits for that deadline after ceil(n/k) batches, n rows being due at T, however filing with future deadlines and withdrawals interleave |
| `DeadlineQueue.BatchesDrain` | apps/chat-service/src/chat/chat.service.ts:1176-1183 | After m batches of k at most n - km of the n rows due at T still wait |
| `DeadlineQueue.ServeDrains` | apps/chat-service/src/chat/chat.service.ts:1176-1183 | A batch taken in deadline order takes rows due at T before any other: a full batch of them or all of them |
| `DeadlineQueue.TakeEarliest` | apps/chat-service/src/chat/chat.service.ts:1176-1183 | Ordering by deadline with a limit yields a batch: due rows, as many as possible, none later than a row left behind |
| `ReadReceipts.UnreadIsNotSeen` | apps/chat-service/src/chat/chat.service.ts:2364-2386 | For a delivered, undeleted, unhidden message and an active non-sender, "unread" and "in seenBy" are opposites if and only if the read cursor does not stand in the message's own millisecond |
| `ReadReceipts.UnreadSum` | apps/chat-service/src/chat/chat.service.ts:2355-2392 | For any members, messages, cursors and hides, the sum of all unread counts is the sum over counting messages of audience less seenBy plus same-millisecond stragglers |
| `ReadReceipts.PlainContribution` | apps/chat-service/src/chat/chat.service.ts:2481-2491 | Without hides and stragglers a message contributes its active non-senders less its seenBy list |
| `ReadReceipts.SeenByOutcome` | apps/chat-service/src/chat/chat.service.ts:2481-2491 | Listed in seenBy are exactly the active members other than the sender whose cursor has reached the message's millisecond, and nobody for a withheld message |
| `ReadReceipts.UnreadOne` | apps/chat-service/src/chat/chat.service.ts:2364-2386 | A message counts as unread exactly for an active member other than its sender, if it is not deleted, not withheld, not hidden by the member, and came after the cursor, compared in microseconds |
| `ReadReceipts.UnreadConcat` | apps/chat-service/src/chat/chat.service.ts:2364-2386 | Each message is counted by itself |
| `ReadReceipts.TotalsAgree` | apps/chat-service/src/chat/chat.service.ts:2364-2386 | Counting unread messages member by member and readers message by message gives the same total |
| `ReadReceipts.SeenOnlyGrows` | apps/chat-service/src/chat/chat.service.ts:1372-1375 | Marking as seen moves no cursor back and takes nobody off a seenBy list |
| `ReadReceipts.MarkSeenClears` | apps/chat-service/src/chat/chat.service.ts:1356-1375 | Marking at a clock no message is ahead of zeroes the caller's unread count if and only if no countable message of others falls in the clock's own millisecond, a fraction after its start (or another clock had already set the cursor further on) |
| `ReadReceipts.SeenYetUnread` | apps/chat-service/src/chat/chat.service.ts:2481-2491 | An instance with reader and sender in the thread: marked as seen at 1.7 ms, a message of 1.5 ms still counts as unread while the reader is in its seenBy list |
| `ReadReceipts.ThreadsAreUniqueActive` | apps/chat-service/src/chat/chat.service.ts:1355-1358 | The rows of every reachable conversation satisfy what the double count needs: one active row per user |
| `ReadReceipts.Thread.MarkSeen` | apps/chat-service/src/chat/chat.service.ts:1343-1384 | Refused exactly to non-members and for unknown message ids; otherwise only the caller's active row changes, to the later of cursor and clock |
| `Conversations.GroupsStaySound` | apps/chat-service/src/chat/chat.service.ts:1615-1805 | In every reachable table each group has one active row per user, exactly one active owner if anybody is active, and at most 50 active members |
| `Conversations.EveryTableIsOk` | apps/chat-service/src/chat/chat.service.ts:1615-1805 | Over any further actions the table stays sound, no conversation vanishes, and private conversations never change |
| `Conversations.SeatsChangeOnlyByRight` | apps/chat-service/src/chat/chat.service.ts:2327-2345 | A seat is lost exactly by leaving, by removal through an owner or admin (never of the owner), or by the creator's deletion; it is gained exactly by being added through an owner or admin |
| `Conversations.RolesChangeOnlyByRight` | apps/chat-service/src/chat/chat.service.ts:1702-1730 | A staying member's role changes only by the owner's decision between admin and member, or by succession when the owner leaves |
| `GroupRows.OwnerSuccession` | apps/chat-service/src/chat/chat.service.ts:1751-1762 | When the owner leaves and somebody remains, exactly one remaining member whom nobody remaining preceded by a millisecond becomes owner and all others keep their rows; otherwise nobody is active |
| `ConversationOutcomes.PerformOutcome` | apps/chat-service/src/chat/chat.service.ts:2304-2325 | A request is answered exactly for somebody with an active row in a conversation that is there; a refusal changes nothing, and a grant only that conversation |
| `ConversationOutcomes.AddErrors` | apps/chat-service/src/chat/chat.service.ts:1615-1636 | Adding: each refusal exactly, the limit counted with every id asked for |
| `ConversationOutcomes.AddOutcome` | apps/chat-service/src/chat/chat.service.ts:1638-1658 | Adding appends exactly the ids without a seat, as plain members from now on, and leaves every other row and field |
| `ConversationOutcomes.RemoveOutcome` | apps/chat-service/src/chat/chat.service.ts:1663-1687 | Removing: each refusal exactly; otherwise exactly the member's row is marked as left now |
| `ConversationOutcomes.RoleOutcome` | apps/chat-service/src/chat/chat.service.ts:1689-1732 | Changing a role: each refusal exactly; otherwise exactly the member's row has exactly the asked role |
| `ConversationOutcomes.LeaveOutcome` | apps/chat-service/src/chat/chat.service.ts:1734-1764 | Leaving: refused exactly in private chats; otherwise the row is marked as left now, an earliest other member owns the group if the leaver did, and no other row changes |
| `ConversationOutcomes.DeleteOutcome` | apps/chat-service/src/chat/chat.service.ts:1781-1805 | Deleting: each refusal exactly; otherwise the group is deleted, every active row is marked as left now, and nothing else changes |
| `ConversationOutcomes.CreateGroupOutcome` | apps/chat-service/src/chat/chat.service.ts:177-229 | A new group: each refusal exactly; otherwise its creator is its owner and each of 1 to 49 others once a plain member, from now on |
| `ConversationOutcomes.CreatePrivateOutcome` | apps/chat-service/src/chat/chat.service.ts:110-175 | Opening a private chat: each refusal exactly; the chat under the pair's key if there is one, and otherwise a new one of exactly the two |
| `GroupRows.LeaverKeepsGroupOk` | apps/chat-service/src/chat/chat.service.ts:1745-1762 | Leaving keeps the group invariant |
| `GroupRows.AddedKeepsGroupOk` | apps/chat-service/src/chat/chat.service.ts:1622-1658 | Adding members within the limit keeps the group invariant |
| `GroupRows.AddedMembers` | apps/chat-service/src/chat/chat.service.ts:1638-1658 | Adding makes exactly the given ids members in addition |
| `GroupRows.RemovedKeepsGroupOk` | apps/chat-service/src/chat/chat.service.ts:1674-1685 | Removing a member who is not the owner keeps the group invariant |
| `GroupRows.RoleKeepsGroupOk` | apps/chat-service/src/chat/chat.service.ts:1716-1730 | Changing a role within admin and member keeps the group invariant |
| `GroupRows.FoundingGroupOk` | apps/chat-service/src/chat/chat.service.ts:185-220 | A new group satisfies the group invariant, its creator being the owner |
| `Conversations.OnePrivateChatPerPair` | apps/chat-service/src/chat/chat.service.ts:119-166 | In every reachable table two private conversations of the same unordered pair are the same one |
| `Conversations.PrivateChatIsOfThePair` | apps/chat-service/src/chat/chat.service.ts:119-166 | With colon-free ids, opening a private chat returns the conversation of exactly that pair |
| `Conversations.ConversationService.OpenPrivate` | apps/chat-service/src/chat/chat.service.ts:110-175 | Refuses a chat with oneself, returns the pair's existing chat, refuses a blocked party, and otherwise creates a chat of exactly the two; the table stays sound |
| `Conversations.ConversationService.OpenGroup` | apps/chat-service/src/chat/chat.service.ts:177-229 | Refuses a missing name, nobody else, and more than fifty, and otherwise creates a group owned by its creator with each other id once; the table stays sound |
| `Conversations.ConversationService.AddMembersTo` | apps/chat-service/src/chat/chat.service.ts:1615-1661 | For owners and admins of a group, appends a member row for each new id once, unless there are none or the limit would be passed; the table stays sound |
| `Conversations.ConversationService.AddRows` | apps/chat-service/src/chat/chat.service.ts:1638-1658 | The loop appends one row for every id not active when the members were loaded |
| `Conversations.ConversationService.RemoveMemberFrom` | apps/chat-service/src/chat/chat.service.ts:1663-1687 | For owners and admins of a group, marks an active member other than oneself and the owner as left; the table stays sound |
| `Conversations.ConversationService.SetRole` | apps/chat-service/src/chat/chat.service.ts:1689-1732 | For the owner of a group, makes another active member admin or plain member; the table stays sound |
| `Conversations.ConversationService.Leave` | apps/chat-service/src/chat/chat.service.ts:1734-1764 | Marks the caller's row in a group as left, having made the earliest remaining member owner if the caller was; private chats are refused; the table stays sound |
| `Conversations.ConversationService.Delete` | apps/chat-service/src/chat/chat.service.ts:1781-1805 | For the creator of a group, marks every active row as left and the group as deleted; the table stays sound |
| `Conversations.ConversationService.RequireMembership` | apps/chat-service/src/chat/chat.service.ts:2304-2325 | Deleted or unknown conversations are not found; users without an active row are refused |
| `PairKey.KeyIdentifiesPair` | apps/chat-service/src/chat/chat.service.ts:79-81 | For ids without a colon two keys are equal if and only if the unordered pairs are |
| `PairKey.KeyIsSymmetric` | apps/chat-service/src/chat/chat.service.ts:79-81 | The key does not depend on the order of the two users |
| `PairKey.KeyOutcome` | apps/chat-service/src/chat/chat.service.ts:79-81 | The key is the two ids in dictionary order with a colon between them |
| `PairKey.ColonsCollide` | apps/chat-service/src/chat/chat.service.ts:79-81 | With colons in ids two different pairs can share a key |
| `MessageRuns.MessageSafety` | apps/chat-service/src/chat/chat.service.ts:624-1579 | In every run a message's attachment is reported for clean-up exactly once if it was deleted for everyone and never otherwise, with the URL it was created with; tombstones keep no attachment and no pin; replies stay within their conversation; at most 3 messages of a conversation are pinned, so a page of 10 shows them all |
| `MessageRuns.TombstonesAbsorb` | apps/chat-service/src/chat/chat.service.ts:797-799 | Over any further steps a message deleted for everyone stays deleted since the same moment, and messages keep conversation, sender and reply target |
| `MessageRuns.OnlySenderOrExpiryDeletes` | apps/chat-service/src/chat/chat.service.ts:1514-1558 | A message becomes deleted for everyone only by its sender or by expiry after its deadline while its conversation exists, and a deletion reports exactly its attachment |
| `MessageRuns.PinKeepsFew` | apps/chat-service/src/chat/chat.service.ts:916-939 | Pinning keeps every conversation at three pinned messages or fewer |
| `MessageRuns.ExpireTable` | apps/chat-service/src/chat/chat.service.ts:1454-1474 | An expiry pass deletes exactly the batch rows whose conversation exists, leaving other attachments alone |
| `MessageRuns.EveryDueMessageGoes` | apps/chat-service/src/chat/chat.service.ts:1443-1495 | In every run of sending, forwarding, editing, pinning, deleting and expiring, a message due at time T is deleted after ceil(n/40) expiry passes, n messages being due at T, or has lost its deadline because a pass found its conversation gone |
| `MessageRuns.DeedIsEvent` | apps/chat-service/src/chat/chat.service.ts:624-1495 | Sending and forwarding with a lifetime file a message with a deadline still ahead, deleting withdraws it, a pass serves a batch of 40, and editing, pinning, hiding and plain sending leave the queue of expiring messages alone |
| `MessageRuns.CleanExactly` | apps/api-gateway/src/chat/chat.controller.ts:781-783 | Throughout a run no undeleted message points at a file already reported for clean-up if and only if no deletion or expiry reports a file another undeleted message points at and no client sends the URL of a reported file |
| `MessageRuns.UploadsOnlyStaysClean` | apps/chat-service/src/chat/chat.service.ts:1254-1310 | That holds in every run in which each file is sent once and no message with a file is forwarded |
| `MessageRuns.ForwardedFileIsLost` | apps/chat-service/src/chat/chat.service.ts:1254-1310 | An instance: a file message is forwarded and deleted by its sender; the file is reported while the copy still points at it |
| `Messages.MessageService.SendMessage` | apps/chat-service/src/chat/chat.service.ts:624-766 | Refuses empty content, forged call lines, outsiders, senders the peer has blocked and foreign or deleted reply targets, and otherwise stores one message, withheld if the sender blocks the peer, with a deadline when messages disappear |
| `Messages.MessageService.ForwardMessage` | apps/chat-service/src/chat/chat.service.ts:1224-1322 | Refuses outsiders of either conversation, unknown or deleted sources and blocked senders, and otherwise stores a copy that points at the same file |
| `Messages.MessageService.EditMessage` | apps/chat-service/src/chat/chat.service.ts:780-814 | Stamps the edit of a member's own, undeleted message at most 15 minutes old with a body, and refuses every other |
| `Messages.MessageService.PinMessage` | apps/chat-service/src/chat/chat.service.ts:895-939 | Pins for members an undeleted non-call message while fewer than three are pinned, unpins, leaves a pin that is already as asked, and refuses every other |
| `Messages.MessageService.DeleteMessage` | apps/chat-service/src/chat/chat.service.ts:1497-1612 | Result and table are those of `Messages.Delete`, which `MessageOutcomes.DeleteOutcome` pins in both directions: who may delete, that a live message, with or without a file, becomes a tombstone and its file is returned exactly once; deleting for oneself touches only the hide table |
| `Messages.MessageService.ExpireDueMessages` | apps/chat-service/src/chat/chat.service.ts:1443-1495 | One pass serves a batch of at most 40 due messages, earliest first, and reports their attachments in batch order |
| `MessageOutcomes.AccessOutcome` | apps/chat-service/src/chat/chat.service.ts:2304-2325 | Access is granted exactly to users with an active row in a conversation that is there, and each refusal is exact |
| `MessageOutcomes.DeliveryOutcome` | apps/chat-service/src/chat/chat.service.ts:2123-2167 | In a private chat the first other active member's block of the sender forbids a message, the sender's own block alone withholds it, and elsewhere blocks do not matter |
| `MessageOutcomes.SendOutcome` | apps/chat-service/src/chat/chat.service.ts:624-778 | Sending: each refusal exactly, in its order; otherwise the message has the asked conversation, sender, attachment and reply target, is withheld exactly as blocks say, expires exactly after the lifetime, and is unedited, undeleted and unpinned; a call line has no file, target or deadline |
| `MessageOutcomes.ForwardOutcome` | apps/chat-service/src/chat/chat.service.ts:1224-1322 | Forwarding: each refusal exactly; otherwise the copy has the source's file and kind, the target conversation and the actor as sender, and nothing else of the source |
| `MessageOutcomes.EditOutcome` | apps/chat-service/src/chat/chat.service.ts:780-833 | Editing: each refusal exactly; otherwise exactly the edit stamp of that message is set |
| `MessageOutcomes.PinOutcome` | apps/chat-service/src/chat/chat.service.ts:895-958 | Pinning: each refusal exactly; the message is then pinned exactly as asked, by the actor and from now if it was not, and nothing else changes |
| `MessageOutcomes.DeleteOutcome` | apps/chat-service/src/chat/chat.service.ts:1497-1613 | Deleting for everyone succeeds exactly for the sender; a live message is then deleted since now, without file and pin, its old file handed out, all other fields and messages as before; one deleted before stays as it was; deleting for oneself leaves the table alone |
| `MessageOutcomes.ExpireOutcome` | apps/chat-service/src/chat/chat.service.ts:1443-1495 | An expiry pass turns exactly the messages of its batch whose conversation is there into tombstones without a deadline, takes the deadline of the others, and leaves every other message alone |
| `MessageRuns.ExpiryReportsInOrder` | apps/chat-service/src/chat/chat.service.ts:1454-1495 | The reports of a pass come in the order of its batch |
| `Limiter.LimiterLaw` | apps/api-gateway/src/infrastructure/proxy/microservice.proxy.ts:77-99 | In every run of concurrent calls through `send`: calls in flight are counted exactly, never exceed the limit, are admitted in order of arrival as limit and releases allow, and nobody waits while there is room |
| `Limiter.ReleaseLaw` | libs/common/src/concurrency/inflight-limiter.ts:18-25 | A release keeps the admission law if and only if an admission is outstanding or somebody waits to take it over |
| `Limiter.HolderReleaseKeepsLaw` | libs/common/src/concurrency/inflight-limiter.ts:18-25 | A holder's release keeps the law and takes back no admission |
| `Limiter.ArriveKeepsLaw` | libs/common/src/concurrency/inflight-limiter.ts:7-16 | An arrival keeps the law |
| `Limiter.ActiveIsInFlight` | libs/common/src/concurrency/inflight-limiter.ts:27-29 | The counter equals the number of calls admitted and not finished, and is at most the limit |
| `Limiter.InflightLimiter.Acquire` | libs/common/src/concurrency/inflight-limiter.ts:7-16 | Admits at once below the limit and otherwise queues the caller at the end |
| `Limiter.InflightLimiter.Release` | libs/common/src/concurrency/inflight-limiter.ts:18-25 | Hands the place to the first waiter, or lowers the counter when nobody waits |
| `Limiter.IdleRelease` | libs/common/src/concurrency/inflight-limiter.ts:18-25 | A release that nobody is owed leaves an idle limiter idle |
| `InviteWindow.RefusalIsExact` | apps/api-gateway/src/chat/chat.gateway.ts:914-925 | In every run under a clock that never goes back, an invitation is refused if and only if the whole history holds at least five accepted ones of the user less than 60 s old |
| `InviteWindow.NoWindowOverflows` | apps/api-gateway/src/chat/chat.gateway.ts:50-51 | No half-open 60 s window of any run holds more than five accepted invitations of a user |
| `InviteWindow.RecentTwice` | apps/api-gateway/src/chat/chat.gateway.ts:914-918 | Discarding old stamps loses nothing for later decisions |
| `InviteWindow.SlotOutcome` | apps/api-gateway/src/chat/chat.gateway.ts:914-925 | An invitation is accepted exactly while fewer than five of the kept stamps are less than 60 s old; then exactly these and the new one are kept, a refusal changes nothing, and nobody else's stamps change |
| `InviteWindow.InviteLimiter.TakeCallInviteSlot` | apps/api-gateway/src/chat/chat.gateway.ts:914-925 | Drops stamps older than 60 s, refuses with five left, and otherwise adds a stamp; a refused attempt is not stored |
| `BlockFlags.FlagsForAll` | apps/chat-service/src/chat/chat.service.ts:2189-2240 | For any list of conversations and any block table the batched computation gives every conversation exactly the flags of the single one, and no other |
| `BlockFlags.LookUp` | apps/chat-service/src/chat/chat.service.ts:2214-2231 | The one query and its two sets answer, for every peer, as two separate look-ups |
| `BlockFlags.PeersAreTheirs` | apps/chat-service/src/chat/chat.service.ts:2194-2204 | A peer entry exists exactly for a listed private conversation with another active member |
| `BlockFlags.FlagsOutcome` | apps/chat-service/src/chat/chat.service.ts:2169-2187 | "Blocked by me" is the actor's block of the first other active member of a private chat, "blocked me" that member's of the actor; every other conversation has neither |
| `RefreshTokens.RotationSafety` | apps/auth-service/src/auth/auth.service.ts:155-187 | In every run of the service no refresh token is exchanged twice, an exchanged one is refused ever after, and live tokens belong to accounts not deleted |
| `RefreshTokens.RedeemedAtMostOnce` | apps/auth-service/src/auth/auth.service.ts:155-187 | From any sound vault on, whatever follows, no refresh token is exchanged twice |
| `RefreshTokens.RotationKeepsCount` | apps/auth-service/src/auth/auth.service.ts:164-185 | A refresh replaces exactly the presented token of the user by one new live token; the count stays and other users are untouched |
| `RefreshTokens.RedeemOutcome` | apps/auth-service/src/auth/auth.service.ts:141-187 | A refresh succeeds exactly for a signed, stored, unrevoked, unexpired token whose account exists, is not deleted and is active, is forbidden exactly if only the last fails, and unauthorized otherwise; then the token is revoked, the new one is its user's, unrevoked, for the time to live from now, and every other token stays; a refusal changes nothing |
| `RefreshTokens.VisitOutcome` | apps/auth-service/src/auth/auth.service.ts:61-334 | What registering, logging in, logging out of one device or all, a new password and deactivation do to accounts and tokens, and what they leave alone |
| `RefreshTokens.TokenServesUntilItExpires` | apps/auth-service/src/auth/auth.service.ts:141-187 | A token from registering or logging in can be exchanged at any time until it expires, in every continuation in which it was not exchanged and its user was neither logged out, nor given a new password, nor deactivated |
| `RefreshTokens.RevocationClears` | apps/auth-service/src/auth/auth.service.ts:243-246 | Revoking all leaves the user no live token at any time and touches nobody else |
| `RefreshTokens.RevocationLasts` | apps/auth-service/src/auth/auth.service.ts:189-203 | After logout everywhere, password change, password reset or deactivation no token of the user is live again in any continuation without a new login |
| `RefreshTokens.DeactivationIsFinal` | apps/auth-service/src/auth/auth.service.ts:318-334 | A deactivated account never holds a live token again |
| `RefreshTokens.RefreshService.RefreshSession` | apps/auth-service/src/auth/auth.service.ts:141-187 | Result and tokens are those of `RefreshTokens.Redeem`, which `RedeemOutcome` pins: it succeeds exactly for a signed, stored, unrevoked, unexpired token of an active account; then the presented token is revoked and one new token is its user's |
| `RefreshTokens.RefreshService.Logout` | apps/auth-service/src/auth/auth.service.ts:189-203 | Revokes the one token if it is the user's, or all |
| `RefreshTokens.RefreshService.DeactivateUser` | apps/auth-service/src/auth/auth.service.ts:318-334 | Deactivates, revokes all tokens and removes the account |
| `AuthTokens.TokenSafety` | apps/auth-service/src/auth/auth-token.service.ts:191-284 | In every run of whole operations each user has at most one unrevoked verification and one unrevoked reset token, none of these is consumed twice; an invitation's counter is the number of accounts registered with it and never exceeds its limit; an addressed invitation admits only its address |
| `AuthTokens.EveryDeskIsOk` | apps/auth-service/src/auth/auth-token.service.ts:215-251 | The token invariant behind it holds in every reachable state |
| `TokenOutcomes.ConsumeOutcome` | apps/auth-service/src/auth/auth-token.service.ts:253-284 | Consuming succeeds exactly for a token of the kind, known by a secret of at least 16 characters, unrevoked, unexpired, with a use left; it then has one use more, is revoked now exactly by its last use, and nothing else changes |
| `TokenOutcomes.InviteUseOutcome` | apps/auth-service/src/auth/auth-token.service.ts:191-199 | Using an invitation counts one use more, revokes it now exactly with its last use, and changes nothing else |
| `TokenOutcomes.InviteCheckOutcome` | apps/auth-service/src/auth/auth-token.service.ts:175-189 | An invitation is good for an address exactly if it may be used and names no other address |
| `TokenOutcomes.IssueOutcome` | apps/auth-service/src/auth/auth-token.service.ts:215-251 | A new token is unused, unrevoked and valid for its time; exactly the older unrevoked verification or reset tokens of the same kind and user are revoked now |
| `TokenOutcomes.NewInviteOutcome` | apps/auth-service/src/auth/auth-token.service.ts:126-152 | A new invitation has one use if addressed, else as asked within 1 to 500 and 25 by default, and as many days as asked within 1 to 90 and 7 by default; no other token changes |
| `TokenOutcomes.RegisterOutcome` | apps/auth-service/src/auth/auth.service.ts:61-111 | Registering: each refusal exactly; otherwise the address is taken and the invitation, if there is one, has one use more and is noted |
| `TokenOutcomes.ErrandOutcome` | apps/auth-service/src/auth/auth-token.service.ts:126-251 | Inviting is refused exactly for a registered address; issuing, revoking and freeing an address change exactly what they name |
| `InviteLimits.OpenLimitExactly` | apps/auth-service/src/auth/auth.service.ts:61-111 | The limit of an open invitation holds in every continuation whatsoever if and only if no check can succeed any more, now or after a save under way, and the uses saved plus the registrations under way are within it |
| `InviteLimits.OpenHasNoBound` | apps/auth-service/src/auth/auth.service.ts:61-111 | An open invitation that can pass a check has a continuation with any number of uses |
| `InviteLimits.OpenInvitationOvershoots` | apps/auth-service/src/auth/auth.service.ts:61-111 | A run from the empty service: two addresses register with one open invitation for a single use |
| `InviteLimits.AddressedNeverOvershoot` | apps/auth-service/src/database/entities/auth-user.entity.ts:15-18 | In every interleaving of the steps of any registrations, uses and revocations with everything else, an invitation for one address is used at most once, as long as the address is not given free too early |
| `InviteLimits.QuietRunsAreTimely` | apps/auth-service/src/auth/auth.service.ts:318-334 | Giving addresses free only while no registration for them is under way is never too early |
| `InviteLimits.FreeingExactly` | apps/auth-service/src/auth/auth.service.ts:318-334 | Giving the address free is harmless in every continuation that does not free it again if and only if neither a use is saved or owed while a checked registration remains, nor a use is owed while the invitation can pass another check |
| `InviteLimits.AddressedLimitExactly` | apps/auth-service/src/auth/auth.service.ts:61-111 | While its address is not given free, an addressed invitation is used at most once in every continuation if and only if at most one use is saved, owed or possible and none is owed for a free address by an invitation that can still pass a check |
| `InviteLimits.FreedAddressOvershoots` | apps/auth-service/src/auth/auth.service.ts:61-111 | A run from the empty service: the account is deactivated between two registrations with one addressed invitation, which is used twice |
| `InviteLimits.CompletionsKeepLimit` | apps/auth-service/src/auth/auth.service.ts:70-91 | When nothing happens but the completion of the registrations under way, the limit of any invitation holds if and only if uses saved, owed by saved users and possible for distinct free addresses are within it |
| `InviteLimits.DistinctAddressesAllCount` | apps/auth-service/src/auth/auth.service.ts:70-91 | For distinct free addresses these are the uses saved plus the registrations under way |
| `InviteLimits.ClosedExactly` | apps/auth-service/src/auth/auth-token.service.ts:269-284 | An invitation is refused for good in every continuation if and only if it is refused now and no use under way holds an unrevoked record that leaves a use over |
| `InviteLimits.RevocationHoldsExactly` | apps/auth-service/src/auth/auth-token.service.ts:201-213 | A revocation holds in every continuation if and only if no use under way, when it is saved, holds an unrevoked record that leaves a use over |
| `InviteCounters.CountersExactly` | apps/auth-service/src/auth/auth-token.service.ts:191-199 | A token's counter is the number of its uses throughout a run if and only if no record of it is saved after a use was saved since that record was read |
| `InviteRaces.EveryRaceIsOk` | apps/auth-service/src/auth/auth-token.service.ts:191-213 | In every interleaving no counter runs ahead of the uses saved, a token at its limit is revoked, a token for a single use stays revoked once used, and an invitation for an address is taken up only for it |
| `InviteCounters.ConsumedOnceExactly` | apps/auth-service/src/auth/auth-token.service.ts:253-267 | A verification or reset token is consumed at most once throughout a run if and only if no consumption of it is saved between another one's reading and saving |
| `InviteCounters.UseIsLost` | apps/auth-service/src/auth/auth-token.service.ts:191-199 | A run from the empty service: two uses of an invitation for two are counted as one, and it can pass another check |
| `InviteCounters.RevocationIsUndone` | apps/auth-service/src/auth/auth-token.service.ts:191-213 | A run from the empty service: the save of a use takes back a revocation |
| `InviteCounters.ResetTwice` | apps/auth-service/src/auth/auth-token.service.ts:253-267 | A run from the empty service: one reset token is consumed twice |
| `InviteRaces.UninterruptedRegistration` | apps/auth-service/src/auth/auth.service.ts:61-111 | The four steps of a registration without interruption are the registration of `AuthTokens` |
| `InviteRaces.UninterruptedRevocation` | apps/auth-service/src/auth/auth-token.service.ts:201-213 | Reading and saving a revocation without interruption are the revocation of `AuthTokens` |
| `InviteRaces.UninterruptedConsumption` | apps/auth-service/src/auth/auth-token.service.ts:253-267 | Reading and saving a consumption without interruption are the consumption of `AuthTokens` |
| `InviteRaces.GivenUp` | apps/auth-service/src/auth/auth-token.service.ts:191-267 | A crashed registration and an abandoned task leave every table and every other task as they were |
| `AuthTokens.AuthService.Register` | apps/auth-service/src/auth/auth.service.ts:61-111 | Refuses a taken address and an invitation that is invalid or for another address, and otherwise saves the user and then uses the invitation |
| `AuthTokens.AuthTokenService.IssueToken` | apps/auth-service/src/auth/auth-token.service.ts:215-251 | Stores a fresh unused token and revokes the older unrevoked verification or reset tokens of the same kind and user |
| `AuthTokens.AuthTokenService.ConsumeToken` | apps/auth-service/src/auth/auth-token.service.ts:253-284 | Consumes a valid token once, revoking it with its last use; refuses every other, and every secret shorter than 16 characters |
| `AuthTokens.AuthTokenService.ConsumeInvite` | apps/auth-service/src/auth/auth-token.service.ts:191-199 | Counts a use without checking validity again |
| `AuthTokens.AuthTokenService.CreateInviteToken` | apps/auth-service/src/auth/auth-token.service.ts:126-152 | Creates an invitation with clamped uses (1 to 500) and days (1 to 90), one use when addressed; refused exactly for a registered address |
| `AuthTokens.AuthTokenService.RevokeInviteToken` | apps/auth-service/src/auth/auth-token.service.ts:201-213 | Revokes exactly existing invitations |
| `AuthTokens.Clamp` | apps/auth-service/src/auth/auth-token.service.ts:135-138 | The clamp is the identity within its bounds and yields the nearer bound outside |

## Left out

- Transport and libraries: HTTP and socket handlers, event emission, push, mail, storage drivers, JWT signing, password
  hashing. What they decide enters as parameters (`signed`, `outcomes`, "the password was right").
- Redis and database failures, corrupt session JSON, missing session fields, and a pipeline or transaction seen half done.
- Interleaving inside one call-session operation: each is one step, as are prepare-and-create and prepare-and-invite.
- InviteRaces.EveryRaceIsOk: issuing a token is one step; its update of older tokens and its insert are not taken apart.
- MessageRuns.MessageSafety: the limit of three pins is checked by a count before a save; it is stated for operations one after another.
- ScheduledMessages.ScheduledTable.ScheduleMessage: likewise the limit of twenty pending rows.
- Conversations.GroupsStaySound: likewise the limit of fifty members and the single active row per user and owner.
- Error texts: errors are named values. Display data: views, lobby and roster payloads, reactions, mentions, link
  previews, message bodies, forwarding marks, attachment names and types.
- LikePattern.SearchIsLiteralUpToCase: case folding works character by character; lower-casing that depends on the neighbouring characters is not modelled.
- PairKey.Key: strings are compared by code point, which agrees with JavaScript's order by code unit on UUID text.
- ScheduledMessages.EveryDueRowIsSettled: ticks and cancellations are whole operations here; their interleaving is the subject of the claim protocol.
- MessageRuns.CleanExactly: the files of scheduled messages not yet sent, and avatars, are not among the files in use.
- Conversations: names, mute, pin, disappearing-message settings and audit rows; the branch of adding that revives a left row, which membership loading makes unreachable. Marking as seen acts on the rows of one thread, beside the runs over the table.
- Analytics, audit, workspace settings, pagination, presence, duration parsing.
