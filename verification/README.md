# Chat backend: a verified model

This project models the parts of the chat backend that hold state over time or compute with it, and proves
what they keep. `dafny verify dfyconfig.toml` checks all of it with Dafny 4.11.

Each component is modelled twice. A `...Model` file gives its state as a value, a step function with the same
branches and errors as the code, and what a run is. A `...Handlers` or `...Service` file gives the code's own
form, a class whose methods update fields and loop over records, each method proved to take exactly that step.
The remaining files prove what the steps keep, over every state, run or interleaving. `...Answers` and `GroupAccess`
say of each operation, in terms of the stored records alone, when it acts and what it leaves of every record.

| component | files | central results |
|---|---|---|
| Call service | `CallModel`, `CallInvariants`, `CallTheorems`, `CallAnswers`, `CallService` | both secondary indexes are exact, one live call per conversation, nobody in two calls, no abandoned call; exactly when a call closes and as what |
| Group membership | `GroupModel`, `GroupInvariants`, `GroupAccess`, `GroupHandlers` | who may do what to whom; exactly when member count, single owner and admin list are right, over runs of eleven handlers |
| Polls | `PollModel`, `PollInvariants`, `PollAnswers`, `PollHandlers` | exactly which votes are accepted; lists, counts and totals agree; a vote sets one voter's selection and no other |
| Reminders | `Calendar`, `ReminderSchedule`, `ReminderModel`, `ReminderTheorems`, `ReminderAnswers`, `ReminderHandlers` | calendar round trips, when monthly reminders drift, exactly when the workers' compare-and-set is safe |
| Lists and history | `Listing`, `History`, `HistorySearch` | both pagings read the sorted list; exactly when a history walk, a copy and a search are complete |
| Friends and blocks | `SocialModel`, `SocialTheorems`, `SocialAnswers`, `SocialRuns`, `SocialRaces`, `SocialHandlers` | who may do what, and what each is told; blocks exclude friends; exactly when limited look-ups and late inserts keep requests unique; both sides see the same kind of status |
| Sessions and tokens | `AuthModel`, `AuthTheorems`, `AuthSafety`, `AuthAnswers`, `AuthExpiry`, `AuthRaces`, `AuthRaceSessions`, `AuthRuns`, `AuthService` | who is given tokens; one token each per device, none older than a password change; exactly when a token is exchanged twice, a user has two web sessions, or a logout misses one |
| Sending | `SendProtocol`, `SendContent` | one insert per client id under any interleaving; exactly which sends are always answered in full |
| Rate limiter | `RateLimiter` | the sharp bound on requests per window length |

`Wrappers` and `Sequences` hold the shared datatypes and list functions.

## Where the code does less than it seems to promise

Each of these is proved with the exact condition under which the promise holds, and a concrete run or family
of states where it does not.

- A caller who is already in a call may start another; he is then live in both and the user index forgets the
  first (`CallTheorems.CreateKeepsCompleteIffCallerFree`, `CallTheorems.CallingTwice`).
- A joined participant may decline a group call, which can leave it live with nobody in it
  (`CallTheorems.DeclineKeepsAttendedIff`).
- Automatic ownership transfer asks for an active admin, but the repository ignores that condition and returns
  the group's first record (`GroupInvariants.AutomaticSuccessorFits`).
- A monthly reminder after the 28th drifts (`ReminderSchedule.NeverDriftsIff`).
- The compare-and-set on a reminder's notice time can admit a stale worker, which repeats a notice, when the lead
  equals the distance between two occurrences (`ReminderTheorems.NotifiesOnceIff`).
- The message query limits what it evaluates before it filters, so a deleted or expired message can end a
  history walk, a copy or a search early (`History.WalkIsCompleteIff`, `HistorySearch.CopyIsCompleteIff`,
  `HistorySearch.LatestIsFoundIff`).
- A call that waits for another call's messages may be handed only the first of them
  (`SendProtocol.AnswersAreWholeIff`).
- The look-up for a friend request evaluates two of the sender's requests before it filters, so a second request to
  the same user can get through, and a block, which lists a hundred, can leave one pending
  (`SocialTheorems.StepKeepsInvIff`, `SocialRuns.SecondRequestGetsThrough`, `SocialRuns.BlockLeavesARequest`).
- An exchange renews its session's lifetime and not that of the user's index. A user who keeps a session alive for
  thirty days without logging in loses the index: the next web login leaves him two web sessions, and logging out
  everywhere or ending the other sessions misses it, with its tokens (`AuthExpiry.OneWebIff`,
  `AuthExpiry.LogoutEverywhereIff`, `AuthExpiry.RevokeOthersIff`, `AuthRuns.ExpiredIndexLeavesTwoWebSessions`,
  `AuthRuns.ExpiredIndexEscapesLogoutEverywhere`). Only a password change ends its tokens
  (`AuthExpiry.PasswordChangeEndsTokens`).
- The checks and writes of an exchange are separate, so two calls can exchange one refresh token
  (`AuthRaces.ExchangedTwiceIff`), and two web logins that overlap can leave two web sessions
  (`AuthRaceSessions.OneWebInRacesIff`, `AuthRuns.OverlappingLoginsLeaveTwo`).
- An exchange reads a session and writes it back later: a session ended in between comes back, unlisted
  (`AuthRaceSessions.LoggedOutStaysIff`, `AuthRuns.ExchangeRevivesTheSession`), and one that another user has taken
  over is spoiled (`AuthRaceSessions.RacesKeepBackedIff`, `AuthRuns.ExchangeMixesTwoUsers`).
- The checks and the insert of a friend request are separate, so crossing requests are both stored, and a block can
  come in between (`SocialRaces.RacesKeepInvIff`, `SocialRaces.CrossingRequests`, `SocialRaces.BlockInBetween`).
- Logging out everywhere can end the session of another user who took over a device
  (`AuthSafety.RevokeAllTouchesOthersIff`).
- Two users who block each other, or who each have a rejected or pending request found to the other, are told the
  same direction (`SocialTheorems.BlockDirectionMirrorsIff`, `SocialTheorems.RejectedDirectionMirrorsIff`,
  `SocialTheorems.PendingDirectionMirrorsIff`).
- Removing a block that does not exist succeeds, because the repository reports success either way; the model
  follows the repository (`SocialHandlers.SocialStore.UnblockTheUser`).

## Reading the model

- Ids are strings or numbers; where the code sorts ids as text the model uses numbers in that order. Times are
  integers, in milliseconds unless a file says otherwise. Dates are in UTC and unbounded, computed as in section
  21.4.1 of ECMA-262.
- Repositories are maps, sets and sequences. Fresh ids, the clock, what a user directory answers and whether a
  password matches are parameters.
- A handler is one atomic step. Where the code is meant for concurrent callers, as with reminders, client message
  ids, token exchanges, logins and friend requests, the steps are interleaved.
- A session and a user's index can expire at any step; where it matters that neither does so early, runs carry times.
- A query with a limit evaluates that many stored items and filters afterwards, as the repositories' queries do;
  among one sender's friend requests the order is arbitrary but fixed, and request ids are numbered in that order.
- A refused operation returns its error as a value.

## Model

| member | source | states |
|---|---|---|
| CallService.CallV2Service.CreateCall | src/modules/call/usecase/call-v2.service.ts:41-104 | Refuses a conversation with a live call; otherwise registers a fresh session and both index entries, or, for a busy private callee, answers a MISSED session and stores nothing. |
| CallService.CallV2Service.JoinCall | src/modules/call/usecase/call-v2.service.ts:106-132 | Refuses a missing or closed call and a user indexed in another call; otherwise the user is JOINED, the call IN_CALL, and the user indexed. |
| CallService.CallV2Service.RejectCall | src/modules/call/usecase/call-v2.service.ts:134-159 | Marks the participant DECLINED and closes the call as REJECTED exactly when nobody but the caller has joined and nobody rings, or the call is private. |
| CallService.CallV2Service.MarkMissedCall | src/modules/call/usecase/call-v2.service.ts:161-186 | The same for a missed participant, closing as MISSED. |
| CallService.CallV2Service.LeaveCall | src/modules/call/usecase/call-v2.service.ts:188-213 | Marks the participant LEFT and closes as ENDED or CANCELLED, by whether the call was answered, once nobody is joined or the call is private. |
| CallService.CallV2Service.EndCall | src/modules/call/usecase/call-v2.service.ts:215-241 | Closes the call for everybody, turning ringing participants MISSED and joined ones LEFT. |
| CallService.CallV2Service.HandleTimeout | src/modules/call/usecase/call-v2.service.ts:305-336 | Turns the ringing participants MISSED, releases them, closes the call exactly when no callee has ever joined, and reports whether it did. |
| CallService.CallV2Service.MarkAsLogged | src/modules/call/usecase/call-v2.service.ts:252-257 | Records the log message of a call, closed or not, and changes nothing else. |
| CallService.CallV2Service.IsUserBusy | src/modules/call/usecase/call-v2.service.ts:374-381 | A user is busy when indexed in a stored, non-terminal call. |
| CallService.OrdersSplit | src/modules/call/usecase/call-v2.service.ts:43-44 | The two filtered lists hold exactly the busy and exactly the free callees. |
| CallService.PartsAgree | src/modules/call/usecase/call-v2.service.ts:49-71 | The participants built by the two loops are the caller joined, free callees ringing, busy callees BUSY. |
| CallInvariants.StepKeepsInv | src/modules/call/usecase/call-v2.service.ts:41-257 | Every operation and the timer keep sessions consistent, each user entry pointing at a live call of that user, and `conversationCalls` the exact index of live calls. |
| CallInvariants.ReachableStatesKeepInv | src/modules/call/usecase/call-v2.service.ts:41-336 | So all of this holds after any run of operations and timeouts. |
| CallInvariants.WithdrawnIsSuccessor | src/modules/call/usecase/call-v2.service.ts:134-241 | Whoever leaves, declines or times out, the others stay live in the call unless it closes as a whole. |
| CallTheorems.OneLiveCallPerConversation | src/modules/call/usecase/call-v2.service.ts:247-250 | Two live calls of one conversation are the same call, in every reachable state. |
| CallTheorems.ClosingDropsOnlyItsOwnEntry | src/modules/call/usecase/call-v2.service.ts:406-415 | When a conversation loses its entry, it is because the very call it named has just closed: `releaseSession` never drops another call's entry. |
| CallTheorems.CreateKeepsCompleteIffCallerFree | src/modules/call/usecase/call-v2.service.ts:41-101 | Starting a call keeps every live participant indexed if and only if the caller is not already busy, which the code does not check. |
| CallTheorems.BusyCallerIsInTwoCalls | src/modules/call/usecase/call-v2.service.ts:41-101 | A busy caller who starts another call is live in both, and the index names only the second. |
| CallTheorems.CallingTwice | src/modules/call/usecase/call-v2.service.ts:41-101 | For any user, two people and two conversations, a run of two calls does it. |
| CallTheorems.UserIndexIsExact | src/modules/call/usecase/call-v2.service.ts:374-421 | When callers are free, `userCalls[u]` names `c` exactly when `u` rings or has joined in the live call `c`, after any run. |
| CallTheorems.NobodyIsInTwoCalls | src/modules/call/usecase/call-v2.service.ts:374-421 | Then nobody rings or talks in two live calls. |
| CallTheorems.DeclineKeepsAttendedIff | src/modules/call/usecase/call-v2.service.ts:134-186 | A decline or miss leaves the call closed or with somebody joined if and only if it is private, or the participant was not joined, or another is, or nobody else rings. |
| CallTheorems.NoAbandonedCall | src/modules/call/usecase/call-v2.service.ts:134-213 | If every decline is of that kind, as it is when only ringing participants decline or are missed, every live call has a joined participant after any run. |
| CallTheorems.DecliningWhileConnectedAbandonsTheCall | src/modules/call/usecase/call-v2.service.ts:134-159 | A run without that proviso: a joined callee declines and the call stays live with nobody joined, beyond the timeout. |
| CallTheorems.SessionsOnlyAge | src/modules/call/usecase/call-v2.service.ts:106-241 | Over any run a closed session is frozen except for its log id, an answer is never withdrawn, and the set of ringing participants only shrinks. |
| CallTheorems.StatusTellsTheStory | src/modules/call/usecase/call-v2.service.ts:188-241 | ENDED implies answered, CANCELLED implies never answered, IN_CALL implies answered and RINGING not, and no closed call has its timer armed. |
| CallService.CallSession.JoinBy | src/modules/call/usecase/call-v2.service.ts:113-130 | The participant is JOINED, keeping the first joining time; the first join answers the call. |
| CallService.CallSession.DeclineBy | src/modules/call/usecase/call-v2.service.ts:139-157 | The session's part of declining and of being missed. |
| CallService.CallSession.LeaveBy | src/modules/call/usecase/call-v2.service.ts:193-211 | The session's part of leaving. |
| CallService.CallSession.EndBy | src/modules/call/usecase/call-v2.service.ts:220-238 | The loop over the participants and the closing. |
| CallService.CallSession.TimeOut | src/modules/call/usecase/call-v2.service.ts:311-333 | The loop over the participants reports exactly those that were ringing. |
| CallService.CallV2Service.SplitCallees | src/modules/call/usecase/call-v2.service.ts:43-44 | The callees split into free and busy ones, each in call order. |
| CallService.BuildParticipants | src/modules/call/usecase/call-v2.service.ts:49-71 | The caller and the two loops build the participants. |
| CallService.CallV2Service.NewSession | src/modules/call/usecase/call-v2.service.ts:46-91 | The new session, MISSED at once for a busy private callee. |
| CallService.CallV2Service.Register | src/modules/call/usecase/call-v2.service.ts:93-99 | The stored session and both indexes after a new call. |
| CallService.CallV2Service.ReleaseUser | src/modules/call/usecase/call-v2.service.ts:417-421 | Drops the user's entry exactly when it names this call. |
| CallService.CallV2Service.Release | src/modules/call/usecase/call-v2.service.ts:406-415 | Drops the given users' entries, and for a closed session its conversation entry and all its participants' entries, but never another call's. |
| CallInvariants.CreateKeepsInv | src/modules/call/usecase/call-v2.service.ts:41-104 | Starting a call keeps the invariant, whoever the caller is. |
| CallInvariants.JoinKeepsInv | src/modules/call/usecase/call-v2.service.ts:106-132 | So does joining. |
| CallTheorems.StepKeepsComplete | src/modules/call/usecase/call-v2.service.ts:106-336 | Every other operation keeps every live participant indexed. |
| CallTheorems.LeaveKeepsAttended | src/modules/call/usecase/call-v2.service.ts:188-213 | Leaving closes a call that would be left with nobody joined. |
| CallTheorems.TimeoutKeepsAttended | src/modules/call/usecase/call-v2.service.ts:305-336 | The timeout takes no joined participant out. |
| CallAnswers.StepClosesIff | src/modules/call/usecase/call-v2.service.ts:134-336 | A live call is closed by a step if and only if that is an end, or a leave, decline or miss in a private call, or a leave with nobody else joined, or a decline or miss with no other callee joined and nobody else ringing, or a timeout before any callee ever joined; it is then ENDED or CANCELLED by whether it was answered, REJECTED or MISSED, and no conversation and no user has an entry for it. |
| CallAnswers.LeaveClosesIff | src/modules/call/usecase/call-v2.service.ts:188-213 | The same for leaving alone, with nothing changed but the participants when the call goes on. |
| CallAnswers.DeclineClosesIff | src/modules/call/usecase/call-v2.service.ts:134-186 | The same for declining and being missed. |
| CallAnswers.TimeoutClosesIff | src/modules/call/usecase/call-v2.service.ts:305-336 | The same for the timeout, after which a call that goes on is under way. |
| CallAnswers.ParticipantsComeOut | src/modules/call/usecase/call-v2.service.ts:106-336 | Over all steps, the status and times with which each participant of a live call comes out of one, and that only a join brings anybody in. |
| CallAnswers.UserEntriesAfter | src/modules/call/usecase/call-v2.service.ts:106-421 | A user's entry goes exactly when he is taken out of the call it names or that call closes, and comes by joining. |
| CallAnswers.ConversationEntriesAfter | src/modules/call/usecase/call-v2.service.ts:134-415 | A conversation's entry goes exactly when its call closes. |
| CallAnswers.OthersStay | src/modules/call/usecase/call-v2.service.ts:106-257 | A step changes no call but the one it acts on, and nothing at all if it acts on none. |
| CallAnswers.TerminalMeans | src/modules/call/usecase/call-v2.service.ts:365-372 | A call is terminal exactly when it neither rings nor is under way. |
| CallAnswers.MayCallIff | src/modules/call/usecase/call-v2.service.ts:338-343 | A new call is refused exactly while a call of the conversation is live. |
| CallAnswers.NewCallMeans | src/modules/call/usecase/call-v2.service.ts:49-71 | Who is in a new call: the caller joined, callees in a live call BUSY, the others ringing. |
| CallAnswers.NewCallRecord | src/modules/call/usecase/call-v2.service.ts:73-89 | The rest of its record, MISSED at once for a private call to a busy callee. |
| CallAnswers.CreateStores | src/modules/call/usecase/call-v2.service.ts:91-103 | What is stored: nothing in that case, otherwise the call and entries for its conversation, its caller and the callees who ring. |
| CallAnswers.BusyOrderIsCallOrder | src/modules/call/usecase/call-v2.service.ts:43-43 | The busy callees are listed in call order. |
| CallAnswers.RefusedAs | src/modules/call/usecase/call-v2.service.ts:106-257 | Which error each refused operation is answered with, and exactly when. |
| GroupHandlers.CreateGroup | src/modules/chat/usecase/create-group.ts:41-95 | Applies the access policy's checks and creates the creator as active owner, the others as active members, and the count. |
| GroupHandlers.ValidateAdd | src/modules/chat/usecase/chat-access-policy.ts:106-135 | List and directory checks in the source's order: sizes, duplicates, the requester, missing, disabled and blocked users. |
| GroupHandlers.GroupStore.AddMembers | src/modules/chat/usecase/add-members-to-group.ts:60-190 | Permission, settings, list, block and already-member refusals; otherwise every listed user becomes an ordinary active or pending member and the count grows by the active ones. |
| GroupHandlers.GroupStore.SplitNewcomers | src/modules/chat/usecase/add-members-to-group.ts:110-156 | Sorts the listed users into new records and records to restore, unless one is present already; none is lost or doubled. |
| GroupHandlers.GroupStore.JoinGroup | src/modules/chat/usecase/join-group-by-invite.ts:52-197 | Link, settings and block refusals; an active member joins without effect, an approval group keeps the old role as pending, an open one makes an active ordinary member. |
| GroupHandlers.GroupStore.LeaveGroup | src/modules/chat/usecase/leave-group.ts:53-113 | Sets `leftAt`, hands the group over when the owner leaves, by name or automatically, and updates admins and count. |
| GroupHandlers.GroupStore.TransferOwnership | src/modules/chat/usecase/transfer-owner.ts:47-81 | Moves ownership to an active member and makes the old owner an admin. |
| GroupHandlers.GroupStore.RemoveMember | src/modules/chat/usecase/remove-member-from-group.ts:44-95 | Managers, or the member himself, set `leftAt`, drop the admin entry and lower the count; optionally the user is blocked. |
| GroupHandlers.GroupStore.BlockMember | src/modules/chat/usecase/group-block.ts:96-191 | Removes an active target that is not the owner and stores the block. |
| GroupHandlers.GroupStore.UnblockMember | src/modules/chat/usecase/group-block.ts:205-228 | Removes the stored block. |
| GroupHandlers.GroupStore.ApproveMember | src/modules/chat/usecase/approve-member.ts:44-80 | A pending record becomes active and is counted. |
| GroupHandlers.GroupStore.RejectPending | src/modules/chat/usecase/reject-member.ts:38-66 | A pending record becomes rejected. |
| GroupHandlers.GroupStore.SetAdminRole | src/modules/chat/usecase/set-admin.ts:47-84 | The owner gives or takes the admin role, in the record and in the list. |
| GroupInvariants.NewGroupInv | src/modules/chat/usecase/create-group.ts:49-95 | A new group counts exactly its active members, has one active owner and no admins. |
| GroupInvariants.LeaveKeepsInvIffSuccessorFits | src/modules/chat/usecase/leave-group.ts:60-113 | Leaving keeps count, single owner and admin list right if and only if an owner hands over to another active member. |
| GroupInvariants.NamedSuccessorFits | src/modules/chat/usecase/leave-group.ts:65-81 | A named successor is fit exactly when the owner does not name himself. |
| GroupInvariants.AutomaticSuccessorFits | src/modules/chat/usecase/leave-group.ts:82-97 | An automatic successor is fit exactly when the first record of the group is another active member: the repository ignores the role and status the handler asks for. |
| GroupInvariants.AutomaticTransferToTheLeaver | src/modules/chat/infras/repository/dynamodb/member-repo.ts:90-99 | A group whose first record is the leaving owner's own: automatic transfer leaves it with an owner who is gone. |
| GroupInvariants.TransferKeepsInvIffToAnother | src/modules/chat/usecase/transfer-owner.ts:66-81 | Transfer keeps the invariant exactly when it is not to oneself. |
| GroupInvariants.StepKeepsInv | src/modules/chat/usecase/add-members-to-group.ts:110-190 | Every handler keeps the invariant, given a fit successor. |
| GroupInvariants.StepKeepsInvIff | src/modules/chat/usecase/leave-group.ts:60-113 | A handler keeps the invariant if and only if it is refused, or nobody hands the group to himself and an automatic transfer meets an active first record other than the leaver. |
| GroupInvariants.ReachableGroupsKeepInvIff | src/modules/chat/usecase/leave-group.ts:60-113 | Up to any point of a run `membersCount` has been the number of active members that have not left, exactly one record OWNER, active and its user `ownerId`, and `admins` active admins without duplicates, if and only if every call until then was of that kind. |
| GroupInvariants.ReachableGroupsKeepInv | src/modules/chat/usecase/leave-group.ts:60-113 | In particular after any run in which owners hand over to another active member. |
| GroupInvariants.CountNeverClamped | src/modules/chat/usecase/remove-member-from-group.ts:72-88 | The guards against a negative or missing count never act: the count drops by exactly one, and was at least two unless the last owner leaves. |
| GroupInvariants.BlockedUsersEnterOnlyByApproval | src/modules/chat/usecase/join-group-by-invite.ts:78-82 | A user under a group block becomes active only by approval of an older request. |
| GroupInvariants.AddRespectsLimit | src/modules/chat/usecase/chat-access-policy.ts:106-112 | Adding members never takes a group past fifty. |
| GroupInvariants.LeaveThenRejoin | src/modules/chat/usecase/join-group-by-invite.ts:140-197 | Leaving and coming back by an open invite restores the count, with the ordinary role and without the admin entry. |
| GroupHandlers.GroupStore.Create | src/modules/chat/usecase/create-group.ts:58-95 | The new group's records, built in a loop. |
| GroupHandlers.GroupStore.AnyBlocked | src/modules/chat/usecase/add-members-to-group.ts:84-92 | Whether a listed user is under a group block. |
| GroupHandlers.GroupStore.WriteMembers | src/modules/chat/usecase/add-members-to-group.ts:158-182 | Every listed user gets an ordinary record of the status, and nobody else's changes. |
| GroupInvariants.AddKeepsInv | src/modules/chat/usecase/add-members-to-group.ts:110-190 | Adding keeps count, owner and admins right, restored records included. |
| GroupInvariants.JoinKeepsInv | src/modules/chat/usecase/join-group-by-invite.ts:94-197 | So does joining, on the pending and the active path. |
| GroupInvariants.RemoveKeepsInv | src/modules/chat/usecase/remove-member-from-group.ts:72-95 | So does removing a member. |
| GroupInvariants.BlockKeepsInv | src/modules/chat/usecase/group-block.ts:133-188 | So does blocking, of a member or of anybody else. |
| GroupInvariants.ApprovalKeepsInv | src/modules/chat/usecase/approve-member.ts:69-80 | So do approving and rejecting; approval relies on a pending record never having left. |
| GroupInvariants.SetAdminKeepsInv | src/modules/chat/usecase/set-admin.ts:71-84 | So does giving or taking the admin role. |
| GroupAccess.ActsIffAllowed | src/modules/chat/usecase/remove-member-from-group.ts:52-80 | Over all eleven handlers: one acts exactly when the requester's record gives the right and what is asked is open to it, and otherwise nothing changes. |
| GroupAccess.GoesOutIff | src/modules/chat/usecase/remove-member-from-group.ts:52-95 | An active member stops being one exactly by leaving, or by being removed or blocked by an active owner or admin, or by himself; the owner only by leaving. |
| GroupAccess.ComesInIff | src/modules/chat/usecase/add-members-to-group.ts:60-190 | Somebody who is none becomes one exactly by being added or joining where no approval is asked for, or by being approved. |
| GroupAccess.PendingIsAnsweredIff | src/modules/chat/usecase/approve-member.ts:44-80 | A pending record is turned active or rejected exactly by an owner or admin, or active by its user joining once no approval is asked for. |
| GroupAccess.BecomesAdminOnlyByTheOwner | src/modules/chat/usecase/set-admin.ts:44-84 | The admin role is given by the owner alone, to another or to himself when he hands the group over. |
| GroupAccess.StopsBeingAdminIff | src/modules/chat/usecase/set-admin.ts:44-84 | And it is lost exactly to the owner, by becoming the owner, or by coming back as an ordinary member. |
| GroupAccess.BlocksChangeIff | src/modules/chat/usecase/group-block.ts:110-188 | A group block is set exactly by an owner or admin, or asked for by a member who removes himself, and lifted exactly by an owner or admin. |
| GroupAccess.ChangesHandsIff | src/modules/chat/usecase/transfer-owner.ts:40-81 | The group changes hands only from its active owner, to whom he names or who comes first. |
| GroupAccess.RecordsComeOut | src/modules/chat/usecase/leave-group.ts:54-113 | The record that every user has after each handler. |
| GroupAccess.ListsComeOut | src/modules/chat/usecase/leave-group.ts:54-113 | The owner, admin list, blocks and settings after each handler. |
| GroupAccess.MayCreateIff | src/modules/chat/usecase/create-group.ts:32-48 | A group can be created exactly for 2 to 49 distinct others, all with the creator registered, enabled and unblocked. |
| GroupAccess.NewGroupMeans | src/modules/chat/usecase/create-group.ts:49-95 | Its creator owns it, the others are ordinary members, anyone may invite and nobody waits for approval. |
| GroupAccess.ErrorsAreTrue | src/modules/chat/usecase/chat-access-policy.ts:100-135 | Each of the 22 errors is true of the group, the directory or what was asked. |
| PollHandlers.CountUniqueVoters | src/modules/chat/usecase/vote-poll.ts:32-38 | The nested loops count the distinct voters of all options. |
| PollHandlers.PollStore.CreatePoll | src/modules/chat/usecase/create-poll.ts:71-101 | Refuses fewer than two options; otherwise an open poll with the options in order and no votes. |
| PollHandlers.PollStore.VotePoll | src/modules/chat/usecase/vote-poll.ts:70-169 | All refusals in order; an unchanged selection writes nothing; otherwise the recast options are written. |
| PollHandlers.PollStore.WritePollOptions | src/modules/chat/infras/repository/dynamodb/poll-repo.ts:173-181 | The repository normalizes the options it is given and recounts the voters. |
| PollHandlers.PollStore.AddPollOption | src/modules/chat/usecase/add-poll-option.ts:36-73 | Refusals in order; otherwise the option is appended without votes. |
| PollHandlers.PollStore.Close | src/modules/chat/usecase/manage-poll.ts:35-80 | A member who may manage the poll closes it. |
| PollHandlers.PollStore.CloseExpiredPolls | src/modules/chat/usecase/group-utility-worker.ts:75-83 | The worker closes exactly the reported polls that are open and past their end. |
| PollInvariants.NormalizeIdempotent | src/modules/chat/usecase/vote-poll.ts:21-30 | Normalizing options whose lists are duplicate-free and counted changes nothing. |
| PollInvariants.SelectedAreTheSelection | src/modules/chat/usecase/vote-poll.ts:40-42 | The listed ids are exactly the options the user is in, each once. |
| PollInvariants.SameSelectionIsSetEquality | src/modules/chat/usecase/vote-poll.ts:44-48 | `haveSameSelection` decides equality of sets on what it is given. |
| PollInvariants.StepKeepsInv | src/modules/chat/usecase/vote-poll.ts:99-169 | Voting, extending and closing keep voter lists duplicate-free, counts their lengths, the total the number of distinct voters, and one option per voter on single-choice polls. |
| PollInvariants.ReachablePollsKeepInv | src/modules/chat/usecase/vote-poll.ts:99-169 | So it is after any run from creation. |
| PollInvariants.VoteSetsSelection | src/modules/chat/usecase/vote-poll.ts:106-160 | After a successful vote the voter's selection is exactly the requested set. |
| PollInvariants.VoteKeepsOtherSelections | src/modules/chat/usecase/vote-poll.ts:128-160 | Nobody else's selection changes. |
| PollInvariants.VoteMovesTotal | src/modules/chat/usecase/vote-poll.ts:161-169 | The total moves by one, none or minus one, as the voter's selection becomes or stops being empty. |
| PollInvariants.UnchangedMeansAlreadySelected | src/modules/chat/usecase/vote-poll.ts:116-123 | The shortcut for an unchanged vote is taken exactly when the request is the voter's selection. |
| PollInvariants.SumCountsVoters | src/modules/chat/usecase/vote-poll.ts:32-38 | With one option per voter the option counts add up to the number of distinct voters. |
| PollInvariants.SingleChoiceTotals | src/modules/chat/usecase/vote-poll.ts:112-169 | In a reachable single-choice poll `totalVotes` is the sum of the option counts. |
| PollInvariants.VotesStick | src/modules/chat/usecase/vote-poll.ts:124-127 | Without permission to change votes, and on a closed poll, a selection once made stays for the rest of any run. |
| PollAnswers.ActsIffAccepted | src/modules/chat/usecase/vote-poll.ts:78-127 | Exactly when a vote, an extension and a closing are accepted: open and in time, by members, for known options, one only in a single choice, and changing a vote only where allowed or when nothing changes. |
| PollAnswers.VoterListsComeOut | src/modules/chat/usecase/vote-poll.ts:128-160 | The voter lists after a vote: the voter at the end of each option newly asked for and out of the others, everybody else in place. |
| PollAnswers.PollComesOut | src/modules/chat/usecase/manage-poll.ts:20-110 | A poll closes exactly by a member who manages it or by its time and never reopens, and no operation changes its kind; a new option comes last and without votes. |
| PollAnswers.UnchangedVoteChangesNothing | src/modules/chat/usecase/vote-poll.ts:116-123 | A vote for exactly what the voter has chosen leaves the poll as it is. |
| PollAnswers.ErrorsAreTrue | src/modules/chat/usecase/vote-poll.ts:74-127 | Each error is true of the poll or of what was asked. |
| Calendar.YearLength | src/modules/chat/usecase/utility-messages.ts:96-106 | The first day of the next year is 365 or 366 days later, by the leap year rule (section 21.4.1 of ECMA-262). |
| Calendar.MakeDayOfFields | src/modules/chat/usecase/utility-messages.ts:96-106 | Splitting a day into year, month and date and making a day of them gives the day back. |
| Calendar.FieldsOfMakeDay | src/modules/chat/usecase/utility-messages.ts:96-106 | Making a day of existing fields, months out of range included, and splitting it gives the fields back. |
| Calendar.NextMonthStarts | src/modules/chat/usecase/utility-messages.ts:103-104 | The same date one month later is one month's length later, across years too. |
| Calendar.DateMoves | src/modules/chat/usecase/utility-messages.ts:99-102 | `setDate` to the date plus n moves by exactly n days. |
| ReminderSchedule.IntervalLength | src/modules/chat/usecase/utility-messages.ts:96-106 | A daily step is one day, a weekly one seven, a monthly one exactly the length of the month it leaves. |
| ReminderSchedule.GetNextRepeatedReminderAt | src/modules/chat/usecase/utility-messages.ts:108-118 | The loop ends for every rule but NONE, on the least positive iterate after now. |
| ReminderSchedule.NextIsLeast | src/modules/chat/usecase/utility-messages.ts:113-117 | That iterate is the only one with this property. |
| ReminderSchedule.NoRuleNeverMoves | src/modules/chat/usecase/utility-messages.ts:113-117 | Without a rule no iterate ever leaves the start, so the loop must not be entered. |
| ReminderSchedule.NextClosedForm | src/modules/chat/usecase/utility-messages.ts:108-118 | For daily and weekly rules the loop equals one division. |
| ReminderSchedule.MonthlyStep | src/modules/chat/usecase/utility-messages.ts:103-104 | A monthly step keeps the date when the next month has it and otherwise overshoots by the missing days. |
| ReminderSchedule.SmallDatesNeverDrift | src/modules/chat/usecase/utility-messages.ts:96-118 | With a date of 28 or less the k-th monthly occurrence is that date and time, k months on. |
| ReminderSchedule.NeverDriftsIff | src/modules/chat/usecase/utility-messages.ts:96-118 | A monthly reminder keeps its date for ever if and only if the date is 28 or less. |
| ReminderSchedule.DriftsAtMostOnce | src/modules/chat/usecase/utility-messages.ts:96-118 | A reminder that drifts lands on the 3rd or before and stays there. |
| ReminderSchedule.EndOfJanuaryDrifts | src/modules/chat/usecase/utility-messages.ts:103-104 | From 31 January the next monthly occurrence is 2 or 3 March. |
| ReminderHandlers.ReminderStore.CreateReminder | src/modules/chat/usecase/group-utilities.ts:113-147 | Stores an active reminder whose first notice is due its lead before the event. |
| ReminderHandlers.ReminderStore.UpdateReminder | src/modules/chat/usecase/group-utilities.ts:186-208 | Writes the given fields and resets the notice when the time, rule or lead is given. |
| ReminderHandlers.ReminderStore.DeleteReminder | src/modules/chat/usecase/group-utilities.ts:248-254 | Cancels the reminder. |
| ReminderHandlers.ReminderStore.UpdateDueReminder | src/modules/chat/infras/repository/dynamodb/group-utility-repo.ts:185-200 | Writes exactly when the reminder is active and still has the expected notice time. |
| ReminderHandlers.ReminderStore.ProcessDueReminders | src/modules/chat/usecase/group-utility-worker.ts:107-119 | One pass writes and notifies exactly the readings that are due and admitted, in order. |
| ReminderHandlers.GetReminderNotificationUpdate | src/modules/chat/usecase/group-utility-worker.ts:172-198 | Before the event the notice moves to it; at it the reminder is done or moves to its next occurrence. |
| ReminderHandlers.GetInitialNextNotifyAt | src/modules/chat/usecase/utility-messages.ts:92-94 | The first notice is never later than the event, is at the event exactly when no positive lead is given, and otherwise precedes it by exactly that many minutes. |
| ReminderHandlers.PromptPassNotifiesAll | src/modules/chat/usecase/group-utility-worker.ts:107-145 | A pass over current readings sends one notice for each, moves each on, and touches nothing else. |
| ReminderHandlers.SecondPassSendsOnlyEarlyNotices | src/modules/chat/usecase/group-utility-worker.ts:172-198 | Right after a pass, all that can be due at the same instant is the early notice of an occurrence still to come. |
| ReminderTheorems.WritesKeepNotifyPoint | src/modules/chat/usecase/group-utility-worker.ts:172-198 | Creating, editing and a current worker write leave the notice at the event or its lead before it, never later than the event. |
| ReminderTheorems.CurrentWriteRaises | src/modules/chat/usecase/group-utility-worker.ts:172-198 | A write from a current reading finishes the reminder or strictly raises (`remindAt`, `nextNotifyAt`). |
| ReminderTheorems.WriteKeepsNotLateIff | src/modules/chat/usecase/group-utility-worker.ts:172-198 | A write from any reading, however stale, leaves the notice no later than the event exactly when it is not an early notice of a later occurrence than the stored one. |
| ReminderTheorems.CompareAndSetIsExactIff | src/modules/chat/infras/repository/dynamodb/group-utility-repo.ts:185-200 | The compare-and-set admits only current readings, in every run of any workers, if and only if the lead is not the distance between two occurrences. |
| ReminderTheorems.NotifiesOnceIff | src/modules/chat/usecase/group-utility-worker.ts:107-145 | Under any interleaving of workers between two edits each occurrence gets at most one early and one due notice, if and only if the lead is not the distance between two occurrences. |
| ReminderTheorems.AliasRepeatsANotice | src/modules/chat/infras/repository/dynamodb/group-utility-repo.ts:185-200 | With such a lead a run sends the due notice of the first of the two occurrences twice, the second time from a stale reading. |
| ReminderTheorems.OneNoticeOfEachKind | src/modules/chat/usecase/group-utility-worker.ts:107-145 | In a run in which every admitted write saw the current state, no notice is sent twice. |
| ReminderTheorems.NeverLate | src/modules/chat/usecase/group-utility-worker.ts:172-198 | In such a run the notice is never later than the event. |
| ReminderTheorems.AdmittedWritesAdvance | src/modules/chat/usecase/group-utility-worker.ts:107-119 | In such a run later admitted writes start strictly further along the schedule. |
| ReminderTheorems.PromptRunsSeeCurrent | src/modules/chat/usecase/group-utility-worker.ts:107-119 | Writes that follow their reading at once are current, whatever the lead. |
| ReminderTheorems.ShortLeadAdmitsEachTimeOnce | src/modules/chat/infras/repository/dynamodb/group-utility-repo.ts:185-200 | With a lead shorter than the interval `nextNotifyAt` rises with every admitted write, under any interleaving, so each value is admitted once. |
| ReminderTheorems.ShortLeadHasNoAlias | src/modules/chat/usecase/group-utility-worker.ts:172-198 | A lead shorter than the interval is never such a distance. |
| ReminderTheorems.FixedIntervalAliasIff | src/modules/chat/usecase/group-utility-worker.ts:172-198 | For daily and weekly rules the harmful leads are exactly the positive multiples of the interval. |
| ReminderSchedule.FixedOccurrence | src/modules/chat/usecase/utility-messages.ts:96-106 | The k-th daily or weekly occurrence is k intervals on. |
| ReminderHandlers.ProcessOneMore | src/modules/chat/usecase/group-utility-worker.ts:110-119 | One more reading of a pass writes and notifies exactly when due and admitted. |
| ReminderAnswers.NewReminderMeans | src/modules/chat/usecase/utility-messages.ts:92-94 | A new reminder's fields, its first notice the given minutes before the event. |
| ReminderAnswers.EditMeans | src/modules/chat/usecase/group-utilities.ts:193-208 | An edit sets what it gives, and starts the notices again exactly when the event, the rule or the lead is given. |
| ReminderAnswers.WriteMeans | src/modules/chat/infras/repository/dynamodb/group-utility-repo.ts:185-200 | A worker's write goes through exactly for an active reminder with the notice time read, and then moves the notice to the event, finishes the reminder, or moves both to the least occurrence after now. |
| ReminderAnswers.NoticeMeans | src/modules/chat/usecase/group-utility-worker.ts:107-145 | A reading leads to a notice exactly when it was due and its write goes through: an early one before the event, a due one from then on. |
| ReminderAnswers.PassMeans | src/modules/chat/usecase/group-utility-worker.ts:107-145 | A pass takes its readings in order, each on what the ones before have left. |
| ReminderTheorems.NoAliasSeesCurrent | src/modules/chat/infras/repository/dynamodb/group-utility-repo.ts:185-200 | Without such a lead every admitted write of a run was computed from the state it replaced. |
| ReminderTheorems.CurrentRunIsOrderly | src/modules/chat/usecase/group-utility-worker.ts:107-119 | A run of current writes only moves forward along the schedule. |
| Listing.CompareIsStrictTotalOrder | src/modules/chat/usecase/conversation-listing.ts:56-93 | On items with distinct ids the comparator is a strict total order. |
| Listing.SortSorts | src/modules/chat/usecase/get-conversations.ts:183-183 | Sorting orders the items and loses none. |
| Listing.SortedNewestFirst | src/modules/chat/usecase/conversation-listing.ts:62-83 | In the sorted list pinned items come first by pinning time, then by activity, the rest by activity, newest first, ties by id. |
| Listing.SortedInListOrder | src/modules/chat/usecase/conversation-listing.ts:56-93 | By the stored dates: pinned before unpinned and the latest pinned first, then the latest active, by activity, else last message, else update, else creation, then by id; the time 0 counts as none. |
| Listing.PagesAreFull | src/modules/chat/usecase/get-conversations.ts:39-41 | A page holds the next items in order, as many as asked for or twenty, unless the list ends. |
| Listing.OrderIsUnique | src/modules/chat/usecase/conversation-listing.ts:56-84 | Only one arrangement is in order, so any correct sort gives it. |
| Listing.GetCursorStartIndex | src/modules/chat/usecase/get-conversations-cursor.ts:260-272 | The position after the cursor's item; an unknown cursor is refused. |
| Listing.QueryCursor | src/modules/chat/usecase/get-conversations-cursor.ts:46-77 | The page after the cursor, the next cursor while there is more, and the pinned items on the first page. |
| Listing.QueryOffset | src/modules/chat/usecase/get-conversations.ts:39-41 | The requested slice of the sorted list, with the default page and limit. |
| Listing.WalkReadsTheRest | src/modules/chat/usecase/get-conversations-cursor.ts:62-77 | Following the cursors from any page reads exactly the rest of the list. |
| Listing.PinnedComeFirst | src/modules/chat/usecase/conversation-listing.ts:64-66 | The pinned items are a prefix of the sorted list. |
| Listing.BothWalksReadTheList | src/modules/chat/usecase/get-conversations-cursor.ts:60-77 | For any limits the pinned items and then the cursor walk give every item once in order, and so do the offset pages together. |
| History.InHistoryMeans | src/modules/chat/usecase/load-messages.ts:60-67 | A message is in the history exactly when it is after both hiding dates and not before the visible-from date, where set. |
| History.CutoffsRemoveASuffix | src/modules/chat/usecase/conversation-visibility.ts:3-12 | Both history cutoffs take away a suffix of the newest-first history. |
| History.LoadMessages | src/modules/chat/usecase/load-messages.ts:28-72 | Limit and membership refusals; otherwise the visible part of a window one longer than the page, cut to the limit. |
| History.PageAtPosition | src/modules/chat/usecase/load-messages.ts:53-118 | A page has more exactly when its window is full and all visible; its cursor then ends the page. |
| History.WalkIsCompleteIff | src/modules/chat/usecase/load-messages.ts:53-118 | Walking the pages returns the visible history exactly once if and only if no visible message has one that does not show on the pages before its own, which begins at the message after a multiple of the limit. |
| History.WalkReadsToItsEnd | src/modules/chat/usecase/load-messages.ts:53-118 | In any case it returns what shows up to where it stops, newest first and each once. |
| History.WalkWithoutOmissions | src/modules/chat/usecase/load-messages.ts:53-118 | With nothing deleted or expired the walk returns the visible history exactly once. |
| History.OmissionEndsTheWalk | src/modules/chat/infras/repository/dynamodb/message-repo.ts:126-138 | One message the viewer deleted within the first window ends the walk there, since the repository's limit counts it. |
| History.ScanReachesIff | src/modules/chat/infras/repository/dynamodb/message-repo.ts:82-147 | A scan in windows reaches the positions a window adds exactly when every message of the windows before it passes. |
| History.ScanIsCompleteIffInOrder | src/modules/chat/infras/repository/dynamodb/message-repo.ts:82-147 | So it is complete exactly when no message it should keep lies behind a failing one of an earlier window. |
| History.ScanIsCompleteIff | src/modules/chat/infras/repository/dynamodb/message-repo.ts:82-147 | A scan keeps everything exactly when it would keep nothing past its end. |
| HistorySearch.GatherMessages | src/modules/chat/usecase/copy-conversation.ts:79-101 | The copying loop ends and gathers what a scan in full batches of 100 gathers. |
| HistorySearch.CopyIsCompleteIff | src/modules/chat/usecase/copy-conversation.ts:83-101 | It copies everything if and only if no message to copy has an omitted one in an earlier batch of a hundred. |
| HistorySearch.CopyWithoutOmissions | src/modules/chat/usecase/copy-conversation.ts:83-101 | With nothing omitted it gathers every message that passes the filters, in order. |
| HistorySearch.IsCopiedMeans | src/modules/chat/usecase/copy-conversation.ts:83-101 | What is copied: messages neither deleted, revoked, omitted nor of the system, within the two dates. |
| HistorySearch.FindLatestVisibleMessage | src/modules/chat/usecase/get-conversations-cursor.ts:321-346 | The loop ends with the first message after the cutoff on its pages, or nothing. |
| HistorySearch.EarlyExitIsSound | src/modules/chat/usecase/get-conversations-cursor.ts:337-343 | Unless the whole first page was omitted, that is the first visible message of the entire history. |
| HistorySearch.SecondPageIsNeverRead | src/modules/chat/usecase/get-conversations-cursor.ts:327-345 | The loop never turns to a second page: its answer is read off the first. |
| HistorySearch.LatestIsFoundIff | src/modules/chat/usecase/get-conversations-cursor.ts:329-336 | It misses one exactly when a visible message lies behind a first page omitted as a whole. |
| SocialHandlers.SocialStore.SendFriendRequest | src/modules/friend-requests/usecase/index.ts:53-129 | Refusals in order: self, missing users, blocks, friendship, a pending request found either way; otherwise a pending request. |
| SocialHandlers.SocialStore.AcceptFriendRequest | src/modules/friend-requests/usecase/index.ts:131-196 | Only the receiver of a pending request, with no block and no friendship; the friendship is created or restored. |
| SocialHandlers.SocialStore.RejectFriendRequest | src/modules/friend-requests/usecase/index.ts:271-292 | Only the receiver of a pending request. |
| SocialHandlers.SocialStore.CancelFriendRequest | src/modules/friend-requests/usecase/index.ts:294-314 | Only the sender of a pending request. |
| SocialHandlers.SocialStore.BlockTheUser | src/modules/blocks/usecase/index.ts:37-94 | Ends the friendship, deletes the pending requests that the two listings return and stores the block. |
| SocialHandlers.SocialStore.UnblockTheUser | src/modules/blocks/usecase/index.ts:96-107 | Removes one direction of a block; the repository reports success either way. |
| SocialHandlers.SocialStore.UnfriendTheUser | src/modules/friendships/usecase/index.ts:102-132 | Ends an active friendship and deletes everything pending between the two. |
| SocialHandlers.SocialStore.DeleteEach | src/modules/blocks/usecase/index.ts:70-76 | Deletes the listed requests, in any order. |
| SocialHandlers.SocialStore.AreFriendsNow | src/modules/friendships/usecase/index.ts:92-100 | Two users are friends when their sorted pair has an active friendship. |
| SocialHandlers.SocialStore.CheckFriendRequestStatus | src/modules/friend-requests/usecase/index.ts:350-413 | The status in the source's order of precedence, from the limited look-ups. |
| SocialHandlers.SocialStore.EvaluateSent | src/modules/friend-requests/infras/repository/dynamodb/dynamodb-repo.ts:28-63 | The query evaluates the first `limit` of the sender's requests in index order, before any filter. |
| SocialHandlers.SocialStore.FindRequest | src/modules/friend-requests/infras/repository/dynamodb/dynamodb-repo.ts:135-138 | The look-up for a pair returns the first match among the sender's first two requests, and nothing if those do not match. |
| SocialHandlers.SocialStore.ListPending | src/modules/friend-requests/infras/repository/dynamodb/dynamodb-repo.ts:121-123 | The listing for a pair returns the pending requests among the sender's first hundred. |
| SocialHandlers.FirstAreEvaluated | src/modules/friend-requests/infras/repository/dynamodb/dynamodb-repo.ts:52-63 | What is evaluated is exactly the requests with fewer than `limit` ahead of them. |
| SocialTheorems.SendKeepsItsPairIff | src/modules/friend-requests/usecase/index.ts:92-126 | An accepted request keeps its pair sound (a block excludes friendship and requests, friendship excludes requests, at most one is pending) if and only if no pending request of the pair escaped the look-up. |
| SocialTheorems.BlockKeepsItsPairIff | src/modules/blocks/usecase/index.ts:52-91 | A block keeps its pair sound if and only if every pending request of the pair is within its sender's first hundred. |
| SocialTheorems.StepKeepsInvIff | src/modules/friend-requests/usecase/index.ts:53-196 | Any accepted step keeps all pairs sound exactly under these conditions; the other five operations need none. |
| SocialTheorems.ReachableStatesKeepInvIff | src/modules/friend-requests/usecase/index.ts:53-196 | All pairs are sound up to any point of a run if and only if every accepted step until then was covered. |
| SocialTheorems.FewRequestsKeepInv | src/modules/friend-requests/infras/repository/dynamodb/dynamodb-repo.ts:28-63 | In particular while nobody who sends or is sent to has more than two stored requests, and nobody who blocks or is blocked more than a hundred. |
| SocialTheorems.FewRequestsAreCovered | src/modules/friend-requests/infras/repository/dynamodb/dynamodb-repo.ts:52-63 | A sender with no more requests than the limit has none outside it. |
| SocialRuns.SecondRequestGetsThrough | src/modules/friend-requests/infras/repository/dynamodb/dynamodb-repo.ts:135-138 | A run without that: a fourth request repeats the third, both are pending, and after one is accepted the friends still have one that cannot be. |
| SocialRuns.BlockLeavesARequest | src/modules/blocks/usecase/index.ts:54-76 | A run in which a block leaves a request pending: the blocker's hundred and first. |
| SocialTheorems.BlocksAlwaysExcludeFriends | src/modules/blocks/usecase/index.ts:37-107 | Whatever the look-ups see, a block in either direction excludes an active friendship in every reachable state, and nobody blocks, befriends or asks himself. |
| SocialTheorems.AnswersStand | src/modules/friend-requests/usecase/index.ts:131-314 | Whatever they see, an answered request stays as it was answered for the rest of any run. |
| SocialTheorems.FriendshipBeginsByAccepting | src/modules/friend-requests/usecase/index.ts:131-196 | Whatever they see, a friendship only begins by the receiver accepting a pending request, with no block. |
| SocialTheorems.UnfriendLeavesNonePending | src/modules/friendships/usecase/index.ts:102-132 | Unfriending, which reads without a limit, leaves no friendship and nothing pending. |
| SocialTheorems.StatusIsMutual | src/modules/friend-requests/usecase/index.ts:350-413 | In every state both users are told the same kind of status. |
| SocialTheorems.PendingDirectionMirrorsIff | src/modules/friend-requests/usecase/index.ts:376-392 | They are told of the same pending request with mirrored direction exactly when the look-ups do not find one each way. |
| SocialTheorems.SoundStatus | src/modules/friend-requests/usecase/index.ts:350-413 | A sound pair is told of its one pending request, mirrored, exactly when it is among its sender's first two. |
| SocialTheorems.BlockDirectionMirrorsIff | src/modules/friend-requests/usecase/index.ts:358-368 | A block is mirrored exactly when not both block. |
| SocialTheorems.RejectedDirectionMirrorsIff | src/modules/friend-requests/usecase/index.ts:394-410 | A rejection is mirrored exactly when the look-ups do not find one each way. |
| SocialTheorems.SendThenAccept | src/modules/friend-requests/usecase/index.ts:53-196 | With nothing pending, sending succeeds exactly when there is no block and no friendship, and accepting then makes friends. |
| SocialTheorems.PendingCanBeAccepted | src/modules/friend-requests/usecase/index.ts:131-196 | The receiver can accept the pending request of a sound pair. |
| SocialTheorems.BlockThenUnblock | src/modules/blocks/usecase/index.ts:37-107 | Blocking and unblocking ends the friendship and the pending requests listed, changes nothing else, and leaves none pending exactly when all were listed. |
| SocialAnswers.ActsIffAllowed | src/modules/friend-requests/usecase/index.ts:53-314 | Over all seven operations: exactly when one acts, by the two users' blocks, friendship, visible requests and who of them asks; otherwise nothing changes. |
| SocialAnswers.RequestsComeOut | src/modules/friend-requests/usecase/index.ts:117-314 | What every stored request is after each operation; only pending ones of the pair are ever deleted, by a block among the first hundred. |
| SocialAnswers.FriendshipsComeOut | src/modules/friend-requests/usecase/index.ts:131-196 | Accepting befriends the two, blocking and unfriending end it, nothing else does either. |
| SocialAnswers.BlocksComeOut | src/modules/blocks/usecase/index.ts:37-107 | A block is set and lifted by its owner only. |
| SocialAnswers.PendingAnswerMeans | src/modules/friend-requests/usecase/index.ts:376-392 | A PENDING answer names a stored pending request between the two, the first visible one, OUTGOING exactly when the asker has sent it. |
| SocialAnswers.RejectedAnswerMeans | src/modules/friend-requests/usecase/index.ts:394-410 | A REJECTED answer likewise, and only when no pending request is visible. |
| SocialAnswers.OtherAnswersMean | src/modules/friend-requests/usecase/index.ts:350-374 | The other answers: oneself, a block and whether the asker has set it, friends, or nothing visible. |
| SocialAnswers.ErrorsAreTrue | src/modules/friend-requests/usecase/index.ts:53-314 | Each error is true of the records or of what was asked. |
| SocialRaces.UndisturbedSend | src/modules/friend-requests/usecase/index.ts:53-129 | Checks and insert with nothing in between are the request of one step. |
| SocialRaces.InsertKeepsItsPairIff | src/modules/friend-requests/usecase/index.ts:117-128 | An insert keeps its pair sound if and only if by then there is still no block, no friendship and no pending request between the two. |
| SocialRaces.RaceStepKeepsInvIff | src/modules/friend-requests/usecase/index.ts:53-129 | A step of an interleaving keeps all pairs sound exactly when it is no insert into a pair that is not clear and no step that its look-ups do not cover. |
| SocialRaces.RacesKeepInvIff | src/modules/friend-requests/usecase/index.ts:53-129 | All pairs are sound up to any point of an interleaving if and only if no step until then was of that kind. |
| SocialRaces.SpoiledInsertWasDisturbed | src/modules/friend-requests/usecase/index.ts:97-128 | When the look-ups saw every pending request, an insert spoils its pair only if between its checks and itself another request for the pair was inserted or one of the two blocked the other. |
| SocialRaces.CrossingRequests | src/modules/friend-requests/usecase/index.ts:97-128 | A run: two users write to each other at once, and both requests are stored. |
| SocialRaces.BlockInBetween | src/modules/friend-requests/usecase/index.ts:70-128 | A run: a block comes between the checks and the insert, and the request is stored beside it. |
| AuthService.AuthUseCase.LogIn | src/modules/auth/usecase/index.ts:350-445 | Credential, status and verification refusals; otherwise earlier sessions of the device, and for the web all other listed web sessions, end and a new session is written. |
| AuthService.AuthUseCase.RegisterUser | src/modules/auth/usecase/index.ts:447-595 | A new user at version 1, with a session unless verification is awaited. |
| AuthService.AuthUseCase.CheckRefresh | src/modules/auth/usecase/index.ts:624-678 | All checks of an exchange in order; a used token that is presented again ends the session it was used for, and nothing else changes. |
| AuthService.AuthUseCase.WriteExchange | src/modules/auth/usecase/index.ts:680-702 | The writes of an exchange, which look at nothing but whether the device has a session. |
| AuthService.AuthUseCase.SpendToken | src/modules/auth/usecase/index.ts:680-690 | Turns the token into a used one if it is still stored, and stores the one that replaces it. |
| AuthService.AuthUseCase.UpdateSession | src/modules/auth/infras/session/redis-session.ts:59-71 | Writes the device's session back with the new pair, if there is one, and leaves the index alone. |
| AuthService.AuthUseCase.RefreshTokens | src/modules/auth/usecase/index.ts:624-717 | An exchange that nothing comes between: refused as checked, or the token spent and both tokens of the session replaced. |
| AuthService.AuthUseCase.LogOut | src/modules/auth/usecase/index.ts:719-731 | Ends the requester's session on the chosen device and blacklists the access token used. |
| AuthService.AuthUseCase.Introspect | src/modules/auth/usecase/index.ts:744-776 | An access token is accepted exactly when not blacklisted, its user enabled and at its version, and it is the device session's own. |
| AuthService.AuthUseCase.ChangeThePassword | src/modules/auth/usecase/index.ts:1026-1051 | Raises the version and ends the listed sessions. |
| AuthService.AuthUseCase.ResetThePassword | src/modules/auth/usecase/index.ts:971-1024 | The same, for a stored reset token of the user, which is spent. |
| AuthService.AuthUseCase.RevokeOneSession | src/modules/auth/usecase/index.ts:1071-1073 | Ends the user's own session on a device. |
| AuthService.AuthUseCase.LogOutEverywhere | src/modules/auth/usecase/index.ts:1075-1081 | Ends every listed session. |
| AuthService.AuthUseCase.RevokeOtherSessions | src/modules/auth/usecase/index.ts:1083-1102 | Ends every listed session but the current one, which must be the user's. |
| AuthService.AuthUseCase.RevokeSessionObject | src/modules/auth/usecase/index.ts:228-244 | Revokes the refresh token, blacklists the access token and deletes the session with its index entry. |
| AuthService.AuthUseCase.RevokeSessionsByPlatform | src/modules/auth/usecase/index.ts:257-271 | Ends the listed sessions of the platform, either one, on other devices. |
| AuthService.AuthUseCase.ListByUser | src/modules/auth/infras/session/redis-session.ts:123-139 | The indexed devices that have a session; the others leave the index. |
| AuthTheorems.StepKeepsInv | src/modules/auth/usecase/index.ts:350-776 | Every use case, and every expiry of a session or an index, keeps each live session of a version its user has had, backed by its own stored refresh token and apart from the others, and used and stored tokens apart. |
| AuthTheorems.ReachableStatesKeepInv | src/modules/auth/usecase/index.ts:350-1102 | So it is after any run, whatever expires. |
| AuthExpiry.LoginClearsIff | src/modules/auth/usecase/index.ts:393-428 | In any state, a web login leaves the user no other web session if and only if his index lists every other one. |
| AuthExpiry.WebLeftByLogin | src/modules/auth/usecase/index.ts:257-271 | What is left is exactly the web sessions that the index does not list. |
| AuthExpiry.StepKeepsOneWebIff | src/modules/auth/usecase/index.ts:350-1102 | Any step leaves a user at most one web session if and only if it is no web login that finds another one unlisted. |
| AuthExpiry.OneWebIff | src/modules/auth/usecase/index.ts:350-1102 | Up to any point of a run a user has had at most one web session at a time if and only if each of his web logins found his others listed. |
| AuthExpiry.StepKeepsListedIff | src/modules/auth/infras/session/redis-session.ts:41-43 | The index of a user stays complete in every step except when it expires while he has a session. |
| AuthExpiry.ListedIff | src/modules/auth/infras/session/redis-session.ts:41-71 | Up to any point of a run his sessions were all listed if and only if that has not happened. |
| AuthExpiry.OneWebWhileIndexLives | src/modules/auth/infras/session/redis-session.ts:41-71 | While a user's index does not expire over his sessions he has at most one web session. |
| AuthExpiry.OneWebWithRecentLogins | src/modules/auth/infras/session/redis-session.ts:6-71 | With the lifetime of thirty days that a login gives the index: a user who at every time he has a session has logged in less than thirty days before has at most one web session, and logging out everywhere ends all he has. |
| AuthRuns.ExpiredIndexLeavesTwoWebSessions | src/modules/auth/infras/session/redis-session.ts:41-71 | A run with times: a web session exchanged every six days outlives its index, a web login elsewhere does not find it, and the tokens of both web sessions work. |
| AuthRuns.ExpiredIndexEscapesLogoutEverywhere | src/modules/auth/usecase/index.ts:1075-1081 | A run with times: the same session still works after logging out everywhere. |
| AuthSafety.OneAcceptedTokenPerDevice | src/modules/auth/usecase/index.ts:744-776 | In any state whatever, however it was reached, two accepted access tokens of one device are the same token. |
| AuthSafety.OneExchangeableTokenPerDevice | src/modules/auth/usecase/index.ts:624-680 | In any state whatever, however it was reached, two exchangeable refresh tokens of one device are the same token. |
| AuthSafety.LiveSessionTokens | src/modules/auth/usecase/index.ts:744-776 | A live session's refresh token works exactly while its user is enabled and at its version, and its access token exactly while besides it is not blacklisted; then no other token of the device does. |
| AuthSafety.ExchangeReplacesTokens | src/modules/auth/usecase/index.ts:680-702 | After an exchange the new pair works and the old one does not. |
| AuthSafety.LoginIssuesWorkingTokens | src/modules/auth/usecase/index.ts:350-445 | The pair a login returns works, and no other token of the device does. |
| AuthAnswers.TokensAreGivenOnlyFor | src/modules/auth/usecase/index.ts:350-717 | A session with a refresh token its device did not have is given only to a stored, enabled and verified user with his password, to a newly registered one, or in exchange for the stored token that session held. |
| AuthAnswers.ActsIffGranted | src/modules/auth/usecase/index.ts:350-1102 | Exactly when each use case is granted; a refused one changes nothing unless it presents a used token. |
| AuthAnswers.VersionRisesIff | src/modules/auth/usecase/index.ts:971-1051 | A user's version rises, by one, exactly for his password or a reset token of his. |
| AuthAnswers.SessionsComeOut | src/modules/auth/usecase/index.ts:350-1102 | The session every device has after each use case: the one written, or the one it had unless that is ended or expires. |
| AuthAnswers.RefreshTokensComeOut | src/modules/auth/usecase/index.ts:228-244 | A refresh token is stored from its issue until it is spent or the session that holds it is ended. |
| AuthAnswers.BlacklistComesOut | src/modules/auth/usecase/index.ts:228-244 | An access token is blacklisted exactly by ending the session that holds it or by logging out with it. |
| AuthAnswers.IndexComesOut | src/modules/auth/infras/session/redis-session.ts:41-139 | A device is in the index of who logs in on it until that session is ended, the index is gone through without it, or the index expires. |
| AuthAnswers.AccountsComeOut | src/modules/auth/usecase/index.ts:971-1051 | Accounts, used tokens and reset tokens after each use case. |
| AuthAnswers.ErrorsAreTrue | src/modules/auth/usecase/index.ts:350-1102 | Each error is true of the stores or of what was asked. |
| AuthAnswers.AllowedMeans | src/modules/auth/usecase/index.ts:350-1102 | What runs take for granted of a step: generated ids are new, and a token logged out with was issued. |
| AuthSafety.RacingExchanges | src/modules/auth/usecase/index.ts:665-702 | An exchange checked before and written after another of the same token goes through too, and then only the later pair works. |
| AuthSafety.NoDoubleExchange | src/modules/auth/usecase/index.ts:624-699 | No refresh token is exchanged twice in any run in which each exchange is one step; for interleaved ones see `AuthRaces.ExchangedTwiceIff`. |
| AuthRaces.ExchangedTwiceIff | src/modules/auth/usecase/index.ts:632-702 | Over all interleavings of exchanges, logins and the other use cases that run to completion: a refresh token is exchanged twice if and only if a second call passes its checks before the first call's write. |
| AuthRaces.WrittenIsSpent | src/modules/auth/infras/redis/refresh-store.ts:36-46 | After a write no check ever passes with the token again, whatever is interleaved. |
| AuthRaces.UndisturbedExchange | src/modules/auth/usecase/index.ts:632-702 | The four steps of an exchange, with nothing in between, are the exchange of one step. |
| AuthRaces.UndisturbedLogin | src/modules/auth/usecase/index.ts:393-428 | So are the two steps of a login. |
| AuthRaceSessions.StepKeepsBackedIff | src/modules/auth/usecase/index.ts:665-702 | A step keeps every session with its own refresh token, or one that an exchange is about to replace, if and only if it does not write one user's new pair into another user's session. |
| AuthRaceSessions.RacesKeepBackedIff | src/modules/auth/usecase/index.ts:665-702 | Up to any point of an interleaving every session has had its own tokens if and only if no exchange did that. |
| AuthRaceSessions.QuietRacesKeepInv | src/modules/auth/usecase/index.ts:624-717 | Then, whenever no exchange is between its writes, all that runs of whole use cases keep holds after interleaved ones. |
| AuthRuns.ExchangeMixesTwoUsers | src/modules/auth/infras/session/redis-session.ts:59-71 | A run where one does: a second user takes the device over between the checks and the reading of the session, and no refresh token of the device works any more. |
| AuthRaces.ReachableRacesKeepInv | src/modules/auth/usecase/index.ts:350-717 | In every interleaving, the two halves of a session update and all expiries included, the ids of sessions, stored tokens and waiting pairs are known and apart, and a waiting pair stays stored until it is written. |
| AuthRaces.OldVersionsStayRejected | src/modules/auth/usecase/index.ts:1026-1051 | However late an exchange or login is written, and whatever expires, no token of a version before a password change works again. |
| AuthExpiry.IssueKeepsOneWebIff | src/modules/auth/usecase/index.ts:402-428 | Writing a login's session keeps one web session per user exactly when no other web session of the user is there by then. |
| AuthRaceSessions.RaceStepKeepsOneWebIff | src/modules/auth/usecase/index.ts:393-428 | A step of an interleaving leaves a user at most one web session if and only if it does not write him one, by a login or by an exchange, while he has another. |
| AuthRaceSessions.OneWebInRacesIff | src/modules/auth/usecase/index.ts:350-717 | Up to any point of an interleaving he has had at most one at a time if and only if no step did that. |
| AuthRaceSessions.OneWebUnlessRaced | src/modules/auth/usecase/index.ts:393-428 | It takes one of three causes: a web login that starts with a web session unlisted, two web logins of the user that overlap, or an exchange that writes back a web session ended since it was read. |
| AuthRuns.OverlappingLoginsLeaveTwo | src/modules/auth/usecase/index.ts:393-428 | A run of two web logins that both end the earlier sessions before either writes: both web sessions work. |
| AuthRuns.ExchangeLeavesTwoWebSessions | src/modules/auth/infras/session/redis-session.ts:59-71 | A run without overlapping logins: an exchange writes back the web session that a web login has ended, and both work. |
| AuthRuns.TwoCallsExchangeOneToken | src/modules/auth/usecase/index.ts:632-702 | A run in which two calls exchange one token. |
| AuthRaceSessions.StepKeepsNoneIff | src/modules/auth/usecase/index.ts:350-717 | A user without a session gets one exactly by a login, a registration, or an exchange that had read one of his. |
| AuthRaceSessions.LoggedOutStaysIff | src/modules/auth/usecase/index.ts:1075-1081 | So a user whose sessions have all ended has none up to any later point if and only if no such step came in between. |
| AuthRaceSessions.RevivedWasReadBefore | src/modules/auth/infras/session/redis-session.ts:59-71 | And an exchange that brings one back had read it before they ended. |
| AuthRuns.ExchangeRevivesTheSession | src/modules/auth/infras/session/redis-session.ts:59-71 | A run: an exchange reads the session, the user logs out everywhere, and the session comes back, unlisted and with a pair that works. |
| AuthSafety.ReuseEndsTheSession | src/modules/auth/usecase/index.ts:634-645 | Presenting a used token again ends the session it was used for, if it is still the same user's, and nothing else. |
| AuthSafety.OldTokensStayRejected | src/modules/auth/usecase/index.ts:1026-1051 | A token that ever worked never works again once its user's password has changed. |
| AuthSafety.LogoutEndsTheSession | src/modules/auth/usecase/index.ts:719-731 | Logging out blacklists the token used and ends the user's session on the chosen device, and no other session. |
| AuthExpiry.RevokeOthersIff | src/modules/auth/usecase/index.ts:1083-1102 | In any state, ending the other sessions leaves the user the current one unchanged, and no other if and only if the index lists all others. |
| AuthExpiry.TokensAfterRevokingOthers | src/modules/auth/usecase/index.ts:1083-1102 | Of the user's tokens exactly those still work that worked before and are of the current device or of one the index does not list. |
| AuthExpiry.LogoutEverywhereIff | src/modules/auth/usecase/index.ts:1075-1081 | In any state, logging out everywhere leaves the user no session if and only if his index lists all of them. |
| AuthExpiry.TokensAfterLogoutEverywhere | src/modules/auth/usecase/index.ts:1075-1081 | Of the user's tokens exactly those still work that worked before and are of a device the index does not list. |
| AuthExpiry.PasswordChangeEndsTokens | src/modules/auth/usecase/index.ts:971-1051 | After a password change or reset no token of the user up to his version then works, listed or not; a session, useless by then, is left if and only if one was unlisted. |
| AuthSafety.RevokeAllTouchesOthersIff | src/modules/auth/infras/session/redis-session.ts:15-46 | Logging out everywhere ends another user's session exactly when that user took over a device still in the first user's index. |
| AuthSafety.SharedDeviceIsLoggedOut | src/modules/auth/infras/session/redis-session.ts:15-46 | A run in which it does. |
| AuthSafety.ResetWorksOnce | src/modules/auth/usecase/index.ts:971-1024 | A reset token works once. |
| AuthService.AuthUseCase.RevokeSessionByDevice | src/modules/auth/usecase/index.ts:246-255 | Ends the session on a device only if it is the user's. |
| AuthService.AuthUseCase.RevokeEach | src/modules/auth/usecase/index.ts:1075-1081 | Ending sessions one after the other ends exactly those. |
| AuthService.AuthUseCase.CreateSession | src/modules/auth/infras/session/redis-session.ts:15-46 | Writes the device's session over whatever was there, lists it and stores its refresh token; the lifetimes it sets are the expiry steps of `AuthModel`, bounded by `AuthExpiry.KeepsLifetimes`. |
| AuthTheorems.IssueKeepsInv | src/modules/auth/usecase/index.ts:402-428 | A new session at its user's version is sound, whatever other sessions there are. |
| AuthTheorems.ExchangeKeepsInv | src/modules/auth/usecase/index.ts:680-702 | So is an exchanged one. |
| AuthTheorems.RevokeKeepsInv | src/modules/auth/usecase/index.ts:228-244 | Ending sessions never takes another session's refresh token. |
| AuthTheorems.PasswordChangeKeepsInv | src/modules/auth/usecase/index.ts:1026-1051 | A password change keeps the invariant, although a session that the index does not list stays behind at its old version. |
| AuthExpiry.TokensAfterRevoking | src/modules/auth/usecase/index.ts:228-244 | Ending listed sessions ends the tokens of exactly those devices, access and refresh tokens alike. |
| SendProtocol.ReachableStatesKeepInv | src/modules/chat/usecase/send-message.ts:106-111 | In every interleaving only the reserving call writes, and what is stored is a prefix of its batch. |
| SendProtocol.OneCallInserts | src/modules/chat/usecase/send-message.ts:106-241 | At most one call for a client id ever inserts messages or raises unread counts. |
| SendProtocol.UnreadRaisedOnce | src/modules/chat/usecase/send-message.ts:224-227 | Unread counts are raised at most once. |
| SendProtocol.ReturnsArePrefixesOfOneBatch | src/modules/chat/usecase/send-message.ts:224-274 | Whatever a call returns is a non-empty prefix of the winner's batch, and the winner's own answer is all of it. |
| SendProtocol.AnswersAreWholeIff | src/modules/chat/usecase/send-message.ts:106-274 | For any batch of messages: every answer of every call in every interleaving is the whole batch if and only if the batch is one message. |
| SendProtocol.SendIsAnsweredInFullIff | src/modules/chat/usecase/send-message.ts:113-193 | In terms of what is sent: exactly for a text alone, or one attachment without a link in its text. |
| SendProtocol.WaiterGetsWhatIsInserted | src/modules/chat/infras/repository/dynamodb/message-repo.ts:167-214 | A waiting call is handed exactly what the winner has inserted by then. |
| SendProtocol.WaiterMayGetOne | src/modules/chat/infras/repository/dynamodb/message-repo.ts:184-193 | For any batch a run in which a waiting call is handed its first message alone. |
| SendProtocol.AfterTheWinnerReturned | src/modules/chat/infras/repository/dynamodb/message-repo.ts:447-480 | Once the winner has returned every look-up yields its whole batch and no call inserts. |
| SendProtocol.WaitForClientMessages | src/modules/chat/usecase/send-message.ts:259-274 | Ten attempts: the first non-empty answer, or a failure exactly when all ten were empty. |
| SendProtocol.GivesUpAfterTenPolls | src/modules/chat/usecase/send-message.ts:259-274 | In every interleaving a waiting call gives up after exactly ten polls. |
| SendProtocol.AnswersStay | src/modules/chat/usecase/send-message.ts:106-241 | What a call has answered stays its answer, and a call that is not over may crash at any time. |
| SendContent.SplitContent | src/modules/chat/usecase/send-message.ts:113-193 | The split into messages in the source's four cases. |
| SendContent.SplitCarriesMedia | src/modules/chat/usecase/send-message.ts:123-193 | Every attachment is sent exactly once and in order. |
| SendContent.SplitCarriesText | src/modules/chat/usecase/send-message.ts:123-193 | The text is sent exactly once, unless several attachments go out and it has no link: then each carries it. |
| SendContent.SplitIsOneIff | src/modules/chat/usecase/send-message.ts:115-193 | One message goes out exactly for a text alone or one attachment without a link. |
| SendContent.PartsMean | src/modules/chat/usecase/send-message.ts:113-193 | Each message's type and text by its attachments and the link. |
| SendContent.TypesMean | src/modules/chat/usecase/send-message.ts:113-193 | A message's type by its attachments: image before video before voice before file. |
| SendContent.PrimaryMeans | src/modules/chat/usecase/send-message.ts:200-203 | The message shown as the last: the first text or link, else the first image, else the first. |
| SendContent.PrimaryCarriesText | src/modules/chat/usecase/send-message.ts:200-203 | The message shown as the conversation's last carries the text. |
| SendProtocol.StepKeepsInv | src/modules/chat/usecase/send-message.ts:106-241 | Each step of each call keeps the store a prefix of the reserving call's batch. |
| SendProtocol.ReservationStays | src/modules/chat/infras/repository/dynamodb/message-repo.ts:414-445 | A reservation stays with its call, and what is stored only grows. |
| RateLimiter.Limiter.CheckRateLimit | src/share/utils/rate-limiter.ts:18-48 | Outside production always allowed; otherwise the counter's step, the remaining requests and the time to the reset. |
| RateLimiter.WindowAdmitsItsFirst | src/share/utils/rate-limiter.ts:30-41 | Requests that begin after the last window expired and fall within one window's length share one window, and exactly the first `maxRequests` of them are admitted. |
| RateLimiter.AtMostTwiceMinusOne | src/share/utils/rate-limiter.ts:30-47 | No half-open interval of one window's length admits more than twice the maximum minus one, or anything if the maximum is zero. |
| RateLimiter.BoundIsAttained | src/share/utils/rate-limiter.ts:30-47 | For every positive maximum and window of at least two ticks a run attains that bound. |

## Left out

- Transport, storage engines, media, email, LiveKit and AI calls: libraries and services outside this repository.
- Token signing, password hashing and id generation: tokens are their payload, ids are fresh.
- The expiry of tokens: a token past its own date is refused by its signature check, and stored and used refresh tokens, blacklist entries and reset tokens are kept exactly as long as the token they are about, so only sessions and their index, which live longer, expire in the model.
- The expiry of client message reservations and invite links.
- Call participants are values inside their session, so a participant object held by an outside caller is not captured; room names, call types, providers and the timer's duration are omitted, and the missed users of a timeout are a set without order.
- Lost updates between concurrent group and poll handlers and between friend handlers other than sending, and the rollbacks after a partial failure: those handlers are atomic steps.
- CallInvariants.ReachableStatesKeepInv: takes fresh call ids and callers who are not among their own callees, as the call controller sees to; `CallService.CallV2Service.CreateCall` itself covers such callers.
- System messages, previews, last-message fields, activity touching, names and nicknames: they do not feed back into the modelled state.
- Dissolving a group, editing its information, pins, notes, archives, mutes, drafts, and the legacy call service: simpler twins of what is modelled.
- Poll questions, display settings, vote activity messages, pinning and deleting polls.
- Titles and message links of reminders, the worker's `running` flag and timer: one pass is one call.
- Time zones and daylight saving: the server's zone is taken to be UTC; the bounds of the Date range are not modelled.
- Building the items of the conversation list (activity time from member and message, self conversation, formatting): the comparator, sorting and paging are modelled on finished items. Negative limits and pages are not.
- Reactions, hydrated utility messages and seen markers of a history page.
- Generic create, update and delete entry points of friendships and friend requests, which no route reaches.
- An exchange that passes its checks and then fails before its writes: `AuthRaces.ExchangedTwiceIff` is about runs in which every exchange is written.
- Verification mails and one-time codes; a password reset begins with the stored reset token.
- The order of messages created in the same millisecond in a look-up by client id, and sends without a client id, which are not idempotent.
- Mentions and link classification in group sends; the split and the protocol are the same as for private sends.
- The store's rounding of remaining seconds in the rate limiter, and a crash between its two commands.
- GroupInvariants.ReachableGroupsKeepInv: asks for careful calls; the exact form is `GroupInvariants.ReachableGroupsKeepInvIff`.
- AuthSafety.NoDoubleExchange: takes the checks and writes of one exchange as one step; the interleaved case has its exact condition in `AuthRaces.ExchangedTwiceIff`.
- AuthService.AuthUseCase.RefreshTokens: is the exchange that nothing comes between; `CheckRefresh`, `SpendToken` and `UpdateSession` are its parts, which `AuthRaces` interleaves. Spending the token and storing the next one is one step there.
- AuthService.AuthUseCase.LogIn: is the login that nothing comes between; `AuthRaces` takes ending the earlier sessions and writing the new one as two steps, each of them whole: revoking a session, listing them and writing a session with its index entry are not split further.
- Search, suggestions, access checks on single messages and the reminder agent.
