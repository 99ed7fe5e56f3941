# askuser in Dafny

askuser asks the user whether an application may use a privilege. A service plugin in Cynara
remembers permanent decisions and puts everything else to an agent. The agent keeps one window per
request; its windows are served by a talker that queues requests per user and hands them, one at a
time, to a popup process over a socket. The answer travels back the same way. This project models
these parts and proves what they promise to each other. `dafny verify dfyconfig.toml` checks all of
it.

## How it is laid out

The protocol between talker and popups
- `Link` is one connection: the popup's state (idle, asking, awaiting an ack, dead), the two FIFO
  channels, and what each side has done so far. It holds the joint invariant of the two ends.
- `World` is the talker's four maps, the descriptor table of the kernel, every connection there ever
  was, and a history of accepted, removed, answered and errored requests. Each critical section and
  each move of a popup is a step; `Run` and `Reachable` are any number of them in any order, with
  any sends failing and any popup dying at any time.
- `Frames` says of each critical section what it changes, and `Steps` of each step what it does to
  each connection. `Protocol` proves that every step keeps the invariant. `Safety`, `Integrity`,
  `Reuse`, `Cancel` and `Iteration` draw the theorems from it; `Races` exhibits the reachable runs
  they must allow for, and `Effects` says of whole calls and passes what they achieve, in terms of
  queues, maps and connections.
- `NotificationTalker` is the talker as the source writes it, a class whose methods update the maps
  in place; each method's new state is the matching function of `World` or `Iteration`.
- `Wire` goes down to bytes. The bytes carry no tags; by synchronisation they are still read as what
  they were written as. `AskUserTalker` is the popup's loop over those bytes, and `Lockstep` shows
  that along every run of talker and popups it stays in the state of its popup.

The decision cache
- `Lru` is the cache as a sequence ordered by use, evicting before it looks a key up.
  `CapacityCache` is the usage list of nodes and the map of references into it, and refines `Lru`.
  `ServicePlugin` adds the composite key and the agreement with the history of decisions.

The codecs
- `Decimal` and `Translator` hold printers and parsers as functions and their round trips;
  `InputStream` holds the parsers as loops over a stream with a position and a fail bit.

The agent
- `AgentModel` is its bookkeeping as a step relation with ownership of requests and accounting of
  replies; `Agent` is the agent and the static side of its windows as classes that update in place.

`EndToEnd` joins agent and plugin: from the button pressed to the checks answered later.

`Types` and `Ordering` are shared: datatypes, and the order in which a `std::map` is iterated.

## What the proofs found

Five properties one would expect do not hold. For each, the code is kept as it is, a concrete input
or a run from the initial state shows the failure, and when things do go right is stated as an if
and only if.

- A cancel can be lost. `removeRequest` returns at the first user, in map order, whose queue lacks
  the id (NotificationTalker.cpp:108-111), and users keep an empty queue for ever. With the id held
  by one user, cancelling works if and only if that user is first among all users that ever had a
  queue (`Cancel.CancelWorksIffFirstUser`). `Races.CancelLostReachable` is the run.
- "Incorrect dismiss flag" is reachable, though never through a wrong byte: `shouldDismiss` ignores
  the result of `recv`, and at the end of the stream compares the zero it started with. It is
  raised if and only if the popup polls while it asks, and the connection is closed with nothing left
  to read (`Safety.IncorrectDismissFlagIffClosedWhileAsking`); a dismiss sent before the connection
  closed is still read as one. `Races.IncorrectDismissFlagReachable` is the run.
- "Incorrect ack" is reachable: it is raised if and only if the popup reads, for its ack, the dismiss
  that takes its request back (`Safety.IncorrectAckIffDismissed`), which is what happens when a
  cancel crosses an answer (`Races.IncorrectAckReachable`).
- An answer can be handed on for a request it was not given for, when an id is used again while an
  answer or a question under it is still about (`Races.ReusedIdTakesTheAnswer`;
  `AgentModel.StaleAnswerSettlesReusedId` at the agent). At the talker, the answer read next is for
  the request it is handed on for if and only if nothing was sent after the frame it answers, or what
  was sent next took back an equal request (`Integrity.AcceptedAnswerIsForTheHeadIff`). Popups can
  bring an answer that goes astray if and only if another question of the head's id is still open on
  the connection (`Reuse.AstrayIff`). What a caller has to check is in `Reuse.AddKeepsOwnIff`:
  accepting a request keeps ids and open questions apart if and only if no other question of its id
  is open; over a run they stay apart if and only if every acceptance met that
  (`Reuse.OwnThroughoutIff`), and then every answer is handed on for its own request
  (`Reuse.AnswersAreExact`). At the agent it is `AgentModel.AdmissionKeepsOwnAnswersIff`, and
  over runs `AgentModel.OwnThroughoutIff`.
- `dataToAnswer` checks the upper bound of the number it reads but not the lower one, so negative
  numbers wrap into valid policy types (`Translator.NegativeTextAllowsForLife`). It yields the number
  if and only if that is not negative (`Translator.AnswerIsTheNumberIffNotNegative`).

The cache evicts before it looks the key up. A key is therefore safe for capacity - 2 other keys, not
capacity - 1 (`Lru.Retention` has the exact condition, `Lru.CapacityMinusOneIsTooMany` the input).

## Model

| member | source | states |
|---|---|---|
| `Safety.Synchronised` | src/agent/notification-daemon/AskUserTalker.cpp:125-204 | In every reachable state the next message to a popup is a frame when it is idle, the dismiss of its own request while it asks, and the ack or that dismiss while it awaits the ack; no popup ever parsed bytes meant for another state. |
| `Safety.IncorrectDismissFlagIffClosedWhileAsking` | src/agent/notification-daemon/AskUserTalker.cpp:190-204 | A step raises "Incorrect dismiss flag" if and only if it is a popup polling while it asks, and the connection is closed with nothing left to read. |
| `Races.IncorrectDismissFlagReachable` | src/agent/notification-daemon/AskUserTalker.cpp:190-204 | For every request that fits the size limit there is a run, ending in a shutdown while its popup asks, in which the popup raises that flag. |
| `Safety.IncorrectAckIffDismissed` | src/agent/notification-daemon/AskUserTalker.cpp:162-169 | A step raises "Incorrect ack" if and only if it is the popup reading the dismiss of its own request where it awaits the ack. |
| `Safety.IncorrectAckOnlyFromRace` | src/agent/notification-daemon/AskUserTalker.cpp:162-169 | "Incorrect ack" only ever follows an answer to a request that the talker removed and dismissed on this same connection. |
| `Races.IncorrectAckReachable` | src/agent/main/NotificationTalker.cpp:101-121 | For every request that fits the size limit there is a run in which its popup ends with "Incorrect ack". |
| `Safety.Agreement` | src/agent/notification-daemon/AskUserTalker.cpp:150-181 | Over every run, what passed a popup's ack check is a prefix of what the response handler was given from that connection: same requests, same answers, same order. |
| `Safety.AckMeansHandled` | src/agent/main/NotificationTalker.cpp:181-211 | When an ack is about to be read, the talker has handed on exactly the pair the popup is waiting with, as the entry following all it has already passed. |
| `Integrity.AnswersAreTheUsers` | src/agent/main/NotificationTalker.cpp:181-211 | Over every run, what is handed on from a connection is drawn in order, none twice, from the answers given there, each for its own request or for a removed one of the same id. |
| `Integrity.AcceptedAnswerIsTheUsers` | src/agent/main/NotificationTalker.cpp:183-203 | A response about to be accepted is the last answer given on that connection, for the head of the queue or for a removed request whose id the head uses again. |
| `Integrity.AcceptedAnswerIsForTheHeadIff` | src/agent/main/NotificationTalker.cpp:190-203 | The step that accepts an answer hands on the very verdict the user gave if and only if nothing was sent after the frame it answers, or what was sent next took back an equal request; in the first case the connection is busy with it. |
| `Integrity.WithoutReuseAnswersAreExact` | src/agent/main/NotificationTalker.cpp:190-203 | Read off the history alone: if no other request was ever removed under an answered id, the answers handed on are a subsequence of the answers given. |
| `Reuse.NextOwn` | src/agent/main/NotificationTalker.cpp:87-307 | No step but the acceptance of a request brings an id into a queue while another question of that id may still be answered. |
| `Reuse.AddKeepsOwnIff` | src/agent/main/NotificationTalker.cpp:87-99 | Accepting a request keeps ids and open questions apart if and only if no other question of its id is open on its user's connection. |
| `Reuse.OwnThroughoutIff` | src/agent/main/NotificationTalker.cpp:87-307 | They stay apart all along a run if and only if no request is accepted while another question of its id is open. |
| `Reuse.AnswersAreExact` | src/agent/main/NotificationTalker.cpp:181-211 | Over every such run the answers handed on are a subsequence of the answers given: same request, same decision, in order, none twice. |
| `Reuse.AstrayIff` | src/agent/main/NotificationTalker.cpp:181-203 | From a reachable state the popups alone can bring an answer that has the head's id and was given for another request, if and only if such a question is still open on the connection. |
| `Races.ReusedIdTakesTheAnswer` | src/agent/main/NotificationTalker.cpp:101-121 | A run in which the user allowed one request and the talker hands that on as allowing another of the same id. |
| `Safety.QueueConservation` | src/agent/main/NotificationTalker.cpp:87-211 | Per user and over every run: accepted requests in arrival order, less the removed ones, are the answered ones in answer order followed by the queue. |
| `Safety.FailureAnswersTheRest` | src/agent/main/NotificationTalker.cpp:318-324 | When the loop fails, the errors sent are exactly the remaining queue, so each surviving request has been answered exactly once, in order. |
| `Safety.ReachableConnections` | src/agent/main/NotificationTalker.cpp:150-211 | In every reachable state a busy connection is busy with the head of its user's queue, which is the request last sent on it; a user has one descriptor. |
| `Safety.ReachableQueues` | src/agent/main/NotificationTalker.cpp:87-121 | No queue ever holds an id twice, and every entry belongs to the queue's user. |
| `Safety.ReachableInv` | src/agent/main/NotificationTalker.cpp:87-325 | The joint invariant of talker, channels and popups holds in every reachable state. |
| `Safety.ShutdownIsFinal` | src/agent/main/NotificationTalker.cpp:128-148 | Whatever happens after a shutdown: on every connection there was, no byte is sent any more, no answer is handed on, and what its popup takes past the ack check had been handed on before. |
| `Protocol.NextInv` | src/agent/main/NotificationTalker.cpp:87-325 | Every step keeps the joint invariant, whichever sends fail. |
| `Steps.NextLink` | src/agent/main/NotificationTalker.cpp:87-307 | Every step of talker or popup does to each connection there is exactly one of eleven moves, which one being a function of the maps, the queues and the step. |
| `Protocol.MatchedResponseInv` | src/agent/main/NotificationTalker.cpp:190-211 | Accepting a response keeps the invariant, acknowledged or not, even when the answer is stale and its id reused. |
| `Protocol.StaleResponseInv` | src/agent/main/NotificationTalker.cpp:183-195 | A response for an empty queue or for another id frees the connection and keeps the invariant. |
| `Protocol.WithdrawInv` | src/agent/main/NotificationTalker.cpp:105-119 | Removing a head or an inner entry, with or without a dismiss, keeps the invariant and the conservation of requests. |
| `Protocol.ConnectInv` | src/agent/main/NotificationTalker.cpp:249-255 | A reconnect that replaces a user's old descriptor keeps the invariant. |
| `Protocol.FailLog` | src/agent/main/NotificationTalker.cpp:318-324 | For each user the errors add exactly the remaining queue to what was responded, and nothing to what was handed on. |
| `World.RunWired` | src/agent/main/NotificationTalker.cpp:128-272 | Over every run user-to-descriptor and descriptor-to-user are inverse bijections, the status map has the same descriptors, and each names the open connection of its user. |
| `World.RemoveWired` | src/agent/main/NotificationTalker.cpp:265-272 | Dropping a descriptor, after a failed send for example, keeps the maps inverse to each other. |
| `World.ConnectWired` | src/agent/main/NotificationTalker.cpp:249-255 | Adding a descriptor for a user without one keeps them so. |
| `Link.ReceiveInv` | src/agent/notification-daemon/AskUserTalker.cpp:125-181 | Whatever a popup reads next, the two ends of the connection keep agreeing on what follows. |
| `Link.AnswerInv` | src/agent/notification-daemon/AskUserTalker.cpp:150-160 | An answer, delivered or lost with the connection, keeps that agreement. |
| `Link.SendDismissInv` | src/agent/main/NotificationTalker.cpp:170-179 | A dismiss sent for the standing request takes it back in every state the popup may be in. |
| `Link.SendFrameInv` | src/agent/main/NotificationTalker.cpp:150-168 | A request sent on a free connection becomes the standing one, even while a popup still awaits an earlier ack. |
| `Link.MatchInv` | src/agent/main/NotificationTalker.cpp:197-210 | Accepting an answer and acknowledging it, or losing the connection instead, keeps the agreement. |
| `Link.StaleInv` | src/agent/main/NotificationTalker.cpp:183-195 | An answer that is not for the standing request can only be for one whose dismiss is already on its way. |
| `Cancel.RemoveRequestQueues` | src/agent/main/NotificationTalker.cpp:101-121 | Cancelling takes the id, and nothing else, out of exactly the queues the scan reaches, and keeps the order of all other entries. |
| `Cancel.CancelledIffReached` | src/agent/main/NotificationTalker.cpp:101-121 | An id is gone from a user's queue afterwards if and only if it was not there, or every user up to that one in map order held it. |
| `Cancel.CancelWorksIffFirstUser` | src/agent/main/NotificationTalker.cpp:101-121 | With the id held by one user only, cancelling works if and only if that user is first in the map. |
| `Cancel.CancelLost` | src/agent/main/NotificationTalker.cpp:108-111 | A state in which it fails: an earlier user with an empty queue. |
| `Races.CancelLostReachable` | src/agent/main/NotificationTalker.cpp:101-121 | The run that leads there: for any two users in map order, the second's only request stays queued through its own cancel. |
| `Cancel.CancelRecords` | src/agent/main/NotificationTalker.cpp:112-119 | A head the scan reaches is taken down as removed. |
| `Cancel.CancelDismissesBusyHead` | src/agent/main/NotificationTalker.cpp:112-117 | A cancel sends a dismiss on a connection exactly when the request was reached, is the head and the connection is busy with it; every other connection is untouched. |
| `Iteration.PassServesEverything` | src/agent/main/NotificationTalker.cpp:278-307 | At the end of a pass no registered connection is both free and has a request queued. |
| `Iteration.PassReadsEveryReady` | src/agent/main/NotificationTalker.cpp:213-230 | Every connection that was ready and is still registered after a new connection was taken in has been read, or dropped at the end of its stream, with no answer left unread. |
| `Iteration.PassIsRun` | src/agent/main/NotificationTalker.cpp:278-307 | A pass of the loop is a run of the step relation, so every theorem about runs holds each time the loop comes round. |
| `Effects.AcceptsExactlyNewIds` | src/agent/main/NotificationTalker.cpp:87-99 | A request is accepted, at the end of its user's queue, if and only if no entry there has its id, popup or no popup; other queues, the maps and every connection stay. |
| `Effects.ArrivalIsRegistered` | src/agent/main/NotificationTalker.cpp:249-255 | What was accepted is registered for its user, free, as a new connection with nothing sent or received; the user's older one is closed, the others stay. |
| `Effects.PassServesTheArrival` | src/agent/main/NotificationTalker.cpp:278-307 | A popup that connects has been sent exactly the frame of its user's head when the pass ends, or is registered and free if the queue is empty, or gone if the send failed. |
| `Effects.PassHandsOut` | src/agent/main/NotificationTalker.cpp:299-307 | In every pass a free connection whose user has a request queued is sent the frame of the head and nothing else, and is busy; every other registered connection is left alone. |
| `Effects.PassReadsWhatIsReady` | src/agent/main/NotificationTalker.cpp:213-230 | In every pass a ready connection has its response taken off, handed on for the head exactly if the ids agree, and acknowledged unless that failed; at the end of its stream it is closed with nothing left unread. |
| `Effects.FailureIsFinal` | src/agent/main/NotificationTalker.cpp:310-324 | A loop that fails marks the talker failed, for ever: afterwards nothing is accepted, answered or reported again. |
| `NotificationTalker.NotificationTalker.AddRequest` | src/agent/main/NotificationTalker.cpp:87-99 | The find-or-append on the map leaves a queue that holds the id as it is, and otherwise appends the request and records its acceptance. |
| `NotificationTalker.NotificationTalker.RemoveRequest` | src/agent/main/NotificationTalker.cpp:101-121 | The loop over the users with its early return removes exactly what the `World` step does. |
| `NotificationTalker.NotificationTalker.SendRequest` | src/agent/main/NotificationTalker.cpp:150-168 | The status goes to busy and the frame is sent, or the descriptor is dropped. |
| `NotificationTalker.NotificationTalker.SendDismiss` | src/agent/main/NotificationTalker.cpp:170-179 | A busy connection is sent a dismiss and freed, or dropped; a free one is left alone. |
| `NotificationTalker.NotificationTalker.ParseResponse` | src/agent/main/NotificationTalker.cpp:181-211 | The three branches of a response, with the status map's keys shown to be present. |
| `NotificationTalker.NotificationTalker.RecvResponses` | src/agent/main/NotificationTalker.cpp:213-230 | Stopping when the select count is used up serves the same connections as looking at all of them. |
| `NotificationTalker.NotificationTalker.NewConnection` | src/agent/main/NotificationTalker.cpp:232-263 | A new connection is registered in all three maps, free, replaces the user's old one, and takes one off the count. |
| `NotificationTalker.NotificationTalker.Remove` | src/agent/main/NotificationTalker.cpp:265-272 | A descriptor is closed and leaves all three maps. |
| `NotificationTalker.NotificationTalker.Turn` | src/agent/main/NotificationTalker.cpp:278-307 | A turn of the loop is a pass; afterwards every free connection's user has an empty queue. |
| `NotificationTalker.NotificationTalker.ReportFailure` | src/agent/main/NotificationTalker.cpp:318-324 | The nested loops answer every queued request with an error, in map order. |
| `NotificationTalker.NotificationTalker.Clear` | src/agent/main/NotificationTalker.cpp:128-141 | Every open connection is closed and the maps are empty. |
| `NotificationTalker.StopServing` | src/agent/main/NotificationTalker.cpp:216 | Once no ready descriptor is left, leaving the loop early loses no connection. |
| `NotificationTalker.CountLeft` | src/agent/main/NotificationTalker.cpp:287-297 | After a new connection has taken one off the select count, and perhaps dropped an older one, the count still covers every ready descriptor that is registered. |
| `Wire.BytesFollowMessages` | src/agent/notification-daemon/AskUserTalker.cpp:132-169 | In every reachable state reading raw bytes takes the popup where the message at the front is meant to take it, and leaves exactly the bytes of the messages behind it and of whatever is sent later. |
| `Wire.ReadFrame` | src/agent/notification-daemon/AskUserTalker.cpp:132-148 | A size and a frame, with anything behind them, are read as the request that was sent, or refused by size. |
| `AskUserTalker.TurnsFaithful` | src/agent/notification-daemon/AskUserTalker.cpp:121-182 | However many popups are shown and whatever follows each request in memory: the levels set are exactly those of the acknowledged allow and never answers, in order, and at most one sent answer lacks its ack. |
| `Lockstep.TurnsAreActs` | src/agent/notification-daemon/AskUserTalker.cpp:121-182 | The loop does nothing but read once in its present state, or write an answer to the request it shows. |
| `Lockstep.RunInStep` | src/agent/notification-daemon/AskUserTalker.cpp:121-204 | Along every run of talker and popups, whatever happens in between, being killed included, the process making its popup's moves on the bytes sent to it can make them and stays in that popup's state. |
| `Lockstep.LevelsWereHandled` | src/agent/notification-daemon/AskUserTalker.cpp:171-177 | There, the security levels it has set are exactly those of a prefix of the answers the talker handed on from that connection. |
| `Lockstep.ActsAreTurns` | src/agent/notification-daemon/AskUserTalker.cpp:121-182 | Whatever a popup process can do is whole turns of the loop, then perhaps a turn that has begun, and perhaps being killed. |
| `Lockstep.EveryLifeIsTurns` | src/agent/notification-daemon/AskUserTalker.cpp:121-182 | For every run, from its connection on: what the popup does is turns of the loop on the bytes sent to it, which set exactly the levels of a prefix of the answers handed on, and end where the popup is unless it is in the middle of a turn or was killed. |
| `AskUserTalker.LevelsAreExactly` | src/agent/notification-daemon/AskUserTalker.cpp:52-68 | One level is set for each allow and each never that passed, in the same order, and no others: "Allow" or "Deny", for the app the client names (what follows "User::App::", or all of it) and the privilege. |
| `AskUserTalker.LevelsAreAccepted` | src/agent/notification-daemon/AskUserTalker.cpp:59-68 | Every level set is one the policy store accepts; "Allow" only for an app and privilege the user allowed, "Deny" only for ones denied for ever. |
| `AskUserTalker.TurnOnBytes` | src/agent/notification-daemon/AskUserTalker.cpp:125-181 | A turn spelled out in bytes: which answers are written, what each next byte or the end of the stream leads to, that nothing passes and no level is set without the ack, and which level is set with it. |
| `AskUserTalker.IdleEnds` | src/agent/notification-daemon/AskUserTalker.cpp:132-144 | A frame over the limit, or the end of the stream, ends an idle process. |
| `AskUserTalker.AskUserTalker.Run` | src/agent/notification-daemon/AskUserTalker.cpp:121-182 | The loop with its early exits, in-place reads and a fresh buffer each time does what the turns say, and keeps the accounting above. |
| `AskUserTalker.AskUserTalker.ShouldDismiss` | src/agent/notification-daemon/AskUserTalker.cpp:190-204 | False, with nothing read, exactly when the poll finds nothing; true exactly when it finds the dismiss code; the exception otherwise, also at the end of the stream. |
| `Translator.RequestRoundTrip` | src/common/translator/Translator.cpp:35-92 | Decoding an encoded triple gives it back, whatever bytes the strings hold. |
| `Translator.NotificationRoundTrip` | src/common/translator/Translator.cpp:113-145 | Decoding an encoded notification followed by any bytes gives its id, client and privilege with an empty user. |
| `Translator.TextExamples` | src/common/translator/Translator.cpp:84-145 | The two formats, by example. |
| `Translator.FieldsRoundTrip` | src/common/translator/Translator.cpp:40-49 | The same for any number of length-prefixed fields, with anything in front that `>>` skips and anything behind. |
| `Translator.RequestToDataInjective` | src/common/translator/Translator.cpp:84-92 | Two requests with the same text are the same request. |
| `Translator.FrameFits` | src/common/config/Limits.cpp:33-42 | Ids of at most five digits and 8173 bytes of names always fit the limit of 8192 that the receiver checks; one more byte does not, once the id takes five digits and each length four. |
| `Translator.AnswerRoundTrip` | src/common/translator/Translator.cpp:53-82 | Every policy type survives the way from agent to plugin; both error texts become a denial. |
| `Translator.AnswerIsTheNumberIffNotNegative` | src/common/translator/Translator.cpp:64-82 | For a number within the upper bound, the conversion yields that number if and only if it is not negative. |
| `Translator.NumberConverts` | src/common/translator/Translator.cpp:69-81 | Data that begin with a number, after white space and a sign, convert to that number cast to the policy type, or fail if it is above the largest one or no long long. |
| `Translator.ConversionNeedsANumber` | src/common/translator/Translator.cpp:64-75 | Nothing else converts but the two error texts, which are a denial. |
| `Translator.NegativeAnswerWraps` | src/common/translator/Translator.cpp:81 | What a negative number becomes: it wraps around the width of the policy type. |
| `Translator.NegativeTextAllowsForLife` | src/common/translator/Translator.cpp:71-81 | The input that shows it: a negative text taken as a permanent permission. |
| `InputStream.DataToRequest` | src/common/translator/Translator.cpp:35-51 | The loop over a stream computes the decoder the round trip is proved about. |
| `InputStream.DataToNotificationRequest` | src/common/translator/Translator.cpp:113-136 | The same for notifications. |
| `InputStream.ExtractMembers` | src/common/translator/Translator.cpp:40-49 | The member loop, for any number of members, reads what the field parser reads and fails where it fails. |
| `Lru.Retention` | src/plugin/service/CapacityCache.h:66-123 | After its last use a key stays cached, over any later history without a clear, if and only if no update follows the use of capacity - 1 other keys; so up to capacity - 2 other keys are always safe. |
| `Lru.CapacityMinusOneIsTooMany` | src/plugin/service/CapacityCache.h:102-105 | With capacity - 1 other keys the key is lost, to an update of a key that is in the cache. |
| `Lru.CachedIsLastStored` | src/plugin/service/CapacityCache.h:66-123 | Over every history, whatever is cached is the value last stored under that key since the last clear. |
| `Lru.RunValid` | src/plugin/service/CapacityCache.h:66-123 | Over every history keys are distinct and the size stays within capacity. |
| `Lru.EvictFirst` | src/plugin/service/CapacityCache.h:97-123 | Update reports a key as new if and only if it was not there or was itself the entry given up; a full cache updating a key held elsewhere ends one short. |
| `Lru.OtherUse` | src/plugin/service/CapacityCache.h:66-123 | Where another key's entry stands after a use, whether its value is kept, and exactly when it is lost. |
| `CapacityCache.CapacityCache.Get` | src/plugin/service/CapacityCache.h:66-79 | List and map stay linked, and the hit, the value and the new order are those of the recency sequence. |
| `CapacityCache.CapacityCache.Update` | src/plugin/service/CapacityCache.h:97-123 | The same for update, with its return value; a capacity of zero does nothing. |
| `CapacityCache.CapacityCache.Evict` | src/plugin/service/CapacityCache.h:87-94 | The last node and its map entry go together. |
| `CapacityCache.CapacityCache.Clear` | src/plugin/service/CapacityCache.h:81-85 | Both containers are empty. |
| `CapacityCache.SplicedEntries` | src/plugin/service/CapacityCache.h:74-75 | Splicing the node a stored iterator names moves exactly that key's entry to the front; every other stored iterator stays good. |
| `CapacityCache.EvictedEntries` | src/plugin/service/CapacityCache.h:87-94 | Dropping the last node and its key drops the last entry and leaves the rest linked. |
| `ServicePlugin.HashInjective` | src/plugin/service/ServicePlugin.cpp:52-61 | Different triples never share a cache key, even with digits or the separator in the strings. |
| `ServicePlugin.LastDecisionIs` | src/plugin/service/ServicePlugin.cpp:104-135 | What settles a triple, event by event: data that convert to one of the two per-life answers, in an update of exactly that triple; an invalidation unsettles it; nothing else counts. |
| `ServicePlugin.PermanentAnswerStands` | src/plugin/service/ServicePlugin.cpp:76-135 | A permanent answer is found again as exactly what it was, over every later history that leaves the triple alone and uses at most capacity - 2 others. |
| `ServicePlugin.InvalidationForgets` | src/plugin/service/ServicePlugin.cpp:133-135 | After an invalidation no triple is found or decided. |
| `EndToEnd.ButtonDecidesLaterChecks` | src/plugin/service/ServicePlugin.cpp:76-135 | From allow (never) pressed in the popup to the plugin: every later check of that triple finds a permission (denial) for life, over such histories; any other button decides nothing for good. |
| `ServicePlugin.CachedIsLastDecision` | src/plugin/service/ServicePlugin.cpp:76-135 | Over every history of check, update and invalidate, what is cached for a triple is its last permanent decision since the last invalidation. |
| `ServicePlugin.DecisionLasts` | src/plugin/service/ServicePlugin.cpp:76-135 | From the last use of a triple on, the decision itself or a check that found it, and over any later checks and updates that leave the triple alone, a check finds it if and only if no decision follows the use of capacity - 1 other triples; so it is safe for capacity - 2. |
| `ServicePlugin.AskUserPlugin.Check` | src/plugin/service/ServicePlugin.cpp:76-102 | A ready answer allows exactly when the last decision for the triple was to allow for life and denies exactly when it was to deny for life; otherwise the data decode back to the triple. |
| `ServicePlugin.AskUserPlugin.Update` | src/plugin/service/ServicePlugin.cpp:104-131 | Per-life answers settle the triple as what they are and become the predefined ones, others pass through, and bad data change nothing. |
| `ServicePlugin.AskUserPlugin.Invalidate` | src/plugin/service/ServicePlugin.cpp:133-135 | The cache is empty and every triple undecided. |
| `AgentModel.ReplyConservation` | src/agent/main/Agent.cpp:153-205 | Over every interleaving, ids reused or not: replies for an id are the actions admitted or refused under it, less one while one is pending; cancels posted balance requests posted in the same way. |
| `AgentModel.Ownership` | src/agent/main/Agent.cpp:123-251 | Between any two steps pending map, window map and registry have the same keys, the registry names the owned window, and each request handed in is queued, pending or deleted, in one place only. |
| `AgentModel.RequestReplies` | src/agent/main/Agent.cpp:153-182 | What taking a request sends to Cynara: a confirmed cancel, an error for a declined window, nothing for duplicates and unknown cancels. |
| `AgentModel.ResponseReplies` | src/agent/main/Agent.cpp:184-205 | A UI response is replied to if and only if its id is pending. |
| `AgentModel.AdmissionKeepsOwnAnswersIff` | src/agent/main/Agent.cpp:174-181 | Admitting an id keeps every queued answer with its own window if and only if no answer under that id is still queued. |
| `AgentModel.OwnThroughoutIff` | src/agent/main/Agent.cpp:153-205 | Queued answers stay with their own windows all along a run if and only if no id is admitted while an answer under it is queued; openings that are declined or throw do no harm. |
| `AgentModel.AnswersSettleTheirOwnRequest` | src/agent/main/Agent.cpp:184-205 | Over every such run, a reply made from an answer settles the request the answer was given for. |
| `AgentModel.StaleAnswerSettlesReusedId` | src/agent/main/Agent.cpp:184-205 | The run that shows why: a queued answer of a closed window settles the next request of that id. |
| `AgentModel.StopsIff` | src/agent/main/Agent.cpp:83-92 | A step stops the agent if and only if it was stopped, or takes a close request, or an action not pending whose window throws. |
| `AgentModel.StoppingOnlyStops` | src/agent/main/Agent.cpp:83-87 | The step that stops it changes nothing else but the request that did it, which has left the queue and is deleted. |
| `AgentModel.StoppedIsFinal` | src/agent/main/Agent.cpp:63-112 | Over every run after that, nothing is processed: no request or answer leaves its queue, nothing is replied, posted, opened or deleted. |
| `AgentModel.CloseIsFinal` | src/agent/main/Agent.cpp:83-87 | So a close request that is taken is the last thing processed. |
| `AgentModel.TurnTakesOneOfEach` | src/agent/main/Agent.cpp:71-111 | A turn in which nothing arrives takes one request and one response, if there are any, unless the request stops it. |
| `AgentModel.RequestsTakenInOrder` | src/agent/main/Agent.cpp:71-92 | Over every run the requests taken, followed by the queue, are those handed in, in order. |
| `AgentModel.NamesReachTheWindow` | src/agent/main/Agent.cpp:207-215 | The triple the plugin encoded is the triple the window is opened with. |
| `AgentModel.AnswerReachesPlugin` | src/agent/main/Agent.cpp:253-270 | Allow and never in the popup arrive at the plugin as the two per-life decisions, everything else as none. |
| `AgentModel.KindsReachPlugin` | src/agent/main/Agent.cpp:253-270 | Each answer a window can give, as the policy type the plugin reads; errors and timeouts as a denial. |
| `AgentModel.AnswerTexts` | src/agent/main/Agent.cpp:184-200 | The texts sent for the five answers of the popup. |
| `AgentModel.FinishDeletesEverything` | src/agent/main/Agent.cpp:117-140 | With Cynara's thread stopped the end is orderly if and only if nothing is pending, and then everything ever handed in has been deleted, and nothing else has changed. |
| `Agent.Agent.ProcessCynaraRequest` | src/agent/main/Agent.cpp:153-182 | The method's new state is the step's, and it never deletes a request twice. |
| `Agent.Agent.ProcessUIResponse` | src/agent/main/Agent.cpp:184-205 | The same for answers. |
| `Agent.Agent.StartUIForRequest` | src/agent/main/Agent.cpp:207-221 | A window that opens is registered under its id and owned; one that does not leaves no registration. |
| `Agent.Agent.DismissUI` | src/agent/main/Agent.cpp:244-251 | The window, its registration and its request at the talker go together. |
| `Agent.Agent.NextRequest` | src/agent/main/Agent.cpp:73-92 | The head of the request queue is processed and every invariant holds again; the loop is stopped if and only if it was a close request, or an action not pending whose window threw. |
| `Agent.Agent.NextResponse` | src/agent/main/Agent.cpp:94-106 | The same for the head of the response queue. |
| `Agent.Agent.Turn` | src/agent/main/Agent.cpp:71-111 | A turn takes a request and then an answer, with whatever arrives while the lock is free, and stops between the two if told to. |
| `Agent.Agent.Drain` | src/agent/main/Agent.cpp:71-111 | While requests and answers keep arriving, the inner loop is a run of the step relation and keeps the invariant; with a turn for everything there is and everything that arrives, it ends with both queues empty or stopped. |
| `Agent.Agent.Finish` | src/agent/main/Agent.cpp:117-140 | The shutdown loops do what the specification of shutdown says. |
| `Agent.NotificationBackend.Start` | src/agent/ui/NotificationBackend.cpp:43-60 | The window is registered and its request posted, or the failure is reported after the registration. |
| `AgentModel.AnswerGoesToTheOwner` | src/agent/ui/NotificationBackend.cpp:62-89 | Over every run, an answer is queued for the one window open under its id, which is there if and only if a request is pending under it, and goes nowhere otherwise. |

## Left out

- Socket byte loops (src/common/socket/Socket.cpp): a send or receive moves a whole message, fails, or meets the end of the stream; partial transfers are not modelled, and neither is a socket error in the middle of a step other than a closed peer, which ends the loop.
- Erasing from a map that a range-for is iterating (src/agent/main/NotificationTalker.cpp:215-229, 299-307): the loops go over a snapshot of the keys and skip descriptors that are gone.
- Default insertion by `operator[]` in the descriptor maps: not modelled, since the keys are proved to be there; for the queue map it is modelled.
- The graphical side (GuiRunner): a popup is one choice, a button (or an error) or a dismiss. A button pressed while the timer reads a dismiss, and the way an exception takes through the toolkit's event loop, are not modelled; "Incorrect dismiss flag" is taken to end the popup.
- Threads, mutexes and signals: each critical section is one step. `quick_exit` is a result of shutting down, not an event in the middle of one.
- The kernel: descriptors are numbers that accept returns while not in use; select reports a connection as ready when a response or the end of its stream is there, and the end comes after everything sent.
- Credentials, security-manager, systemd, logging, locale and Cynara itself: inputs chosen freely or recorded events. Whether the policy store accepts an update is not modelled.
- `InputStream.DataToRequest`: a stream that fails yields `None`; what the source does with an uninitialised size, or with a size too large to allocate, is not modelled, since no encoder produces such input.
- `AskUserTalker.AskUserTalker.RunOnce`: the buffer handed to the decoder is not terminated in the source; the model lets anything follow it and proves that it does not matter for frames the talker sends.
- `Translator.AnswerRoundTrip`: the width of the policy type comes from a header that is not part of this model, so its maximum is a parameter (at least 16).
- `Agent.Agent.StartUIForRequest`: the interface may decline, so refusals are modelled, but NotificationBackend's own `start` only opens or throws. Its constructor throwing is the same outcome as `start` throwing.
- `cleanupUIThreads` between turns: it never dismisses a window, because nothing sets the flag it looks for; only its verdict at shutdown is modelled.
- The talker and the agent are not joined into one state: what the agent posts to the talker is recorded in order, and the talker accepts any posts in any order.
- ClientPlugin, exception classes, Path and SafeFunction: nothing there is hard to state or prove.
