# ServerSentEvent4Net broadcaster, modelled in Dafny

ServerSentEvent4Net serves Server-Sent Events from ASP.NET Web API. A `ServerSentEvent`
broadcaster keeps a list of subscribed clients, each wrapping the response stream of one
`text/event-stream` request. `Send` writes a message to every client and then drops the ones whose
connection was lost. A `MemoryMessageHistory` is meant to let a reconnecting client that presents
a `Last-Event-ID` be sent the messages it missed; as written nothing is replayed (see Left out and
Findings). `SimpleIdGenerator` can number outgoing messages.
The generic `ServerSentEvent<ClientInfo>` attaches an Info value to each client and sends only to
the clients whose Info satisfies a criteria predicate. The test project carries an earlier,
smaller broadcaster over a list of `StreamWriter`s.

The model is sequential Dafny:

- `Messages` holds the message record and its wire text (`ToString`), with a decoder that inverts it.
- `IdGeneration` holds the counter with Int32 wrap-around.
- `History` holds the history queue and its lookup.
- `Broadcast` holds the clients, the broadcaster and the replay loop of `AddClient`.
- `Legacy` holds the test project's broadcaster.
- `Wrappers`, `Strings` and `Seqs` are helpers: Option and Result, string predicates and decimal text, and sequence filtering, subsequences and removal.

Nothing is written to a real stream. For each write attempt the caller supplies its outcome:

- success;
- the HttpException "remote host closed the connection";
- another HttpException;
- a CommunicationException, or for the legacy broadcaster any other exception.

Each client and writer keeps a ghost log of the messages written to it and a ghost count of
attempts. A method's contract gives the new state of every client as a function of the old one
(`AfterSend`, `AfterWrite`). The SubscriberAdded and SubscriberRemoved events are modelled as ghost
sequences of the subscriber counts they carried.

Some conventions of the model:

- Null strings are modelled as `""`. `String.IsNullOrEmpty` and `IsNullOrWhiteSpace` keep their meaning.
- Lines end with CR LF (`Environment.NewLine` on the Windows host).
- The culture-dependent case-insensitive id comparison is a case-folding function `fold`, given to the history when it is constructed.

## Model

| member | source | states |
|---|---|---|
| Messages.ToString | ServerSentEvent4Net/ServerSentEvent.cs:274-289 | the text is empty exactly for a message with no field set, and otherwise ends with a line terminator |
| Messages.DecodeToString | ServerSentEvent4Net/ServerSentEvent.cs:274-289 | for field values without line breaks, decoding the event-stream text gives back the same message, so the text loses no field |
| Messages.WireFieldOrder | ServerSentEvent4Net/ServerSentEvent.cs:277-286 | the text is exactly the non-empty fields, one per line, in the order id, event, data, retry, comment |
| Messages.OnlyCommentIsOneCommentLine | ServerSentEvent4Net/ServerSentEvent.cs:291-298 | IsOnlyComment holds exactly when the text is a single comment line |
| Messages.HeartbeatText | ServerSentEvent4Net/ServerSentEvent.cs:261-264 | the heartbeat message is comment-only and its text is the single line `: heartbeat` |
| Messages.WireText | ServerSentEvent4Net/ServerSentEvent.cs:324-325 | WriteLine adds one more line terminator after the text, so a non-empty message ends with a blank line (two CR LF) and an empty message writes a bare line terminator |
| Messages.TranscriptAppend | ServerSentEvent4Net/ServerSentEvent.cs:325-326 | the text on a stream after two runs of writes is the first run's text followed by the second's |
| Messages.DataMessage | ServerSentEvent4Net/ServerSentEvent.cs:211 | Send(data) builds a message whose only field is the data, and it is never comment-only |
| Messages.EventMessage | ServerSentEvent4Net/ServerSentEvent.cs:212 | Send(data, eventType) gives an event field then a data field, and the message is never comment-only |
| Messages.IdentifiedMessage | ServerSentEvent4Net/ServerSentEvent.cs:213 | Send(data, eventType, messageId) gives id, event and data fields, and the message is never comment-only |
| IdGeneration.Increment | ServerSentEvent4Net/SimpleIdGenerator.cs:15 | Interlocked.Increment stays within the Int32 range (it wraps from MaxValue to MinValue) |
| IdGeneration.SimpleIdGenerator.constructor | ServerSentEvent4Net/SimpleIdGenerator.cs:11 | the counter starts at 0 |
| IdGeneration.SimpleIdGenerator.GetNextId | ServerSentEvent4Net/SimpleIdGenerator.cs:13-16 | the counter is incremented with wrap-around and the id is the decimal text of its new value |
| IdGeneration.FirstIdIsOne | ServerSentEvent4Net/SimpleIdGenerator.cs:11-16 | a fresh generator's first id is "1" |
| IdGeneration.IdsFromCount | ServerSentEvent4Net/SimpleIdGenerator.cs:13-16 | away from Int32.MaxValue, the i-th id from counter c is the text of c + i + 1 |
| IdGeneration.IdsIncrease | ServerSentEvent4Net/SimpleIdGenerator.cs:13-16 | below Int32.MaxValue, successive ids are pairwise distinct and their numeric values strictly increase |
| IdGeneration.IdsWrapAtMaxValue | ServerSentEvent4Net/SimpleIdGenerator.cs:15 | after "2147483647" the next id is "-2147483648", so ids stop increasing at the wrap |
| Strings.IntTextRoundTrip | ServerSentEvent4Net/SimpleIdGenerator.cs:15 | parsing Int32.ToString's decimal text gives back the number |
| History.FirstMatch | ServerSentEvent4Net/MemoryMessageHistory.cs:28-36 | the result is the position of the oldest message whose id equals the key ignoring case, or none when no message matches |
| History.NextMessageCases | ServerSentEvent4Net/MemoryMessageHistory.cs:22-40 | a message is found exactly when the id is not blank and some message other than the newest matches it; the one found follows the first match |
| History.MemoryMessageHistory.constructor | ServerSentEvent4Net/MemoryMessageHistory.cs:14-19 | a new history is empty whatever the capacity |
| History.MemoryMessageHistory.Add | ServerSentEvent4Net/MemoryMessageHistory.cs:42-48 | the message is appended at the tail and nothing is evicted |
| History.MemoryMessageHistory.GetNextMessage | ServerSentEvent4Net/MemoryMessageHistory.cs:22-40 | the loop returns exactly NextMessage of the queue: nothing for a blank id, otherwise the successor of the first match |
| Broadcast.Client.constructor | ServerSentEvent4Net/ServerSentEvent.cs:307-318 | a new client is connected and holds the Last-Event-ID it arrived with |
| Broadcast.Client.Send | ServerSentEvent4Net/ServerSentEvent.cs:320-342 | the new state is AfterSend: success logs the message and, unless it is comment-only, records its id; HostClosed and CommError disconnect; another HttpException changes nothing but the attempt count |
| Broadcast.SendTranscript | ServerSentEvent4Net/ServerSentEvent.cs:324-326 | after one Client.Send the stream's text grows by the message's WriteLine text exactly when the write succeeded |
| Broadcast.WriteEach | ServerSentEvent4Net/ServerSentEvent.cs:225 | every client on the list gets exactly one Send, with its own outcome |
| Broadcast.PruneKeepsConnected | ServerSentEvent4Net/ServerSentEvent.cs:226 | RemoveAll(!IsConnected) leaves only connected clients without duplicates, and the list shrinks exactly when some client was disconnected |
| Broadcast.Select | ServerSentEvent4Net/ServerSentEvent.cs:82-88 | the Where(...).ToList() selection is never longer than the client list (its members are given by SelectMembers) |
| Broadcast.SelectMembers | ServerSentEvent4Net/ServerSentEvent.cs:82-88 | the filtered list holds exactly the clients with information whose Info is non-null and satisfies the criteria |
| Broadcast.SelectInOrder | ServerSentEvent4Net/ServerSentEvent.cs:82-88 | the filtered list keeps the clients' order |
| Broadcast.SelectWithin | ServerSentEvent4Net/ServerSentEvent.cs:82-88 | the filtered list has no duplicates and every entry is a registered client |
| Broadcast.NeverSelected | ServerSentEvent4Net/ServerSentEvent.cs:83-87 | a plain client, or one whose Info is null, is never selected, whatever the criteria |
| Broadcast.ReplayRun | ServerSentEvent4Net/ServerSentEvent.cs:196-198 | the replay loop makes at most one write attempt per outcome supplied |
| Broadcast.ResumeStep | ServerSentEvent4Net/ServerSentEvent.cs:197-198 | sending the message GetNextMessage found and then resuming ends where resuming before the send ends |
| Broadcast.ResumeDone | ServerSentEvent4Net/ServerSentEvent.cs:197 | when GetNextMessage returns null, or no attempt is left, the client is unchanged, and the loop counts as finished exactly in the null case |
| Broadcast.ReplayDeliversMissed | ServerSentEvent4Net/ServerSentEvent.cs:195-198 | with non-blank, case-insensitively distinct history ids and successful writes, the client receives exactly the messages after its last id, in order, and the loop ends |
| Broadcast.ReplayNothingForUnknownId | ServerSentEvent4Net/ServerSentEvent.cs:195-198 | a blank Last-Event-ID, or one the history does not hold, gets nothing replayed |
| Broadcast.ReplaySpinsOnFailedWrite | ServerSentEvent4Net/ServerSentEvent.cs:196-198 | when a write fails, LastMessageId stays the same, so the loop retries the same message forever and delivers nothing |
| Broadcast.ReplaySpinsOnRepeatedId | ServerSentEvent4Net/ServerSentEvent.cs:196-198 | a comment-only message, or one whose id matches the same entry as the last id, is re-sent on every turn and the loop never ends |
| Broadcast.GenericHeartbeat | ServerSentEvent4Net/ServerSentEvent.cs:18-23 | the generic constructors of the earlier class drop the heartbeat interval, so no timer is armed; those of ServerSentEventGeneric.cs:17-22 forward it |
| Broadcast.AsWrittenReplaysNothing | ServerSentEvent4Net/ServerSentEvent.cs:172-182 | as written, the Last-Event-ID is read from the response content AddSubscriber created, which never carries one, so every client starts with an empty last id and replay sends nothing |
| Broadcast.ReconnectReplaysMissed | ServerSentEvent4Net/ServerSentEvent.cs:176-199 | with the request's Last-Event-ID, replayable history ids and successful writes, a new client receives exactly the messages it missed, stays connected, and the loop ends |
| Broadcast.ReconnectFromEntry | ServerSentEvent4Net/ServerSentEvent.cs:176-199 | a request whose Last-Event-ID names history entry k (not the newest) is sent exactly the entries after k when the request's header is read |
| Broadcast.SameIdMatchesAlike | ServerSentEvent4Net/MemoryMessageHistory.cs:31 | ids equal ignoring case find the same first history entry |
| Broadcast.NoInfoNeverSelected | ServerSentEvent4Net/ServerSentEventGeneric.cs:53-61 | a subscriber whose content carries a null Info, or that arrives on a plain content with a null default, is never selected by a filtered Send, whatever the criteria |
| Broadcast.IdRules | ServerSentEvent4Net/ServerSentEvent.cs:74-75 | the heartbeat never receives a generated id; for the messages the Send overloads build, the filtered and unfiltered id rules agree |
| Broadcast.Broadcaster.constructor | ServerSentEvent4Net/ServerSentEvent.cs:145-151 | a new empty history and no clients; a generator exactly when ids are requested; a heartbeat timer exactly for a positive interval, first due after 1000 ms and then every interval (SetupHeartbeat, ServerSentEvent.cs:255-259) |
| Broadcast.Broadcaster.FromParts | ServerSentEvent4Net/ServerSentEvent.cs:161-164 | the broadcaster uses the given history and generator and has no clients |
| Broadcast.Broadcaster.Create | ServerSentEvent4Net/ServerSentEvent.cs:153-165 | a null history is refused first, then a null generator; otherwise a broadcaster over the given parts |
| Broadcast.Broadcaster.AddClient | ServerSentEvent4Net/ServerSentEvent.cs:184-199 | the client is appended, SubscriberAdded carries the new count, and the client ends in the state the replay loop gives (Resume) |
| Broadcast.Broadcaster.ReplayMissed | ServerSentEvent4Net/ServerSentEvent.cs:195-198 | the loop leaves the client in the state Resume gives, and reports whether GetNextMessage returned null within the attempts supplied |
| Broadcast.Broadcaster.OnStreamAvailable | ServerSentEvent4Net/ServerSentEvent.cs:176-209 | a fresh plain client is appended whose last id is the first of the Last-Event-ID values given, or "" when there is none (GetLastMessageId), and the replay loop runs from that state |
| Broadcast.Broadcaster.OnStreamAvailableWithInfo | ServerSentEvent4Net/ServerSentEventGeneric.cs:53-68 | a fresh client is appended carrying the Info of the PushStreamContentWithClientInfomation that AddSubscriber put on the response (ServerSentEventGeneric.cs:49), or default(ClientInfo) for another content (InfoOf), seeded like OnStreamAvailable's, and the replay loop runs from that state |
| Broadcast.Broadcaster.PruneDisconnected | ServerSentEvent4Net/ServerSentEvent.cs:226 | exactly the disconnected clients are removed, in list order; the count removed is returned; it is positive exactly when one was disconnected |
| Broadcast.Broadcaster.StampId | ServerSentEvent4Net/ServerSentEvent.cs:218-219 | when an id is needed, the generator advances once and the message takes its id; otherwise neither changes |
| Broadcast.Broadcaster.Send | ServerSentEvent4Net/ServerSentEvent.cs:215-237 | an id is stamped when blank, a generator exists and the message is not comment-only; every client gets one Send in order; disconnected clients are pruned; SubscriberRemoved carries the remaining count when some were pruned; the history is untouched |
| Broadcast.Broadcaster.SendFiltered | ServerSentEvent4Net/ServerSentEvent.cs:71-98 | the id is stamped without the comment-only test; only the selected clients get one Send each; the others are unchanged; the whole list is pruned; SubscriberRemoved carries the number selected |
| Broadcast.Broadcaster.TimerCallback | ServerSentEvent4Net/ServerSentEvent.cs:261-264 | every client gets the comment-only heartbeat, the generator does not advance, no subscriber is added, the history is untouched, and disconnected clients are pruned |
| Legacy.LegacyMessage.ToString | ServerSentEventsTest/ServerSentEvent.cs:75-84 | the text is empty exactly when both data and event type are empty |
| Legacy.ToStringAgrees | ServerSentEventsTest/ServerSentEvent.cs:75-84 | the two-field text equals the library's text for the same message, with no id, retry or comment |
| Legacy.DecodeLegacy | ServerSentEventsTest/ServerSentEvent.cs:75-84 | for values without line breaks, the text decodes back to the event type and data |
| Legacy.DataMessage | ServerSentEventsTest/ServerSentEvent.cs:32-35 | Send(data) builds a message with that data and no event type, whose text is the data line alone, with no event line |
| Legacy.EventMessage | ServerSentEventsTest/ServerSentEvent.cs:36-39 | Send(eventType, data) builds a message with both fields, in that order of arguments, whose text starts with the event line |
| Legacy.Writer.constructor | ServerSentEventsTest/ServerSentEvent.cs:25 | a new StreamWriter has written nothing |
| Legacy.Writer.WriteLine | ServerSentEventsTest/ServerSentEvent.cs:51-52 | one write attempt, and the message is logged only when it was written |
| Legacy.FirstThrown | ServerSentEventsTest/ServerSentEvent.cs:47-61 | the position of the first write that throws an exception other than HttpException: every earlier write did not |
| Legacy.SurvivorCount | ServerSentEventsTest/ServerSentEvent.cs:63-66 | the survivors are all streams less one per host-closed write |
| Legacy.LegacyBroadcaster.constructor | ServerSentEventsTest/ServerSentEvent.cs:13 | m_streams starts empty |
| Legacy.LegacyBroadcaster.OnStreamAvailable | ServerSentEventsTest/ServerSentEvent.cs:23-30 | a fresh writer with an empty log is appended to the list |
| Legacy.LegacyBroadcaster.WriteAll | ServerSentEventsTest/ServerSentEvent.cs:47-61 | each stream up to the first throwing write gets one attempt and the rest none; when nothing throws, toRemove is exactly the host-closed streams in list order |
| Legacy.LegacyBroadcaster.RemoveAll | ServerSentEventsTest/ServerSentEvent.cs:63-66 | List.Remove of each recorded stream leaves exactly the survivors, in order, without duplicates |
| Legacy.LegacyBroadcaster.Send | ServerSentEventsTest/ServerSentEvent.cs:41-68 | streams are written in order up to the first exception other than HttpException, and later streams are untouched; such an exception ends Send with the list unchanged; otherwise a stream stays exactly when its write did not report that the host closed, in the original order |
| Legacy.LegacyBroadcaster.SendData | ServerSentEventsTest/ServerSentEvent.cs:32-35 | the whole contract of Send, for a data-only message |
| Legacy.LegacyBroadcaster.SendEvent | ServerSentEventsTest/ServerSentEvent.cs:36-39 | the whole contract of Send, for a message with event type and data |

## Left out

- Locks and concurrency: mLock, mQueueLock, the thread-safety of Interlocked, and Timer callbacks overlapping with Send. Every operation is modelled as one sequential step.
- Timer scheduling: `heartbeatTimer` records the due time and period; TimerCallback is called explicitly.
- Logging (slf4net) and the SubscriberAdded/SubscriberRemoved event handlers. Only the counts the events carry are recorded.
- HTTP plumbing: AddSubscriber's response and its headers are left out. OnStreamAvailable takes the Last-Event-ID values to seed the client with as a parameter. As written these come from the response content, which never carries the header (see Findings).
- Stream I/O: StreamWriter output is modelled as a log of messages written, with WireText giving the text of each. Buffering and partial writes are not modelled.
- Broadcast.Broadcaster.ReplayMissed: the replay loop is bounded by the write outcomes supplied. An unbounded run of the loop as written (which can spin forever) is captured through ReplaySpinsOnFailedWrite and ReplaySpinsOnRepeatedId, not as non-termination.
- Broadcast.Broadcaster.SendFiltered: models the filtered Send of ServerSentEvent4Net/ServerSentEvent.cs:71-98. The later ServerSentEventGeneric.cs:70-86 hands the selection to SendAndRemoveDisconneced, whose body is not part of this model, so only its selection (Select) is modelled.
- Broadcast.Broadcaster.SendFiltered: the subscriber count it raises SubscriberRemoved with is the number of clients selected (ServerSentEvent.cs:91, 95), whereas the unfiltered Send passes the number remaining (lines 227, 231). The model follows the code on both.
- Exceptions other than HttpException and CommunicationException: Broadcast.Client.Send (ServerSentEvent.cs:320-342) catches only those two, so an IOException or ObjectDisposedException from a closed stream escapes it. In the source such an exception leaves the later clients of Broadcaster.Send, SendFiltered or TimerCallback unwritten, skips RemoveAll and SubscriberRemoved, and reaches the caller; in AddClient it ends the replay. WriteOutcome has no case for it, so the model does not capture these paths (the legacy broadcaster's Thrown outcome does).
- Broadcast.Broadcaster.ReplayMissed: a client that disconnects during replay keeps the loop at ServerSentEvent.cs:197-198 running forever on the OnStreamAvailable thread (ReplaySpinsOnFailedWrite), and so does a comment-only or repeated-id entry (ReplaySpinsOnRepeatedId). The model records this as the loop not finishing within the outcomes supplied, not as a corrected loop.
- Send overloads: the generic ones (ServerSentEventGeneric.cs:29, 36, 44) are modelled by the message builders DataMessage, EventMessage and IdentifiedMessage with SendFiltered, not as separate methods. The same holds for the unfiltered overloads with Send.
- Argument order of the two- and three-argument Send: IServerSentEvent.cs:39 and :46 declare `Send(eventType, data[, messageId])`, but ServerSentEvent.cs:212-213 and ServerSentEventGeneric.cs:36, 44 implement `Send(data, eventType[, messageId])`. A caller through the interface therefore has its event type sent as data and its data as the event type. Messages.EventMessage and Messages.IdentifiedMessage follow the implementation; the interface is not part of this model.
- Later filtered Send: unlike ServerSentEvent4Net/ServerSentEvent.cs:73-75, ServerSentEventGeneric.cs:70-86 stamps no id at all. It also omits the SubscriberRemoved event and hands the pruning to SendAndRemoveDisconneced. SendFiltered models the earlier version.
- Custom IMessageHistory and IMessageIdGenerator implementations: the injecting constructor takes the library's MemoryMessageHistory and SimpleIdGenerator.
- Broadcast.Broadcaster.constructor: requires `noOfMessagesToRemember >= 0`, for the same reason as the history constructor below. A negative argument makes the source throw from `new Queue(capacity)`.
- History.MemoryMessageHistory.constructor: `new Queue(capacity)` throws for a negative capacity. This is modelled as the precondition `noOfMessagesToRemember >= 0`, and the capacity has no other effect.
- Culture: String.Compare(a, b, true) under the current culture is modelled by the `fold` function. Culture-specific equalities such as ligature expansion are left to that function.
- Null strings: the model does not distinguish null from "". The source treats both alike in every IsNullOrEmpty and IsNullOrWhiteSpace test, and GetLastMessageId returns "" for a missing header.
- The broadcaster never adds sent messages to the history, and MemoryMessageHistory never evicts. The model follows the code on both points, although the noOfMessagesToRemember capacity (ServerSentEvent4Net/MemoryMessageHistory.cs:14-19) and the replay loop (ServerSentEvent4Net/ServerSentEvent.cs:195-198) point to a bounded history replayed on reconnect.
- IdGeneration.SimpleIdGenerator.GetNextId: negative ids after the wrap are written with '-'. Int32.ToString() uses the current culture's NegativeSign, and a culture with a different sign is not modelled.
- Field values containing line breaks: the source writes them raw, so multi-line data reaches clients as extra lines that event-stream parsers read as separate fields. The round-trip lemmas (DecodeToString, DecodeLegacy) require values without line breaks.
- The test project's ExtensionMethods, the demo controllers and the self-host program are not part of this model.

## Findings

| source | as written | input that shows it | evidently intended | confidence | as-written member | corrected member |
|---|---|---|---|---|---|---|
| ServerSentEvent4Net/ServerSentEvent.cs:176-182 | OnStreamAvailable passes to GetLastMessageId the response's PushStreamContent from AddSubscriber (line 172), whose headers never hold Last-Event-ID, so every client starts with an empty LastMessageId | a reconnecting request with Last-Event-ID naming any history entry but the newest | read the Last-Event-ID of the request, so the client is sent the messages after that entry | medium, not executed | Broadcast.AsWrittenReplaysNothing | Broadcast.ReconnectFromEntry |
