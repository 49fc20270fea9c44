/**
 * The ServerSentEvent broadcaster and its clients, sequentially: the registry lock, the
 * history's queue lock and the heartbeat Timer's scheduling are not modelled.
 *
 * A stream write is not performed: the caller supplies its outcome, one per write attempt.
 * Each client keeps a ghost log of the messages written to it successfully (its stream received
 * their Transcript) and a ghost count of write attempts. The SubscriberAdded and
 * SubscriberRemoved notifications are the ghost sequences of subscriber counts they carried.
 */
module Broadcast {
  import opened Wrappers
  import opened Strings
  import opened Seqs
  import opened Messages
  import opened IdGeneration
  import opened History

  /** The result of one StreamWriter.WriteLine + Flush: success, HttpException -2147023667
      (the remote host closed the connection), another HttpException, or a CommunicationException. */
  datatype WriteOutcome = Ok | HostClosed | OtherHttpError | CommError

  /** The write failures after which Client.Send marks the client disconnected. */
  predicate Disconnects(o: WriteOutcome) {
    o.HostClosed? || o.CommError?
  }

  /** A plain Client, or a ClientWithInformation whose Info may be null (None). */
  datatype ClientKind<I> = Plain | WithInformation(info: Option<I>)

  class Client<I> {
    const kind: ClientKind<I>
    var isConnected: bool
    var lastMessageId: string
    /** The texts written to this client's stream. */
    ghost var log: seq<Message>
    /** The number of write attempts made on this client. */
    ghost var attempts: nat

    /** A new client is connected and remembers the Last-Event-ID it arrived with. */
    constructor (lastMessageId: string, kind: ClientKind<I>)
      ensures this.kind == kind && this.lastMessageId == lastMessageId
      ensures isConnected && log == [] && attempts == 0
    {
      this.kind := kind;
      this.lastMessageId := lastMessageId;
      isConnected := true;
      log := [];
      attempts := 0;
    }

    /** The client's observable state. */
    ghost function State(): ClientState
      reads this
    {
      ClientState(isConnected, lastMessageId, log, attempts)
    }

    /** Client.Send: one write attempt of the message text plus a line terminator. */
    method Send(msg: Message, outcome: WriteOutcome)
      modifies this
      ensures State() == AfterSend(old(State()), msg, outcome)
    {
      attempts := attempts + 1;
      match outcome
      case Ok =>
        log := log + [msg];
        if !IsOnlyComment(msg) {
          lastMessageId := msg.id;
        }
      case HostClosed =>
        isConnected := false;
      case OtherHttpError =>
      case CommError =>
        isConnected := false;
    }
  }

  /** What a client holds: its IsConnected flag, its LastMessageId, the texts written to its
      stream and the number of write attempts made on it. */
  datatype ClientState = ClientState(isConnected: bool, lastMessageId: string, log: seq<Message>, attempts: nat)

  /** The effect of one Client.Send: one attempt; on success the message is logged and, unless the
      message is comment-only, its id becomes the client's last id; a disconnecting failure clears
      IsConnected for good; a failure leaves the last id alone. */
  function AfterSend(s: ClientState, msg: Message, o: WriteOutcome): ClientState {
    ClientState(s.isConnected && !Disconnects(o),
                if o.Ok? && !IsOnlyComment(msg) then msg.id else s.lastMessageId,
                s.log + (if o.Ok? then [msg] else []),
                s.attempts + 1)
  }

  /** The text on a client's stream after one Client.Send: WriteLine(text) appended the message's
      text and a blank line when the write succeeded, and nothing otherwise. */
  lemma SendTranscript(s: ClientState, msg: Message, o: WriteOutcome)
    ensures Transcript(AfterSend(s, msg, o).log) == Transcript(s.log) + (if o.Ok? then WireText(msg) else "")
  {
    TranscriptAppend(s.log, if o.Ok? then [msg] else []);
    assert Transcript([msg]) == WireText(msg) + Transcript([]);
  }

  /** List<Client>.ForEach(c => c.Send(msg)): one attempt per client, in list order. */
  method WriteEach<I>(targets: seq<Client<I>>, msg: Message, outcomes: seq<WriteOutcome>)
    requires Distinct(targets) && |outcomes| == |targets|
    modifies targets
    ensures forall j :: 0 <= j < |targets| ==> targets[j].State() == AfterSend(old(targets[j].State()), msg, outcomes[j])
  {
    for k := 0 to |targets|
      invariant forall j :: 0 <= j < k ==> targets[j].State() == AfterSend(old(targets[j].State()), msg, outcomes[j])
      invariant forall j :: k <= j < |targets| ==> unchanged(targets[j])
    {
      targets[k].Send(msg, outcomes[k]);
    }
  }

  /** The IsConnected flags of a list of clients. */
  function ConnectedFlags<I>(cs: seq<Client<I>>): (f: seq<bool>)
    reads cs
    ensures |f| == |cs|
  {
    if cs == [] then [] else [cs[0].isConnected] + ConnectedFlags(cs[1..])
  }

  /** The k-th flag is the k-th client's IsConnected. */
  lemma {:induction false} ConnectedFlagsAt<I>(cs: seq<Client<I>>)
    ensures forall k :: 0 <= k < |cs| ==> ConnectedFlags(cs)[k] == cs[k].isConnected
  {
    if cs != [] {
      ConnectedFlagsAt(cs[1..]);
      assert forall k :: 1 <= k < |cs| ==> ConnectedFlags(cs)[k] == ConnectedFlags(cs[1..])[k - 1];
    }
  }

  /** RemoveAll(c => !c.IsConnected) on a list without duplicates leaves a list without
      duplicates of connected clients, and it shrinks exactly when some client was disconnected. */
  lemma PruneKeepsConnected<I>(cs: seq<Client<I>>)
    requires Distinct(cs)
    ensures var kept := Keep(cs, ConnectedFlags(cs));
      && Distinct(kept) && (forall c :: c in kept ==> c.isConnected)
      && (|kept| < |cs| <==> exists c :: c in cs && !c.isConnected)
  {
    var flags := ConnectedFlags(cs);
    ConnectedFlagsAt(cs);
    KeepIsSubsequence(cs, flags);
    SubsequenceDistinct(Keep(cs, flags), cs);
    CountAll(flags);
    KeepMembers(cs, flags);
  }

  // ----- filtering -----

  /** The criteria filter: a ClientWithInformation whose Info is not null and satisfies `criteria`. */
  predicate Eligible<I>(kind: ClientKind<I>, criteria: I -> bool) {
    kind.WithInformation? && kind.info.Some? && criteria(kind.info.value)
  }

  /** The Where(...).ToList() selection: a new list of the eligible clients. */
  function Select<I>(cs: seq<Client<I>>, criteria: I -> bool): (r: seq<Client<I>>)
    ensures |r| <= |cs|
  {
    if cs == [] then []
    else (if Eligible(cs[0].kind, criteria) then [cs[0]] else []) + Select(cs[1..], criteria)
  }

  /** The selection holds exactly the eligible clients of the list. */
  lemma {:induction false} SelectMembers<I>(cs: seq<Client<I>>, criteria: I -> bool)
    ensures forall c :: c in Select(cs, criteria) ==> c in cs && Eligible(c.kind, criteria)
    ensures forall k :: 0 <= k < |cs| && Eligible(cs[k].kind, criteria) ==> cs[k] in Select(cs, criteria)
  {
    if cs != [] {
      SelectMembers(cs[1..], criteria);
      forall k | 1 <= k < |cs| ensures cs[k] == cs[1..][k - 1] {}
    }
  }

  /** The selection keeps the clients' list order. */
  lemma {:induction false} SelectInOrder<I>(cs: seq<Client<I>>, criteria: I -> bool)
    ensures SubsequenceOf(Select(cs, criteria), cs)
  {
    if cs != [] {
      var rest := Select(cs[1..], criteria);
      SelectInOrder(cs[1..], criteria);
      if Eligible(cs[0].kind, criteria) {
        assert Select(cs, criteria) == [cs[0]] + rest;
        assert ([cs[0]] + rest)[1..] == rest;
      } else {
        assert Select(cs, criteria) == rest;
        SubsequenceSkip(rest, cs);
      }
    }
  }

  /** The selection from a list without duplicates has none either, and every selected client is
      on the list. */
  lemma SelectWithin<I>(cs: seq<Client<I>>, criteria: I -> bool)
    requires Distinct(cs)
    ensures Distinct(Select(cs, criteria))
    ensures forall i :: 0 <= i < |Select(cs, criteria)| ==> Select(cs, criteria)[i] in cs
  {
    SelectInOrder(cs, criteria);
    SubsequenceDistinct(Select(cs, criteria), cs);
    SubsequenceMembers(Select(cs, criteria), cs);
  }

  /** Plain clients and clients with null Info are never selected, whatever the criteria. */
  lemma NeverSelected<I>(cs: seq<Client<I>>, c: Client<I>)
    requires c.kind.Plain? || c.kind.info.None?
    ensures forall criteria: I -> bool :: c !in Select(cs, criteria)
  {
    forall criteria: I -> bool ensures c !in Select(cs, criteria) {
      SelectMembers(cs, criteria);
    }
  }

  // ----- replay of missed messages -----

  /** Where the replay loop of AddClient stands: what was delivered, the client's last id and
      connection flag, the write attempts made, and whether GetNextMessage ran out. */
  datatype Replay = Replay(delivered: seq<Message>, lastId: string, connected: bool, attempts: nat, finished: bool)

  /** The replay loop `while ((next = GetNextMessage(client.LastMessageId)) != null) client.Send(next)`
      run with the given write outcomes, one per attempt. When the outcomes run out before
      GetNextMessage returns null, the run stops with `finished` false. */
  function ReplayRun(q: seq<Message>, fold: string -> string, lastId: string, connected: bool,
                     outcomes: seq<WriteOutcome>): (r: Replay)
    ensures r.attempts <= |outcomes|
    decreases |outcomes|
  {
    match NextMessage(q, lastId, fold)
    case None => Replay([], lastId, connected, 0, true)
    case Some(m) =>
      if outcomes == [] then Replay([], lastId, connected, 0, false)
      else
        var o := outcomes[0];
        var r := ReplayRun(q, fold, if o.Ok? && !IsOnlyComment(m) then m.id else lastId,
                           connected && !Disconnects(o), outcomes[1..]);
        r.(delivered := (if o.Ok? then [m] else []) + r.delivered, attempts := r.attempts + 1)
  }

  /** One turn of the replay loop. */
  lemma ReplayStep(q: seq<Message>, fold: string -> string, lastId: string, connected: bool,
                   outcomes: seq<WriteOutcome>, m: Message)
    requires NextMessage(q, lastId, fold) == Some(m) && outcomes != []
    ensures var o := outcomes[0];
      var r := ReplayRun(q, fold, lastId, connected, outcomes);
      var r' := ReplayRun(q, fold, if o.Ok? && !IsOnlyComment(m) then m.id else lastId,
                          connected && !Disconnects(o), outcomes[1..]);
      && r.delivered == (if o.Ok? then [m] else []) + r'.delivered && r.attempts == r'.attempts + 1
      && r.lastId == r'.lastId && r.connected == r'.connected && r.finished == r'.finished
  {
  }

  /** A client's state after a replay run that started from `s`. */
  function Replayed(s: ClientState, r: Replay): ClientState {
    ClientState(r.connected, r.lastId, s.log + r.delivered, s.attempts + r.attempts)
  }

  /** The replay loop run from client state `s`: the state it leaves and whether it finished. */
  function Resume(q: seq<Message>, fold: string -> string, s: ClientState, outcomes: seq<WriteOutcome>): (ClientState, bool) {
    var r := ReplayRun(q, fold, s.lastMessageId, s.isConnected, outcomes);
    (Replayed(s, r), r.finished)
  }

  /** Sending the message GetNextMessage found, then resuming, ends where resuming before the
      send ends. */
  lemma ResumeStep(q: seq<Message>, fold: string -> string, s: ClientState, outcomes: seq<WriteOutcome>, m: Message)
    requires NextMessage(q, s.lastMessageId, fold) == Some(m) && outcomes != []
    ensures Resume(q, fold, AfterSend(s, m, outcomes[0]), outcomes[1..]) == Resume(q, fold, s, outcomes)
  {
    var o := outcomes[0];
    var s' := AfterSend(s, m, o);
    var d := if o.Ok? then [m] else [];
    var rest := ReplayRun(q, fold, s'.lastMessageId, s'.isConnected, outcomes[1..]);
    ReplayStep(q, fold, s.lastMessageId, s.isConnected, outcomes, m);
    assert ReplayRun(q, fold, s.lastMessageId, s.isConnected, outcomes)
        == rest.(delivered := d + rest.delivered, attempts := rest.attempts + 1);
    ReplayedStep(s, m, o, rest);
  }

  /** When GetNextMessage finds nothing, or no outcome is left, resuming changes nothing. */
  lemma ResumeDone(q: seq<Message>, fold: string -> string, s: ClientState, outcomes: seq<WriteOutcome>)
    requires NextMessage(q, s.lastMessageId, fold).None? || outcomes == []
    ensures Resume(q, fold, s, outcomes) == (s, NextMessage(q, s.lastMessageId, fold).None?)
  {
    assert s.log + [] == s.log;
  }

  /** Sending the next message, then replaying the rest, ends where the whole run ends. */
  lemma ReplayedStep(s: ClientState, m: Message, o: WriteOutcome, rest: Replay)
    ensures Replayed(AfterSend(s, m, o), rest)
         == Replayed(s, rest.(delivered := (if o.Ok? then [m] else []) + rest.delivered, attempts := rest.attempts + 1))
  {
    var d := if o.Ok? then [m] else [];
    assert (s.log + d) + rest.delivered == s.log + (d + rest.delivered);
  }

  /** The messages a client missed: those after the first history entry matching its last id. */
  function Missed(q: seq<Message>, lastId: string, fold: string -> string): seq<Message> {
    if IsNullOrWhiteSpace(lastId) then []
    else match FirstMatch(q, lastId, fold)
      case None => []
      case Some(i) => q[i + 1..]
  }

  /** History ids that let the replay loop advance: none blank, no two equal ignoring case. */
  predicate ReplayableIds(q: seq<Message>, fold: string -> string) {
    && (forall k :: 0 <= k < |q| ==> !IsNullOrWhiteSpace(q[k].id))
    && (forall a, b {:trigger SameId(q[a].id, q[b].id, fold)} :: 0 <= a < b < |q| ==> !SameId(q[a].id, q[b].id, fold))
  }

  lemma ReplayableMatchesItself(q: seq<Message>, fold: string -> string, k: nat)
    requires ReplayableIds(q, fold) && k < |q|
    ensures FirstMatch(q, q[k].id, fold) == Some(k)
  {
    assert SameId(q[k].id, q[k].id, fold);
  }

  /** Ids that are equal ignoring case have the same first match. */
  lemma {:induction false} SameIdMatchesAlike(q: seq<Message>, fold: string -> string, a: string, b: string)
    requires SameId(a, b, fold)
    ensures FirstMatch(q, a, fold) == FirstMatch(q, b, fold)
  {
    if q != [] {
      SameIdMatchesAlike(q[1..], fold, a, b);
    }
  }

  /** From a last id whose first match is entry k, successful writes replay the entries after k. */
  lemma {:induction false} ReplayFrom(q: seq<Message>, fold: string -> string, lastId: string, k: nat,
                                      connected: bool, outcomes: seq<WriteOutcome>)
    requires ReplayableIds(q, fold) && !IsNullOrWhiteSpace(lastId) && FirstMatch(q, lastId, fold) == Some(k)
    requires forall j :: 0 <= j < |outcomes| ==> outcomes[j].Ok?
    requires |outcomes| >= |q| - k - 1
    ensures var r := ReplayRun(q, fold, lastId, connected, outcomes);
      r.delivered == q[k + 1..] && r.finished && r.attempts == |q| - k - 1 && r.connected == connected
    decreases |q| - k
  {
    if k + 1 < |q| {
      var m := q[k + 1];
      assert NextMessage(q, lastId, fold) == Some(m);
      assert !IsOnlyComment(m);
      ReplayableMatchesItself(q, fold, k + 1);
      ReplayStep(q, fold, lastId, connected, outcomes, m);
      ReplayFrom(q, fold, m.id, k + 1, connected, outcomes[1..]);
      assert [m] + q[k + 2..] == q[k + 1..];
    }
  }

  /** With replayable history ids and successful writes, replay delivers exactly the messages
      the client missed, in queue order, then stops. */
  lemma ReplayDeliversMissed(q: seq<Message>, fold: string -> string, lastId: string, connected: bool,
                             outcomes: seq<WriteOutcome>)
    requires ReplayableIds(q, fold)
    requires forall j :: 0 <= j < |outcomes| ==> outcomes[j].Ok?
    requires |outcomes| >= |Missed(q, lastId, fold)|
    ensures var r := ReplayRun(q, fold, lastId, connected, outcomes);
      r.delivered == Missed(q, lastId, fold) && r.finished
      && r.attempts == |Missed(q, lastId, fold)| && r.connected == connected
  {
    if !IsNullOrWhiteSpace(lastId) && FirstMatch(q, lastId, fold).Some? {
      ReplayFrom(q, fold, lastId, FirstMatch(q, lastId, fold).value, connected, outcomes);
    }
  }

  /** A client without a Last-Event-ID, or with one the history does not hold, is sent nothing. */
  lemma ReplayNothingForUnknownId(q: seq<Message>, fold: string -> string, lastId: string, connected: bool,
                                  outcomes: seq<WriteOutcome>)
    requires IsNullOrWhiteSpace(lastId) || FirstMatch(q, lastId, fold).None?
    ensures ReplayRun(q, fold, lastId, connected, outcomes) == Replay([], lastId, connected, 0, true)
  {
  }

  /** As written, the loop retries a message whose write failed, since LastMessageId is unchanged:
      however many attempts are allowed, nothing is delivered and the loop never finishes. */
  lemma {:induction false} ReplaySpinsOnFailedWrite(q: seq<Message>, fold: string -> string, lastId: string,
                                                    connected: bool, outcomes: seq<WriteOutcome>)
    requires NextMessage(q, lastId, fold).Some?
    requires forall j :: 0 <= j < |outcomes| ==> !outcomes[j].Ok?
    ensures var r := ReplayRun(q, fold, lastId, connected, outcomes);
      r.delivered == [] && r.attempts == |outcomes| && !r.finished && r.lastId == lastId
    decreases |outcomes|
  {
    if outcomes != [] {
      ReplaySpinsOnFailedWrite(q, fold, lastId, connected && !Disconnects(outcomes[0]), outcomes[1..]);
    }
  }

  /** As written, the loop also never finishes when the next message leaves the lookup where it
      was: a comment-only message, or one whose id matches the same entry as the last id. */
  lemma {:induction false} ReplaySpinsOnRepeatedId(q: seq<Message>, fold: string -> string, lastId: string,
                                                   connected: bool, outcomes: seq<WriteOutcome>, m: Message)
    requires NextMessage(q, lastId, fold) == Some(m)
    requires IsOnlyComment(m) || (!IsNullOrWhiteSpace(m.id) && FirstMatch(q, m.id, fold) == FirstMatch(q, lastId, fold))
    requires forall j :: 0 <= j < |outcomes| ==> outcomes[j].Ok?
    ensures var r := ReplayRun(q, fold, lastId, connected, outcomes);
      r.delivered == seq(|outcomes|, _ => m) && r.attempts == |outcomes| && !r.finished
    decreases |outcomes|
  {
    if outcomes != [] {
      var next := if IsOnlyComment(m) then lastId else m.id;
      assert NextMessage(q, next, fold) == Some(m);
      ReplaySpinsOnRepeatedId(q, fold, next, connected, outcomes[1..], m);
      assert [m] + seq(|outcomes| - 1, _ => m) == seq(|outcomes|, _ => m);
    }
  }

  // ----- construction -----

  /** The first firing after one second, then every `period` milliseconds. */
  datatype Timer = Timer(dueTime: int, period: int)

  /** SetupHeartbeat: a timer only for a positive interval. */
  function SetupHeartbeat(heartbeatInterval: int): Option<Timer> {
    if heartbeatInterval > 0 then Some(Timer(1000, heartbeatInterval)) else None
  }

  /** The two snapshots of the generic ServerSentEvent<ClientInfo> class. */
  datatype Snapshot = Early | Later

  /** The heartbeat interval a generic constructor passes to the base constructor: the early
      snapshot leaves it out (the base default 0), the later one forwards it. */
  function ForwardedHeartbeat(snapshot: Snapshot, heartbeatInterval: int): int {
    if snapshot == Early then 0 else heartbeatInterval
  }

  /** Through the early snapshot's generic constructors the heartbeat is never armed. */
  lemma GenericHeartbeat(heartbeatInterval: int)
    ensures SetupHeartbeat(ForwardedHeartbeat(Early, heartbeatInterval)) == None
    ensures SetupHeartbeat(ForwardedHeartbeat(Later, heartbeatInterval)) == SetupHeartbeat(heartbeatInterval)
  {
  }

  /** The ArgumentExceptions of the injecting constructor. */
  datatype ConfigError = HistoryIsNull | IdGeneratorIsNull

  /** The content AddSubscriber puts on its response, which OnStreamAvailable receives: a
      PushStreamContent, or for the generic class a PushStreamContentWithClientInfomation carrying
      the subscriber's Info. Its own headers hold the media type and nothing else. */
  datatype StreamContent<I> = PushStream | PushStreamWithInfo(info: Option<I>)

  /** The Last-Event-ID values among the headers of such a content: there are none, since nothing
      copies the request's header onto the response content. */
  function ContentLastEventIds<I>(content: StreamContent<I>): Option<seq<string>> {
    None
  }

  /** GetLastMessageId over the Last-Event-ID values of some headers: the first value, or "" when
      there is none. */
  function GetLastMessageId(lastEventIds: Option<seq<string>>): string {
    match lastEventIds
    case None => ""
    case Some(values) => if values == [] then "" else values[0]
  }

  /** The Info the generic OnStreamAvailable gives a client: the content's own, else default(ClientInfo). */
  function InfoOf<I>(content: StreamContent<I>, defaultInfo: Option<I>): Option<I> {
    match content
    case PushStreamWithInfo(info) => info
    case PushStream => defaultInfo
  }

  /** A subscriber that arrives without Info, on a plain content with a null default or on a
      content whose Info is null, is never sent a filtered message, whatever the criteria. */
  lemma NoInfoNeverSelected<I>(content: StreamContent<I>, defaultInfo: Option<I>, cs: seq<Client<I>>,
                               c: Client<I>, criteria: I -> bool)
    requires c.kind == WithInformation(InfoOf(content, defaultInfo))
    requires content.PushStream? ==> defaultInfo.None?
    requires content.PushStreamWithInfo? ==> content.info.None?
    ensures c !in Select(cs, criteria)
  {
    SelectMembers(cs, criteria);
  }

  /** The state a new client starts from with the given Last-Event-ID values. */
  function Arrived(lastEventIds: Option<seq<string>>): ClientState {
    ClientState(true, GetLastMessageId(lastEventIds), [], 0)
  }

  /** As written, OnStreamAvailable reads Last-Event-ID from the response content it receives,
      not from the request: every client starts with an empty last id, and replay sends nothing,
      whatever the history holds and whatever the request carried. */
  lemma AsWrittenReplaysNothing<I>(q: seq<Message>, fold: string -> string, content: StreamContent<I>,
                                   outcomes: seq<WriteOutcome>)
    ensures Arrived(ContentLastEventIds(content)) == ClientState(true, "", [], 0)
    ensures Resume(q, fold, ClientState(true, "", [], 0), outcomes) == (ClientState(true, "", [], 0), true)
  {
    ReplayNothingForUnknownId(q, fold, "", true, outcomes);
    var none: seq<Message> := [];
    assert none + [] == none;
  }

  /** Reading the request's Last-Event-ID instead, as the replay is meant to work: with replayable
      history ids and successful writes, a reconnecting client receives exactly what it missed. */
  lemma ReconnectReplaysMissed(q: seq<Message>, fold: string -> string, requestLastEventIds: Option<seq<string>>,
                               outcomes: seq<WriteOutcome>)
    requires ReplayableIds(q, fold)
    requires forall j :: 0 <= j < |outcomes| ==> outcomes[j].Ok?
    requires |outcomes| >= |Missed(q, GetLastMessageId(requestLastEventIds), fold)|
    ensures Resume(q, fold, Arrived(requestLastEventIds), outcomes).0.log == Missed(q, GetLastMessageId(requestLastEventIds), fold)
    ensures Resume(q, fold, Arrived(requestLastEventIds), outcomes).0.isConnected
    ensures Resume(q, fold, Arrived(requestLastEventIds), outcomes).1
  {
    var id := GetLastMessageId(requestLastEventIds);
    ReplayDeliversMissed(q, fold, id, true, outcomes);
    var r := ReplayRun(q, fold, id, true, outcomes);
    var none: seq<Message> := [];
    assert none + r.delivered == r.delivered;
    assert Resume(q, fold, Arrived(requestLastEventIds), outcomes) == (Replayed(ClientState(true, id, [], 0), r), r.finished);
  }

  /** A reconnect whose Last-Event-ID names a history entry other than the newest is owed the
      non-empty run of messages after that entry, which it receives when the request's header is
      read; as written it receives nothing (AsWrittenReplaysNothing). */
  lemma ReconnectFromEntry(q: seq<Message>, fold: string -> string, requestLastEventIds: Option<seq<string>>, k: nat)
    requires ReplayableIds(q, fold) && k + 1 < |q|
    requires !IsNullOrWhiteSpace(GetLastMessageId(requestLastEventIds))
    requires SameId(q[k].id, GetLastMessageId(requestLastEventIds), fold)
    ensures Resume(q, fold, Arrived(requestLastEventIds), seq(|q|, _ => Ok)).0.log == q[k + 1..]
  {
    var id := GetLastMessageId(requestLastEventIds);
    ReplayableMatchesItself(q, fold, k);
    assert FirstMatch(q, id, fold) == FirstMatch(q, q[k].id, fold) by {
      SameIdMatchesAlike(q, fold, q[k].id, id);
    }
    ReconnectReplaysMissed(q, fold, requestLastEventIds, seq(|q|, _ => Ok));
  }

  /** Unfiltered Send assigns an id when the id is blank, a generator exists and the message is
      not comment-only. */
  predicate NeedsId(msg: Message, hasGenerator: bool) {
    IsNullOrWhiteSpace(msg.id) && hasGenerator && !IsOnlyComment(msg)
  }

  /** The early snapshot's filtered Send leaves out the comment-only test. */
  predicate FilteredNeedsId(msg: Message, hasGenerator: bool) {
    IsNullOrWhiteSpace(msg.id) && hasGenerator
  }

  /** The heartbeat never receives an id, and the two id rules agree on every message the
      Send overloads build. */
  lemma IdRules(data: string, eventType: string, messageId: string, hasGenerator: bool)
    ensures !NeedsId(Heartbeat, hasGenerator)
    ensures FilteredNeedsId(DataMessage(data), hasGenerator) == NeedsId(DataMessage(data), hasGenerator)
    ensures FilteredNeedsId(EventMessage(data, eventType), hasGenerator) == NeedsId(EventMessage(data, eventType), hasGenerator)
    ensures FilteredNeedsId(IdentifiedMessage(data, eventType, messageId), hasGenerator)
            == NeedsId(IdentifiedMessage(data, eventType, messageId), hasGenerator)
  {
    HeartbeatText();
  }

  class Broadcaster<I> {
    /** mClients, in the order they subscribed. */
    var clients: seq<Client<I>>
    const history: MemoryMessageHistory
    const idGenerator: SimpleIdGenerator?
    const heartbeatTimer: Option<Timer>
    /** Subscriber counts carried by SubscriberAdded, in order. */
    ghost var addedCounts: seq<int>
    /** Subscriber counts carried by SubscriberRemoved, in order. */
    ghost var removedCounts: seq<int>

    ghost predicate Valid()
      reads this
    {
      Distinct(clients)
    }

    /** ServerSentEvent(noOfMessagesToRemember, generateMessageIds, heartbeatInterval). */
    constructor (noOfMessagesToRemember: int, generateMessageIds: bool, heartbeatInterval: int,
                 fold: string -> string)
      requires noOfMessagesToRemember >= 0
      ensures Valid() && clients == [] && addedCounts == [] && removedCounts == []
      ensures fresh(history) && history.queue == [] && history.fold == fold
      ensures (idGenerator != null) == generateMessageIds
      ensures idGenerator != null ==> fresh(idGenerator) && idGenerator.counter == 0
      ensures heartbeatTimer == SetupHeartbeat(heartbeatInterval)
    {
      history := new MemoryMessageHistory(noOfMessagesToRemember, fold);
      if generateMessageIds {
        idGenerator := new SimpleIdGenerator();
      } else {
        idGenerator := null;
      }
      heartbeatTimer := SetupHeartbeat(heartbeatInterval);
      clients := [];
      addedCounts, removedCounts := [], [];
    }

    constructor FromParts(messageHistory: MemoryMessageHistory, idGenerator: SimpleIdGenerator, heartbeatInterval: int)
      ensures Valid() && clients == [] && addedCounts == [] && removedCounts == []
      ensures history == messageHistory && this.idGenerator == idGenerator
      ensures heartbeatTimer == SetupHeartbeat(heartbeatInterval)
    {
      history := messageHistory;
      this.idGenerator := idGenerator;
      heartbeatTimer := SetupHeartbeat(heartbeatInterval);
      clients := [];
      addedCounts, removedCounts := [], [];
    }

    /** ServerSentEvent(messageHistory, idGenerator, heartbeatInterval): a null history or a null
        generator is refused with an ArgumentException, the history checked first. */
    static method Create(messageHistory: MemoryMessageHistory?, idGenerator: SimpleIdGenerator?, heartbeatInterval: int)
      returns (r: Result<Broadcaster<I>, ConfigError>)
      ensures messageHistory == null ==> r == Failure(HistoryIsNull)
      ensures messageHistory != null && idGenerator == null ==> r == Failure(IdGeneratorIsNull)
      ensures messageHistory != null && idGenerator != null ==>
                r.Success? && fresh(r.value) && r.value.Valid() && r.value.clients == []
                && r.value.history == messageHistory && r.value.idGenerator == idGenerator
                && r.value.heartbeatTimer == SetupHeartbeat(heartbeatInterval)
    {
      if messageHistory == null {
        return Failure(HistoryIsNull);
      }
      if idGenerator == null {
        return Failure(IdGeneratorIsNull);
      }
      var b := new Broadcaster.FromParts(messageHistory, idGenerator, heartbeatInterval);
      return Success(b);
    }

    /** AddClient: append, raise SubscriberAdded with the new count, then replay what the client
        missed. */
    method AddClient(client: Client<I>, outcomes: seq<WriteOutcome>) returns (finished: bool)
      requires Valid() && client !in clients
      modifies this, client
      ensures Valid() && clients == old(clients) + [client]
      ensures addedCounts == old(addedCounts) + [|clients|] && removedCounts == old(removedCounts)
      ensures (client.State(), finished) == Resume(history.queue, history.fold, old(client.State()), outcomes)
    {
      clients := clients + [client];
      addedCounts := addedCounts + [|clients|];
      assert Distinct(clients) by {
        forall i, j | 0 <= i < j < |clients| ensures clients[i] != clients[j] {
          if j == |clients| - 1 {
            assert clients[i] in old(clients);
          }
        }
      }
      finished := ReplayMissed(client, outcomes);
    }

    /** The replay loop of AddClient: while GetNextMessage(client.LastMessageId) finds a message,
        send it, until the lookup returns null or the supplied write outcomes run out. */
    method ReplayMissed(client: Client<I>, outcomes: seq<WriteOutcome>) returns (finished: bool)
      modifies client
      ensures (client.State(), finished) == Resume(history.queue, history.fold, old(client.State()), outcomes)
    {
      ghost var q, fold := history.queue, history.fold;
      ghost var goal := Resume(q, fold, client.State(), outcomes);
      var next := history.GetNextMessage(client.lastMessageId);
      var k := 0;
      while next.Some? && k < |outcomes|
        invariant 0 <= k <= |outcomes|
        invariant next == NextMessage(q, client.lastMessageId, fold)
        invariant Resume(q, fold, client.State(), outcomes[k..]) == goal
        decreases |outcomes| - k
      {
        ghost var before := client.State();
        assert outcomes[k..][1..] == outcomes[k + 1..];
        ResumeStep(q, fold, before, outcomes[k..], next.value);
        client.Send(next.value, outcomes[k]);
        k := k + 1;
        next := history.GetNextMessage(client.lastMessageId);
      }
      ResumeDone(q, fold, client.State(), outcomes[k..]);
      finished := next.None?;
    }

    /** The base OnStreamAvailable: a plain client seeded with the Last-Event-ID values it is given,
        then AddClient. As written those are the response content's (ContentLastEventIds, see
        AsWrittenReplaysNothing); the request's values give the replay that is meant. */
    method OnStreamAvailable(lastEventIds: Option<seq<string>>, outcomes: seq<WriteOutcome>)
      returns (client: Client<I>, finished: bool)
      requires Valid()
      modifies this
      ensures Valid() && fresh(client) && client.kind == Plain && clients == old(clients) + [client]
      ensures addedCounts == old(addedCounts) + [|clients|] && removedCounts == old(removedCounts)
      ensures (client.State(), finished) == Resume(history.queue, history.fold, Arrived(lastEventIds), outcomes)
    {
      client := new Client(GetLastMessageId(lastEventIds), Plain);
      finished := AddClient(client, outcomes);
    }

    /** The generic subclass's OnStreamAvailable: a ClientWithInformation whose Info is the
        content's, or `defaultInfo` (default(ClientInfo)) for content without one, seeded with the
        Last-Event-ID values it is given as in OnStreamAvailable. */
    method OnStreamAvailableWithInfo(content: StreamContent<I>, lastEventIds: Option<seq<string>>,
                                     defaultInfo: Option<I>, outcomes: seq<WriteOutcome>)
      returns (client: Client<I>, finished: bool)
      requires Valid()
      modifies this
      ensures Valid() && fresh(client) && client.kind == WithInformation(InfoOf(content, defaultInfo))
      ensures clients == old(clients) + [client]
      ensures addedCounts == old(addedCounts) + [|clients|] && removedCounts == old(removedCounts)
      ensures (client.State(), finished) == Resume(history.queue, history.fold, Arrived(lastEventIds), outcomes)
    {
      var info := InfoOf(content, defaultInfo);
      client := new Client(GetLastMessageId(lastEventIds), WithInformation(info));
      finished := AddClient(client, outcomes);
    }

    /** mClients.RemoveAll(c => !c.IsConnected), returning the number removed. */
    method PruneDisconnected() returns (removed: nat)
      requires Distinct(clients)
      modifies this`clients
      ensures clients == Keep(old(clients), ConnectedFlags(old(clients)))
      ensures removed == |old(clients)| - |clients|
      ensures removed > 0 <==> exists c :: c in old(clients) && !c.isConnected
      ensures Distinct(clients) && forall c :: c in clients ==> c.isConnected
    {
      var all := clients;
      ghost var flags := ConnectedFlags(all);
      ConnectedFlagsAt(all);
      var kept: seq<Client<I>> := [];
      for k := 0 to |all|
        invariant kept == Keep(all[..k], flags[..k])
      {
        var c := all[k];
        KeepPrefixStep(all, flags, k);
        if c.isConnected {
          kept := kept + [c];
        }
      }
      assert all[..|all|] == all && flags[..|flags|] == flags;
      PruneKeepsConnected(all);
      removed := |all| - |kept|;
      clients := kept;
    }

    /** The id stamping of Send: when `needsId`, the generator's next id replaces the message's. */
    method StampId(msg: Message, needsId: bool) returns (sent: Message)
      requires needsId ==> idGenerator != null
      modifies idGenerator
      ensures needsId ==> idGenerator.counter == Increment(old(idGenerator.counter)) && sent == msg.(id := IntText(idGenerator.counter))
      ensures !needsId ==> sent == msg && (idGenerator != null ==> idGenerator.counter == old(idGenerator.counter))
    {
      sent := msg;
      if needsId {
        var id := idGenerator.GetNextId(msg);
        sent := msg.(id := id);
      }
    }

    /** Write the message to each target in order, then prune the disconnected clients from the
        whole list, returning the number pruned. */
    method WriteAndPrune(targets: seq<Client<I>>, sent: Message, outcomes: seq<WriteOutcome>) returns (removed: nat)
      requires Valid() && Distinct(targets) && |outcomes| == |targets|
      requires forall i :: 0 <= i < |targets| ==> targets[i] in clients
      modifies this, targets
      ensures forall j :: 0 <= j < |targets| ==> targets[j].State() == AfterSend(old(targets[j].State()), sent, outcomes[j])
      ensures clients == Keep(old(clients), ConnectedFlags(old(clients)))
      ensures Valid() && removed == |old(clients)| - |clients|
      ensures addedCounts == old(addedCounts) && removedCounts == old(removedCounts)
    {
      WriteEach(targets, sent, outcomes);
      removed := PruneDisconnected();
    }

    /** The private Send(Message): stamp an id if needed, write to every client in list order,
        prune the disconnected ones, and raise SubscriberRemoved with the remaining count if any
        were pruned. The history is left alone. */
    method Send(msg: Message, outcomes: seq<WriteOutcome>) returns (sent: Message)
      requires Valid() && |outcomes| == |clients|
      modifies this, clients, idGenerator
      ensures Valid() && addedCounts == old(addedCounts) && history.queue == old(history.queue)
      ensures NeedsId(msg, idGenerator != null) ==>
                idGenerator.counter == Increment(old(idGenerator.counter)) && sent == msg.(id := IntText(idGenerator.counter))
      ensures !NeedsId(msg, idGenerator != null) ==>
                sent == msg && (idGenerator != null ==> idGenerator.counter == old(idGenerator.counter))
      ensures forall k :: 0 <= k < |old(clients)| ==> old(clients)[k].State() == AfterSend(old(clients[k].State()), sent, outcomes[k])
      ensures clients == Keep(old(clients), ConnectedFlags(old(clients)))
      ensures removedCounts == old(removedCounts) + (if |clients| < |old(clients)| then [|clients|] else [])
    {
      sent := StampId(msg, NeedsId(msg, idGenerator != null));
      var removed := WriteAndPrune(clients, sent, outcomes);
      if removed > 0 {
        removedCounts := removedCounts + [|clients|];
      }
    }

    /** The early snapshot's filtered Send: stamp an id if needed, write only to the selected
        clients, prune disconnected clients from the whole list, and raise SubscriberRemoved with
        the number of selected clients if any were pruned. */
    method SendFiltered(msg: Message, criteria: I -> bool, outcomes: seq<WriteOutcome>) returns (sent: Message)
      requires Valid() && |outcomes| == |Select(clients, criteria)|
      modifies this, clients, idGenerator
      ensures Valid() && addedCounts == old(addedCounts) && history.queue == old(history.queue)
      ensures FilteredNeedsId(msg, idGenerator != null) ==>
                idGenerator.counter == Increment(old(idGenerator.counter)) && sent == msg.(id := IntText(idGenerator.counter))
      ensures !FilteredNeedsId(msg, idGenerator != null) ==>
                sent == msg && (idGenerator != null ==> idGenerator.counter == old(idGenerator.counter))
      ensures var targets := Select(old(clients), criteria);
        forall j :: 0 <= j < |targets| && targets[j] in old(clients) ==> targets[j].State() == AfterSend(old(targets[j].State()), sent, outcomes[j])
      ensures forall c :: c in old(clients) && !Eligible(c.kind, criteria) ==> unchanged(c)
      ensures clients == Keep(old(clients), ConnectedFlags(old(clients)))
      ensures removedCounts == old(removedCounts)
                + (if |clients| < |old(clients)| then [|Select(old(clients), criteria)|] else [])
    {
      sent := StampId(msg, FilteredNeedsId(msg, idGenerator != null));
      var filtered := Select(clients, criteria);
      SelectWithin(clients, criteria);
      SelectMembers(clients, criteria);
      var removed := WriteAndPrune(filtered, sent, outcomes);
      if removed > 0 {
        removedCounts := removedCounts + [|filtered|];
      }
    }

    /** TimerCallback: send the comment-only heartbeat to every client. */
    method TimerCallback(outcomes: seq<WriteOutcome>) returns (sent: Message)
      requires Valid() && heartbeatTimer.Some? && |outcomes| == |clients|
      modifies this, clients, idGenerator
      ensures Valid() && addedCounts == old(addedCounts) && history.queue == old(history.queue)
      ensures sent == Heartbeat
      ensures idGenerator != null ==> idGenerator.counter == old(idGenerator.counter)
      ensures forall k :: 0 <= k < |old(clients)| ==> old(clients)[k].State() == AfterSend(old(clients[k].State()), Heartbeat, outcomes[k])
      ensures clients == Keep(old(clients), ConnectedFlags(old(clients)))
      ensures removedCounts == old(removedCounts) + (if |clients| < |old(clients)| then [|clients|] else [])
    {
      HeartbeatText();
      sent := Send(Heartbeat, outcomes);
    }
  }
}
