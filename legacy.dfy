/**
 * The earlier broadcaster of the test project: a list of stream writers, a two-field message,
 * and a Send that writes to every stream and then removes the streams whose remote host closed
 * the connection. As in the main broadcaster, a write is not performed: the caller supplies the
 * outcome of each attempt, and each writer keeps a ghost log of the messages written to it.
 */
module Legacy {
  import opened Wrappers
  import opened Strings
  import opened Seqs
  import Messages

  /** The test project's Message: Data and EventType only. */
  datatype LegacyMessage = LegacyMessage(data: string, eventType: string)
  {
    /** Message.ToString: an event line, then a data line, each only for a non-empty value. */
    function ToString(): (r: string)
      ensures r == "" <==> data == "" && eventType == ""
    {
      Messages.FieldLine("event", eventType) + Messages.FieldLine("data", data)
    }

    /** The same message in the five-field form of the main library. */
    function AsMessage(): Messages.Message {
      Messages.Blank.(eventType := eventType, data := data)
    }
  }

  /** The two-field text is the five-field text of the same message: the legacy format is the
      main format without id, retry and comment. */
  lemma ToStringAgrees(m: LegacyMessage)
    ensures m.ToString() == Messages.ToString(m.AsMessage())
  {
    assert Messages.FieldLine("id", "") == "" && Messages.FieldLine("retry", "") == ""
        && Messages.FieldLine("", "") == "";
  }

  /** The text decodes back to the message, when its values stay on one line. */
  lemma DecodeLegacy(m: LegacyMessage)
    requires NoLineBreak(m.data) && NoLineBreak(m.eventType)
    ensures Messages.Decode(m.ToString()) == Some(m.AsMessage())
  {
    ToStringAgrees(m);
    Messages.DecodeToString(m.AsMessage());
  }

  /** Send(data): a data-only message; Send(eventType, data): the event type comes first. */
  function DataMessage(data: string): (m: LegacyMessage)
    ensures m.data == data && m.eventType == ""
    ensures m.ToString() == Messages.FieldLine("data", data)
  {
    LegacyMessage(data, "")
  }

  function EventMessage(eventType: string, data: string): (m: LegacyMessage)
    ensures m.data == data && m.eventType == eventType
    ensures Messages.FieldLine("event", eventType) <= m.ToString()
  {
    LegacyMessage(data, eventType)
  }

  /** The result of one WriteLine + Flush: success, HttpException -2147023667 (the remote host
      closed the connection), another HttpException, or any other exception. */
  datatype LegacyOutcome = Written | HostClosed | OtherHttpError | Thrown

  /** What a stream writer holds: the messages written to it and the write attempts made. */
  datatype WriterState = WriterState(log: seq<LegacyMessage>, attempts: nat)

  /** One write attempt: the message is logged when it was written. */
  function AfterWrite(s: WriterState, msg: LegacyMessage, o: LegacyOutcome): WriterState {
    WriterState(s.log + (if o.Written? then [msg] else []), s.attempts + 1)
  }

  class Writer {
    /** The messages written to the stream, in order. */
    ghost var log: seq<LegacyMessage>
    /** The number of write attempts. */
    ghost var attempts: nat

    constructor ()
      ensures log == [] && attempts == 0
    {
      log := [];
      attempts := 0;
    }

    ghost function State(): WriterState
      reads this
    {
      WriterState(log, attempts)
    }

    /** WriteLine(msg.ToString()) followed by Flush. */
    method WriteLine(msg: LegacyMessage, outcome: LegacyOutcome)
      modifies this
      ensures State() == AfterWrite(old(State()), msg, outcome)
    {
      attempts := attempts + 1;
      if outcome.Written? {
        log := log + [msg];
      }
    }
  }

  /** Position of the first write that throws something other than an HttpException, or the
      number of writes when none does. */
  function FirstThrown(outcomes: seq<LegacyOutcome>): (n: nat)
    ensures n <= |outcomes|
    ensures forall k :: 0 <= k < n ==> !outcomes[k].Thrown?
    ensures n < |outcomes| ==> outcomes[n].Thrown?
  {
    if outcomes == [] then 0
    else if outcomes[0].Thrown? then 0
    else 1 + FirstThrown(outcomes[1..])
  }

  /** Which streams survive: all but those whose write reported that the host closed. */
  function Survivors(outcomes: seq<LegacyOutcome>): seq<bool> {
    seq(|outcomes|, k requires 0 <= k < |outcomes| => !outcomes[k].HostClosed?)
  }

  /** Which streams go to `toRemove`: those whose write reported that the host closed. */
  function ClosedFlags(outcomes: seq<LegacyOutcome>): (f: seq<bool>)
    ensures |f| == |outcomes|
    ensures forall k :: 0 <= k < |outcomes| ==> f[k] == outcomes[k].HostClosed?
  {
    seq(|outcomes|, k requires 0 <= k < |outcomes| => outcomes[k].HostClosed?)
  }

  /** Number of writes that reported that the host closed. */
  function ClosedCount(outcomes: seq<LegacyOutcome>): (n: nat)
    ensures n <= |outcomes|
  {
    if outcomes == [] then 0 else (if outcomes[0].HostClosed? then 1 else 0) + ClosedCount(outcomes[1..])
  }

  /** The survivors are all the streams less one per host-closed write. */
  lemma {:induction false} SurvivorCount(outcomes: seq<LegacyOutcome>)
    ensures Count(Survivors(outcomes)) == |outcomes| - ClosedCount(outcomes)
  {
    if outcomes != [] {
      SurvivorCount(outcomes[1..]);
      assert Survivors(outcomes)[1..] == Survivors(outcomes[1..]);
    }
  }

  class LegacyBroadcaster {
    /** m_streams, in the order the streams arrived. */
    var streams: seq<Writer>

    ghost predicate Valid()
      reads this
    {
      Distinct(streams)
    }

    constructor ()
      ensures Valid() && streams == []
    {
      streams := [];
    }

    /** OnStreamAvailable: wrap the stream in a new writer and append it. */
    method OnStreamAvailable() returns (w: Writer)
      requires Valid()
      modifies this
      ensures Valid() && fresh(w) && w.log == [] && w.attempts == 0
      ensures streams == old(streams) + [w]
    {
      w := new Writer();
      streams := streams + [w];
      assert Distinct(streams) by {
        forall i, j | 0 <= i < j < |streams| ensures streams[i] != streams[j] {
          if j == |streams| - 1 {
            assert streams[i] in old(streams);
          }
        }
      }
    }

    /** Send(Message): write to every stream in list order, remembering the streams whose host
        closed; then remove those from the list. Another HttpException keeps the stream. Any other
        exception leaves Send at once, before anything is removed (`completed` is then false). */
    method Send(msg: LegacyMessage, outcomes: seq<LegacyOutcome>) returns (completed: bool)
      requires Valid() && |outcomes| == |streams|
      modifies this, streams
      ensures Valid()
      ensures completed <==> FirstThrown(outcomes) == |outcomes|
      ensures forall k :: 0 <= k < |old(streams)| ==>
                old(streams)[k].State() == if k <= FirstThrown(outcomes)
                                            then AfterWrite(old(streams[k].State()), msg, outcomes[k])
                                            else old(streams[k].State())
      ensures completed ==> streams == Keep(old(streams), Survivors(outcomes))
      ensures completed ==> forall k :: 0 <= k < |old(streams)| ==> (old(streams)[k] in streams <==> !outcomes[k].HostClosed?)
      ensures !completed ==> streams == old(streams)
    {
      var toRemove;
      toRemove, completed := WriteAll(streams, msg, outcomes);
      if completed {
        ghost var all := streams;
        RemoveAll(streams, toRemove, outcomes);
        KeepExactly(all, Survivors(outcomes));
      }
    }

    /** The first loop: one write per stream, in list order, collecting the host-closed streams
        in `toRemove`; it stops at the first write that throws anything but an HttpException. */
    static method WriteAll(all: seq<Writer>, msg: LegacyMessage, outcomes: seq<LegacyOutcome>)
      returns (toRemove: seq<Writer>, completed: bool)
      requires Distinct(all) && |outcomes| == |all|
      modifies all
      ensures completed <==> FirstThrown(outcomes) == |outcomes|
      ensures forall k :: 0 <= k < |all| ==>
                all[k].State() == if k <= FirstThrown(outcomes)
                                  then AfterWrite(old(all[k].State()), msg, outcomes[k])
                                  else old(all[k].State())
      ensures completed ==> toRemove == Keep(all, ClosedFlags(outcomes))
    {
      var closed := ClosedFlags(outcomes);
      toRemove := [];
      var k := 0;
      while k < |all|
        invariant k <= |all| && k <= FirstThrown(outcomes)
        invariant toRemove == Keep(all[..k], closed[..k])
        invariant forall j :: 0 <= j < k ==> all[j].State() == AfterWrite(old(all[j].State()), msg, outcomes[j])
        invariant forall j :: k <= j < |all| ==> unchanged(all[j])
      {
        var s := all[k];
        s.WriteLine(msg, outcomes[k]);
        if outcomes[k].Thrown? {
          return toRemove, false;
        }
        KeepPrefixStep(all, closed, k);
        if outcomes[k].HostClosed? {
          toRemove := toRemove + [s];
        }
        k := k + 1;
      }
      assert all[..k] == all && closed[..k] == closed;
      completed := true;
    }

    /** The second loop: List.Remove of each recorded stream. */
    method RemoveAll(all: seq<Writer>, toRemove: seq<Writer>, outcomes: seq<LegacyOutcome>)
      requires streams == all && Distinct(all) && |outcomes| == |all|
      requires toRemove == Keep(all, ClosedFlags(outcomes))
      modifies this
      ensures streams == Keep(all, Survivors(outcomes)) && Valid()
    {
      KeepIsSubsequence(all, ClosedFlags(outcomes));
      SubsequenceDistinct(toRemove, all);
      ghost var gone: set<Writer> := {};
      WithoutNothing(all);
      for i := 0 to |toRemove|
        invariant gone == set j | 0 <= j < i :: toRemove[j]
        invariant streams == Without(all, gone)
      {
        assert toRemove[i] !in gone;
        RemoveFirstWithout(all, gone, toRemove[i]);
        streams := RemoveFirst(streams, toRemove[i]);
        gone := gone + {toRemove[i]};
      }
      KeepExactly(all, ClosedFlags(outcomes));
      WithoutIsKeep(all, Survivors(outcomes), gone);
      KeepIsSubsequence(all, Survivors(outcomes));
      SubsequenceDistinct(streams, all);
    }

    /** Send(data). */
    method SendData(data: string, outcomes: seq<LegacyOutcome>) returns (completed: bool)
      requires Valid() && |outcomes| == |streams|
      modifies this, streams
      ensures Valid()
      ensures completed <==> FirstThrown(outcomes) == |outcomes|
      ensures forall k :: 0 <= k < |old(streams)| ==>
                old(streams)[k].State() == if k <= FirstThrown(outcomes)
                                            then AfterWrite(old(streams[k].State()), DataMessage(data), outcomes[k])
                                            else old(streams[k].State())
      ensures completed ==> streams == Keep(old(streams), Survivors(outcomes))
      ensures completed ==> forall k :: 0 <= k < |old(streams)| ==> (old(streams)[k] in streams <==> !outcomes[k].HostClosed?)
      ensures !completed ==> streams == old(streams)
    {
      completed := Send(DataMessage(data), outcomes);
    }

    /** Send(eventType, data). */
    method SendEvent(eventType: string, data: string, outcomes: seq<LegacyOutcome>) returns (completed: bool)
      requires Valid() && |outcomes| == |streams|
      modifies this, streams
      ensures Valid()
      ensures completed <==> FirstThrown(outcomes) == |outcomes|
      ensures forall k :: 0 <= k < |old(streams)| ==>
                old(streams)[k].State() == if k <= FirstThrown(outcomes)
                                            then AfterWrite(old(streams[k].State()), EventMessage(eventType, data), outcomes[k])
                                            else old(streams[k].State())
      ensures completed ==> streams == Keep(old(streams), Survivors(outcomes))
      ensures completed ==> forall k :: 0 <= k < |old(streams)| ==> (old(streams)[k] in streams <==> !outcomes[k].HostClosed?)
      ensures !completed ==> streams == old(streams)
    {
      completed := Send(EventMessage(eventType, data), outcomes);
    }
  }
}
