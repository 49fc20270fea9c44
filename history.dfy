/**
 * MemoryMessageHistory: an unbounded queue of messages with a lookup for the message that
 * follows a given id. The constructor's argument is only the queue's initial capacity: nothing
 * is ever dequeued.
 *
 * String.Compare(a, b, true) depends on the current culture; the model takes the culture's case
 * folding as a function `fold` and counts two ids as equal when their foldings are.
 */
module History {
  import opened Wrappers
  import opened Strings
  import opened Messages

  /** The case-insensitive comparison of MemoryMessageHistory.GetNextMessage. */
  predicate SameId(a: string, b: string, fold: string -> string) {
    fold(a) == fold(b)
  }

  /** Position of the first (oldest) message whose id matches `key`. */
  function FirstMatch(q: seq<Message>, key: string, fold: string -> string): (r: Option<nat>)
    ensures r.Some? ==> r.value < |q| && SameId(q[r.value].id, key, fold)
    ensures r.Some? ==> forall j :: 0 <= j < r.value ==> !SameId(q[j].id, key, fold)
    ensures r.None? ==> forall j :: 0 <= j < |q| ==> !SameId(q[j].id, key, fold)
  {
    if q == [] then None
    else if SameId(q[0].id, key, fold) then Some(0)
    else match FirstMatch(q[1..], key, fold)
      case None => None
      case Some(i) => Some(i + 1)
  }

  /** What GetNextMessage promises: nothing for a blank id; otherwise the message right after
      the first match, or nothing when there is no match or the match is the newest message. */
  function NextMessage(q: seq<Message>, messageId: string, fold: string -> string): Option<Message> {
    if IsNullOrWhiteSpace(messageId) then None
    else match FirstMatch(q, messageId, fold)
      case None => None
      case Some(i) => if i + 1 < |q| then Some(q[i + 1]) else None
  }

  /** NextMessage finds a message exactly when the id is not blank, some message matches it and
      the first match is not the newest; what it finds is the first match's successor. */
  lemma NextMessageCases(q: seq<Message>, messageId: string, fold: string -> string)
    ensures NextMessage(q, messageId, fold).Some? <==>
              !IsNullOrWhiteSpace(messageId) &&
              exists i :: 0 <= i < |q| - 1 && SameId(q[i].id, messageId, fold)
    ensures NextMessage(q, messageId, fold).Some? ==>
              exists i :: 0 <= i < |q| - 1 && SameId(q[i].id, messageId, fold)
                && (forall j :: 0 <= j < i ==> !SameId(q[j].id, messageId, fold))
                && NextMessage(q, messageId, fold).value == q[i + 1]
  {
    if !IsNullOrWhiteSpace(messageId) {
      match FirstMatch(q, messageId, fold)
      case None =>
      case Some(i) =>
        if i + 1 >= |q| {
          forall k | 0 <= k < |q| - 1 ensures !SameId(q[k].id, messageId, fold) {
            assert k < i;
          }
        }
    }
  }

  class MemoryMessageHistory {
    /** mQueue, oldest first. */
    var queue: seq<Message>
    /** The current culture's case folding. */
    const fold: string -> string

    /** A new history is empty whatever the requested initial capacity. */
    constructor (noOfMessagesToRemember: int, fold: string -> string)
      requires noOfMessagesToRemember >= 0
      ensures queue == [] && this.fold == fold
    {
      queue := [];
      this.fold := fold;
    }

    /** Enqueue at the tail; nothing is ever evicted. */
    method Add(message: Message)
      modifies this
      ensures queue == old(queue) + [message]
    {
      queue := queue + [message];
    }

    /** Walks the queue from the head; on the first match it returns the next element, if any. */
    method GetNextMessage(messageId: string) returns (r: Option<Message>)
      ensures r == NextMessage(queue, messageId, fold)
    {
      if IsNullOrWhiteSpace(messageId) {
        return None;
      }
      var i := 0;
      while i < |queue|
        invariant 0 <= i <= |queue|
        invariant forall j :: 0 <= j < i ==> !SameId(queue[j].id, messageId, fold)
      {
        if fold(queue[i].id) == fold(messageId) {
          assert FirstMatch(queue, messageId, fold) == Some(i);
          if i + 1 < |queue| {
            return Some(queue[i + 1]);
          }
          return None;
        }
        i := i + 1;
      }
      r := None;
    }
  }
}
