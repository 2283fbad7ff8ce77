/**
  The client's offline queue: an auto-incrementing object store of unsent
  messages, and the flush loop that replays them through a send function.
*/
module OfflineQueue {
  import opened Wrappers
  import opened Wire

  /** An entry is dropped once it has been retried this many times. */
  const MaxRetries: nat := 3

  datatype Unsent = Unsent(id: nat, conversationId: string, payload: SendPayload, timestamp: int, retries: nat)

  type Store = map<nat, Unsent>

  predicate Keyed(store: Store) {
    forall k :: k in store ==> store[k].id == k
  }

  predicate Matches(e: Unsent, c: Option<string>) {
    c.None? || e.conversationId == c.value
  }

  /**
    The entries with a key in [lo, hi), in ascending key order, restricted to
    conversation `c` when one is given (the store's index scan).
  */
  function Scan(store: Store, c: Option<string>, lo: nat, hi: nat): (r: seq<Unsent>)
    requires Keyed(store)
    ensures forall i :: 0 <= i < |r| ==>
      r[i].id in store && store[r[i].id] == r[i] && lo <= r[i].id < hi && Matches(r[i], c)
    ensures forall i, j :: 0 <= i < j < |r| ==> r[i].id < r[j].id
    ensures forall k :: k in store && lo <= k < hi && Matches(store[k], c) ==> store[k] in r
    decreases hi - lo
  {
    if lo >= hi then []
    else
      var rest := Scan(store, c, lo + 1, hi);
      if lo in store && Matches(store[lo], c) then [store[lo]] + rest else rest
  }

  predicate Ascending(msgs: seq<Unsent>) {
    forall i, j :: 0 <= i < j < |msgs| ==> msgs[i].id < msgs[j].id
  }

  function Ids(msgs: seq<Unsent>): set<nat> {
    set i | 0 <= i < |msgs| :: msgs[i].id
  }

  /** `incrementRetry`: one more retry on a present entry, nothing otherwise. */
  function Bump(store: Store, id: nat): (r: Store)
    ensures r.Keys == store.Keys
    ensures id in store ==> r[id] == store[id].(retries := store[id].retries + 1)
    ensures forall k :: k in store && k != id ==> r[k] == store[k]
  {
    if id in store then store[id := store[id].(retries := store[id].retries + 1)] else store
  }

  /**
    The caller's `sendFn`, as the outcome of sending the entry with a given
    id: each entry's attempt has its own outcome, equal payloads included.
  */
  type SendOutcome = (nat, SendPayload) -> bool

  /**
    Whether `removeUnsentMessage` completes for the entry with a given id
    during a flush; a remove that throws lands in the loop's catch, which
    bumps the entry's retries instead.
  */
  type RemoveOutcome = nat -> bool

  /** An entry the flush loop takes out of the store: too many retries, or sent, and then removed. */
  predicate Leaves(e: Unsent, sendFn: SendOutcome, removeOk: RemoveOutcome) {
    (e.retries >= MaxRetries || sendFn(e.id, e.payload)) && removeOk(e.id)
  }

  /** The entry counts as sent: under the retry limit, a truthy send and a completed remove. */
  predicate Flushed(e: Unsent, sendFn: SendOutcome, removeOk: RemoveOutcome) {
    e.retries < MaxRetries && sendFn(e.id, e.payload) && removeOk(e.id)
  }

  /** What one iteration of the flush loop does to the store. */
  function Step(store: Store, e: Unsent, sendFn: SendOutcome, removeOk: RemoveOutcome): Store {
    if e.retries >= MaxRetries then (if removeOk(e.id) then store - {e.id} else Bump(store, e.id))
    else if sendFn(e.id, e.payload) && removeOk(e.id) then store - {e.id}
    else Bump(store, e.id)
  }

  /** The store after the loop has processed `msgs` in order. */
  function Replay(store: Store, msgs: seq<Unsent>, sendFn: SendOutcome, removeOk: RemoveOutcome): Store
    decreases |msgs|
  {
    if |msgs| == 0 then store
    else Step(Replay(store, msgs[..|msgs| - 1], sendFn, removeOk), msgs[|msgs| - 1], sendFn, removeOk)
  }

  /** The `sent` counter: entries under the retry limit whose send and remove succeeded. */
  function CountSent(msgs: seq<Unsent>, sendFn: SendOutcome, removeOk: RemoveOutcome): nat
    decreases |msgs|
  {
    if |msgs| == 0 then 0
    else
      var e := msgs[|msgs| - 1];
      CountSent(msgs[..|msgs| - 1], sendFn, removeOk) + (if Flushed(e, sendFn, removeOk) then 1 else 0)
  }

  /** The `failed` counter: entries dropped for their retries, or whose send or remove failed. */
  function CountFailed(msgs: seq<Unsent>, sendFn: SendOutcome, removeOk: RemoveOutcome): nat
    decreases |msgs|
  {
    if |msgs| == 0 then 0
    else
      var e := msgs[|msgs| - 1];
      CountFailed(msgs[..|msgs| - 1], sendFn, removeOk) + (if Flushed(e, sendFn, removeOk) then 0 else 1)
  }

  /** Ghost bookkeeping: one more send attempt on every entry under the retry limit. */
  ghost function Attempted(attempts: map<nat, nat>, msgs: seq<Unsent>): map<nat, nat>
    decreases |msgs|
  {
    if |msgs| == 0 then attempts
    else
      var prev := Attempted(attempts, msgs[..|msgs| - 1]);
      var e := msgs[|msgs| - 1];
      if e.retries < MaxRetries && e.id in prev then prev[e.id := prev[e.id] + 1] else prev
  }

  /** The loop's functions, one element further. */
  lemma PrefixStep(store: Store, attempts: map<nat, nat>, msgs: seq<Unsent>, i: nat, sendFn: SendOutcome, removeOk: RemoveOutcome)
    requires i < |msgs|
    ensures Replay(store, msgs[..i + 1], sendFn, removeOk) == Step(Replay(store, msgs[..i], sendFn, removeOk), msgs[i], sendFn, removeOk)
    ensures CountSent(msgs[..i + 1], sendFn, removeOk) ==
      CountSent(msgs[..i], sendFn, removeOk) + (if Flushed(msgs[i], sendFn, removeOk) then 1 else 0)
    ensures CountFailed(msgs[..i + 1], sendFn, removeOk) ==
      CountFailed(msgs[..i], sendFn, removeOk) + (if Flushed(msgs[i], sendFn, removeOk) then 0 else 1)
    ensures var prev := Attempted(attempts, msgs[..i]);
      Attempted(attempts, msgs[..i + 1]) ==
        if msgs[i].retries < MaxRetries && msgs[i].id in prev then prev[msgs[i].id := prev[msgs[i].id] + 1] else prev
  {
    assert msgs[..i + 1][..i] == msgs[..i];
  }

  /** The attempt counts after one more entry, given those before it and the update the loop body made. */
  lemma AttemptedStep(attempts0: map<nat, nat>, msgs: seq<Unsent>, i: nat, tries: map<nat, nat>, after: map<nat, nat>)
    requires i < |msgs| && tries == Attempted(attempts0, msgs[..i]) && msgs[i].id in tries
    requires after == if msgs[i].retries < MaxRetries then tries[msgs[i].id := tries[msgs[i].id] + 1] else tries
    ensures after == Attempted(attempts0, msgs[..i + 1])
  {
    assert msgs[..i + 1][..i] == msgs[..i];
  }

  /** Every entry listed at the start of a flush is counted exactly once. */
  lemma {:induction false} SentPlusFailed(msgs: seq<Unsent>, sendFn: SendOutcome, removeOk: RemoveOutcome)
    ensures CountSent(msgs, sendFn, removeOk) + CountFailed(msgs, sendFn, removeOk) == |msgs|
    decreases |msgs|
  {
    if |msgs| > 0 {
      SentPlusFailed(msgs[..|msgs| - 1], sendFn, removeOk);
    }
  }

  /** What one step does: only the processed entry's key changes. */
  lemma StepOutcome(prev: Store, e: Unsent, sendFn: SendOutcome, removeOk: RemoveOutcome)
    requires e.id in prev && prev[e.id] == e
    ensures forall k :: k in Step(prev, e, sendFn, removeOk) ==> k in prev
    ensures forall k :: k in prev && k != e.id ==> k in Step(prev, e, sendFn, removeOk) && Step(prev, e, sendFn, removeOk)[k] == prev[k]
    ensures Leaves(e, sendFn, removeOk) ==> e.id !in Step(prev, e, sendFn, removeOk)
    ensures !Leaves(e, sendFn, removeOk) ==> e.id in Step(prev, e, sendFn, removeOk) && Step(prev, e, sendFn, removeOk)[e.id] == e.(retries := e.retries + 1)
  {
  }

  /** Flushing entry `i` of a snapshot of distinct entries leaves the later ones in the store as they were. */
  lemma RestUntouched(before: Store, msgs: seq<Unsent>, i: nat, sendFn: SendOutcome, removeOk: RemoveOutcome)
    requires i < |msgs| && Ascending(msgs)
    requires forall j :: i <= j < |msgs| ==> msgs[j].id in before && before[msgs[j].id] == msgs[j]
    ensures forall j :: i < j < |msgs| ==>
      msgs[j].id in Step(before, msgs[i], sendFn, removeOk) && Step(before, msgs[i], sendFn, removeOk)[msgs[j].id] == msgs[j]
  {
    StepOutcome(before, msgs[i], sendFn, removeOk);
    forall j | i < j < |msgs|
      ensures msgs[j].id in Step(before, msgs[i], sendFn, removeOk) && Step(before, msgs[i], sendFn, removeOk)[msgs[j].id] == msgs[j]
    {
      assert msgs[i].id < msgs[j].id;
    }
  }

  /** The facts each induction step below needs about a non-empty list of distinct entries. */
  lemma LastIsNew(msgs: seq<Unsent>)
    requires |msgs| > 0 && Ascending(msgs)
    ensures Ascending(msgs[..|msgs| - 1])
    ensures forall i :: 0 <= i < |msgs| - 1 ==> msgs[..|msgs| - 1][i] == msgs[i] && msgs[i].id != msgs[|msgs| - 1].id
    ensures Ids(msgs) == Ids(msgs[..|msgs| - 1]) + {msgs[|msgs| - 1].id}
  {
    var n := |msgs| - 1;
    var init := msgs[..n];
    forall i | 0 <= i < n
      ensures init[i] == msgs[i] && msgs[i].id != msgs[n].id
    {
      assert msgs[i].id < msgs[n].id;
    }
    forall k | k in Ids(msgs)
      ensures k in Ids(init) + {msgs[n].id}
    {
      var i :| 0 <= i < |msgs| && msgs[i].id == k;
      if i < n { assert init[i] == msgs[i]; }
    }
    forall k | k in Ids(init)
      ensures k in Ids(msgs)
    {
      var i :| 0 <= i < |init| && init[i].id == k;
      assert msgs[i] == init[i];
    }
    assert msgs[n].id in Ids(msgs);
  }

  /** A flush neither adds keys nor touches an entry it did not list. */
  lemma {:induction false} ReplayFrames(store: Store, msgs: seq<Unsent>, sendFn: SendOutcome, removeOk: RemoveOutcome)
    requires Ascending(msgs)
    requires forall i :: 0 <= i < |msgs| ==> msgs[i].id in store && store[msgs[i].id] == msgs[i]
    ensures forall k :: k in Replay(store, msgs, sendFn, removeOk) ==> k in store
    ensures forall k :: k in store && k !in Ids(msgs) ==>
      k in Replay(store, msgs, sendFn, removeOk) && Replay(store, msgs, sendFn, removeOk)[k] == store[k]
    decreases |msgs|
  {
    if |msgs| > 0 {
      var n := |msgs| - 1;
      LastIsNew(msgs);
      ReplayFrames(store, msgs[..n], sendFn, removeOk);
      StepOutcome(Replay(store, msgs[..n], sendFn, removeOk), msgs[n], sendFn, removeOk);
    }
  }

  /** Every listed entry that leaves is gone after the flush. */
  lemma {:induction false} ReplayDrops(store: Store, msgs: seq<Unsent>, sendFn: SendOutcome, removeOk: RemoveOutcome)
    requires Ascending(msgs)
    requires forall i :: 0 <= i < |msgs| ==> msgs[i].id in store && store[msgs[i].id] == msgs[i]
    ensures forall i :: 0 <= i < |msgs| && Leaves(msgs[i], sendFn, removeOk) ==>
      msgs[i].id !in Replay(store, msgs, sendFn, removeOk)
    decreases |msgs|
  {
    if |msgs| > 0 {
      var n := |msgs| - 1;
      LastIsNew(msgs);
      ReplayDrops(store, msgs[..n], sendFn, removeOk);
      ReplayFrames(store, msgs[..n], sendFn, removeOk);
      StepOutcome(Replay(store, msgs[..n], sendFn, removeOk), msgs[n], sendFn, removeOk);
    }
  }

  /** Every listed entry that stays is back with exactly one more retry. */
  lemma {:induction false} ReplayRetries(store: Store, msgs: seq<Unsent>, sendFn: SendOutcome, removeOk: RemoveOutcome)
    requires Ascending(msgs)
    requires forall i :: 0 <= i < |msgs| ==> msgs[i].id in store && store[msgs[i].id] == msgs[i]
    ensures forall i :: 0 <= i < |msgs| && !Leaves(msgs[i], sendFn, removeOk) ==>
      msgs[i].id in Replay(store, msgs, sendFn, removeOk) &&
      Replay(store, msgs, sendFn, removeOk)[msgs[i].id] == msgs[i].(retries := msgs[i].retries + 1)
    decreases |msgs|
  {
    if |msgs| > 0 {
      var n := |msgs| - 1;
      LastIsNew(msgs);
      ReplayRetries(store, msgs[..n], sendFn, removeOk);
      ReplayFrames(store, msgs[..n], sendFn, removeOk);
      StepOutcome(Replay(store, msgs[..n], sendFn, removeOk), msgs[n], sendFn, removeOk);
    }
  }

  /** The object store, with ghost bookkeeping of how often each entry was handed to a send function. */
  class Queue {
    var entries: Store
    var nextId: nat
    ghost var attempts: map<nat, nat>

    /** Keys are ids below the next id, and no entry was attempted more often than it was retried. */
    ghost predicate Valid()
      reads this
    {
      Keyed(entries) && nextId >= 1 &&
      (forall k :: k in entries ==> 1 <= k < nextId && k in attempts && attempts[k] <= entries[k].retries) &&
      (forall k :: k in attempts ==> k < nextId && attempts[k] <= MaxRetries)
    }

    constructor()
      ensures Valid() && entries == map[] && nextId == 1
    {
      entries := map[];
      nextId := 1;
      attempts := map[];
    }

    /** `addUnsentMessage`: a fresh id, the given conversation and payload, no retries. */
    method Add(conversationId: string, payload: SendPayload, now: int) returns (id: nat)
      requires Valid()
      modifies this
      ensures Valid()
      ensures id == old(nextId) && id !in old(entries) && id >= 1
      ensures entries == old(entries)[id := Unsent(id, conversationId, payload, now, 0)]
      ensures nextId == old(nextId) + 1
    {
      id := nextId;
      entries := entries[id := Unsent(id, conversationId, payload, now, 0)];
      attempts := attempts[id := 0];
      nextId := nextId + 1;
    }

    /** `listUnsentMessages`: exactly the entries of conversation `c`, in ascending id order. */
    function ListUnsent(c: string): (r: seq<Unsent>)
      requires Valid()
      reads this
      ensures forall e :: e in r <==> e.id in entries && entries[e.id] == e && e.conversationId == c
      ensures Ascending(r)
    {
      Scan(entries, Some(c), 0, nextId)
    }

    /** `listAllUnsentMessages`: every entry, in ascending id order. */
    function ListAll(): (r: seq<Unsent>)
      requires Valid()
      reads this
      ensures forall e :: e in r <==> e.id in entries && entries[e.id] == e
      ensures Ascending(r)
    {
      Scan(entries, None, 0, nextId)
    }

    /** `removeUnsentMessage`: only that id goes. */
    method Remove(id: nat)
      requires Valid()
      modifies this
      ensures Valid()
      ensures entries == old(entries) - {id}
      ensures nextId == old(nextId) && attempts == old(attempts)
    {
      entries := entries - {id};
    }

    /** `incrementRetry`: exactly one more retry on that entry; an absent id is a no-op. */
    method IncrementRetry(id: nat)
      requires Valid()
      modifies this
      ensures Valid()
      ensures entries == Bump(old(entries), id)
      ensures nextId == old(nextId) && attempts == old(attempts)
    {
      if id in entries {
        var e := entries[id];
        entries := entries[id := e.(retries := e.retries + 1)];
      }
    }

    /**
      `flushUnsent`: replay the entries listed at the start through `sendFn`
      (a send that throws is a send that returns false; a remove that throws
      bumps the entry instead, through the catch). The counters and the
      new store are those of the loop's specification, and every attempt is
      recorded.
    */
    method Flush(c: string, sendFn: SendOutcome, removeOk: RemoveOutcome) returns (sent: nat, failed: nat)
      requires Valid()
      modifies this
      ensures Valid()
      ensures entries == Replay(old(entries), old(ListUnsent(c)), sendFn, removeOk)
      ensures sent == CountSent(old(ListUnsent(c)), sendFn, removeOk)
      ensures failed == CountFailed(old(ListUnsent(c)), sendFn, removeOk)
      ensures attempts == Attempted(old(attempts), old(ListUnsent(c)))
      ensures nextId == old(nextId)
    {
      var msgs := ListUnsent(c);
      forall j | 0 <= j < |msgs|
        ensures msgs[j].id in entries && entries[msgs[j].id] == msgs[j]
      {
        assert msgs[j] in msgs;
      }
      sent, failed := FlushListed(msgs, sendFn, removeOk);
    }

    /** The loop of `flushUnsent`, over a snapshot of distinct entries still in the store. */
    method FlushListed(msgs: seq<Unsent>, sendFn: SendOutcome, removeOk: RemoveOutcome) returns (sent: nat, failed: nat)
      requires Valid() && Ascending(msgs)
      requires forall j :: 0 <= j < |msgs| ==> msgs[j].id in entries && entries[msgs[j].id] == msgs[j]
      modifies this
      ensures Valid() && nextId == old(nextId)
      ensures entries == Replay(old(entries), msgs, sendFn, removeOk)
      ensures attempts == Attempted(old(attempts), msgs)
      ensures sent == CountSent(msgs, sendFn, removeOk) && failed == CountFailed(msgs, sendFn, removeOk)
    {
      ghost var store0 := entries;
      ghost var attempts0 := attempts;
      sent, failed := 0, 0;
      var i := 0;
      while i < |msgs|
        invariant 0 <= i <= |msgs|
        invariant Valid() && nextId == old(nextId)
        invariant entries == Replay(store0, msgs[..i], sendFn, removeOk)
        invariant attempts == Attempted(attempts0, msgs[..i])
        invariant sent == CountSent(msgs[..i], sendFn, removeOk) && failed == CountFailed(msgs[..i], sendFn, removeOk)
        invariant forall j :: i <= j < |msgs| ==> msgs[j].id in entries && entries[msgs[j].id] == msgs[j]
      {
        PrefixStep(store0, attempts0, msgs, i, sendFn, removeOk);
        var success := FlushNext(msgs, i, sendFn, removeOk, store0, attempts0);
        if success { sent := sent + 1; } else { failed := failed + 1; }
        i := i + 1;
      }
      assert msgs[..i] == msgs;
    }

    /** The body of the flush loop for entry `i` of the snapshot: the store and the counts move one entry further. */
    method FlushNext(msgs: seq<Unsent>, i: nat, sendFn: SendOutcome, removeOk: RemoveOutcome, ghost store0: Store, ghost attempts0: map<nat, nat>)
      returns (success: bool)
      requires Valid() && i < |msgs| && Ascending(msgs)
      requires entries == Replay(store0, msgs[..i], sendFn, removeOk) && attempts == Attempted(attempts0, msgs[..i])
      requires forall j :: i <= j < |msgs| ==> msgs[j].id in entries && entries[msgs[j].id] == msgs[j]
      modifies this
      ensures Valid() && nextId == old(nextId)
      ensures entries == Replay(store0, msgs[..i + 1], sendFn, removeOk) && attempts == Attempted(attempts0, msgs[..i + 1])
      ensures forall j :: i < j < |msgs| ==> msgs[j].id in entries && entries[msgs[j].id] == msgs[j]
      ensures success <==> Flushed(msgs[i], sendFn, removeOk)
    {
      PrefixStep(store0, attempts0, msgs, i, sendFn, removeOk);
      ghost var before, tries := entries, attempts;
      assert msgs[i].id in tries;
      success := FlushOne(msgs[i], sendFn, removeOk);
      AttemptedStep(attempts0, msgs, i, tries, attempts);
      RestUntouched(before, msgs, i, sendFn, removeOk);
    }

    /** One iteration of the flush loop, on an entry still in the store; reports whether it was sent. */
    method FlushOne(msg: Unsent, sendFn: SendOutcome, removeOk: RemoveOutcome) returns (success: bool)
      requires Valid() && msg.id in entries && entries[msg.id] == msg
      modifies this
      ensures Valid() && nextId == old(nextId)
      ensures entries == Step(old(entries), msg, sendFn, removeOk)
      ensures attempts == if msg.retries < MaxRetries then old(attempts)[msg.id := old(attempts)[msg.id] + 1] else old(attempts)
      ensures success <==> Flushed(msg, sendFn, removeOk)
    {
      if msg.retries >= MaxRetries {
        if removeOk(msg.id) {
          Remove(msg.id);
        } else {
          IncrementRetry(msg.id);
        }
        success := false;
      } else {
        var delivered := sendFn(msg.id, msg.payload);
        success := delivered && removeOk(msg.id);
        if success {
          Remove(msg.id);
        } else {
          IncrementRetry(msg.id);
        }
        attempts := attempts[msg.id := attempts[msg.id] + 1];
      }
    }

    /** `clearAllUnsent`: the store empties; ids are not reused. */
    method ClearAll()
      requires Valid()
      modifies this
      ensures Valid()
      ensures entries == map[] && nextId == old(nextId) && attempts == old(attempts)
    {
      entries := map[];
    }
  }
}
