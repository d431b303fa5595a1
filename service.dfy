/*
 * The service around the logger: startup recovery folds the replayed
 * events into the key-value store, then starts the writer; the two
 * mutating request handlers change the store first and log only on
 * success.
 *
 * The store is a map whose Put and Delete may fail; a failure is given
 * as a parameter and leaves the store as it was.
 */
module Service {
  import opened Transaction
  import opened FileLog

  type Store = map<string, string>

  /** `store.Put`, failing with `fault` when there is one. */
  function StorePut(s: Store, key: string, value: string, fault: Option<string>): (Store, Option<Error>)
  {
    if fault.Some? then (s, Some(StoreFailed(fault.value))) else (s[key := value], None)
  }

  /** `store.Delete`, failing with `fault` when there is one. */
  function StoreDelete(s: Store, key: string, fault: Option<string>): (Store, Option<Error>)
  {
    if fault.Some? then (s, Some(StoreFailed(fault.value))) else (s - {key}, None)
  }

  /**
   * One event applied during recovery: Delete and Put reach the store,
   * any other kind code is skipped.
   */
  function ApplyEvent(s: Store, e: Event, fault: Option<string>): (r: (Store, Option<Error>))
    ensures r.1.Some? <==> fault.Some? && KindOf(e.eventType).Some?
    ensures r.1.Some? ==> r.0 == s && r.1 == Some(StoreFailed(fault.value))
  {
    match KindOf(e.eventType)
    case Some(Delete) => StoreDelete(s, e.key, fault)
    case Some(Put) => StorePut(s, e.key, e.value, fault)
    case None => (s, None)
  }

  /** The store operation for `e` is attempted and fails. */
  predicate Refused(e: Event, fault: Option<string>)
  {
    fault.Some? && KindOf(e.eventType).Some?
  }

  /** The mutation `e` stands for, applied without fault. */
  function Mutate(s: Store, e: Event): Store
  {
    ApplyEvent(s, e, None).0
  }

  /** The store that results from applying `es` in order, with no faults. */
  function Rebuild(s: Store, es: seq<Event>): Store
    decreases |es|
  {
    if es == [] then s else Rebuild(Mutate(s, es[0]), es[1..])
  }

  /** An event whose kind code is neither Delete nor Put changes nothing. */
  lemma UnknownKindIsSkipped(s: Store, e: Event, fault: Option<string>)
    requires e.eventType != EventDelete && e.eventType != EventPut
    ensures ApplyEvent(s, e, fault) == (s, None)
  {
  }

  /** The event a closed channel delivers, of kind code 0, changes nothing. */
  lemma ZeroEventIsSkipped(s: Store, fault: Option<string>)
    ensures ApplyEvent(s, ZeroEvent, fault) == (s, None)
  {
  }

  /** Replaying a log in two parts is replaying it whole. */
  lemma {:induction false} RebuildAppend(s: Store, a: seq<Event>, b: seq<Event>)
    ensures Rebuild(s, a + b) == Rebuild(Rebuild(s, a), b)
    decreases |a|
  {
    if a != [] {
      assert (a + b)[0] == a[0] && (a + b)[1..] == a[1..] + b;
      assert Rebuild(s, a + b) == Rebuild(Mutate(s, a[0]), a[1..] + b);
      RebuildAppend(Mutate(s, a[0]), a[1..], b);
    } else {
      assert a + b == b;
    }
  }

  /** The two sequences carry the same mutations, whatever their sequence numbers. */
  predicate SameMutations(a: seq<Event>, b: seq<Event>)
  {
    |a| == |b| &&
    forall i :: 0 <= i < |a| ==>
      a[i].eventType == b[i].eventType && a[i].key == b[i].key && a[i].value == b[i].value
  }

  /** Sequence numbers do not affect the rebuilt store. */
  lemma {:induction false} RebuildIgnoresSequence(s: Store, a: seq<Event>, b: seq<Event>)
    requires SameMutations(a, b)
    ensures Rebuild(s, a) == Rebuild(s, b)
    decreases |a|
  {
    if a != [] {
      assert Mutate(s, a[0]) == Mutate(s, b[0]);
      assert SameMutations(a[1..], b[1..]) by {
        forall i | 0 <= i < |a| - 1 ensures a[1..][i] == a[i + 1] && b[1..][i] == b[i + 1] { }
      }
      RebuildIgnoresSequence(Mutate(s, a[0]), a[1..], b[1..]);
    }
  }

  // ---------------------------------------------------------------------
  // Startup recovery
  // ---------------------------------------------------------------------

  /** How far the recovery loop got: the store, events consumed, the error it stopped on. */
  datatype Applied = Applied(store: Store, count: nat, err: Option<Error>)

  /** Applying the replayed events until the first store failure. */
  function ApplyEvents(s: Store, es: seq<Event>, faults: seq<Option<string>>): (r: Applied)
    requires |faults| == |es|
    ensures r.count <= |es|
    ensures r.err.None? ==> r.count == |es|
    ensures r.err.Some? ==> 0 < r.count && r.err.value.StoreFailed?
    decreases |es|
  {
    if es == [] then Applied(s, 0, None)
    else
      var (s1, err1) := ApplyEvent(s, es[0], faults[0]);
      if err1.Some? then Applied(s1, 1, err1)
      else
        var rest := ApplyEvents(s1, es[1..], faults[1..]);
        Applied(rest.store, rest.count + 1, rest.err)
  }

  /**
   * Recovery ends cleanly, having applied every event, exactly when no
   * store operation failed.
   */
  lemma {:induction false} ApplyEventsClean(s: Store, es: seq<Event>, faults: seq<Option<string>>)
    requires |faults| == |es|
    ensures var a := ApplyEvents(s, es, faults);
      && (a.err.None? <==> forall i :: 0 <= i < |es| ==> !Refused(es[i], faults[i]))
      && (a.err.None? ==> a.count == |es| && a.store == Rebuild(s, es))
    decreases |es|
  {
    if es != [] {
      var (s1, err1) := ApplyEvent(s, es[0], faults[0]);
      if err1.None? {
        assert s1 == Mutate(s, es[0]);
        ApplyEventsClean(s1, es[1..], faults[1..]);
        forall i | 1 <= i < |es| ensures es[1..][i - 1] == es[i] && faults[1..][i - 1] == faults[i] { }
      }
    }
  }

  /**
   * The loop stops at the first failed store operation: every earlier
   * event was applied, the failing one and every later one were not, so
   * the store is the one rebuilt from a strict prefix of the events.
   */
  lemma {:induction false} ApplyEventsStopsAtFirstError(s: Store, es: seq<Event>, faults: seq<Option<string>>)
    requires |faults| == |es|
    ensures var a := ApplyEvents(s, es, faults);
      a.err.Some? ==>
        && 0 < a.count <= |es|
        && (forall i :: 0 <= i < a.count - 1 ==> !Refused(es[i], faults[i]))
        && Refused(es[a.count - 1], faults[a.count - 1])
        && a.err == Some(StoreFailed(faults[a.count - 1].value))
        && a.store == Rebuild(s, es[..a.count - 1])
    decreases |es|
  {
    if es != [] {
      var (s1, err1) := ApplyEvent(s, es[0], faults[0]);
      if err1.None? {
        assert s1 == Mutate(s, es[0]);
        ApplyEventsStopsAtFirstError(s1, es[1..], faults[1..]);
        var rest := ApplyEvents(s1, es[1..], faults[1..]);
        if rest.err.Some? {
          var k := rest.count;
          forall i | 1 <= i < k + 1 ensures es[1..][i - 1] == es[i] && faults[1..][i - 1] == faults[i] { }
          assert es[..k][1..] == es[1..][..k - 1];
        }
      }
    }
  }

  /**
   * The recovery loop's result. All replayed events are delivered before
   * either channel can report an error or close; after that the select
   * takes the pending replay error when `takeError` holds, and otherwise
   * sees a closed channel and ends without error.
   */
  function Recover(s: Store, es: seq<Event>, faults: seq<Option<string>>,
                   replayErr: Option<Error>, takeError: bool): (r: (Store, Option<Error>))
    requires |faults| == |es|
    ensures r.1.Some? ==> r.1 == replayErr || r.1.value.StoreFailed?
    ensures !takeError ==> r.1.None? || r.1.value.StoreFailed?
  {
    var a := ApplyEvents(s, es, faults);
    if a.err.Some? then (a.store, a.err)
    else (a.store, if takeError then replayErr else None)
  }

  /**
   * Recovery reports at most the one error it stopped on: a store failure
   * first, otherwise the replay error if the select took it. A replay error
   * can be missed, never invented.
   */
  lemma RecoverReportsOneError(s: Store, es: seq<Event>, faults: seq<Option<string>>,
                               replayErr: Option<Error>, takeError: bool)
    requires |faults| == |es|
    ensures var (store, err) := Recover(s, es, faults, replayErr, takeError);
      && ((forall i :: 0 <= i < |es| ==> !Refused(es[i], faults[i])) ==>
            store == Rebuild(s, es) && err == (if takeError then replayErr else None))
      && (err.Some? && err != replayErr ==> err.value.StoreFailed?)
      && (replayErr.None? && err.Some? ==> exists i :: 0 <= i < |es| && Refused(es[i], faults[i]))
  {
    ApplyEventsClean(s, es, faults);
    ApplyEventsStopsAtFirstError(s, es, faults);
  }

  /**
   * A store failure always wins: when event k is the first refused one,
   * recovery reports that failure, whatever the replay error and the
   * select's choice, and the store holds exactly the events before k.
   */
  lemma RecoverReportsFirstStoreFailure(s: Store, es: seq<Event>, faults: seq<Option<string>>,
                                        replayErr: Option<Error>, takeError: bool, k: nat)
    requires |faults| == |es|
    requires k < |es| && Refused(es[k], faults[k])
    requires forall i :: 0 <= i < k ==> !Refused(es[i], faults[i])
    ensures Recover(s, es, faults, replayErr, takeError) == (Rebuild(s, es[..k]), Some(StoreFailed(faults[k].value)))
  {
    ApplyEventsClean(s, es, faults);
    ApplyEventsStopsAtFirstError(s, es, faults);
  }

  /** The logger calls recovery makes, in order. */
  datatype LoggerCall = ReadEventsCall | RunCall

  /**
   * Startup: construct the logger (a failure returns at once), replay and
   * apply its events until the first error or a closed channel, then start
   * the writer whatever the outcome and return the loop's error.
   * `events` and `replayErr` are what the replay channels carry,
   * `faults[i]` the store's failure on event i, `takeError` the select's
   * choice once a replay error and the closed event channel are both ready.
   */
  method InitializeTransactionLog(store: Store, createErr: Option<string>, events: seq<Event>,
                                  replayErr: Option<Error>, faults: seq<Option<string>>, takeError: bool)
    returns (store': Store, calls: seq<LoggerCall>, err: Option<Error>)
    requires |faults| == |events|
    ensures createErr.Some? ==> store' == store && calls == [] && err == Some(CreateFailed(createErr.value))
    ensures createErr.None? ==>
      && calls == [ReadEventsCall, RunCall]
      && (store', err) == Recover(store, events, faults, replayErr, takeError)
  {
    if createErr.Some? {
      return store, [], Some(CreateFailed(createErr.value));
    }
    calls := [ReadEventsCall];
    store', err := store, None;
    var i, ok := 0, true;
    while ok && err.None?
      invariant 0 <= i <= |events|
      invariant ok && err.None? ==>
        var r := ApplyEvents(store', events[i..], faults[i..]);
        ApplyEvents(store, events, faults) == Applied(r.store, i + r.count, r.err)
      invariant !(ok && err.None?) ==> (store', err) == Recover(store, events, faults, replayErr, takeError)
      decreases |events| - i, if ok && err.None? then 1 else 0
    {
      if i < |events| {
        // Only the event channel is ready while replay is still sending.
        assert events[i..][1..] == events[i + 1..] && faults[i..][1..] == faults[i + 1..];
        var r := ApplyEvent(store', events[i], faults[i]);
        store', err := r.0, r.1;
        i := i + 1;
      } else if replayErr.Some? && takeError {
        err := replayErr;
      } else if takeError {
        // The error channel reports closed.
        err, ok := None, false;
      } else {
        // The event channel reports closed and delivers the zero event.
        var r := ApplyEvent(store', ZeroEvent, None);
        store', err := r.0, r.1;
        ok := false;
      }
    }
    calls := calls + [RunCall];
  }

  // ---------------------------------------------------------------------
  // Request handlers
  // ---------------------------------------------------------------------

  const StatusOK: int := 200
  const StatusCreated: int := 201
  const StatusInternalServerError: int := 500

  /**
   * DELETE: delete from the store, and only if that succeeded hand the
   * logger a Delete event for the key. `logged` is what the logger is given.
   */
  method KeyValueDeleteHandler(store: Store, key: string, fault: Option<string>)
    returns (store': Store, logged: seq<Event>, status: int)
    ensures fault.Some? ==> store' == store && logged == [] && status == StatusInternalServerError
    ensures fault.None? ==> key !in store' && logged == [DeleteEvent(key)] && status == StatusOK
    ensures forall k :: k != key ==> (k in store' <==> k in store) && (k in store ==> store'[k] == store[k])
    ensures Rebuild(store, logged) == store'
  {
    var r := StoreDelete(store, key, fault);
    store' := r.0;
    if r.1.Some? {
      return store', [], StatusInternalServerError;
    }
    logged := [DeleteEvent(key)];
    status := StatusOK;
  }

  /**
   * PUT: read the body, store it under the key, and only if that succeeded
   * hand the logger a Put event with exactly that key and body.
   */
  method KeyValuePutHandler(store: Store, key: string, body: string, readErr: Option<string>, fault: Option<string>)
    returns (store': Store, logged: seq<Event>, status: int)
    ensures readErr.Some? || fault.Some? ==> store' == store && logged == [] && status == StatusInternalServerError
    ensures readErr.None? && fault.None? ==>
      && key in store' && store'[key] == body
      && logged == [PutEvent(key, body)] && status == StatusCreated
    ensures forall k :: k != key ==> (k in store' <==> k in store) && (k in store ==> store'[k] == store[k])
    ensures Rebuild(store, logged) == store'
  {
    if readErr.Some? {
      return store, [], StatusInternalServerError;
    }
    var r := StorePut(store, key, body, fault);
    store' := r.0;
    if r.1.Some? {
      return store', [], StatusInternalServerError;
    }
    logged := [PutEvent(key, body)];
    status := StatusCreated;
  }

  /** The events a run of requests logged, in request order. */
  function Concat(logs: seq<seq<Event>>): seq<Event>
    decreases |logs|
  {
    if logs == [] then [] else Concat(logs[..|logs| - 1]) + logs[|logs| - 1]
  }

  /**
   * A run of handler calls: call i turns `stores[i]` into `stores[i + 1]`
   * and logs `logs[i]`, and each handler's own contract says replaying its
   * log reproduces its store. Then replaying everything the run logged, in
   * order, reproduces the store the run ends with.
   */
  lemma {:induction false} HandlerLogsReplayToStore(stores: seq<Store>, logs: seq<seq<Event>>)
    requires |stores| == |logs| + 1
    requires forall i :: 0 <= i < |logs| ==> Rebuild(stores[i], logs[i]) == stores[i + 1]
    ensures Rebuild(stores[0], Concat(logs)) == stores[|logs|]
    decreases |logs|
  {
    if logs != [] {
      var n := |logs| - 1;
      HandlerLogsReplayToStore(stores[..n + 1], logs[..n]);
      RebuildAppend(stores[0], Concat(logs[..n]), logs[n]);
    }
  }

  // ---------------------------------------------------------------------
  // Restart
  // ---------------------------------------------------------------------

  /** With no store failures, applying events is rebuilding from them. */
  lemma ApplyEventsNoFaults(s: Store, es: seq<Event>)
    ensures ApplyEvents(s, es, NoFaults(|es|)) == Applied(Rebuild(s, es), |es|, None)
  {
    ApplyEventsClean(s, es, NoFaults(|es|));
  }

  /**
   * Restart: the events the handlers logged, written by a fresh logger with
   * every append succeeding, then replayed by a fresh logger over the same
   * records and applied with no store failure, rebuild the store the
   * handlers' mutations produce, and recovery reports no error.
   */
  lemma RestartRebuildsStore(s: Store, queue: seq<Event>, takeError: bool)
    requires |queue| <= MaxUint64
    ensures var w := Write(0, queue, NoFaults(|queue|));
      var r := Replay(0, Records(w.written), None);
      && r.err.None?
      && Recover(s, r.yielded, NoFaults(|r.yielded|), r.err, takeError) == (Rebuild(s, queue), None)
  {
    var w := Write(0, queue, NoFaults(|queue|));
    WriteThenReplay(0, queue);
    WriteStamps(0, queue, NoFaults(|queue|));
    ApplyEventsNoFaults(s, w.written);
    RebuildIgnoresSequence(s, w.written, queue);
  }

  /**
   * The concrete restart: Put("a","1"), Put("b","2"), Delete("a") are
   * numbered 1, 2, 3 and rebuild an empty store to {b: "2"}.
   */
  lemma PutPutDeleteScenario()
    ensures var queue := [PutEvent("a", "1"), PutEvent("b", "2"), DeleteEvent("a")];
      var w := Write(0, queue, NoFaults(3));
      && w.written == [Event(1, EventPut, "a", "1"), Event(2, EventPut, "b", "2"), Event(3, EventDelete, "a", "")]
      && Rebuild(map[], queue) == map["b" := "2"]
  {
  }
}
