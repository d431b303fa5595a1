/*
 * The file-backed transaction logger. One counter, `lastSequence`, is
 * shared by the replay pass (which raises it to the highest sequence read)
 * and the writer (which stamps each queued event with the next number).
 *
 * The text format of a record is left abstract: replay consumes the result
 * of parsing each scanned line, and the writer appends stamped events.
 */
module FileLog {
  import opened Transaction

  /** One scanned line of the log file, after parsing. */
  datatype Scanned = Record(event: Event) | Malformed(cause: string)

  /** The lines a faithful parse of the given events would give. */
  function Records(es: seq<Event>): (lines: seq<Scanned>)
    ensures |lines| == |es|
    ensures forall i :: 0 <= i < |es| ==> lines[i] == Record(es[i])
  {
    seq(|es|, i requires 0 <= i < |es| => Record(es[i]))
  }

  /** Sequence numbers strictly increase and all lie above `mark`. */
  predicate Ascending(es: seq<Event>, mark: int)
  {
    && (forall i :: 0 <= i < |es| ==> mark < es[i].sequence)
    && (forall i, j :: 0 <= i < j < |es| ==> es[i].sequence < es[j].sequence)
  }

  /** The high-water mark after the events `es` have been accepted above `mark`. */
  function LastSequence(es: seq<Event>, mark: Uint64): Uint64
  {
    if es == [] then mark else es[|es| - 1].sequence
  }

  // ---------------------------------------------------------------------
  // Replay
  // ---------------------------------------------------------------------

  /** What one replay pass produces: the events sent, the one error, the new mark. */
  datatype ReplayOutcome = ReplayOutcome(yielded: seq<Event>, err: Option<Error>, mark: Uint64)

  /**
   * The replay pass over the scanned lines, starting from high-water mark
   * `mark`; `scanErr` is the scanner's error once it stops producing lines.
   */
  function Replay(mark: Uint64, lines: seq<Scanned>, scanErr: Option<string>): (r: ReplayOutcome)
    ensures |r.yielded| <= |lines|
    ensures mark <= r.mark
    ensures r.yielded == [] ==> r.mark == mark
    decreases |lines|
  {
    if lines == [] then
      ReplayOutcome([], if scanErr.Some? then Some(ReadFailed(scanErr.value)) else None, mark)
    else
      match lines[0]
      case Malformed(cause) => ReplayOutcome([], Some(ParseFailed(cause)), mark)
      case Record(e) =>
        if mark >= e.sequence then ReplayOutcome([], Some(OutOfSequence), mark)
        else
          var rest := Replay(e.sequence, lines[1..], scanErr);
          ReplayOutcome([e] + rest.yielded, rest.err, rest.mark)
  }

  /** The yielded events are the leading records, in file order. */
  lemma {:induction false} ReplayYieldsPrefix(mark: Uint64, lines: seq<Scanned>, scanErr: Option<string>)
    ensures var o := Replay(mark, lines, scanErr);
      && |o.yielded| <= |lines|
      && forall i :: 0 <= i < |o.yielded| ==> lines[i] == Record(o.yielded[i])
    decreases |lines|
  {
    if lines != [] && lines[0].Record? && mark < lines[0].event.sequence {
      ReplayYieldsPrefix(lines[0].event.sequence, lines[1..], scanErr);
    }
  }

  /**
   * Yielded sequences strictly increase above the starting mark, and the
   * final mark is the last yielded sequence, or the starting mark if none.
   */
  lemma {:induction false} ReplayAscending(mark: Uint64, lines: seq<Scanned>, scanErr: Option<string>)
    ensures var o := Replay(mark, lines, scanErr);
      Ascending(o.yielded, mark) && o.mark == LastSequence(o.yielded, mark)
    decreases |lines|
  {
    if lines != [] && lines[0].Record? && mark < lines[0].event.sequence {
      var e := lines[0].event;
      ReplayAscending(e.sequence, lines[1..], scanErr);
      var rest := Replay(e.sequence, lines[1..], scanErr);
      var ys := [e] + rest.yielded;
      forall i, j | 0 <= i < j < |ys| ensures ys[i].sequence < ys[j].sequence {
        if i > 0 { assert ys[i] == rest.yielded[i - 1]; }
        assert ys[j] == rest.yielded[j - 1];
      }
    }
  }

  /**
   * Replay ends without error exactly when every line was accepted and the
   * scanner reported no error.
   */
  lemma {:induction false} ReplayCleanIff(mark: Uint64, lines: seq<Scanned>, scanErr: Option<string>)
    ensures var o := Replay(mark, lines, scanErr);
      o.err.None? <==> scanErr.None? && |o.yielded| == |lines|
    decreases |lines|
  {
    ReplayYieldsPrefix(mark, lines, scanErr);
    if lines != [] && lines[0].Record? && mark < lines[0].event.sequence {
      ReplayCleanIff(lines[0].event.sequence, lines[1..], scanErr);
    }
  }

  /**
   * A failed replay names exactly one cause: the first line not yielded,
   * malformed or out of sequence against the mark reached so far, or, when
   * every line was yielded, the scanner's own error.
   */
  lemma {:induction false} ReplayStopsAtFirstFault(mark: Uint64, lines: seq<Scanned>, scanErr: Option<string>)
    ensures var o := Replay(mark, lines, scanErr);
      var k := |o.yielded|;
      o.err.Some? ==>
        || (k == |lines| && scanErr.Some? && o.err == Some(ReadFailed(scanErr.value)))
        || (k < |lines| && lines[k].Malformed? && o.err == Some(ParseFailed(lines[k].cause)))
        || (k < |lines| && lines[k].Record? && lines[k].event.sequence <= o.mark
            && o.err == Some(OutOfSequence))
    decreases |lines|
  {
    if lines != [] && lines[0].Record? && mark < lines[0].event.sequence {
      var e := lines[0].event;
      ReplayStopsAtFirstFault(e.sequence, lines[1..], scanErr);
      var rest := Replay(e.sequence, lines[1..], scanErr);
      ReplayYieldsPrefix(e.sequence, lines[1..], scanErr);
      var k := |rest.yielded|;
      if k < |lines| - 1 {
        assert lines[k + 1] == lines[1..][k];
      }
    }
  }

  /** Records whose sequences strictly increase above the mark are all accepted. */
  lemma {:induction false} ReplayAcceptsAscending(mark: Uint64, es: seq<Event>)
    requires Ascending(es, mark)
    ensures Replay(mark, Records(es), None) == ReplayOutcome(es, None, LastSequence(es, mark))
    decreases |es|
  {
    if es != [] {
      var lines := Records(es);
      assert lines[0] == Record(es[0]);
      assert lines[1..] == Records(es[1..]);
      assert Ascending(es[1..], es[0].sequence) by {
        forall i | 0 <= i < |es[1..]| ensures es[0].sequence < es[1..][i].sequence {
          assert es[1..][i] == es[i + 1];
        }
      }
      ReplayAcceptsAscending(es[0].sequence, es[1..]);
      assert [es[0]] + es[1..] == es;
      if |es| > 1 {
        assert es[1..][|es[1..]| - 1] == es[|es| - 1];
      }
    }
  }

  /** A fresh logger's mark is 0, so a record numbered 0 is rejected at once. */
  lemma FreshReplayRejectsZero(e: Event, lines: seq<Scanned>, scanErr: Option<string>)
    requires e.sequence == 0
    ensures Replay(0, [Record(e)] + lines, scanErr) == ReplayOutcome([], Some(OutOfSequence), 0)
  {
  }

  // ---------------------------------------------------------------------
  // Writer
  // ---------------------------------------------------------------------

  /** What the writer produces: the records appended, its one error, the new counter. */
  datatype WriteOutcome = WriteOutcome(written: seq<Event>, err: Option<Error>, last: Uint64)

  /** Every append of a queue of length `n` succeeds. */
  function NoFaults(n: nat): (faults: seq<Option<string>>)
    ensures |faults| == n
    ensures forall i :: 0 <= i < n ==> faults[i] == None
  {
    seq(n, i => None)
  }

  /**
   * The writer draining `queue` from counter `last`: each event raises the
   * counter by one and is appended stamped with it; `appendErr[i]` is the
   * failure of the i-th append, if any, after which the writer stops.
   */
  function Write(last: nat, queue: seq<Event>, appendErr: seq<Option<string>>): (r: WriteOutcome)
    requires |appendErr| == |queue|
    requires last + |queue| <= MaxUint64
    ensures |r.written| <= |queue|
    ensures r.last == last + |r.written| + (if r.err.Some? then 1 else 0)
    ensures r.err.None? ==> |r.written| == |queue|
    decreases |queue|
  {
    if queue == [] then WriteOutcome([], None, last)
    else
      var next := last + 1;
      if appendErr[0].Some? then WriteOutcome([], Some(WriteFailed(appendErr[0].value)), next)
      else
        var rest := Write(next, queue[1..], appendErr[1..]);
        WriteOutcome([queue[0].(sequence := next)] + rest.written, rest.err, rest.last)
  }

  /**
   * The writer appends a prefix of the queue, in queue order, numbering
   * the i-th record `last + 1 + i` and keeping its kind, key and value.
   */
  lemma {:induction false} WriteStamps(last: nat, queue: seq<Event>, appendErr: seq<Option<string>>)
    requires |appendErr| == |queue|
    requires last + |queue| <= MaxUint64
    ensures var w := Write(last, queue, appendErr);
      && |w.written| <= |queue|
      && forall i :: 0 <= i < |w.written| ==> w.written[i] == queue[i].(sequence := last + 1 + i)
    decreases |queue|
  {
    if queue != [] && appendErr[0].None? {
      WriteStamps(last + 1, queue[1..], appendErr[1..]);
      var rest := Write(last + 1, queue[1..], appendErr[1..]);
      var ws := [queue[0].(sequence := last + 1)] + rest.written;
      forall i | 1 <= i < |ws| ensures ws[i] == queue[i].(sequence := last + 1 + i) {
        assert ws[i] == rest.written[i - 1];
        assert queue[1..][i - 1] == queue[i];
      }
    }
  }

  /**
   * The writer halts at the first failed append: it reports that failure
   * and nothing after it, the failed event has used up a number, and the
   * writer ends cleanly exactly when every append succeeded.
   */
  lemma {:induction false} WriteHaltsAtFirstFailure(last: nat, queue: seq<Event>, appendErr: seq<Option<string>>)
    requires |appendErr| == |queue|
    requires last + |queue| <= MaxUint64
    ensures var w := Write(last, queue, appendErr);
      var k := |w.written|;
      && (w.err.None? <==> forall i :: 0 <= i < |queue| ==> appendErr[i].None?)
      && (w.err.None? ==> k == |queue| && w.last == last + |queue|)
      && (w.err.Some? ==>
            && k < |queue|
            && (forall i :: 0 <= i < k ==> appendErr[i].None?)
            && appendErr[k].Some?
            && w.err == Some(WriteFailed(appendErr[k].value))
            && w.last == last + k + 1)
    decreases |queue|
  {
    if queue != [] && appendErr[0].None? {
      WriteHaltsAtFirstFailure(last + 1, queue[1..], appendErr[1..]);
      var rest := Write(last + 1, queue[1..], appendErr[1..]);
      forall i | 1 <= i < |queue| ensures appendErr[1..][i - 1] == appendErr[i] { }
      if rest.err.Some? {
        assert appendErr[|rest.written| + 1] == appendErr[1..][|rest.written|];
      }
    }
  }

  /** The writer's records strictly increase above the counter it started from. */
  lemma WriteAscending(last: nat, queue: seq<Event>, appendErr: seq<Option<string>>)
    requires |appendErr| == |queue|
    requires last + |queue| <= MaxUint64
    ensures Ascending(Write(last, queue, appendErr).written, last)
  {
    WriteStamps(last, queue, appendErr);
  }

  /**
   * The hand-off from replay to writer: the writer continues the numbering
   * from the replayed high-water mark, so the replayed events followed by
   * the newly written ones still strictly increase.
   */
  lemma ReplayThenWriteAscending(mark: Uint64, lines: seq<Scanned>, scanErr: Option<string>,
                                 queue: seq<Event>, appendErr: seq<Option<string>>)
    requires |appendErr| == |queue|
    requires Replay(mark, lines, scanErr).mark + |queue| <= MaxUint64
    ensures var r := Replay(mark, lines, scanErr);
      Ascending(r.yielded + Write(r.mark, queue, appendErr).written, mark)
  {
    var r := Replay(mark, lines, scanErr);
    ReplayAscending(mark, lines, scanErr);
    WriteAscending(r.mark, queue, appendErr);
    AscendingAppend(r.yielded, Write(r.mark, queue, appendErr).written, mark);
  }

  /** Two ascending runs join into one when the second starts above the end of the first. */
  lemma AscendingAppend(a: seq<Event>, b: seq<Event>, mark: Uint64)
    requires Ascending(a, mark) && Ascending(b, LastSequence(a, mark))
    ensures Ascending(a + b, mark)
  {
  }

  /**
   * Sequencing round trip: what the writer appends, read back by a replay
   * starting from the same counter, is yielded in full and without error,
   * and leaves the mark where the writer left its counter. From a fresh
   * logger (counter 0) the records are numbered 1, 2, 3, ...
   */
  lemma WriteThenReplay(last: Uint64, queue: seq<Event>)
    requires last + |queue| <= MaxUint64
    ensures var w := Write(last, queue, NoFaults(|queue|));
      && Replay(last, Records(w.written), None) == ReplayOutcome(w.written, None, w.last)
      && |w.written| == |queue|
      && forall i :: 0 <= i < |queue| ==> w.written[i].sequence == last + 1 + i
  {
    var w := Write(last, queue, NoFaults(|queue|));
    WriteStamps(last, queue, NoFaults(|queue|));
    WriteHaltsAtFirstFailure(last, queue, NoFaults(|queue|));
    WriteAscending(last, queue, NoFaults(|queue|));
    ReplayAcceptsAscending(last, w.written);
  }

  // ---------------------------------------------------------------------
  // Event construction
  // ---------------------------------------------------------------------

  /** The event `WritePut` enqueues; the writer assigns its sequence. */
  function PutEvent(key: string, value: string): (e: Event)
    ensures KindOf(e.eventType) == Some(Put)
    ensures e.key == key && e.value == value && e.sequence == 0
  {
    Event(0, EventPut, key, value)
  }

  /** The event `WriteDelete` enqueues: the key, an empty value. */
  function DeleteEvent(key: string): (e: Event)
    ensures KindOf(e.eventType) == Some(Delete)
    ensures e.key == key && e.value == "" && e.sequence == 0
  {
    Event(0, EventDelete, key, "")
  }

  // ---------------------------------------------------------------------
  // The logger object
  // ---------------------------------------------------------------------

  class FileLogger {
    /** The high-water mark shared by replay and the writer. */
    var lastSequence: Uint64
    /** The records the writer has appended to the file, in order. */
    var appended: seq<Event>
    /** What the channel returned by `Err` holds: capacity one. */
    var errors: seq<Error>

    ghost predicate Valid()
      reads this
    {
      |errors| <= 1
    }

    /** A logger over a freshly opened file: no events seen, no errors. */
    constructor ()
      ensures Valid()
      ensures lastSequence == 0 && appended == [] && errors == []
    {
      lastSequence := 0;
      appended := [];
      errors := [];
    }

    /** The error channel: at most one write failure is ever reported on it. */
    function Err(): (r: seq<Error>)
      reads this
      requires Valid()
      ensures |r| <= 1
      ensures r == errors
    {
      errors
    }

    /**
     * The replay loop: scans `lines` in order, rejecting any record that
     * does not raise the mark, and stops at the first error.
     */
    method ReadEvents(lines: seq<Scanned>, scanErr: Option<string>) returns (yielded: seq<Event>, err: Option<Error>)
      modifies this`lastSequence
      ensures var o := Replay(old(lastSequence), lines, scanErr);
        yielded == o.yielded && err == o.err && lastSequence == o.mark
    {
      yielded, err := [], None;
      var i := 0;
      while i < |lines|
        invariant 0 <= i <= |lines|
        invariant var o := Replay(old(lastSequence), lines, scanErr);
          var r := Replay(lastSequence, lines[i..], scanErr);
          o == ReplayOutcome(yielded + r.yielded, r.err, r.mark)
      {
        assert lines[i..][0] == lines[i];
        assert lines[i..][1..] == lines[i + 1..];
        match lines[i]
        case Malformed(cause) =>
          err := Some(ParseFailed(cause));
          return;
        case Record(e) =>
          if lastSequence >= e.sequence {
            err := Some(OutOfSequence);
            return;
          }
          lastSequence := e.sequence;
          yielded := yielded + [e];
        i := i + 1;
      }
      if scanErr.Some? {
        err := Some(ReadFailed(scanErr.value));
      }
    }

    /**
     * The writer loop over the queue it drains: each event raises the
     * counter by one and is appended with the new number; the first failed
     * append is reported on a fresh capacity-one error channel and ends the
     * writer, so no later event is appended.
     */
    method Run(queue: seq<Event>, appendErr: seq<Option<string>>)
      requires |appendErr| == |queue|
      requires lastSequence + |queue| <= MaxUint64
      modifies this
      ensures Valid()
      ensures var w := Write(old(lastSequence), queue, appendErr);
        && appended == old(appended) + w.written
        && lastSequence == w.last
        && errors == (if w.err.Some? then [w.err.value] else [])
    {
      errors := [];
      ghost var written: seq<Event> := [];
      var i := 0;
      while i < |queue|
        invariant 0 <= i <= |queue|
        invariant lastSequence == old(lastSequence) + i
        invariant appended == old(appended) + written && errors == []
        invariant var w := Write(old(lastSequence), queue, appendErr);
          var r := Write(lastSequence, queue[i..], appendErr[i..]);
          w == WriteOutcome(written + r.written, r.err, r.last)
      {
        assert queue[i..][0] == queue[i] && appendErr[i..][0] == appendErr[i];
        assert queue[i..][1..] == queue[i + 1..];
        assert appendErr[i..][1..] == appendErr[i + 1..];
        ghost var r := Write(lastSequence, queue[i..], appendErr[i..]);
        lastSequence := lastSequence + 1;
        if appendErr[i].Some? {
          assert r == WriteOutcome([], Some(WriteFailed(appendErr[i].value)), lastSequence);
          errors := [WriteFailed(appendErr[i].value)];
          return;
        }
        var record := queue[i].(sequence := lastSequence);
        ghost var rest := Write(lastSequence, queue[i + 1..], appendErr[i + 1..]);
        assert r == WriteOutcome([record] + rest.written, rest.err, rest.last);
        assert written + r.written == (written + [record]) + rest.written;
        appended := appended + [record];
        written := written + [record];
        i := i + 1;
      }
    }
  }

  /** Opening the log file: an open failure is reported and no logger made. */
  method NewFileTransactionLogger(openErr: Option<string>) returns (l: FileLogger?, err: Option<Error>)
    ensures openErr.Some? ==> l == null && err == Some(OpenFailed(openErr.value))
    ensures openErr.None? ==> l != null && fresh(l) && err.None?
    ensures l != null ==> l.Valid() && l.lastSequence == 0 && l.appended == [] && l.errors == []
  {
    if openErr.Some? {
      return null, Some(OpenFailed(openErr.value));
    }
    l := new FileLogger();
    err := None;
  }
}
