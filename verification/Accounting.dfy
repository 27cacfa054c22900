/** The accounting queue: a bounded drop-oldest buffer, a drain loop whose flush
    suspends in the database write while enqueues go on, and an orderly stop. */
module Accounting {
  import opened Common

  /** One row of the requests table. */
  datatype AttemptRow = AttemptRow(requestId: string, attemptIdx: nat, status: string)

  datatype Fate = Written | FailedBatch | Overflowed | InFlight | Buffered

  /** Where the drain task is suspended. */
  datatype Drain = Starting | Waiting | Flushing | ExitFlushing | Ended

  /** Where the caller of stop() is suspended. */
  datatype Stopper = Running | AwaitingTask | LastFlush | Stopped

  datatype Limits = Limits(capacity: nat, flushSize: Positive)

  /** The queue, the two suspended coroutines, what the writer accepted, and the
      history of all enqueued records with the fate of each. `batchAt` is where
      the in-flight batch starts in the history, `lateFrom` how long the history
      was when the last flush began. */
  datatype Queue = Queue(
    buffer: seq<AttemptRow>, droppedTotal: nat, wakeup: bool, stop: bool,
    inFlight: seq<AttemptRow>, drain: Drain, stopper: Stopper, written: seq<AttemptRow>,
    history: seq<AttemptRow>, fates: seq<Fate>, batchAt: nat, lateFrom: nat)

  datatype Step =
    | Enqueue(rec: AttemptRow)
    | Begin                 // the drain task runs for the first time
    | Wake                  // the wait ends, by wakeup or by timeout
    | FlushDone(ok: bool)   // the suspended write returns or raises
    | StopCalled
    | TaskEnded             // stop() resumes after the drain task
    | LastFlushDone(ok: bool)

  function Init(started: bool): Queue {
    Queue([], 0, false, false, [], if started then Starting else Ended, Running, [], [], [], 0, 0)
  }

  // ------------------------------------------------------------ the steps

  /** The fates after a push: the oldest buffered record overflows when the buffer is full. */
  function PushedFates(h: seq<AttemptRow>, fs: seq<Fate>, buffer: seq<AttemptRow>, full: bool): seq<Fate> {
    var oldest := |h| - |buffer|;
    (if full && 0 <= oldest < |fs| then fs[oldest := Overflowed] else fs) + [Buffered]
  }

  predicate Full(q: Queue, limits: Limits) {
    limits.capacity <= |q.buffer| && q.buffer != []
  }

  function Push(q: Queue, rec: AttemptRow, limits: Limits): Queue {
    var full := Full(q, limits);
    var kept := if full then q.buffer[1..] else q.buffer;
    q.(buffer := kept + [rec],
       droppedTotal := if full then q.droppedTotal + 1 else q.droppedTotal,
       wakeup := q.wakeup || limits.flushSize <= |kept| + 1,
       history := q.history + [rec],
       fates := PushedFates(q.history, q.fates, q.buffer, full))
  }

  function Relabel(fates: seq<Fate>, from: Fate, to: Fate): (r: seq<Fate>)
    ensures |r| == |fates|
    ensures forall i :: 0 <= i < |r| ==> r[i] == if fates[i] == from then to else fates[i]
  {
    seq(|fates|, i requires 0 <= i < |fates| => if fates[i] == from then to else fates[i])
  }

  /** The synchronous first half of a flush: the batch leaves the buffer. */
  function TakeBatch(q: Queue): Queue {
    q.(buffer := [], inFlight := q.buffer,
       fates := Relabel(q.fates, Buffered, InFlight), batchAt := Max(0, |q.history| - |q.buffer|))
  }

  /** The second half, after the write came back. */
  function SettleBatch(q: Queue, ok: bool): Queue {
    if ok
    then q.(inFlight := [], written := q.written + q.inFlight, fates := Relabel(q.fates, InFlight, Written))
    else q.(inFlight := [], droppedTotal := q.droppedTotal + |q.inFlight|,
            fates := Relabel(q.fates, InFlight, FailedBatch))
  }

  /** The loop test, and the flush after the loop once stop is set. */
  function LoopTest(q: Queue): Queue {
    if !q.stop then q.(drain := Waiting)
    else if q.buffer == [] then q.(drain := Ended)
    else TakeBatch(q).(drain := ExitFlushing)
  }

  function Apply(q: Queue, step: Step, limits: Limits): Queue {
    match step
    case Enqueue(rec) => Push(q, rec, limits)
    case Begin => if q.drain == Starting then LoopTest(q) else q
    case Wake =>
      if q.drain != Waiting then q
      else if q.buffer == [] then LoopTest(q.(wakeup := false))
      else TakeBatch(q).(wakeup := false, drain := Flushing)
    case FlushDone(ok) =>
      if q.drain == Flushing then LoopTest(SettleBatch(q, ok))
      else if q.drain == ExitFlushing then SettleBatch(q, ok).(drain := Ended)
      else q
    case StopCalled =>
      if q.stopper == Running then q.(stop := true, wakeup := true, stopper := AwaitingTask) else q
    case TaskEnded =>
      if q.stopper != AwaitingTask || q.drain != Ended then q
      else if q.buffer == [] then q.(stopper := Stopped, lateFrom := |q.history|)
      else TakeBatch(q).(stopper := LastFlush, lateFrom := |q.history|)
    case LastFlushDone(ok) =>
      if q.stopper == LastFlush then SettleBatch(q, ok).(stopper := Stopped) else q
  }

  function Run(started: bool, steps: seq<Step>, limits: Limits): Queue {
    if steps == [] then Init(started)
    else Apply(Run(started, steps[..|steps| - 1], limits), steps[|steps| - 1], limits)
  }

  // ------------------------------------------------------------ fates

  function Select(history: seq<AttemptRow>, fates: seq<Fate>, f: Fate): seq<AttemptRow>
    requires |history| == |fates|
  {
    if history == [] then []
    else
      var n := |history| - 1;
      Select(history[..n], fates[..n], f) + if fates[n] == f then [history[n]] else []
  }

  function Count(fates: seq<Fate>, f: Fate): nat {
    if fates == [] then 0
    else Count(fates[..|fates| - 1], f) + if fates[|fates| - 1] == f then 1 else 0
  }

  /** The history falls into four stretches: settled records, the in-flight batch,
      records that overflowed while it was in flight, and the buffer. */
  predicate StretchesOf(
    h: seq<AttemptRow>, fs: seq<Fate>, buffer: seq<AttemptRow>, inFlight: seq<AttemptRow>, at: nat)
  {
    var n, m := |h|, |inFlight|;
    && |fs| == n
    && at + m + |buffer| <= n
    && inFlight == h[at..at + m]
    && buffer == h[n - |buffer|..]
    && (forall i :: 0 <= i < n ==> (fs[i] == InFlight <==> at <= i < at + m))
    && (forall i :: 0 <= i < n ==> (fs[i] == Buffered <==> n - |buffer| <= i))
    && (m != 0 ==> forall i :: at + m <= i < n - |buffer| ==> fs[i] == Overflowed)
  }

  predicate Stretches(q: Queue) {
    StretchesOf(q.history, q.fates, q.buffer, q.inFlight, q.batchAt)
  }

  /** The coroutines' positions fit the data. */
  predicate Positions(q: Queue, limits: Limits) {
    && (q.inFlight != [] <==> q.drain == Flushing || q.drain == ExitFlushing || q.stopper == LastFlush)
    && (q.stopper == LastFlush || q.stopper == Stopped ==> q.drain == Ended)
    && (q.stop <==> q.stopper != Running)
    && (q.drain == ExitFlushing ==> q.stop)
  }

  /** No wakeup is lost: at the wait, a full batch or a stop has set the event. */
  predicate NoLostWakeup(q: Queue, limits: Limits) {
    && (q.drain == Waiting && limits.flushSize <= |q.buffer| ==> q.wakeup)
    && (q.drain == Flushing && limits.flushSize <= |q.buffer| ==> q.wakeup)
    && (q.drain == Starting && limits.flushSize <= |q.buffer| ==> q.wakeup)
    && (q.drain == Waiting && q.stop ==> q.wakeup)
  }

  predicate Bounded(q: Queue, limits: Limits) {
    |q.buffer| <= Max(1, limits.capacity)
  }

  predicate Tallied(q: Queue)
    requires |q.history| == |q.fates|
  {
    && q.written == Select(q.history, q.fates, Written)
    && q.droppedTotal == Count(q.fates, Overflowed) + Count(q.fates, FailedBatch)
  }

  /** The last flush leaves only what was enqueued after it began. */
  predicate Late(q: Queue) {
    q.stopper == LastFlush || q.stopper == Stopped ==>
      q.lateFrom <= |q.history| && (q.buffer == [] <==> |q.history| == q.lateFrom)
  }

  predicate Inv(q: Queue, limits: Limits) {
    Stretches(q) && Positions(q, limits) && NoLostWakeup(q, limits) && Bounded(q, limits) && Tallied(q) && Late(q)
  }

  lemma {:induction false} SelectSame(h: seq<AttemptRow>, fs: seq<Fate>, gs: seq<Fate>, f: Fate)
    requires |h| == |fs| == |gs| && forall i :: 0 <= i < |fs| ==> (fs[i] == f <==> gs[i] == f)
    ensures Select(h, fs, f) == Select(h, gs, f) && Count(fs, f) == Count(gs, f)
  {
    if h != [] {
      SelectSame(h[..|h| - 1], fs[..|h| - 1], gs[..|h| - 1], f);
    }
  }

  /** `gs` is `fs` with the stretch from..to, all of it `a`, replaced by `b`. */
  predicate Restretched(fs: seq<Fate>, gs: seq<Fate>, from: nat, to: nat, a: Fate, b: Fate) {
    && |fs| == |gs| && from <= to <= |fs| && a != b
    && (forall i :: from <= i < to ==> fs[i] == a && gs[i] == b)
    && (forall i :: 0 <= i < |fs| && !(from <= i < to) ==> fs[i] == gs[i])
  }

  lemma RestretchedButLast(fs: seq<Fate>, gs: seq<Fate>, from: nat, to: nat, a: Fate, b: Fate)
    requires Restretched(fs, gs, from, to, a, b) && from < to
    ensures
      var n := |fs| - 1;
      && Restretched(fs[..n], gs[..n], from, if n < to then n else to, a, b)
      && if n < to then to == n + 1 && fs[n] == a && gs[n] == b else fs[n] == gs[n]
  {
  }

  lemma {:induction false} RestretchCounts(fs: seq<Fate>, gs: seq<Fate>, from: nat, to: nat, a: Fate, b: Fate)
    requires Restretched(fs, gs, from, to, a, b)
    ensures Count(gs, b) == Count(fs, b) + to - from
    decreases |fs|
  {
    if from == to {
      assert fs == gs;
    } else {
      var n := |fs| - 1;
      RestretchedButLast(fs, gs, from, to, a, b);
      RestretchCounts(fs[..n], gs[..n], from, if n < to then n else to, a, b);
    }
  }

  lemma {:induction false} SelectUpTo(h: seq<AttemptRow>, fs: seq<Fate>, to: nat, f: Fate)
    requires |h| == |fs| && to <= |h| && forall i :: to <= i < |fs| ==> fs[i] != f
    ensures Select(h, fs, f) == Select(h[..to], fs[..to], f)
    decreases |h|
  {
    var n := |h| - 1;
    if to == |h| {
      assert h[..to] == h && fs[..to] == fs;
    } else {
      SelectUpTo(h[..n], fs[..n], to, f);
      assert h[..n][..to] == h[..to] && fs[..n][..to] == fs[..to];
    }
  }

  lemma {:induction false} SelectGrows(h: seq<AttemptRow>, fs: seq<Fate>, gs: seq<Fate>, from: nat, b: Fate)
    requires |h| == |fs| == |gs| && from <= |h| && fs[..from] == gs[..from]
    requires forall i :: from <= i < |h| ==> fs[i] != b && gs[i] == b
    ensures Select(h, gs, b) == Select(h, fs, b) + h[from..]
    decreases |h|
  {
    var n := |h| - 1;
    if from == |h| {
      assert fs == fs[..from] && gs == gs[..from] && h[from..] == [];
    } else {
      assert fs[..n][..from] == gs[..n][..from];
      SelectGrows(h[..n], fs[..n], gs[..n], from, b);
      assert h[from..] == h[..n][from..] + [h[n]];
    }
  }

  lemma {:induction false} RestretchSelects(
    h: seq<AttemptRow>, fs: seq<Fate>, gs: seq<Fate>, from: nat, to: nat, a: Fate, b: Fate)
    requires |h| == |fs| && Restretched(fs, gs, from, to, a, b)
    requires forall i :: to <= i < |fs| ==> fs[i] != b
    ensures Select(h, gs, b) == Select(h, fs, b) + h[from..to]
  {
    SelectUpTo(h, fs, to, b);
    SelectUpTo(h, gs, to, b);
    assert fs[..to][..from] == gs[..to][..from];
    SelectGrows(h[..to], fs[..to], gs[..to], from, b);
    assert h[..to][from..] == h[from..to];
  }

  // ------------------------------------------------------------ every step keeps the invariant

  lemma PushStretches(
    h: seq<AttemptRow>, fs: seq<Fate>, buffer: seq<AttemptRow>, inFlight: seq<AttemptRow>, at: nat,
    rec: AttemptRow, full: bool)
    requires StretchesOf(h, fs, buffer, inFlight, at) && (full ==> buffer != [])
    ensures
      var kept := if full then buffer[1..] else buffer;
      StretchesOf(h + [rec], PushedFates(h, fs, buffer, full), kept + [rec], inFlight, at)
  {
    var kept := if full then buffer[1..] else buffer;
    var h' := h + [rec];
    assert kept == h[|h| - |kept|..];
    assert kept + [rec] == h'[|h| - |kept|..];
    assert inFlight == h'[at..at + |inFlight|];
  }

  lemma PushTallied(q: Queue, rec: AttemptRow, limits: Limits)
    requires Stretches(q) && Tallied(q)
    ensures |q.history| + 1 == |Push(q, rec, limits).fates| && Tallied(Push(q, rec, limits))
  {
    var full := Full(q, limits);
    var mid := if full then q.fates[|q.history| - |q.buffer| := Overflowed] else q.fates;
    if full {
      OverflowTallied(q);
    }
    PushTally(q.history, mid, rec);
    assert Push(q, rec, limits).fates == mid + [Buffered];
  }

  lemma OverflowTallied(q: Queue)
    requires Stretches(q) && q.buffer != []
    ensures
      var mid := q.fates[|q.history| - |q.buffer| := Overflowed];
      && Select(q.history, mid, Written) == Select(q.history, q.fates, Written)
      && Count(mid, Overflowed) == Count(q.fates, Overflowed) + 1
      && Count(mid, FailedBatch) == Count(q.fates, FailedBatch)
  {
    var oldest := |q.history| - |q.buffer|;
    var mid := q.fates[oldest := Overflowed];
    assert Restretched(q.fates, mid, oldest, oldest + 1, Buffered, Overflowed);
    RestretchCounts(q.fates, mid, oldest, oldest + 1, Buffered, Overflowed);
    SelectSame(q.history, q.fates, mid, Written);
    SelectSame(q.history, q.fates, mid, FailedBatch);
  }

  lemma PushKeepsInv(q: Queue, rec: AttemptRow, limits: Limits)
    requires Inv(q, limits)
    ensures Inv(Push(q, rec, limits), limits)
  {
    PushStretches(q.history, q.fates, q.buffer, q.inFlight, q.batchAt, rec, Full(q, limits));
    PushTallied(q, rec, limits);
  }

  lemma {:induction false} PushTally(h: seq<AttemptRow>, fs: seq<Fate>, rec: AttemptRow)
    requires |h| == |fs|
    ensures Select(h + [rec], fs + [Buffered], Written) == Select(h, fs, Written)
    ensures Count(fs + [Buffered], Overflowed) == Count(fs, Overflowed)
    ensures Count(fs + [Buffered], FailedBatch) == Count(fs, FailedBatch)
  {
    assert (h + [rec])[..|h|] == h && (fs + [Buffered])[..|fs|] == fs;
  }

  lemma TakeKeeps(q: Queue, limits: Limits)
    requires Stretches(q) && Tallied(q) && q.inFlight == [] && q.buffer != []
    ensures Stretches(TakeBatch(q)) && Tallied(TakeBatch(q))
    ensures TakeBatch(q).buffer == [] && TakeBatch(q).inFlight != []
  {
    var r := TakeBatch(q);
    SelectSame(q.history, q.fates, r.fates, Written);
    SelectSame(q.history, q.fates, r.fates, Overflowed);
    SelectSame(q.history, q.fates, r.fates, FailedBatch);
  }

  lemma SettleStretches(q: Queue, ok: bool)
    requires Stretches(q)
    ensures Stretches(SettleBatch(q, ok))
  {
  }

  lemma SettleTallied(q: Queue, ok: bool)
    requires Stretches(q) && Tallied(q)
    ensures Tallied(SettleBatch(q, ok))
  {
    var r := SettleBatch(q, ok);
    var b := if ok then Written else FailedBatch;
    var end := q.batchAt + |q.inFlight|;
    assert Restretched(q.fates, r.fates, q.batchAt, end, InFlight, b);
    RestretchCounts(q.fates, r.fates, q.batchAt, end, InFlight, b);
    SelectSame(q.history, q.fates, r.fates, Overflowed);
    if !ok {
      SelectSame(q.history, q.fates, r.fates, Written);
    } else {
      SelectSame(q.history, q.fates, r.fates, FailedBatch);
      if q.inFlight != [] {
        RestretchSelects(q.history, q.fates, r.fates, q.batchAt, end, InFlight, b);
      } else {
        assert r.fates == q.fates;
      }
    }
  }

  lemma SettleKeeps(q: Queue, ok: bool)
    requires Stretches(q) && Tallied(q)
    ensures Stretches(SettleBatch(q, ok)) && Tallied(SettleBatch(q, ok))
  {
    SettleStretches(q, ok);
    SettleTallied(q, ok);
  }

  lemma LoopTestKeeps(q: Queue, limits: Limits)
    requires Stretches(q) && Bounded(q, limits) && Tallied(q) && q.inFlight == []
    requires q.stop <==> q.stopper != Running
    requires q.stopper != LastFlush && q.stopper != Stopped
    requires limits.flushSize <= |q.buffer| ==> q.wakeup
    ensures Inv(LoopTest(q), limits)
  {
    if q.stop && q.buffer != [] {
      TakeKeeps(q, limits);
    }
  }

  lemma WakeKeepsInv(q: Queue, limits: Limits)
    requires Inv(q, limits)
    ensures Inv(Apply(q, Wake, limits), limits)
  {
    if q.drain == Waiting {
      if q.buffer == [] {
        LoopTestKeeps(q.(wakeup := false), limits);
      } else {
        TakeKeeps(q, limits);
      }
    }
  }

  lemma FlushDoneKeepsInv(q: Queue, ok: bool, limits: Limits)
    requires Inv(q, limits)
    ensures Inv(Apply(q, FlushDone(ok), limits), limits)
  {
    SettleKeeps(q, ok);
    if q.drain == Flushing {
      LoopTestKeeps(SettleBatch(q, ok), limits);
    }
  }

  lemma TaskEndedKeepsInv(q: Queue, limits: Limits)
    requires Inv(q, limits)
    ensures Inv(Apply(q, TaskEnded, limits), limits)
  {
    if q.stopper == AwaitingTask && q.drain == Ended && q.buffer != [] {
      TakeKeeps(q, limits);
    }
  }

  lemma LastFlushKeepsInv(q: Queue, ok: bool, limits: Limits)
    requires Inv(q, limits)
    ensures Inv(Apply(q, LastFlushDone(ok), limits), limits)
  {
    SettleKeeps(q, ok);
  }

  lemma ApplyKeepsInv(q: Queue, step: Step, limits: Limits)
    requires Inv(q, limits)
    ensures Inv(Apply(q, step, limits), limits)
  {
    match step {
      case Enqueue(rec) => PushKeepsInv(q, rec, limits);
      case Begin =>
        if q.drain == Starting {
          LoopTestKeeps(q, limits);
        }
      case Wake => WakeKeepsInv(q, limits);
      case FlushDone(ok) => FlushDoneKeepsInv(q, ok, limits);
      case StopCalled =>
      case TaskEnded => TaskEndedKeepsInv(q, limits);
      case LastFlushDone(ok) => LastFlushKeepsInv(q, ok, limits);
    }
  }

  lemma InitKeepsInv(started: bool, limits: Limits)
    ensures Inv(Init(started), limits)
  {
    NothingYet([], [], [], []);
  }

  lemma NothingYet(h: seq<AttemptRow>, fs: seq<Fate>, buffer: seq<AttemptRow>, inFlight: seq<AttemptRow>)
    requires h == [] && fs == [] && buffer == [] && inFlight == []
    ensures StretchesOf(h, fs, buffer, inFlight, 0)
  {
  }

  lemma {:induction false} RunKeepsInv(started: bool, steps: seq<Step>, limits: Limits)
    ensures Inv(Run(started, steps, limits), limits)
  {
    if steps != [] {
      RunKeepsInv(started, steps[..|steps| - 1], limits);
      ApplyKeepsInv(Run(started, steps[..|steps| - 1], limits), steps[|steps| - 1], limits);
    } else {
      InitKeepsInv(started, limits);
    }
  }

  // ------------------------------------------------------------ what follows

  function Enqueued(steps: seq<Step>): seq<AttemptRow> {
    if steps == [] then []
    else
      var last := steps[|steps| - 1];
      Enqueued(steps[..|steps| - 1]) + if last.Enqueue? then [last.rec] else []
  }

  lemma {:induction false} HistoryIsEnqueued(started: bool, steps: seq<Step>, limits: Limits)
    ensures Run(started, steps, limits).history == Enqueued(steps)
  {
    if steps != [] {
      HistoryIsEnqueued(started, steps[..|steps| - 1], limits);
    }
  }

  lemma {:induction false} CountsAddUp(fs: seq<Fate>)
    ensures |fs| == Count(fs, Written) + Count(fs, FailedBatch) + Count(fs, Overflowed)
                    + Count(fs, InFlight) + Count(fs, Buffered)
  {
    if fs != [] {
      CountsAddUp(fs[..|fs| - 1]);
    }
  }

  lemma {:induction false} SelectLength(h: seq<AttemptRow>, fs: seq<Fate>, f: Fate)
    requires |h| == |fs|
    ensures |Select(h, fs, f)| == Count(fs, f)
  {
    if h != [] {
      SelectLength(h[..|h| - 1], fs[..|h| - 1], f);
    }
  }

  lemma {:induction false} SelectStretch(h: seq<AttemptRow>, fs: seq<Fate>, from: nat, to: nat, f: Fate)
    requires |h| == |fs| && from <= to <= |h|
    requires forall i :: 0 <= i < |fs| ==> (fs[i] == f <==> from <= i < to)
    ensures Select(h, fs, f) == h[from..to]
  {
    if h != [] {
      var n := |h| - 1;
      if n < from {
        SelectStretch(h[..n], fs[..n], n, n, f);
      } else if n < to {
        SelectStretch(h[..n], fs[..n], from, n, f);
        assert h[from..to] == h[..n][from..n] + [h[n]];
      } else {
        SelectStretch(h[..n], fs[..n], from, to, f);
        assert h[..n][from..to] == h[from..to];
      }
    }
  }

  /** Under any interleaving of enqueues with a suspended flush every enqueued
      record has exactly one fate: what the writer accepted, the in-flight batch
      and the buffer are the records of their fate in enqueue order, and the
      dropped total counts the overflowed and the failed. */
  lemma {:induction false} Conservation(started: bool, steps: seq<Step>, limits: Limits)
    ensures
      var q := Run(started, steps, limits);
      && |q.fates| == |Enqueued(steps)|
      && q.written == Select(Enqueued(steps), q.fates, Written)
      && q.inFlight == Select(Enqueued(steps), q.fates, InFlight)
      && q.buffer == Select(Enqueued(steps), q.fates, Buffered)
      && q.droppedTotal == Count(q.fates, Overflowed) + Count(q.fates, FailedBatch)
      && |Enqueued(steps)| == |q.written| + |q.inFlight| + |q.buffer| + q.droppedTotal
  {
    var q := Run(started, steps, limits);
    RunKeepsInv(started, steps, limits);
    HistoryIsEnqueued(started, steps, limits);
    SelectStretch(q.history, q.fates, q.batchAt, q.batchAt + |q.inFlight|, InFlight);
    SelectStretch(q.history, q.fates, |q.history| - |q.buffer|, |q.history|, Buffered);
    CountsAddUp(q.fates);
    SelectLength(q.history, q.fates, Written);
    SelectLength(q.history, q.fates, InFlight);
    SelectLength(q.history, q.fates, Buffered);
  }

  /** The buffer is always the most recent stretch of what was enqueued, never
      longer than the capacity (or than one record, for capacity zero). */
  lemma {:induction false} BufferIsBoundedSuffix(started: bool, steps: seq<Step>, limits: Limits)
    ensures
      var q := Run(started, steps, limits);
      && |q.buffer| <= Max(1, limits.capacity)
      && |q.buffer| <= |Enqueued(steps)|
      && q.buffer == Enqueued(steps)[|Enqueued(steps)| - |q.buffer|..]
  {
    RunKeepsInv(started, steps, limits);
    HistoryIsEnqueued(started, steps, limits);
  }

  /** The buffer never exceeds the capacity if and only if there is one: with capacity
      zero the oldest record is dropped only if there is one, and the new one is kept. */
  lemma {:induction false} WithinCapacityIff(limits: Limits)
    ensures (forall started, steps :: |Run(started, steps, limits).buffer| <= limits.capacity) <==> 1 <= limits.capacity
  {
    if 1 <= limits.capacity {
      forall started, steps
        ensures |Run(started, steps, limits).buffer| <= limits.capacity
      {
        BufferIsBoundedSuffix(started, steps, limits);
      }
    } else {
      FirstRecordStays(AttemptRow("r", 0, "ok"), limits);
    }
  }

  lemma {:induction false} FirstRecordStays(rec: AttemptRow, limits: Limits)
    ensures Run(true, [Enqueue(rec)], limits).buffer == [rec]
  {
    var steps := [Enqueue(rec)];
    assert steps[..0] == [];
    assert Run(true, steps[..0], limits) == Init(true);
  }

  /** Whenever the drain loop is at its wait, a full batch in the buffer, or a stop,
      has set the wakeup event. */
  lemma {:induction false} WakeupNeverLost(started: bool, steps: seq<Step>, limits: Limits)
    ensures
      var q := Run(started, steps, limits);
      q.drain == Waiting && (limits.flushSize <= |q.buffer| || q.stop) ==> q.wakeup
  {
    RunKeepsInv(started, steps, limits);
  }

  /** Once stop() has returned nothing is in flight, and the buffer is empty if and
      only if nothing was enqueued since its last flush began; then every enqueued
      record was written or counted as dropped. */
  lemma {:induction false} StopDrains(started: bool, steps: seq<Step>, limits: Limits)
    ensures
      var q := Run(started, steps, limits);
      q.stopper == Stopped ==>
        && q.inFlight == []
        && (q.buffer == [] <==> |Enqueued(steps)| == q.lateFrom)
        && (|Enqueued(steps)| == q.lateFrom ==> |Enqueued(steps)| == |q.written| + q.droppedTotal)
  {
    RunKeepsInv(started, steps, limits);
    HistoryIsEnqueued(started, steps, limits);
    Conservation(started, steps, limits);
  }

  // ------------------------------------------------------------ what is dropped, written and flushed

  function EnqueueAll(recs: seq<AttemptRow>): seq<Step> {
    seq(|recs|, i requires 0 <= i < |recs| => Enqueue(recs[i]))
  }

  function Newest(rows: seq<AttemptRow>, n: nat): seq<AttemptRow> {
    if n <= |rows| then rows[|rows| - n..] else rows
  }

  lemma {:induction false} RunSnoc(started: bool, steps: seq<Step>, step: Step, limits: Limits)
    ensures Run(started, steps + [step], limits) == Apply(Run(started, steps, limits), step, limits)
  {
    assert (steps + [step])[..|steps|] == steps;
  }

  lemma BurstSnoc(before: seq<Step>, recs: seq<AttemptRow>)
    requires recs != []
    ensures
      var n := |recs| - 1;
      before + EnqueueAll(recs) == before + EnqueueAll(recs[..n]) + [Enqueue(recs[n])]
  {
  }

  /** Below the capacity an enqueue drops nothing; at the capacity it drops exactly the
      oldest record, unless there is none. */
  lemma EnqueueDropsOldest(q: Queue, rec: AttemptRow, limits: Limits)
    requires |q.buffer| <= Max(1, limits.capacity)
    ensures
      var r := Apply(q, Enqueue(rec), limits);
      && r.buffer == Newest(q.buffer + [rec], Max(1, limits.capacity))
      && r.droppedTotal == q.droppedTotal + |q.buffer| + 1 - |r.buffer|
      && (r.wakeup <==> q.wakeup || limits.flushSize <= |r.buffer|)
      && r.(buffer := q.buffer, droppedTotal := q.droppedTotal, wakeup := q.wakeup, history := q.history,
            fates := q.fates) == q
  {
  }

  lemma NewestOfNewest(a: seq<AttemptRow>, b: seq<AttemptRow>, rec: AttemptRow, n: nat)
    requires 1 <= n
    ensures Newest(Newest(a + b, n) + [rec], n) == Newest(a + (b + [rec]), n)
  {
    assert a + (b + [rec]) == a + b + [rec];
  }

  /** From q to r by enqueues of `recs`: the newest records stay, up to the capacity, the
      others are dropped, and a full batch wakes the drain task. */
  predicate Burst(q: Queue, r: Queue, recs: seq<AttemptRow>, limits: Limits) {
    && r.buffer == Newest(q.buffer + recs, Max(1, limits.capacity))
    && r.droppedTotal == q.droppedTotal + |q.buffer| + |recs| - |r.buffer|
    && (recs != [] ==> (r.wakeup <==> q.wakeup || limits.flushSize <= |r.buffer|))
    && r.inFlight == q.inFlight && r.written == q.written && r.drain == q.drain && r.stopper == q.stopper
  }

  lemma BurstStep(q: Queue, s: Queue, recs: seq<AttemptRow>, rec: AttemptRow, limits: Limits)
    requires Burst(q, s, recs, limits)
    requires recs == [] ==> q.wakeup == s.wakeup
    ensures Burst(q, Apply(s, Enqueue(rec), limits), recs + [rec], limits)
  {
    EnqueueDropsOldest(s, rec, limits);
    NewestOfNewest(q.buffer, recs, rec, Max(1, limits.capacity));
  }

  /** After any run, a burst of enqueues with no flush in between does just that. */
  lemma {:induction false} BurstKeepsNewest(
    started: bool, before: seq<Step>, recs: seq<AttemptRow>, limits: Limits)
    ensures Burst(Run(started, before, limits), Run(started, before + EnqueueAll(recs), limits), recs, limits)
    ensures recs == [] ==> Run(started, before + EnqueueAll(recs), limits) == Run(started, before, limits)
    decreases |recs|
  {
    if recs == [] {
      RunKeepsInv(started, before, limits);
      assert before + EnqueueAll(recs) == before;
      NoBurst(Run(started, before, limits), recs, limits);
    } else {
      var n := |recs| - 1;
      var init := before + EnqueueAll(recs[..n]);
      BurstKeepsNewest(started, before, recs[..n], limits);
      BurstSnoc(before, recs);
      RunSnoc(started, init, Enqueue(recs[n]), limits);
      BurstStep(Run(started, before, limits), Run(started, init, limits), recs[..n], recs[n], limits);
      assert recs[..n] + [recs[n]] == recs;
    }
  }

  lemma NoBurst(q: Queue, recs: seq<AttemptRow>, limits: Limits)
    requires Bounded(q, limits) && recs == []
    ensures Burst(q, q, recs, limits)
  {
    assert q.buffer + recs == q.buffer;
  }

  predicate Writes(step: Step, ok: bool) {
    step == FlushDone(ok) || step == LastFlushDone(ok)
  }

  lemma {:induction false} CountNone(fs: seq<Fate>, f: Fate)
    requires forall i :: 0 <= i < |fs| ==> fs[i] != f
    ensures Count(fs, f) == 0
  {
    if fs != [] {
      CountNone(fs[..|fs| - 1], f);
    }
  }

  lemma StepFates(q: Queue, step: Step, limits: Limits)
    ensures !Writes(step, true) ==> Apply(q, step, limits).written == q.written
    ensures !Writes(step, false) && FailedBatch !in q.fates ==> FailedBatch !in Apply(q, step, limits).fates
  {
  }

  /** Nothing is lost to the writer while every write succeeds, and nothing counts as
      written while every write fails. */
  lemma {:induction false} FateIsTheWrites(started: bool, steps: seq<Step>, limits: Limits)
    ensures (forall i :: 0 <= i < |steps| ==> !Writes(steps[i], false)) ==>
      FailedBatch !in Run(started, steps, limits).fates
    ensures (forall i :: 0 <= i < |steps| ==> !Writes(steps[i], true)) ==>
      Run(started, steps, limits).written == []
  {
    if steps != [] {
      var n := |steps| - 1;
      FateIsTheWrites(started, steps[..n], limits);
      StepFates(Run(started, steps[..n], limits), steps[n], limits);
      assert forall i :: 0 <= i < n ==> steps[..n][i] == steps[i];
    }
  }

  /** So a run whose writes all succeed drops only what overflowed. */
  lemma {:induction false} OnlyOverflowDrops(started: bool, steps: seq<Step>, limits: Limits)
    requires forall i :: 0 <= i < |steps| ==> !Writes(steps[i], false)
    ensures
      var q := Run(started, steps, limits);
      q.droppedTotal == Count(q.fates, Overflowed)
  {
    FateIsTheWrites(started, steps, limits);
    CountNone(Run(started, steps, limits).fates, FailedBatch);
    Conservation(started, steps, limits);
  }

  /** Step k of the run sets the wakeup event: a batch is full, or stop is called. */
  ghost predicate SetsWakeup(started: bool, steps: seq<Step>, limits: Limits, k: nat)
    requires k < |steps|
  {
    || (steps[k].Enqueue? && limits.flushSize <= |Run(started, steps[..k + 1], limits).buffer|)
    || (steps[k].StopCalled? && Run(started, steps[..k], limits).stopper == Running)
  }

  ghost predicate EndsWait(started: bool, steps: seq<Step>, limits: Limits, k: nat)
    requires k < |steps|
  {
    steps[k].Wake? && Run(started, steps[..k], limits).drain == Waiting
  }

  /** Since the last wait ended, a full batch or stop has set the event. */
  ghost predicate Woken(started: bool, steps: seq<Step>, limits: Limits) {
    exists k :: 0 <= k < |steps| && SetsWakeup(started, steps, limits, k)
      && forall j :: k < j < |steps| ==> !EndsWait(started, steps, limits, j)
  }

  lemma WokenStep(started: bool, steps: seq<Step>, limits: Limits)
    requires steps != []
    ensures
      var n := |steps| - 1;
      Woken(started, steps, limits) <==>
        || SetsWakeup(started, steps, limits, n)
        || (Woken(started, steps[..n], limits) && !EndsWait(started, steps, limits, n))
  {
    var n := |steps| - 1;
    forall k | 0 <= k < n
      ensures SetsWakeup(started, steps[..n], limits, k) <==> SetsWakeup(started, steps, limits, k)
      ensures EndsWait(started, steps[..n], limits, k) <==> EndsWait(started, steps, limits, k)
    {
      assert steps[..n][..k] == steps[..k] && steps[..n][..k + 1] == steps[..k + 1];
    }
  }

  lemma WakeupStep(q: Queue, step: Step, limits: Limits)
    ensures
      var r := Apply(q, step, limits);
      r.wakeup <==>
        || (step.Enqueue? && limits.flushSize <= |r.buffer|)
        || (step.StopCalled? && q.stopper == Running)
        || (q.wakeup && !(step.Wake? && q.drain == Waiting))
  {
  }

  /** The event is set exactly when a full batch or stop has set it since the last wait ended. */
  lemma {:induction false} WakeupIff(started: bool, steps: seq<Step>, limits: Limits)
    ensures Run(started, steps, limits).wakeup <==> Woken(started, steps, limits)
  {
    if steps != [] {
      var n := |steps| - 1;
      WakeupIff(started, steps[..n], limits);
      WokenStep(started, steps, limits);
      WakeupStep(Run(started, steps[..n], limits), steps[n], limits);
      assert steps[..n + 1] == steps;
    }
  }

  predicate EndsOnlyStopped(q: Queue) {
    q.drain == ExitFlushing || q.drain == Ended ==> q.stop
  }

  lemma EndsOnlyStoppedStep(q: Queue, step: Step, limits: Limits)
    requires EndsOnlyStopped(q)
    ensures EndsOnlyStopped(Apply(q, step, limits))
  {
  }

  /** Once started the drain task goes on until stop is called. */
  lemma {:induction false} DrainsUntilStopped(steps: seq<Step>, limits: Limits)
    ensures EndsOnlyStopped(Run(true, steps, limits))
  {
    if steps != [] {
      DrainsUntilStopped(steps[..|steps| - 1], limits);
      EndsOnlyStoppedStep(Run(true, steps[..|steps| - 1], limits), steps[|steps| - 1], limits);
    }
  }

  /** Without it there is no drain task, and only stop() flushes. */
  lemma {:induction false} UnstartedNeverDrains(steps: seq<Step>, limits: Limits)
    ensures Run(false, steps, limits).drain == Ended
  {
    if steps != [] {
      UnstartedNeverDrains(steps[..|steps| - 1], limits);
    }
  }

  /** It leaves its loop with an empty buffer, which its exit flush takes if need be. */
  lemma {:induction false} LeavesNothing(steps: seq<Step>, step: Step, limits: Limits)
    ensures
      var q, r := Run(true, steps, limits), Run(true, steps + [step], limits);
      && (q.drain != Ended && r.drain == Ended ==> q.drain == ExitFlushing || r.buffer == [])
      && (q.drain != ExitFlushing && r.drain == ExitFlushing ==> r.buffer == [] && q.buffer + q.inFlight != [])
  {
    RunSnoc(true, steps, step, limits);
  }

  /** A wait that ends sends the whole buffer. */
  lemma {:induction false} WaitSendsAll(started: bool, steps: seq<Step>, limits: Limits)
    requires Run(started, steps, limits).drain == Waiting
    ensures
      var q, r := Run(started, steps, limits), Run(started, steps + [Wake], limits);
      r.buffer == [] && q.inFlight == [] && r.inFlight == q.buffer && r.droppedTotal == q.droppedTotal
  {
    RunKeepsInv(started, steps, limits);
    RunSnoc(started, steps, Wake, limits);
  }

  /** stop() awaits the drain task. */
  predicate Stopping(q: Queue) {
    && q.stop && q.stopper == AwaitingTask
    && (q.inFlight != [] <==> q.drain == Flushing || q.drain == ExitFlushing)
  }

  lemma StoppingStep(q: Queue, limits: Limits, ok: bool)
    requires Stopping(q)
    ensures Stopping(Apply(q, Begin, limits)) && Apply(q, Begin, limits).drain != Starting
    ensures q.drain != Starting ==>
      Stopping(Apply(q, Wake, limits)) && Apply(q, Wake, limits).drain != Starting
      && Apply(q, Wake, limits).drain != Waiting
    ensures q.drain != Starting && q.drain != Waiting ==>
      var r := Apply(q, FlushDone(ok), limits);
      Stopping(r) && (r.drain == Ended || (r.drain == ExitFlushing && q.drain == Flushing))
  {
  }

  lemma DrainTaskEnds(q: Queue, limits: Limits, a: bool, b: bool) returns (r: Queue)
    requires Stopping(q)
    ensures r == Apply(Apply(Apply(Apply(q, Begin, limits), Wake, limits), FlushDone(a), limits), FlushDone(b), limits)
    ensures r.stopper == AwaitingTask && r.drain == Ended && r.inFlight == []
  {
    StoppingStep(q, limits, a);
    r := Resumed(q, Begin, limits);
    StoppingStep(r, limits, a);
    r := Resumed(r, Wake, limits);
    StoppingStep(r, limits, a);
    r := Resumed(r, FlushDone(a), limits);
    StoppingStep(r, limits, b);
    r := Resumed(r, FlushDone(b), limits);
  }

  lemma Resumed(q: Queue, step: Step, limits: Limits) returns (r: Queue)
    ensures r == Apply(q, step, limits)
  {
    r := Apply(q, step, limits);
  }

  lemma LastFlushEnds(q: Queue, limits: Limits, c: bool) returns (r: Queue)
    requires q.stopper == AwaitingTask && q.drain == Ended && q.inFlight == []
    ensures r == Apply(Apply(q, TaskEnded, limits), LastFlushDone(c), limits)
    ensures r.stopper == Stopped && r.buffer == [] && r.inFlight == []
  {
    r := Apply(Apply(q, TaskEnded, limits), LastFlushDone(c), limits);
  }

  /** Whatever the writes come back with, a called stop() returns once the two coroutines
      have resumed as often as they are suspended, and leaves nothing behind. */
  lemma {:induction false} StopReturns(started: bool, steps: seq<Step>, limits: Limits, a: bool, b: bool, c: bool)
    requires Run(started, steps, limits).stopper == AwaitingTask
    ensures
      var drained := steps + [Begin] + [Wake] + [FlushDone(a)] + [FlushDone(b)];
      var q := Run(started, drained + [TaskEnded] + [LastFlushDone(c)], limits);
      q.stopper == Stopped && q.buffer == [] && q.inFlight == []
  {
    RunKeepsInv(started, steps, limits);
    RunSnoc(started, steps, Begin, limits);
    RunSnoc(started, steps + [Begin], Wake, limits);
    RunSnoc(started, steps + [Begin] + [Wake], FlushDone(a), limits);
    RunSnoc(started, steps + [Begin] + [Wake] + [FlushDone(a)], FlushDone(b), limits);
    var drained := steps + [Begin] + [Wake] + [FlushDone(a)] + [FlushDone(b)];
    var r := DrainTaskEnds(Run(started, steps, limits), limits, a, b);
    RunSnoc(started, drained, TaskEnded, limits);
    RunSnoc(started, drained + [TaskEnded], LastFlushDone(c), limits);
    r := LastFlushEnds(r, limits, c);
  }

  // ------------------------------------------------------------ the object

  /** The queue object. A flush is two calls, before and after the suspended write;
      the drain loop and stop() are their resumption points. Each public method is
      one step, so every history of the object is a run. */
  class AccountingQueue {
    const limits: Limits
    var buffer: seq<AttemptRow>
    var droppedTotal: nat
    var wakeup: bool
    var stop: bool
    var inFlight: seq<AttemptRow>
    var drain: Drain
    var stopper: Stopper
    ghost var written: seq<AttemptRow>
    ghost var history: seq<AttemptRow>
    ghost var fates: seq<Fate>
    ghost var batchAt: nat
    ghost var lateFrom: nat

    ghost function View(): Queue
      reads this
    {
      Queue(buffer, droppedTotal, wakeup, stop, inFlight, drain, stopper, written, history, fates, batchAt, lateFrom)
    }

    constructor (limits: Limits, started: bool)
      ensures this.limits == limits && View() == Init(started)
    {
      this.limits := limits;
      buffer, droppedTotal, wakeup, stop := [], 0, false, false;
      inFlight, stopper := [], Running;
      drain := if started then Starting else Ended;
      written, history, fates, batchAt, lateFrom := [], [], [], 0, 0;
    }

    method EnqueueRecord(rec: AttemptRow)
      modifies this
      ensures View() == Apply(old(View()), Enqueue(rec), limits)
    {
      fates := PushedFates(history, fates, buffer, Full(View(), limits));
      history := history + [rec];
      if limits.capacity <= |buffer| && buffer != [] {
        buffer := buffer[1..];
        droppedTotal := droppedTotal + 1;
      }
      buffer := buffer + [rec];
      if limits.flushSize <= |buffer| {
        wakeup := true;
      }
    }

    method BeginFlush()
      modifies this`buffer, this`inFlight, this`fates, this`batchAt
      ensures View() == TakeBatch(old(View()))
    {
      fates := Relabel(fates, Buffered, InFlight);
      batchAt := Max(0, |history| - |buffer|);
      inFlight := buffer;
      buffer := [];
    }

    method EndFlush(ok: bool)
      modifies this`droppedTotal, this`inFlight, this`fates, this`written
      ensures View() == SettleBatch(old(View()), ok)
    {
      if ok {
        written := written + inFlight;
        fates := Relabel(fates, InFlight, Written);
      } else {
        droppedTotal := droppedTotal + |inFlight|;
        fates := Relabel(fates, InFlight, FailedBatch);
      }
      inFlight := [];
    }

    /** Runs the loop test, and the flush after the loop up to its suspension. */
    method TestLoop()
      modifies this
      ensures View() == LoopTest(old(View()))
    {
      if !stop {
        drain := Waiting;
      } else if buffer == [] {
        drain := Ended;
      } else {
        BeginFlush();
        drain := ExitFlushing;
      }
    }

    method TaskBegins()
      modifies this
      ensures View() == Apply(old(View()), Begin, limits)
    {
      if drain == Starting {
        TestLoop();
      }
    }

    method WaitEnds()
      modifies this
      ensures View() == Apply(old(View()), Wake, limits)
    {
      if drain == Waiting {
        wakeup := false;
        if buffer == [] {
          TestLoop();
        } else {
          BeginFlush();
          drain := Flushing;
        }
      }
    }

    method WriteReturns(ok: bool)
      modifies this
      ensures View() == Apply(old(View()), FlushDone(ok), limits)
    {
      if drain == Flushing {
        EndFlush(ok);
        TestLoop();
      } else if drain == ExitFlushing {
        EndFlush(ok);
        drain := Ended;
      }
    }

    method StopBegins()
      modifies this
      ensures View() == Apply(old(View()), StopCalled, limits)
    {
      if stopper == Running {
        stop, wakeup, stopper := true, true, AwaitingTask;
      }
    }

    method StopResumes()
      modifies this
      ensures View() == Apply(old(View()), TaskEnded, limits)
    {
      if stopper == AwaitingTask && drain == Ended {
        lateFrom := |history|;
        if buffer == [] {
          stopper := Stopped;
        } else {
          BeginFlush();
          stopper := LastFlush;
        }
      }
    }

    method LastWriteReturns(ok: bool)
      modifies this
      ensures View() == Apply(old(View()), LastFlushDone(ok), limits)
    {
      if stopper == LastFlush {
        EndFlush(ok);
        stopper := Stopped;
      }
    }
  }
}
