/** The best-effort request log: a bounded queue that never blocks its producers, and one
    writer that collects batches and answers flush requests. */
module Telemetry {
  datatype Entry = Entry(id: int, row: string)

  const QUEUE_SIZE := 10_000
  const BATCH_SIZE := 100

  /** An accepted entry that has left the batch, written or counted as dropped. */
  datatype Settled = Settled(entry: Entry, written: bool)

  /** Where the writer is: at its loop head, in the steps of answering a flush, or stopping. */
  datatype Position = Loop | Draining | Flushing | Checking | Answering | Stopping | Stopped

  /** attempts, accepted and settled are history; mark and settledAt are the numbers accepted
      and settled when the flush request being answered arrived. */
  datatype State = State(
    queue: seq<Entry>,
    batch: seq<Entry>,
    rows: seq<Entry>,
    dropped: int,
    position: Position,
    failed: bool,
    attempts: int,
    accepted: seq<Entry>,
    settled: seq<Settled>,
    mark: int,
    settledAt: int)

  const START := State([], [], [], 0, Loop, false, 0, [], [], 0, 0)

  datatype Step =
    | Enqueue(entry: Entry)
    | Receive(ok: bool)
    | Tick(ok: bool)
    | Request
    | DrainOne
    | DrainDone
    | WriteDrained(ok: bool)
    | Check
    | Answer
    | Stop
    | StopReceive(ok: bool)
    | StopDone(ok: bool)

  function SettleAll(batch: seq<Entry>, ok: bool): seq<Settled> {
    seq(|batch|, i requires 0 <= i < |batch| => Settled(batch[i], ok))
  }

  /** The writer's flush of its batch; an empty batch is not written at all. */
  function FlushBatch(s: State, ok: bool): State {
    if s.batch == [] then s
    else s.(batch := [],
            rows := if ok then s.rows + s.batch else s.rows,
            dropped := if ok then s.dropped else s.dropped + |s.batch|,
            settled := s.settled + SettleAll(s.batch, ok))
  }

  function TakeOne(s: State): State
    requires s.queue != []
  {
    s.(queue := s.queue[1..], batch := s.batch + [s.queue[0]])
  }

  function TakeAndFlush(s: State, ok: bool): State
    requires s.queue != []
  {
    var t := TakeOne(s);
    if |t.batch| >= BATCH_SIZE then FlushBatch(t, ok) else t
  }

  function Offer(s: State, entry: Entry): State {
    if |s.queue| < QUEUE_SIZE
    then s.(queue := s.queue + [entry], accepted := s.accepted + [entry], attempts := s.attempts + 1)
    else s.(dropped := s.dropped + 1, attempts := s.attempts + 1)
  }

  predicate Enabled(s: State, e: Step) {
    match e
    case Enqueue(_) => true
    case Receive(_) => s.position.Loop? && s.queue != []
    case Tick(_) => s.position.Loop?
    case Request => s.position.Loop?
    case DrainOne => s.position.Draining? && |s.batch| < BATCH_SIZE && s.queue != []
    case DrainDone => s.position.Draining? && (|s.batch| >= BATCH_SIZE || s.queue == [])
    case WriteDrained(_) => s.position.Flushing?
    case Check => s.position.Checking?
    case Answer => s.position.Answering?
    case Stop => s.position.Loop?
    case StopReceive(_) => s.position.Stopping? && s.queue != []
    case StopDone(_) => s.position.Stopping? && s.queue == []
  }

  function Apply(s: State, e: Step): State
    requires Enabled(s, e)
  {
    match e
    case Enqueue(entry) => Offer(s, entry)
    case Receive(ok) => TakeAndFlush(s, ok)
    case Tick(ok) => FlushBatch(s, ok)
    case Request => s.(position := Draining, failed := false, mark := |s.accepted|, settledAt := |s.settled|)
    case DrainOne => TakeOne(s)
    case DrainDone => s.(position := Flushing)
    case WriteDrained(ok) => FlushBatch(s, ok).(position := Checking, failed := s.failed || (s.batch != [] && !ok))
    case Check => s.(position := if s.queue == [] then Answering else Draining)
    case Answer => s.(position := Loop)
    case Stop => s.(position := Stopping)
    case StopReceive(ok) => TakeAndFlush(s, ok)
    case StopDone(ok) => FlushBatch(s, ok).(position := Stopped)
  }

  ghost predicate Feasible(s: State, steps: seq<Step>)
    decreases |steps|
  {
    steps == [] || (Enabled(s, steps[0]) && Feasible(Apply(s, steps[0]), steps[1..]))
  }

  ghost function Run(s: State, steps: seq<Step>): State
    requires Feasible(s, steps)
    decreases |steps|
  {
    if steps == [] then s else Run(Apply(s, steps[0]), steps[1..])
  }

  // ------------------------------------------------------------------ the invariant

  function Entries(settled: seq<Settled>): seq<Entry> {
    seq(|settled|, i requires 0 <= i < |settled| => settled[i].entry)
  }

  function WrittenOf(settled: seq<Settled>): seq<Entry> {
    if settled == [] then []
    else WrittenOf(settled[..|settled| - 1]) + if settled[|settled| - 1].written then [settled[|settled| - 1].entry]
      else []
  }

  /** Every accepted entry is, in the order of acceptance, settled, in the batch or in the
      queue; the rows are the settled entries that were written; everything else that was
      attempted is counted as dropped. */
  ghost predicate Conserved(s: State) {
    && s.accepted == Entries(s.settled) + s.batch + s.queue
    && s.rows == WrittenOf(s.settled)
    && s.attempts == |s.rows| + s.dropped + |s.queue| + |s.batch|
  }

  ghost predicate Bounded(s: State) {
    && |s.queue| <= QUEUE_SIZE && |s.batch| <= BATCH_SIZE
    && (s.position.Loop? || s.position.Stopping? ==> |s.batch| < BATCH_SIZE)
    && (s.position.Checking? || s.position.Answering? || s.position.Stopped? ==> s.batch == [])
  }

  /** While a flush is being answered: once nothing is left to drain, everything accepted
      before the request is settled, and a success means that all settled since was written. */
  ghost predicate Answers(s: State) {
    s.position.Draining? || s.position.Flushing? || s.position.Checking? || s.position.Answering? ==>
      && 0 <= s.settledAt <= |s.settled| && 0 <= s.mark <= |s.accepted|
      && (s.position.Answering? ==> s.mark <= |s.settled|)
      && (!s.failed <==> forall i :: s.settledAt <= i < |s.settled| ==> s.settled[i].written)
  }

  ghost predicate Inv(s: State) {
    Conserved(s) && Bounded(s) && Answers(s)
  }

  lemma WrittenSnoc(x: seq<Settled>, y: Settled)
    ensures WrittenOf(x + [y]) == WrittenOf(x) + if y.written then [y.entry] else []
  {
    assert (x + [y])[..|x|] == x;
  }

  lemma SettleSnoc(x: seq<Settled>, batch: seq<Entry>, last: Entry, ok: bool)
    ensures x + SettleAll(batch + [last], ok) == (x + SettleAll(batch, ok)) + [Settled(last, ok)]
  {
    assert SettleAll(batch + [last], ok) == SettleAll(batch, ok) + [Settled(last, ok)];
  }

  lemma {:induction false} WrittenConcat(x: seq<Settled>, batch: seq<Entry>, ok: bool)
    ensures WrittenOf(x + SettleAll(batch, ok)) == WrittenOf(x) + if ok then batch else []
  {
    if batch == [] {
      assert x + SettleAll(batch, ok) == x;
    } else {
      hide *;
      var init, last := batch[..|batch| - 1], batch[|batch| - 1];
      assert batch == init + [last];
      WrittenConcat(x, init, ok);
      SettleSnoc(x, init, last, ok);
      WrittenSnoc(x + SettleAll(init, ok), Settled(last, ok));
      assert WrittenOf(x) + (init + [last]) == WrittenOf(x) + init + [last];
    }
  }

  lemma FlushConserves(s: State, ok: bool)
    requires Conserved(s)
    ensures Conserved(FlushBatch(s, ok))
  {
    if s.batch != [] {
      var t := FlushBatch(s, ok);
      WrittenConcat(s.settled, s.batch, ok);
      assert Entries(t.settled) == Entries(s.settled) + s.batch;
    }
  }

  lemma TakeConserves(s: State)
    requires Conserved(s) && s.queue != []
    ensures Conserved(TakeOne(s))
  {
    assert s.batch + s.queue == (s.batch + [s.queue[0]]) + s.queue[1..];
  }

  lemma StepConserves(s: State, e: Step)
    requires Conserved(s) && Enabled(s, e)
    ensures Conserved(Apply(s, e))
  {
    hide WrittenOf, Entries, SettleAll;
    match e
    case Receive(ok) =>
      TakeConserves(s);
      FlushConserves(TakeOne(s), ok);
    case StopReceive(ok) =>
      TakeConserves(s);
      FlushConserves(TakeOne(s), ok);
    case DrainOne => TakeConserves(s);
    case Tick(ok) => FlushConserves(s, ok);
    case WriteDrained(ok) => FlushConserves(s, ok);
    case StopDone(ok) => FlushConserves(s, ok);
    case _ =>
  }

  lemma StepAnswers(s: State, e: Step)
    requires Inv(s) && Enabled(s, e)
    ensures Answers(Apply(s, e))
  {
    if e.Check? {
      assert |Entries(s.settled)| == |s.settled|;
    }
    if InFlush(s) && e.WriteDrained? {
      WriteAnswers(s, e.ok);
    }
  }

  /** Writing what was drained fails exactly if something of it is not written. */
  lemma WriteAnswers(s: State, ok: bool)
    requires Inv(s) && s.position.Flushing?
    ensures var t := Apply(s, WriteDrained(ok));
      !t.failed <==> forall i :: t.settledAt <= i < |t.settled| ==> t.settled[i].written
  {
    var t := Apply(s, WriteDrained(ok));
    assert forall i :: 0 <= i < |s.settled| ==> t.settled[i] == s.settled[i];
    if s.batch != [] {
      assert t.settled[|s.settled|] == Settled(s.batch[0], ok);
    }
    if s.failed {
      var i :| s.settledAt <= i < |s.settled| && !s.settled[i].written;
      assert !t.settled[i].written;
    }
  }

  lemma StepKeepsInv(s: State, e: Step)
    requires Inv(s) && Enabled(s, e)
    ensures Inv(Apply(s, e))
  {
    StepConserves(s, e);
    StepAnswers(s, e);
    hide Conserved, Answers;
  }

  lemma {:induction false} RunKeepsInv(s: State, steps: seq<Step>)
    requires Inv(s) && Feasible(s, steps)
    ensures Inv(Run(s, steps))
    decreases |steps|
  {
    hide Inv, Apply;
    if steps != [] {
      StepKeepsInv(s, steps[0]);
      RunKeepsInv(Apply(s, steps[0]), steps[1..]);
    }
  }

  // ------------------------------------------------------------------------ theorems

  /** Telemetry conservation over every run. */
  lemma NothingIsLost(steps: seq<Step>)
    requires Feasible(START, steps)
    ensures Conserved(Run(START, steps)) && Bounded(Run(START, steps))
    ensures |Run(START, steps).queue| <= 10_000 && |Run(START, steps).batch| <= 100
  {
    assert Conserved(START);
    RunKeepsInv(START, steps);
  }

  /** The hundredth entry makes the writer write its batch, and no earlier one does. */
  lemma HundredthIsWritten(s: State, ok: bool)
    requires s.position.Loop? && s.queue != []
    ensures var t := Apply(s, Receive(ok)); var batch := s.batch + [s.queue[0]];
      && t.queue == s.queue[1..]
      && (|batch| < 100 ==> t.batch == batch && t.rows == s.rows && t.dropped == s.dropped)
      && (|batch| >= 100 && ok ==> t.batch == [] && t.rows == s.rows + batch && t.dropped == s.dropped)
      && (|batch| >= 100 && !ok ==> t.batch == [] && t.rows == s.rows && t.dropped == s.dropped + |batch|)
  {
  }

  /** An entry is dropped on arrival exactly if ten thousand are waiting. */
  lemma FullQueueDrops(s: State, entry: Entry)
    ensures var t := Apply(s, Enqueue(entry));
      && (|s.queue| < 10_000 ==> t.queue == s.queue + [entry] && t.dropped == s.dropped)
      && (|s.queue| >= 10_000 ==> t.queue == s.queue && t.dropped == s.dropped + 1)
  {
  }

  predicate InFlush(s: State) {
    s.position.Draining? || s.position.Flushing? || s.position.Checking? || s.position.Answering?
  }

  /** Until the answer the writer stays with the flush, and mark and settledAt stay what they
      were at the request. */
  lemma {:induction false} RequestRemembered(s: State, steps: seq<Step>)
    requires InFlush(s) && Feasible(s, steps) && forall i :: 0 <= i < |steps| ==> !steps[i].Answer?
    ensures var t := Run(s, steps);
      InFlush(t) && t.mark == s.mark && t.settledAt == s.settledAt && s.accepted <= t.accepted
    decreases |steps|
  {
    if steps != [] {
      var t := Apply(s, steps[0]);
      assert InFlush(t) && t.mark == s.mark && t.settledAt == s.settledAt && s.accepted <= t.accepted;
      RequestRemembered(t, steps[1..]);
    }
  }

  lemma AnswerIsComplete(s: State)
    requires Inv(s) && s.position.Answering?
    ensures 0 <= s.mark <= |s.settled| && s.mark <= |s.accepted| && 0 <= s.settledAt
    ensures forall i :: 0 <= i < s.mark ==> s.settled[i].entry == s.accepted[i]
    ensures !s.failed <==> forall i :: s.settledAt <= i < |s.settled| ==> s.settled[i].written
  {
    assert s.accepted == Entries(s.settled) + s.batch + s.queue;
  }

  /** From any point of any run at which the writer receives a flush request, over whatever
      happens until it is ready to answer: every entry accepted before the request is by then
      written or counted as dropped, and if no error is reported, every entry settled since the
      request is written. */
  lemma FlushIsComplete(before: seq<Step>, during: seq<Step>)
    requires Feasible(START, before) && Enabled(Run(START, before), Request)
    requires Feasible(Apply(Run(START, before), Request), during)
    requires forall i :: 0 <= i < |during| ==> !during[i].Answer?
    requires Run(Apply(Run(START, before), Request), during).position.Answering?
    ensures var s := Run(START, before); var t := Run(Apply(s, Request), during);
      && |s.accepted| <= |t.settled| && |s.accepted| <= |t.accepted|
      && (forall i :: 0 <= i < |s.accepted| ==> t.settled[i].entry == t.accepted[i] == s.accepted[i])
      && (!t.failed <==> forall i :: |s.settled| <= i < |t.settled| ==> t.settled[i].written)
  {
    assert Conserved(START);
    RunKeepsInv(START, before);
    var s := Run(START, before);
    StepKeepsInv(s, Request);
    var r := Apply(s, Request);
    assert InFlush(r) && r.mark == |s.accepted| && r.settledAt == |s.settled| && r.accepted == s.accepted;
    hide Inv, Apply, Run, Feasible;
    RunKeepsInv(r, during);
    RequestRemembered(r, during);
    AnswerIsComplete(Run(r, during));
  }

  /** Rows keep the order in which entries were accepted. */
  ghost predicate Subsequence(x: seq<Entry>, y: seq<Entry>) {
    x == [] || (y != []
      && (Subsequence(x, y[..|y| - 1]) || (x[|x| - 1] == y[|y| - 1] && Subsequence(x[..|x| - 1], y[..|y| - 1]))))
  }

  lemma SubsequenceSnoc(x: seq<Entry>, y: seq<Entry>, e: Entry)
    requires Subsequence(x, y)
    ensures Subsequence(x, y + [e]) && Subsequence(x + [e], y + [e])
  {
    assert (y + [e])[..|y|] == y && (x + [e])[..|x|] == x;
  }

  lemma {:induction false} WrittenInOrder(settled: seq<Settled>)
    ensures Subsequence(WrittenOf(settled), Entries(settled))
  {
    if settled != [] {
      var init, last := settled[..|settled| - 1], settled[|settled| - 1];
      WrittenInOrder(init);
      assert settled == init + [last];
      WrittenSnoc(init, last);
      assert Entries(settled) == Entries(init) + [last.entry];
      SubsequenceSnoc(WrittenOf(init), Entries(init), last.entry);
      hide Subsequence, WrittenOf, Entries;
      if !last.written {
        assert WrittenOf(init) + [] == WrittenOf(init);
      }
    }
  }

  lemma {:induction false} LongerStillContains(x: seq<Entry>, y: seq<Entry>, more: seq<Entry>)
    requires Subsequence(x, y)
    ensures Subsequence(x, y + more)
  {
    if more == [] {
      assert y + more == y;
    } else {
      var init := more[..|more| - 1];
      LongerStillContains(x, y, init);
      assert (y + more)[..|y + more| - 1] == y + init;
    }
  }

  /** The rows are written in the order in which they were accepted. */
  lemma RowsKeepOrder(steps: seq<Step>)
    requires Feasible(START, steps)
    ensures Subsequence(Run(START, steps).rows, Run(START, steps).accepted)
  {
    NothingIsLost(steps);
    var s := Run(START, steps);
    WrittenInOrder(s.settled);
    LongerStillContains(s.rows, Entries(s.settled), s.batch);
    LongerStillContains(s.rows, Entries(s.settled) + s.batch, s.queue);
  }

  // ------------------------------------------------------------------------ the class

  /** The queue and the writer's batch as they are updated in place. */
  class Writer {
    var queue: seq<Entry>
    var batch: seq<Entry>
    var rows: seq<Entry>
    var dropped: int
    ghost var state: State

    ghost predicate Valid()
      reads this
    {
      Inv(state) && state.queue == queue && state.batch == batch && state.rows == rows && state.dropped == dropped
    }

    constructor ()
      ensures Valid() && state == START
    {
      queue, batch, rows, dropped, state := [], [], [], 0, START;
    }

    method Enqueue(entry: Entry) returns (accepted: bool)
      requires Valid()
      modifies this
      ensures Valid() && state == Apply(old(state), Step.Enqueue(entry))
      ensures accepted <==> |old(queue)| < 10_000
    {
      StepKeepsInv(state, Step.Enqueue(entry));
      state := Apply(state, Step.Enqueue(entry));
      if |queue| < QUEUE_SIZE {
        queue := queue + [entry];
        accepted := true;
      } else {
        dropped := dropped + 1;
        accepted := false;
      }
    }

    /** The closure that writes the batch; ok is whether the transaction succeeds. */
    method WriteBatch(ok: bool) returns (success: bool)
      modifies this`batch, this`rows, this`dropped
      ensures success <==> old(batch) == [] || ok
      ensures batch == []
      ensures rows == if ok then old(rows) + old(batch) else old(rows)
      ensures dropped == if ok then old(dropped) else old(dropped) + |old(batch)|
    {
      if |batch| == 0 {
        return true;
      }
      if !ok {
        dropped := dropped + |batch|;
      } else {
        rows := rows + batch;
      }
      batch := [];
      success := ok;
    }

    method Receive(ok: bool)
      requires Valid() && state.position.Loop? && queue != []
      modifies this
      ensures Valid() && state == Apply(old(state), Step.Receive(ok))
    {
      StepKeepsInv(state, Step.Receive(ok));
      state := Apply(state, Step.Receive(ok));
      batch, queue := batch + [queue[0]], queue[1..];
      if |batch| >= BATCH_SIZE {
        var _ := WriteBatch(ok);
      }
    }

    /** Producers enqueue between two steps of the writer. */
    method Arrive(entries: seq<Entry>)
      requires Valid()
      modifies this
      ensures Valid() && SameAnswer(old(state), state)
      ensures state.position == old(state.position) && batch == old(batch)
      ensures entries == [] ==> state == old(state)
    {
      SameAnswerSelf(state);
      hide Inv, SameAnswer;
      for i := 0 to |entries|
        invariant Valid() && SameAnswer(old(state), state)
        invariant state.position == old(state.position) && batch == old(batch)
        invariant i == 0 ==> state == old(state)
      {
        ghost var before := state;
        var _ := Enqueue(entries[i]);
        OfferSameAnswer(old(state), before, entries[i]);
      }
    }

    /** Filling the batch from the queue; arrivals[i] come in just before the queue is looked at
        for the ith time. */
    method Drain(arrivals: seq<seq<Entry>>)
      requires Valid() && state.position.Draining?
      modifies this
      ensures Valid() && state.position.Flushing? && SameAnswer(old(state), state)
      ensures queue == [] || |batch| == BATCH_SIZE
      ensures arrivals == [] ==> |queue| <= |old(queue)|
      ensures arrivals == [] && old(queue != []) && old(|batch|) < BATCH_SIZE ==> |queue| < |old(queue)|
    {
      hide Conserved, Bounded, Answers, SameAnswer;
      BatchFits();
      SameAnswerSelf(state);
      var n := 0;
      while |batch| < BATCH_SIZE
        invariant Valid() && state.position.Draining? && SameAnswer(old(state), state)
        invariant |batch| <= BATCH_SIZE
        invariant arrivals == [] ==> |queue| <= |old(queue)|
        invariant arrivals == [] ==> |queue| < |old(queue)| || (queue == old(queue) && batch == old(batch))
        decreases BATCH_SIZE - |batch|
      {
        if n < |arrivals| {
          ghost var earlier := state;
          Arrive(arrivals[n]);
          SameAnswerTwice(old(state), earlier, state);
        }
        n := n + 1;
        if |queue| == 0 {
          break;
        }
        StepKeepsInv(state, DrainOne);
        TakeSameAnswer(old(state), state);
        state := Apply(state, DrainOne);
        batch, queue := batch + [queue[0]], queue[1..];
      }
      StepKeepsInv(state, DrainDone);
      MoveSameAnswer(old(state), state, Flushing);
      state := Apply(state, DrainDone);
    }

    lemma BatchFits()
      requires Valid()
      ensures |batch| <= BATCH_SIZE
    {
    }

    /** Answering a flush request, round by round, with anything arriving meanwhile: whatever was
        accepted before the request is settled, and success means that everything settled since
        is written. */
    method AnswerFlush(rounds: seq<Round>) returns (failed: bool)
      requires Valid() && state.position.Loop?
      modifies this
      ensures Valid() && state.position.Loop? && batch == []
      ensures |old(state.accepted)| <= |state.settled| && |old(state.accepted)| <= |state.accepted|
      ensures forall i :: 0 <= i < |old(state.accepted)| ==>
        state.settled[i].entry == state.accepted[i] == old(state.accepted)[i]
      ensures !failed <==> forall i :: old(|state.settled|) <= i < |state.settled| ==> state.settled[i].written
    {
      hide Conserved, Bounded, Answers, Entries;
      NotFull();
      StepKeepsInv(state, Request);
      state := Apply(state, Request);
      failed := false;
      var n, more := 0, true;
      while more
        invariant Valid() && state.mark == |old(state.accepted)| && old(state.accepted) <= state.accepted
        invariant state.settledAt == old(|state.settled|) && state.failed == failed && |batch| < BATCH_SIZE
        invariant if more then state.position.Draining? else state.position.Answering? && batch == []
        decreases more, if n < |rounds| then |rounds| - n else 0, |queue|
      {
        var round := if n < |rounds| then rounds[n] else Round(true, [], []);
        var success := DrainAndWrite(round);
        if !success {
          failed := true;
        }
        n := n + 1;
        more := |queue| != 0;
      }
      AnswerIsComplete(state);
      StepKeepsInv(state, Answer);
      state := Apply(state, Answer);
    }

    lemma NotFull()
      requires Valid() && state.position.Loop?
      ensures |batch| < BATCH_SIZE
    {
    }

    /** One round of answering: drain, write, look whether the queue is empty. */
    method DrainAndWrite(round: Round) returns (success: bool)
      requires Valid() && state.position.Draining? && |batch| < BATCH_SIZE
      modifies this
      ensures Valid() && batch == [] && state.position == if queue == [] then Answering else Draining
      ensures state.mark == old(state.mark) && state.settledAt == old(state.settledAt)
      ensures old(state.accepted) <= state.accepted && state.failed == (old(state.failed) || !success)
      ensures round.drain == [] && round.writing == [] && queue != [] ==> |queue| < |old(queue)|
    {
      hide Conserved, Bounded, Answers;
      Drain(round.drain);
      Arrive(round.writing);
      StepKeepsInv(state, WriteDrained(round.ok));
      state := Apply(state, WriteDrained(round.ok));
      success := WriteBatch(round.ok);
      StepKeepsInv(state, Check);
      state := Apply(state, Check);
    }
  }

  /** What happens in one round of answering a flush: how the write goes, and what arrives while
      the queue is drained and while the batch is written. */
  datatype Round = Round(ok: bool, drain: seq<seq<Entry>>, writing: seq<Entry>)

  /** Nothing was settled or answered in between, and nothing accepted was forgotten. */
  ghost predicate SameAnswer(s: State, t: State) {
    && t.mark == s.mark && t.settledAt == s.settledAt && t.failed == s.failed && t.settled == s.settled
    && s.accepted <= t.accepted
  }

  lemma SameAnswerSelf(s: State)
    ensures SameAnswer(s, s)
  {
  }

  lemma SameAnswerTwice(s: State, t: State, u: State)
    requires SameAnswer(s, t) && SameAnswer(t, u)
    ensures SameAnswer(s, u)
  {
  }

  lemma OfferSameAnswer(s: State, t: State, entry: Entry)
    requires SameAnswer(s, t)
    ensures SameAnswer(s, Offer(t, entry)) && Offer(t, entry).position == t.position && Offer(t, entry).batch == t.batch
  {
  }

  lemma TakeSameAnswer(s: State, t: State)
    requires SameAnswer(s, t) && t.queue != []
    ensures SameAnswer(s, TakeOne(t))
  {
  }

  lemma MoveSameAnswer(s: State, t: State, position: Position)
    requires SameAnswer(s, t)
    ensures SameAnswer(s, t.(position := position))
  {
  }
}
