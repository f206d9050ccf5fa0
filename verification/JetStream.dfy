/**
 The live half of a JetStream import (`src/jetstream.c`): a worker thread fetches messages and hands
 them one at a time to the loop thread through a single slot; the loop thread also closes the
 stream. Every step below is one critical section of the stream's lock, or one action of a thread
 between two of them. Any interleaving of steps is a run.
 */
module JetStream {
  import opened Bytes

  /** Messages are numbered in the order they are fetched. */
  type MsgId = nat

  /** Where the worker is: `js_stream_thread_main` and `js_stream_handoff_msg`. */
  datatype Worker =
    | Top                   // about to test js_stream_is_closing
    | Fetching
    | Handing(m: MsgId)     // about to enter the handoff
    | WaitingSlot(m: MsgId) // in its first cond_wait
    | WaitingDone(m: MsgId) // in its second cond_wait
    | Dropping(m: MsgId)    // the handoff returned without the message being consumed
    | Exited

  /** Where the loop thread is: `on_js_async`, `js_stream_process_msg`, `js_stream_close`. */
  datatype Loop =
    | Idle
    | Taken(m: MsgId)
    | Receiving(m: MsgId)        // received has been counted
    | Handled(m: MsgId)          // the handler has succeeded
    | Processed(m: MsgId, ok: bool)
    | Finishing(m: MsgId, ok: bool)  // the message is destroyed
    | Joining
    | Joined
    | Closed

  /** The handoff slot. */
  datatype Slot = Slot(msg: Option<MsgId>, ready: bool, inProcess: bool, done: bool, ok: bool)

  /** The stream's counters, and what has been done to which message, in order. */
  datatype Books = Books(
    received: nat, acked: nat, failed: nat,
    processings: seq<MsgId>, destructions: seq<MsgId>, handlerOk: seq<MsgId>, acks: seq<MsgId>)

  datatype State = State(
    worker: Worker, asleep: bool, loop: Loop, slot: Slot, closing: bool, asyncPending: bool, fetched: nat, books: Books)

  const EMPTY_SLOT: Slot := Slot(None, false, false, false, false)

  const INIT: State := State(Top, false, Idle, EMPTY_SLOT, false, false, 0, Books(0, 0, 0, [], [], [], []))

  /** A step of either thread, with what the outside world answers. */
  datatype WorkerStep =
    | TestClosing
    | Fetch(gotMessage: bool)
    | EnterHandoff(asyncOk: bool)
    | Wake                       // spurious wake-ups are allowed
    | CheckDone
    | Drop

  datatype LoopStep =
    | AsyncCallback
    | StartProcessing
    | RejectMessage              // metadata, frame or subject is bad
    | RunHandler(success: bool)
    | SendAck(success: bool)
    | DestroyProcessed
    | Finish
    | BeginClose
    | Join
    | DestroyPending

  datatype Step = OfWorker(w: WorkerStep) | OfLoop(l: LoopStep)

  /** `js_stream_handoff_msg` up to its return or its next wait, entered or re-entered with the lock held. */
  function Handoff(s: State, m: MsgId, asyncOk: bool): State {
    if !s.closing && (s.slot.ready || s.slot.inProcess) then s.(worker := WaitingSlot(m), asleep := true)
    else if s.closing then s.(worker := Dropping(m), asleep := false)
    else if asyncOk then
      s.(slot := Slot(Some(m), true, false, false, false), asyncPending := true, worker := WaitingDone(m), asleep := true)
    else s.(slot := EMPTY_SLOT, worker := Dropping(m), asleep := false)
  }

  function Destroy(b: Books, m: MsgId): Books {
    b.(destructions := b.destructions + [m])
  }

  /** A step of a worker that is somewhere else, or asleep, changes nothing. */
  function WorkerNext(s: State, step: WorkerStep): State {
    match step
    case TestClosing => if s.worker == Top then s.(worker := if s.closing then Exited else Fetching) else s
    case Fetch(got) =>
      if s.worker != Fetching then s
      else if got then s.(worker := Handing(s.fetched), fetched := s.fetched + 1) else s.(worker := Top)
    case EnterHandoff(asyncOk) =>
      if s.worker.Handing? || (s.worker.WaitingSlot? && !s.asleep) then Handoff(s, s.worker.m, asyncOk) else s
    case Wake => s.(asleep := false)
    case CheckDone =>
      if !s.worker.WaitingDone? || s.asleep then s
      else if s.slot.done then s.(worker := Top)
      else if s.closing && s.slot.ready && s.slot.msg == Some(s.worker.m) && !s.slot.inProcess then
        s.(slot := s.slot.(msg := None, ready := false), worker := Dropping(s.worker.m))
      else s.(asleep := true)
    case Drop => if s.worker.Dropping? then s.(books := Destroy(s.books, s.worker.m), worker := Top) else s
  }

  function LoopNext(s: State, step: LoopStep): State {
    var b := s.books;
    match step
    case AsyncCallback =>
      if s.loop != Idle || !s.asyncPending then s
      else if s.slot.ready && s.slot.msg.Some? then
        s.(asyncPending := false, slot := s.slot.(msg := None, ready := false, inProcess := true), loop := Taken(s.slot.msg.value))
      else s.(asyncPending := false)
    case StartProcessing =>
      if s.loop.Taken? then
        s.(books := b.(received := b.received + 1, processings := b.processings + [s.loop.m]), loop := Receiving(s.loop.m))
      else s
    case RejectMessage =>
      if s.loop.Receiving? then s.(books := b.(failed := b.failed + 1), loop := Processed(s.loop.m, false)) else s
    case RunHandler(success) =>
      if !s.loop.Receiving? then s
      else if success then s.(books := b.(handlerOk := b.handlerOk + [s.loop.m]), loop := Handled(s.loop.m))
      else s.(books := b.(failed := b.failed + 1), loop := Processed(s.loop.m, false))
    case SendAck(success) =>
      if !s.loop.Handled? then s
      else if success then s.(books := b.(acked := b.acked + 1, acks := b.acks + [s.loop.m]), loop := Processed(s.loop.m, true))
      else s.(books := b.(failed := b.failed + 1, acks := b.acks + [s.loop.m]), loop := Processed(s.loop.m, false))
    case DestroyProcessed =>
      if s.loop.Processed? then s.(books := Destroy(b, s.loop.m), loop := Finishing(s.loop.m, s.loop.ok)) else s
    case Finish =>
      if s.loop.Finishing? then
        s.(slot := s.slot.(inProcess := false, ok := s.loop.ok, done := true), asleep := false, loop := Idle)
      else s
    case BeginClose => if s.loop == Idle then s.(closing := true, asleep := false, loop := Joining) else s
    case Join => if s.loop == Joining && s.worker == Exited then s.(loop := Joined) else s
    case DestroyPending =>
      if s.loop != Joined then s
      else if s.slot.msg.Some? then s.(books := Destroy(b, s.slot.msg.value), slot := s.slot.(msg := None), loop := Closed)
      else s.(loop := Closed)
  }

  function Next(s: State, step: Step): State {
    match step
    case OfWorker(w) => WorkerNext(s, w)
    case OfLoop(l) => LoopNext(s, l)
  }

  function Run(steps: seq<Step>): State {
    if steps == [] then INIT else Next(Run(steps[..|steps| - 1]), steps[|steps| - 1])
  }

  // ----- the invariant -----

  function Count(s: seq<MsgId>, m: MsgId): nat {
    if s == [] then 0 else Count(s[..|s| - 1], m) + if s[|s| - 1] == m then 1 else 0
  }

  lemma {:induction false} CountSnoc(s: seq<MsgId>, x: MsgId, m: MsgId)
    ensures Count(s + [x], m) == Count(s, m) + if x == m then 1 else 0
  {
    assert (s + [x])[..|s|] == s;
  }

  /** The worker alone holds `m`. */
  predicate WorkerHolds(w: Worker, m: MsgId) {
    w == Handing(m) || w == WaitingSlot(m) || w == Dropping(m)
  }

  /** The loop thread is working on `m`, which is not destroyed yet. */
  predicate LoopHolds(l: Loop, m: MsgId) {
    l == Taken(m) || l == Receiving(m) || l == Handled(m) || (l.Processed? && l.m == m)
  }

  predicate Alive(s: State, m: MsgId) {
    WorkerHolds(s.worker, m) || s.slot.msg == Some(m) || LoopHolds(s.loop, m)
  }

  predicate Working(l: Loop) {
    l.Taken? || l.Receiving? || l.Handled? || l.Processed? || l.Finishing?
  }

  predicate Stopping(l: Loop) {
    l.Joining? || l.Joined? || l.Closed?
  }

  /** The message the loop thread was given; only meaningful while it is working. */
  function Subject(l: Loop): MsgId {
    match l
    case Taken(m) => m
    case Receiving(m) => m
    case Handled(m) => m
    case Processed(m, _) => m
    case Finishing(m, _) => m
    case _ => 0
  }

  predicate Started(l: Loop, m: MsgId) {
    (l.Receiving? || l.Handled? || l.Processed? || l.Finishing?) && Subject(l) == m
  }

  /** How the slot, the flags and the two threads fit together. */
  predicate Control(s: State) {
    var slot := s.slot;
    (slot.ready <==> slot.msg.Some?) &&
    (slot.inProcess <==> Working(s.loop)) &&
    (s.closing <==> Stopping(s.loop)) &&
    (s.loop.Joined? || s.loop.Closed? ==> s.worker == Exited) &&
    (s.worker == Exited ==> s.closing) &&
    // only a worker that waits for its result has anything in the slot or at the loop
    (slot.ready || slot.inProcess ==> s.worker.WaitingDone? && !slot.done) &&
    (slot.ready ==> slot.msg == Some(s.worker.m) && !slot.inProcess) &&
    (slot.inProcess ==> Subject(s.loop) == s.worker.m) &&
    (s.worker.WaitingDone? ==> slot.ready || slot.inProcess || slot.done) &&
    !s.worker.WaitingSlot? &&
    // a sleeping worker will be woken
    (s.asleep ==> s.worker.WaitingDone? && !slot.done && !s.closing) &&
    (slot.ready && !s.closing ==> s.asyncPending) &&
    // a message somebody holds has been fetched
    (s.worker.Handing? || s.worker.Dropping? || s.worker.WaitingDone? ==> s.worker.m < s.fetched)
  }

  /** Where message `m` is accounted for. */
  predicate Ledger(s: State, m: MsgId) {
    var b := s.books;
    Count(b.destructions, m) == (if m < s.fetched && !Alive(s, m) then 1 else 0) &&
    Count(b.processings, m) <= 1 &&
    (Count(b.processings, m) == 1 ==> m < s.fetched && (Started(s.loop, m) || Count(b.destructions, m) == 1)) &&
    (s.loop == Handled(m) ==> m in b.handlerOk) &&
    (m in b.acks ==> m in b.handlerOk)
  }

  predicate Counters(s: State) {
    s.books.received == s.books.acked + s.books.failed + if s.loop.Receiving? || s.loop.Handled? then 1 else 0
  }

  ghost predicate Inv(s: State) {
    Control(s) && Counters(s) && forall m: MsgId :: Ledger(s, m)
  }

  lemma {:induction false} WorkerControl(s: State, step: WorkerStep)
    requires Control(s)
    ensures Control(WorkerNext(s, step))
    ensures Counters(s) ==> Counters(WorkerNext(s, step))
  {
  }

  lemma {:induction false} LoopControl(s: State, step: LoopStep)
    requires Control(s)
    ensures Control(LoopNext(s, step))
    ensures Counters(s) ==> Counters(LoopNext(s, step))
  {
    match step
    case AsyncCallback =>
    case Finish =>
    case BeginClose =>
    case Join =>
    case DestroyPending =>
    case _ =>
  }

  /** A message's account only depends on the books, on who is at it, and on whether it is alive. */
  lemma {:induction false} SameLedger(s: State, s': State, m: MsgId)
    requires Ledger(s, m) && s'.books == s.books && s'.fetched == s.fetched && (Alive(s', m) <==> Alive(s, m))
    requires (Started(s.loop, m) ==> Started(s'.loop, m)) && (s'.loop == Handled(m) ==> s.loop == Handled(m))
    ensures Ledger(s', m)
  {
  }

  lemma {:induction false} HandoffAlive(s: State, asyncOk: bool, m: MsgId)
    requires Control(s) && s.worker.Handing?
    ensures Alive(Handoff(s, s.worker.m, asyncOk), m) <==> Alive(s, m)
  {
  }

  lemma {:induction false} CheckDoneAlive(s: State, m: MsgId)
    requires Control(s)
    ensures Alive(WorkerNext(s, CheckDone), m) <==> Alive(s, m)
  {
  }

  lemma {:induction false} FetchLedger(s: State, got: bool, m: MsgId)
    requires Control(s) && Ledger(s, m) && s.worker == Fetching
    ensures Ledger(WorkerNext(s, Fetch(got)), m)
  {
    var s' := WorkerNext(s, Fetch(got));
    if m != s.fetched {
      assert Alive(s', m) <==> Alive(s, m);
    }
  }

  lemma {:induction false} DropLedger(s: State, m: MsgId)
    requires Control(s) && Ledger(s, m) && s.worker.Dropping?
    ensures Ledger(WorkerNext(s, Drop), m)
  {
    var s' := WorkerNext(s, Drop);
    CountSnoc(s.books.destructions, s.worker.m, m);
    if m == s.worker.m {
      assert Alive(s, m) && !Alive(s', m);
    } else {
      assert Alive(s', m) <==> Alive(s, m);
    }
  }

  /** Worker steps keep every message's account. */
  lemma {:induction false} WorkerLedger(s: State, step: WorkerStep, m: MsgId)
    requires Control(s) && Ledger(s, m)
    ensures Ledger(WorkerNext(s, step), m)
  {
    var s' := WorkerNext(s, step);
    match step
    case TestClosing => SameLedger(s, s', m);
    case Fetch(got) => if s.worker == Fetching { FetchLedger(s, got, m); }
    case EnterHandoff(asyncOk) =>
      if s.worker.Handing? {
        HandoffAlive(s, asyncOk, m);
        SameLedger(s, s', m);
      }
    case Wake => SameLedger(s, s', m);
    case CheckDone =>
      CheckDoneAlive(s, m);
      SameLedger(s, s', m);
    case Drop => if s.worker.Dropping? { DropLedger(s, m); }
  }

  lemma {:induction false} StartLedger(s: State, m: MsgId)
    requires Control(s) && Ledger(s, m) && s.loop.Taken?
    ensures Ledger(LoopNext(s, StartProcessing), m)
  {
    var s' := LoopNext(s, StartProcessing);
    CountSnoc(s.books.processings, s.loop.m, m);
    assert Alive(s', m) <==> Alive(s, m);
    if s.loop.m == m {
      assert Alive(s, m) && Count(s.books.processings, m) == 0;
    }
  }

  lemma {:induction false} DestroyLedger(s: State, m: MsgId)
    requires Control(s) && Ledger(s, m) && s.loop.Processed?
    ensures Ledger(LoopNext(s, DestroyProcessed), m)
  {
    var s' := LoopNext(s, DestroyProcessed);
    CountSnoc(s.books.destructions, s.loop.m, m);
    if s.loop.m == m {
      assert Alive(s, m) && !Alive(s', m);
    } else {
      assert Alive(s', m) <==> Alive(s, m);
    }
  }

  /** A message stays with the loop thread from its receipt to its destruction. */
  lemma {:induction false} StaysWithLoop(s: State, l: Loop, m: MsgId)
    requires s.loop.Receiving? || s.loop.Handled?
    requires l.Handled? || l.Processed?
    requires Subject(l) == Subject(s.loop)
    ensures Alive(s.(loop := l), m) <==> Alive(s, m)
    ensures Started(s.loop, m) <==> Started(l, m)
  {
  }

  lemma {:induction false} RejectLedger(s: State, m: MsgId)
    requires Ledger(s, m) && s.loop.Receiving?
    ensures Ledger(LoopNext(s, RejectMessage), m)
  {
    StaysWithLoop(s, Processed(s.loop.m, false), m);
  }

  lemma {:induction false} RunLedger(s: State, success: bool, m: MsgId)
    requires Ledger(s, m) && s.loop.Receiving?
    ensures Ledger(LoopNext(s, RunHandler(success)), m)
  {
    StaysWithLoop(s, if success then Handled(s.loop.m) else Processed(s.loop.m, false), m);
  }

  lemma {:induction false} AckLedger(s: State, success: bool, m: MsgId)
    requires Ledger(s, m) && s.loop.Handled?
    ensures Ledger(LoopNext(s, SendAck(success)), m)
  {
    StaysWithLoop(s, Processed(s.loop.m, success), m);
  }

  lemma {:induction false} HandlerLedger(s: State, step: LoopStep, m: MsgId)
    requires Ledger(s, m) && (step.RejectMessage? || step.RunHandler? || step.SendAck?)
    ensures Ledger(LoopNext(s, step), m)
  {
    match step
    case RejectMessage => if s.loop.Receiving? { RejectLedger(s, m); }
    case RunHandler(success) => if s.loop.Receiving? { RunLedger(s, success, m); }
    case SendAck(success) => if s.loop.Handled? { AckLedger(s, success, m); }
  }

  /** Loop steps keep every message's account. */
  lemma {:induction false} LoopLedger(s: State, step: LoopStep, m: MsgId)
    requires Control(s) && Ledger(s, m)
    ensures Ledger(LoopNext(s, step), m)
  {
    if step.StartProcessing? && s.loop.Taken? {
      StartLedger(s, m);
    } else if step.DestroyProcessed? && s.loop.Processed? {
      DestroyLedger(s, m);
    } else if step.RejectMessage? || step.RunHandler? || step.SendAck? {
      HandlerLedger(s, step, m);
    }
  }

  lemma {:induction false} InvStep(s: State, step: Step)
    requires Inv(s)
    ensures Inv(Next(s, step))
  {
    match step
    case OfWorker(w) =>
      WorkerControl(s, w);
      forall m: MsgId ensures Ledger(Next(s, step), m) { WorkerLedger(s, w, m); }
    case OfLoop(l) =>
      LoopControl(s, l);
      forall m: MsgId ensures Ledger(Next(s, step), m) { LoopLedger(s, l, m); }
  }

  lemma {:induction false} InvRun(steps: seq<Step>)
    ensures Inv(Run(steps))
  {
    if steps != [] {
      InvRun(steps[..|steps| - 1]);
      InvStep(Run(steps[..|steps| - 1]), steps[|steps| - 1]);
    }
  }

  // ----- what it means -----

  /** In every run, a message is processed at most once, destroyed at most once, and never while somebody still holds it. */
  lemma {:induction false} AtMostOnce(steps: seq<Step>, m: MsgId)
    ensures var s := Run(steps);
      Count(s.books.processings, m) <= 1 && Count(s.books.destructions, m) <= 1 &&
      (Alive(s, m) ==> Count(s.books.destructions, m) == 0) && (m >= s.fetched ==> Count(s.books.processings, m) == 0)
  {
    InvRun(steps);
    assert Ledger(Run(steps), m);
  }

  /** Once the stream is closed, every fetched message has been destroyed exactly once. */
  lemma {:induction false} ExactlyOnceAfterClose(steps: seq<Step>, m: MsgId)
    requires Run(steps).loop == Closed && m < Run(steps).fetched
    ensures Count(Run(steps).books.destructions, m) == 1
  {
    InvRun(steps);
    assert Ledger(Run(steps), m);
  }

  /** The slot is empty once the worker has been joined: the check in `js_stream_close` never finds a message. */
  lemma {:induction false} SlotEmptyAfterJoin(steps: seq<Step>)
    requires Run(steps).loop == Joined || Run(steps).loop == Closed
    ensures Run(steps).slot.msg == None
  {
    InvRun(steps);
  }

  /** The handoff's first wait is never reached: with one worker the slot is free on entry. */
  lemma {:induction false} SlotFreeOnEntry(steps: seq<Step>)
    ensures !Run(steps).worker.WaitingSlot?
    ensures Run(steps).worker.Handing? ==> !Run(steps).slot.ready && !Run(steps).slot.inProcess
  {
    InvRun(steps);
  }

  /** A worker asleep is never forgotten: its message is at the loop, or in the slot with a wake-up pending. */
  lemma {:induction false} SleeperWillBeWoken(steps: seq<Step>)
    requires Run(steps).asleep
    ensures var s := Run(steps);
      !s.closing && s.worker.WaitingDone? &&
      ((Working(s.loop) && Subject(s.loop) == s.worker.m) ||
       (s.loop == Idle && s.asyncPending && s.slot.msg == Some(s.worker.m)))
  {
    InvRun(steps);
  }

  /** An ack is only ever sent for a message whose handler succeeded, and received = acked + failed between messages. */
  lemma {:induction false} AckFollowsHandler(steps: seq<Step>, m: MsgId)
    ensures var s := Run(steps);
      (m in s.books.acks ==> m in s.books.handlerOk) &&
      (!Working(s.loop) ==> s.books.received == s.books.acked + s.books.failed)
  {
    InvRun(steps);
    assert Ledger(Run(steps), m);
  }

  // ----- messages are processed -----

  /** Messages whose own wake-up could not be sent. */
  function Unsent(steps: seq<Step>): set<MsgId> {
    if steps == [] then {}
    else
      var n := |steps| - 1;
      var s := Run(steps[..n]);
      Unsent(steps[..n]) + if steps[n] == OfWorker(EnterHandoff(false)) && s.worker.Handing? then {s.worker.m} else {}
  }

  /** Message `m` has been processed if it has got that far, and it is only given up for these reasons. */
  predicate Fate(s: State, unsent: set<MsgId>, m: MsgId) {
    (Started(s.loop, m) ==> Count(s.books.processings, m) == 1) &&
    (s.worker == WaitingDone(m) && s.slot.done ==> Count(s.books.processings, m) == 1) &&
    (s.worker == Dropping(m) ==> (s.closing || m in unsent) && Count(s.books.processings, m) == 0) &&
    (Count(s.books.destructions, m) > 0 && Count(s.books.processings, m) == 0 ==> s.closing || m in unsent)
  }

  lemma {:induction false} FateDrop(s: State, unsent: set<MsgId>, m: MsgId)
    requires Fate(s, unsent, m) && s.worker.Dropping?
    ensures Fate(WorkerNext(s, Drop), unsent, m)
  {
    CountSnoc(s.books.destructions, s.worker.m, m);
  }

  /** The handoff gives a message up only when the stream is closing or the wake-up fails. */
  lemma {:induction false} FateHandoff(s: State, asyncOk: bool, unsent: set<MsgId>, m: MsgId)
    requires Control(s) && Ledger(s, m) && Fate(s, unsent, m) && s.worker.Handing?
    ensures Fate(Handoff(s, s.worker.m, asyncOk), unsent + if asyncOk then {} else {s.worker.m}, m)
  {
    if m == s.worker.m {
      assert Alive(s, m);
    }
  }

  lemma {:induction false} FateWorker(s: State, step: WorkerStep, unsent: set<MsgId>, m: MsgId)
    requires Control(s) && Ledger(s, m) && Fate(s, unsent, m)
    ensures var more := if step == EnterHandoff(false) && s.worker.Handing? then {s.worker.m} else {};
      Fate(WorkerNext(s, step), unsent + more, m)
  {
    if step.Drop? && s.worker.Dropping? {
      FateDrop(s, unsent, m);
    } else if step.EnterHandoff? && s.worker.Handing? {
      FateHandoff(s, step.asyncOk, unsent, m);
    }
  }

  lemma {:induction false} FateStart(s: State, unsent: set<MsgId>, m: MsgId)
    requires Control(s) && Ledger(s, m) && Fate(s, unsent, m) && s.loop.Taken?
    ensures Fate(LoopNext(s, StartProcessing), unsent, m)
  {
    CountSnoc(s.books.processings, s.loop.m, m);
    if m == s.loop.m {
      assert Alive(s, m) && Count(s.books.processings, m) == 0;
    }
  }

  lemma {:induction false} FateDestroy(s: State, unsent: set<MsgId>, m: MsgId)
    requires Fate(s, unsent, m) && s.loop.Processed?
    ensures Fate(LoopNext(s, DestroyProcessed), unsent, m)
  {
    CountSnoc(s.books.destructions, s.loop.m, m);
  }

  lemma {:induction false} FateLoop(s: State, step: LoopStep, unsent: set<MsgId>, m: MsgId)
    requires Control(s) && Ledger(s, m) && Fate(s, unsent, m)
    ensures Fate(LoopNext(s, step), unsent, m)
  {
    if step.StartProcessing? && s.loop.Taken? {
      FateStart(s, unsent, m);
    } else if step.DestroyProcessed? && s.loop.Processed? {
      FateDestroy(s, unsent, m);
    }
  }

  lemma {:induction false} FateRun(steps: seq<Step>, m: MsgId)
    ensures Fate(Run(steps), Unsent(steps), m)
  {
    if steps != [] {
      var n := |steps| - 1;
      FateRun(steps[..n], m);
      InvRun(steps[..n]);
      assert Ledger(Run(steps[..n]), m);
      match steps[n]
      case OfWorker(w) => FateWorker(Run(steps[..n]), w, Unsent(steps[..n]), m);
      case OfLoop(l) => FateLoop(Run(steps[..n]), l, Unsent(steps[..n]), m);
    }
  }

  /** In every run, a message is destroyed without having been processed only if the stream was closing or its own wake-up failed. */
  lemma {:induction false} GivenUpOnlyIf(steps: seq<Step>, m: MsgId)
    requires var b := Run(steps).books; Count(b.destructions, m) == 1 && Count(b.processings, m) == 0
    ensures Run(steps).closing || m in Unsent(steps)
  {
    FateRun(steps, m);
  }

  /** The stream is not closed and every wake-up is sent. */
  predicate Undisturbed(steps: seq<Step>) {
    forall k :: 0 <= k < |steps| ==> steps[k] != OfLoop(BeginClose) && steps[k] != OfWorker(EnterHandoff(false))
  }

  lemma {:induction false} StaysOpen(s: State, step: Step)
    requires !s.closing && step != OfLoop(BeginClose)
    ensures !Next(s, step).closing
  {
  }

  lemma {:induction false} UndisturbedRun(steps: seq<Step>)
    requires Undisturbed(steps)
    ensures !Run(steps).closing && Unsent(steps) == {}
  {
    if steps != [] {
      var n := |steps| - 1;
      assert forall k :: 0 <= k < n ==> steps[..n][k] == steps[k];
      UndisturbedRun(steps[..n]);
      StaysOpen(Run(steps[..n]), steps[n]);
    }
  }

  /** In such a run every message that has been destroyed was processed, once. */
  lemma {:induction false} ProcessedExactlyOnce(steps: seq<Step>, m: MsgId)
    requires Undisturbed(steps) && Count(Run(steps).books.destructions, m) > 0
    ensures Count(Run(steps).books.processings, m) == 1
  {
    UndisturbedRun(steps);
    FateRun(steps, m);
    AtMostOnce(steps, m);
  }

  /** How often the ack of a handled message was sent. */
  function AcksSent(steps: seq<Step>): nat {
    if steps == [] then 0
    else
      var n := |steps| - 1;
      AcksSent(steps[..n]) + if steps[n] == OfLoop(SendAck(true)) && Run(steps[..n]).loop.Handled? then 1 else 0
  }

  /** How often a handler ran with success. */
  function Successes(steps: seq<Step>): nat {
    if steps == [] then 0
    else
      var n := |steps| - 1;
      Successes(steps[..n]) + if steps[n] == OfLoop(RunHandler(true)) && Run(steps[..n]).loop.Receiving? then 1 else 0
  }

  /** How often an ack failed. */
  function AcksFailed(steps: seq<Step>): nat {
    if steps == [] then 0
    else
      var n := |steps| - 1;
      AcksFailed(steps[..n]) + if steps[n] == OfLoop(SendAck(false)) && Run(steps[..n]).loop.Handled? then 1 else 0
  }

  /**
   In every run, received counts the messages processed, acked exactly the acks sent, and each handler
   success has led to one ack, failed or not, or is about to.
   */
  lemma {:induction false} AckedAreSent(steps: seq<Step>)
    ensures var s := Run(steps);
      s.books.received == |s.books.processings| && s.books.acked == AcksSent(steps) &&
      Successes(steps) == AcksSent(steps) + AcksFailed(steps) + if s.loop.Handled? then 1 else 0
  {
    if steps != [] {
      var n := |steps| - 1;
      AckedAreSent(steps[..n]);
      AckedStep(Run(steps[..n]), steps[n]);
    }
  }

  lemma {:induction false} AckedStep(s: State, step: Step)
    ensures s.books.received == |s.books.processings| ==> Next(s, step).books.received == |Next(s, step).books.processings|
    ensures Next(s, step).books.acked == s.books.acked + if step == OfLoop(SendAck(true)) && s.loop.Handled? then 1 else 0
    ensures var acked := step == OfLoop(SendAck(true)) || step == OfLoop(SendAck(false));
      Next(s, step).loop.Handled? <==> if s.loop.Handled? then !acked else step == OfLoop(RunHandler(true)) && s.loop.Receiving?
  {
  }

  /** The way of one message, when nothing goes wrong. */
  const ERRAND: seq<Step> := [
    OfWorker(Fetch(true)), OfWorker(EnterHandoff(true)), OfLoop(AsyncCallback), OfLoop(StartProcessing), OfLoop(RunHandler(true)),
    OfLoop(SendAck(true)), OfLoop(DestroyProcessed), OfLoop(Finish), OfWorker(CheckDone)]

  function Perform(s: State, steps: seq<Step>): State
    decreases |steps|
  {
    if steps == [] then s else Perform(Next(s, steps[0]), steps[1..])
  }

  /** From any state in which the worker is about to fetch and the loop is free, a message goes all the way, and both are free again. */
  lemma {:induction false} MessageGoesThrough(steps: seq<Step>)
    requires var s := Run(steps); s.worker == Fetching && s.loop == Idle && !s.closing
    ensures var s, s' := Run(steps), Perform(Run(steps), ERRAND);
      var m := s.fetched;
      s'.worker == Top && s'.loop == Idle && !s'.closing && s'.fetched == m + 1 && s'.slot.ok &&
      s'.books == s.books.(received := s.books.received + 1, acked := s.books.acked + 1,
        processings := s.books.processings + [m], destructions := s.books.destructions + [m],
        handlerOk := s.books.handlerOk + [m], acks := s.books.acks + [m])
  {
    var s := Run(steps);
    InvRun(steps);
    Performs(s);
    HandsOver(s);
    var given := Next(Next(s, ERRAND[0]), ERRAND[1]);
    Starts(given, s.fetched);
    var taken := Next(Next(given, ERRAND[2]), ERRAND[3]);
    Succeeds(taken, s.fetched);
    var acked := Next(Next(taken, ERRAND[4]), ERRAND[5]);
    Completes(acked, s.fetched);
  }

  lemma {:induction false} HandsOver(s: State)
    requires Control(s) && s.worker == Fetching && s.loop == Idle && !s.closing
    ensures Next(Next(s, OfWorker(Fetch(true))), OfWorker(EnterHandoff(true))) ==
      s.(fetched := s.fetched + 1, slot := Slot(Some(s.fetched), true, false, false, false), asyncPending := true,
         worker := WaitingDone(s.fetched), asleep := true)
  {
  }

  lemma {:induction false} Starts(s: State, m: MsgId)
    requires s.loop == Idle && s.asyncPending && s.slot == Slot(Some(m), true, false, false, false)
    ensures Next(Next(s, OfLoop(AsyncCallback)), OfLoop(StartProcessing)) ==
      s.(asyncPending := false, slot := Slot(None, false, true, false, false), loop := Receiving(m),
         books := s.books.(received := s.books.received + 1, processings := s.books.processings + [m]))
  {
  }

  lemma {:induction false} Succeeds(s: State, m: MsgId)
    requires s.loop == Receiving(m)
    ensures Next(Next(s, OfLoop(RunHandler(true))), OfLoop(SendAck(true))) ==
      s.(loop := Processed(m, true),
         books := s.books.(handlerOk := s.books.handlerOk + [m], acked := s.books.acked + 1, acks := s.books.acks + [m]))
  {
  }

  lemma {:induction false} Completes(s: State, m: MsgId)
    requires s.loop == Processed(m, true) && s.worker == WaitingDone(m)
    ensures Next(Next(Next(s, OfLoop(DestroyProcessed)), OfLoop(Finish)), OfWorker(CheckDone)) ==
      s.(loop := Idle, worker := Top, asleep := false, slot := s.slot.(inProcess := false, ok := true, done := true),
         books := s.books.(destructions := s.books.destructions + [m]))
  {
  }

  lemma {:induction false} Performs(s: State)
    ensures Perform(s, ERRAND) ==
      Next(Next(Next(Next(Next(Next(Next(Next(Next(s, ERRAND[0]), ERRAND[1]), ERRAND[2]), ERRAND[3]), ERRAND[4]), ERRAND[5]), ERRAND[6]), ERRAND[7]), ERRAND[8])
  {
    PerformStep(s, 0);
    var s1 := Next(s, ERRAND[0]);
    PerformStep(s1, 1);
    var s2 := Next(s1, ERRAND[1]);
    PerformStep(s2, 2);
    var s3 := Next(s2, ERRAND[2]);
    PerformStep(s3, 3);
    var s4 := Next(s3, ERRAND[3]);
    PerformStep(s4, 4);
    var s5 := Next(s4, ERRAND[4]);
    PerformStep(s5, 5);
    var s6 := Next(s5, ERRAND[5]);
    PerformStep(s6, 6);
    var s7 := Next(s6, ERRAND[6]);
    PerformStep(s7, 7);
    PerformStep(Next(s7, ERRAND[7]), 8);
    assert ERRAND[0..] == ERRAND && ERRAND[9..] == [];
  }

  lemma {:induction false} PerformStep(s: State, k: nat)
    requires k < |ERRAND|
    ensures Perform(s, ERRAND[k..]) == Perform(Next(s, ERRAND[k]), ERRAND[k + 1..])
  {
    assert ERRAND[k..][1..] == ERRAND[k + 1..];
  }

  // ----- closing ends, and so does waiting -----

  /** The worker's own step from where it is. */
  function WorkerMove(w: Worker, gotMessage: bool): WorkerStep {
    match w
    case Top => TestClosing
    case Fetching => Fetch(gotMessage)
    case Handing(_) => EnterHandoff(true)
    case WaitingSlot(_) => EnterHandoff(true)
    case WaitingDone(_) => CheckDone
    case Dropping(_) => Drop
    case Exited => Wake
  }

  function Rank(w: Worker): nat {
    match w
    case Exited => 0
    case Top => 1
    case Dropping(_) => 2
    case WaitingDone(_) => 3
    case Handing(_) => 3
    case WaitingSlot(_) => 3
    case Fetching => 4
  }

  /** While the stream is closing, every step the worker takes brings it nearer to its exit, so the join returns. */
  lemma {:induction false} ClosingWorkerExits(steps: seq<Step>, gotMessage: bool)
    requires Run(steps).closing && Run(steps).worker != Exited
    ensures var s := Run(steps);
      var s' := WorkerNext(s, WorkerMove(s.worker, gotMessage));
      !s.asleep && Rank(s'.worker) < Rank(s.worker) && s'.closing
  {
    InvRun(steps);
    ClosingStep(Run(steps), gotMessage);
  }

  lemma {:induction false} ClosingStep(s: State, gotMessage: bool)
    requires Control(s) && s.closing && s.worker != Exited
    ensures var s' := WorkerNext(s, WorkerMove(s.worker, gotMessage));
      !s.asleep && Rank(s'.worker) < Rank(s.worker) && s'.closing
  {
  }

  /** The loop thread's own step while a worker waits. */
  function LoopMove(l: Loop, bad: bool, success: bool): LoopStep {
    match l
    case Taken(_) => StartProcessing
    case Receiving(_) => if bad then RejectMessage else RunHandler(success)
    case Handled(_) => SendAck(success)
    case Processed(_, _) => DestroyProcessed
    case Finishing(_, _) => Finish
    case _ => AsyncCallback
  }

  function LoopRank(l: Loop): nat {
    match l
    case Idle => 6
    case Taken(_) => 5
    case Receiving(_) => 4
    case Handled(_) => 3
    case Processed(_, _) => 2
    case Finishing(_, _) => 1
    case _ => 0
  }

  lemma {:induction false} SleeperStep(s: State, bad: bool, success: bool)
    requires Control(s) && s.asleep
    ensures var s' := LoopNext(s, LoopMove(s.loop, bad, success));
      LoopRank(s'.loop) < LoopRank(s.loop) || (s'.slot.done && !s'.asleep)
  {
  }

  /** While the worker sleeps, every step of the loop thread brings it nearer to `Finish`, which wakes the worker with its result. */
  lemma {:induction false} SleeperProgress(steps: seq<Step>, bad: bool, success: bool)
    requires Run(steps).asleep
    ensures var s := Run(steps);
      var s' := LoopNext(s, LoopMove(s.loop, bad, success));
      LoopRank(s'.loop) < LoopRank(s.loop) || (s'.slot.done && !s'.asleep)
  {
    InvRun(steps);
    SleeperStep(Run(steps), bad, success);
  }
}
