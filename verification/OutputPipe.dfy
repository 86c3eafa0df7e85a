// The cross-thread output pipeline of an adopted (SSE or Pulse) connection on
// a plain socket: any thread appends under the session's lock and then notifies;
// the worker moves the bytes to its own buffer and writes them as the socket
// allows.  One step is one lock section or one worker action, so a run is an
// arbitrary interleaving.
module OutputPipe {
  import opened Common

  type Bytes = seq<byte>

  datatype Kind = Sse | Pulse

  /** Where the worker goes when a flush returns. */
  datatype Return = ToLoop | ToFlushOutput

  /** The worker's position with respect to this connection. */
  datatype Worker =
    | Loop                                      // in the event loop
    | Handling                                  // in the handler, before adoption
    | Feeding                                   // adopted; client bytes that came with the upgrade are fed
    | FlushOutput                               // writing out what HTTP queued
    | Entering(ret: Return)                     // called flush, not yet in the lock section
    | Draining(closeSeen: bool, ret: Return)    // writing
    | Drained(closeSeen: bool, ret: Return)     // everything written and cleared

  datatype State = State(
    kind: Kind,
    // the session, under its lock
    pending: Bytes,
    closed: bool,
    closeRequested: bool,
    notifySet: bool,
    // the connection, owned by the worker
    open: bool,
    out: Bytes,
    outOff: nat,
    registeredWrite: bool,
    worker: Worker,
    // notifications: called-for but not posted, posted, and swapped out to run
    inFlight: nat,
    posted: nat,
    batch: nat,
    // history
    earlier: Bytes,
    accepted: Bytes,
    wire: Bytes,
    acceptedAtClose: Option<nat>)

  datatype Label =
    | Enqueue(bytes: Bytes)     // any thread: append under the lock, copy notify
    | RequestClose              // any thread: set close_requested under the lock
    | Notify                    // any thread: call the copied notify, which posts
    | Adopt                     // worker: install notify
    | Fed                       // worker: a Pulse channel has taken the bytes that came with the upgrade
    | FeedFails(marked: bool)   // worker: it refused them, and may have marked itself closed: ask for closing
    | LockSection               // worker: take pending, read close_requested
    | Write(n: nat)             // worker: the socket takes n bytes
    | WouldBlock                // worker: the socket takes none for now
    | Finish                    // worker: everything written
    | AfterDrain                // worker: close, or update interest and return
    | SwapPosted                // worker: take the queued callbacks
    | RunCallback               // worker: run one of them
    | Writable                  // worker: the socket reported room
    | Readable                  // worker: client bytes were fed to a Pulse channel
    | Drop                      // worker: error, end of stream, deadline or write failure

  // ---------------------------------------------------------------------
  // The steps
  // ---------------------------------------------------------------------

  function Unwritten(s: State): Bytes
    requires s.outOff <= |s.out|
  {
    s.out[s.outOff..]
  }

  predicate Writing(s: State) {
    (s.worker.FlushOutput? || s.worker.Draining?) && s.outOff < |s.out|
  }

  predicate Enabled(s: State, l: Label) {
    match l
    case Enqueue(_) => true
    case RequestClose => true
    case Notify => s.inFlight > 0
    case Adopt => s.worker == Handling && s.open
    case Fed => s.worker == Feeding && s.open
    case FeedFails(_) => s.worker == Feeding && s.open && s.kind == Pulse
    case LockSection => s.worker.Entering? && s.open
    case Write(n) => Writing(s) && 0 < n <= |s.out| - s.outOff
    case WouldBlock => Writing(s)
    case Finish => (s.worker.FlushOutput? || s.worker.Draining?) && s.outOff == |s.out|
    case AfterDrain => s.worker.Drained?
    case SwapPosted => s.worker == Loop && s.batch == 0
    case RunCallback => s.worker == Loop && s.batch > 0
    case Writable => s.worker == Loop && s.batch == 0 && s.open && s.registeredWrite && s.outOff < |s.out|
    case Readable => s.worker == Loop && s.batch == 0 && s.open && s.kind == Pulse
    case Drop => s.open && s.worker != Handling && s.worker != Feeding
  }

  /** `close_conn_`: pending bytes are dropped, the session is told, the token dies. */
  function CloseConnection(s: State): State {
    s.(closed := true, notifySet := false, pending := [], open := false, worker := Loop)
  }

  function ReturnTo(ret: Return): Worker { if ret == ToLoop then Loop else FlushOutput }

  /** `update_interest_` and back to the caller. */
  function UpdateInterest(s: State): State {
    var ret := if s.worker.FlushOutput? then ToLoop else if s.worker.Draining? || s.worker.Drained? then s.worker.ret else ToLoop;
    s.(registeredWrite := s.outOff < |s.out|, worker := ReturnTo(ret))
  }

  /** Swap when the worker's buffer is spent, append otherwise. */
  function TakePending(s: State): State {
    var ret := if s.worker.Entering? then s.worker.ret else ToLoop;
    var t := s.(worker := Draining(s.closeRequested, ret), pending := []);
    if s.pending == [] then t
    else if s.outOff == |s.out| then t.(out := s.pending, outOff := 0)
    else t.(out := s.out + s.pending)
  }

  /** `enqueue` under the lock; the notifier copied there will be called. */
  function Accept(s: State, bytes: Bytes): State {
    s.(pending := s.pending + bytes, accepted := s.accepted + bytes,
       inFlight := s.inFlight + if s.notifySet then 1 else 0)
  }

  /** The first request fixes what is to be written before closing. */
  function AskForClose(s: State): State {
    s.(closeRequested := true,
       acceptedAtClose := if s.acceptedAtClose == None then Some(|s.accepted|) else s.acceptedAtClose)
  }

  function Step(s: State, l: Label): State
    requires Enabled(s, l) && s.outOff <= |s.out|
  {
    match l
    case Enqueue(bytes) => if s.closed then s else Accept(s, bytes)
    case RequestClose =>
      if s.closed then s
      else AskForClose(s).(inFlight := s.inFlight + if s.notifySet && s.kind == Sse then 1 else 0)
    case Notify => s.(inFlight := s.inFlight - 1, posted := s.posted + 1)
    case Adopt => s.(notifySet := true, worker := if s.kind == Sse then Entering(ToFlushOutput) else Feeding)
    case Fed => s.(worker := FlushOutput)
    case FeedFails(marked) => AskForClose(s).(closed := s.closed || marked, worker := FlushOutput)
    case LockSection => TakePending(s)
    case Write(n) => s.(wire := s.wire + s.out[s.outOff..s.outOff + n], outOff := s.outOff + n)
    case WouldBlock => UpdateInterest(s)
    case Finish =>
      s.(out := [], outOff := 0,
         worker := if s.worker.Draining? then Drained(s.worker.closeSeen, s.worker.ret) else Entering(ToLoop))
    case AfterDrain => if s.worker.closeSeen then CloseConnection(s) else UpdateInterest(s)
    case SwapPosted => s.(batch := s.posted, posted := 0)
    case RunCallback => s.(batch := s.batch - 1, worker := if s.open then Entering(ToLoop) else Loop)
    case Writable => s.(worker := FlushOutput)
    case Readable => s.(worker := Entering(ToLoop))
    case Drop => CloseConnection(s)
  }

  /** A connection whose handler is about to return: HTTP output may still be unwritten. */
  predicate Initial(s: State) {
    && s.worker == Handling && s.open && !s.closed && !s.closeRequested && !s.notifySet
    && s.pending == [] && s.accepted == [] && s.acceptedAtClose == None
    && s.outOff <= |s.out| && s.wire + Unwritten(s) == s.earlier
    && s.inFlight == s.posted == s.batch == 0
  }

  /** The labels can be taken one after the other. */
  predicate Runs(s: State, ls: seq<Label>)
    decreases ls
  {
    s.outOff <= |s.out| && (ls != [] ==> Enabled(s, ls[0]) && Runs(Step(s, ls[0]), ls[1..]))
  }

  function Final(s: State, ls: seq<Label>): (t: State)
    requires Runs(s, ls)
    ensures t.outOff <= |t.out|
    decreases ls
  {
    if ls == [] then s else Final(Step(s, ls[0]), ls[1..])
  }

  // ---------------------------------------------------------------------
  // What every reachable state keeps
  // ---------------------------------------------------------------------

  /** All that was ever to be written, in lock order. */
  function Stream(s: State): Bytes { s.earlier + s.accepted }

  /** No byte is lost, duplicated or reordered; after closing, the wire is a prefix. */
  predicate Conserved(s: State) {
    && s.outOff <= |s.out|
    && (s.open ==> Stream(s) == s.wire + Unwritten(s) + s.pending)
    && s.wire <= Stream(s)
  }

  /**
   * The session's and the connection's flags agree: a session is closed once its
   * connection is, or when its channel refused the bytes it was adopted with.
   */
  predicate Coherent(s: State) {
    && (!s.open ==> s.closed)
    && (s.open && s.closed ==> s.kind == Pulse && s.closeRequested && s.worker != Handling && s.worker != Feeding)
    && (s.notifySet ==> s.open)
    && (s.open && s.worker != Handling ==> s.notifySet)
    && (s.worker == Feeding ==> s.kind == Pulse)
    && (s.open && s.worker == Handling ==> !s.notifySet)
    && (!s.open ==> s.worker == Loop)
    && (s.acceptedAtClose.Some? <==> s.closeRequested)
    && (s.acceptedAtClose.Some? ==> s.acceptedAtClose.value <= |s.accepted|)
  }

  /** A worker that saw the close request holds everything accepted before it. */
  predicate CloseCovered(s: State) {
    ((s.worker.Draining? || s.worker.Drained?) && s.worker.closeSeen) ==>
      && s.acceptedAtClose.Some?
      && |s.wire| + |s.out| - s.outOff >= |s.earlier| + s.acceptedAtClose.value
      && (s.worker.Drained? ==> s.outOff == |s.out|)
  }

  /** A notification is on its way to the worker. */
  predicate Notified(s: State) { s.inFlight > 0 || s.posted > 0 || s.batch > 0 }

  /** The worker is going to enter the lock section again by itself. */
  predicate WillFlush(s: State) {
    || s.worker.Handling? || s.worker.Feeding? || s.worker.FlushOutput? || s.worker.Entering?
    || ((s.worker.Draining? || s.worker.Drained?) && s.worker.ret == ToFlushOutput)
  }

  /** The worker is in its loop with write interest registered for waiting bytes; it flushes when woken. */
  predicate WaitsForSocket(s: State) { s.open && s.worker == Loop && s.registeredWrite && s.outOff < |s.out| }

  /** No lost wakeup: whatever waits, someone is going to see to it. */
  predicate Awake(s: State) {
    s.open ==>
      && (s.pending != [] ==> Notified(s) || WillFlush(s) || WaitsForSocket(s))
      && (s.outOff < |s.out| && s.worker == Loop ==> s.registeredWrite)
      && (s.worker.Drained? ==> s.outOff == |s.out|)
      && (s.closeRequested && (s.kind == Sse || s.closed) ==>
            || Notified(s) || WillFlush(s) || WaitsForSocket(s)
            || ((s.worker.Draining? || s.worker.Drained?) && s.worker.closeSeen))
  }

  predicate Inv(s: State) { Conserved(s) && Coherent(s) && CloseCovered(s) && Awake(s) }

  lemma InitialInv(s: State)
    requires Initial(s)
    ensures Inv(s)
  {
    assert s.earlier + [] == s.earlier;
    assert s.wire + Unwritten(s) + [] == s.earlier;
  }

  lemma EnqueueConserves(s: State, bytes: Bytes)
    requires Conserved(s)
    ensures Conserved(Step(s, Enqueue(bytes)))
  {
    if !s.closed {
      assert s.earlier + (s.accepted + bytes) == Stream(s) + bytes;
      assert s.wire + Unwritten(s) + (s.pending + bytes) == (s.wire + Unwritten(s) + s.pending) + bytes;
    }
  }

  lemma LockSectionConserves(s: State)
    requires Conserved(s)
    ensures Conserved(TakePending(s))
  {
    var t := TakePending(s);
    UnwrittenTakes(s);
    hide TakePending, Unwritten;
    TakeKeeps(s);
    assert s.wire + (Unwritten(s) + s.pending) == s.wire + Unwritten(s) + s.pending;
    assert s.wire + Unwritten(t) + [] == s.wire + Unwritten(t);
  }

  lemma TakeKeeps(s: State)
    ensures var t := TakePending(s);
            t.wire == s.wire && t.open == s.open && t.earlier == s.earlier && t.accepted == s.accepted && t.pending == []
  {
  }

  /** What was pending comes right after what was unwritten. */
  lemma UnwrittenTakes(s: State)
    requires s.outOff <= |s.out|
    ensures var t := TakePending(s);
            t.outOff <= |t.out| && Unwritten(t) == Unwritten(s) + s.pending
  {
  }

  lemma WriteConserves(s: State, n: nat)
    requires Conserved(s) && Enabled(s, Write(n)) && s.open
    ensures Conserved(Step(s, Write(n)))
  {
    var t := Step(s, Write(n));
    assert Unwritten(s) == s.out[s.outOff..s.outOff + n] + Unwritten(t);
    assert t.wire + Unwritten(t) + t.pending == s.wire + Unwritten(s) + s.pending;
  }

  lemma StepConserves(s: State, l: Label)
    requires Inv(s) && Enabled(s, l)
    ensures Conserved(Step(s, l))
  {
    match l
    case Enqueue(bytes) => EnqueueConserves(s, bytes);
    case LockSection => LockSectionConserves(s);
    case Write(n) => WriteConserves(s, n);
    case Finish => assert Unwritten(s) == [];
    case _ =>
  }

  lemma StepCoherent(s: State, l: Label)
    requires Inv(s) && Enabled(s, l)
    ensures Coherent(Step(s, l)) && CloseCovered(Step(s, l))
  {
  }

  lemma StepAwake(s: State, l: Label)
    requires Inv(s) && Enabled(s, l)
    ensures Awake(Step(s, l))
  {
  }

  lemma StepKeepsInv(s: State, l: Label)
    requires Inv(s) && Enabled(s, l)
    ensures Inv(Step(s, l))
  {
    hide Step, Conserved, Coherent, CloseCovered, Awake;
    StepConserves(s, l);
    StepCoherent(s, l);
    StepAwake(s, l);
  }

  lemma {:induction false} RunKeepsInv(s: State, ls: seq<Label>)
    requires Inv(s) && Runs(s, ls)
    ensures Inv(Final(s, ls))
    decreases ls
  {
    hide Step, Enabled, Inv;
    if ls != [] {
      StepKeepsInv(s, ls[0]);
      RunKeepsInv(Step(s, ls[0]), ls[1..]);
    }
  }

  // ---------------------------------------------------------------------
  // What was asked for, by the labels
  // ---------------------------------------------------------------------

  /** The bytes of every enqueue that finds the session not closed, in order. */
  function Offered(s: State, ls: seq<Label>): Bytes
    requires Runs(s, ls)
    decreases ls
  {
    if ls == [] then []
    else (if ls[0].Enqueue? && !s.closed then ls[0].bytes else []) + Offered(Step(s, ls[0]), ls[1..])
  }

  /** A label that asks for the connection to be closed once everything before it is written. */
  predicate Asks(s: State, l: Label) { (l.RequestClose? && !s.closed) || l.FeedFails? }

  /** How much had been offered when closing was first asked for. */
  function OfferedAtClose(s: State, ls: seq<Label>): Option<nat>
    requires Runs(s, ls)
    decreases ls
  {
    if ls == [] then None
    else if Asks(s, ls[0]) then Some(0)
    else
      match OfferedAtClose(Step(s, ls[0]), ls[1..])
      case None => None
      case Some(k) => Some((if ls[0].Enqueue? && !s.closed then |ls[0].bytes| else 0) + k)
  }

  lemma StepHistory(s: State, l: Label)
    requires Enabled(s, l) && s.outOff <= |s.out|
    ensures var t := Step(s, l);
            && t.earlier == s.earlier
            && t.accepted == (if l.Enqueue? && !s.closed then s.accepted + l.bytes else s.accepted)
            && t.acceptedAtClose ==
               if s.acceptedAtClose == None && Asks(s, l) then Some(|s.accepted|) else s.acceptedAtClose
  {
    hide Step, Enabled;
    if l.Enqueue? {
      AcceptHistory(s, l.bytes);
    } else if Asks(s, l) {
      AskingHistory(s, l);
    } else {
      OtherHistory(s, l);
    }
  }

  lemma OtherHistory(s: State, l: Label)
    requires Enabled(s, l) && s.outOff <= |s.out| && !l.Enqueue? && !Asks(s, l)
    ensures SameHistory(s, Step(s, l))
  {
    hide TakePending, UpdateInterest, CloseConnection, ReturnTo, Unwritten;
    WorkerKeepsHistory(s);
  }

  predicate SameHistory(s: State, t: State) {
    t.earlier == s.earlier && t.accepted == s.accepted && t.acceptedAtClose == s.acceptedAtClose
  }

  lemma WorkerKeepsHistory(s: State)
    ensures SameHistory(s, TakePending(s)) && SameHistory(s, UpdateInterest(s)) && SameHistory(s, CloseConnection(s))
  {
  }

  lemma AskingHistory(s: State, l: Label)
    requires Enabled(s, l) && s.outOff <= |s.out| && Asks(s, l)
    ensures var t := Step(s, l);
            && t.earlier == s.earlier && t.accepted == s.accepted
            && t.acceptedAtClose == if s.acceptedAtClose == None then Some(|s.accepted|) else s.acceptedAtClose
  {
  }

  lemma AcceptHistory(s: State, bytes: Bytes)
    requires s.outOff <= |s.out|
    ensures var t := Step(s, Enqueue(bytes));
            && t.earlier == s.earlier && t.acceptedAtClose == s.acceptedAtClose
            && t.accepted == if s.closed then s.accepted else s.accepted + bytes
  {
  }

  /** What the session has accepted is what was offered, and the first request for closing fixed its place in it. */
  lemma {:induction false} HistoryIs(s: State, ls: seq<Label>)
    requires Runs(s, ls)
    ensures var t := Final(s, ls);
            && t.earlier == s.earlier
            && t.accepted == s.accepted + Offered(s, ls)
            && t.acceptedAtClose ==
               if s.acceptedAtClose.Some? || OfferedAtClose(s, ls) == None then s.acceptedAtClose
               else Some(|s.accepted| + OfferedAtClose(s, ls).value)
    decreases ls
  {
    hide Step, Enabled, Asks;
    if ls == [] {
      assert s.accepted + [] == s.accepted;
    } else {
      StepHistory(s, ls[0]);
      HistoryIs(Step(s, ls[0]), ls[1..]);
      var first := if ls[0].Enqueue? && !s.closed then ls[0].bytes else [];
      assert Step(s, ls[0]).accepted == s.accepted + first;
      assert s.accepted + first + Offered(Step(s, ls[0]), ls[1..]) == s.accepted + (first + Offered(Step(s, ls[0]), ls[1..]));
    }
  }

  /** All bytes anybody tried to enqueue. */
  function AllBytes(ls: seq<Label>): Bytes {
    if ls == [] then [] else (if ls[0].Enqueue? then ls[0].bytes else []) + AllBytes(ls[1..])
  }

  /** Neither asks for closing nor ends the connection. */
  predicate Harmless(l: Label) { !l.RequestClose? && !l.FeedFails? && !l.Drop? }

  lemma HarmlessStep(s: State, l: Label)
    requires Inv(s) && Enabled(s, l) && Harmless(l) && s.open && !s.closed && !s.closeRequested
    ensures var t := Step(s, l); t.open && !t.closed && !t.closeRequested
  {
  }

  /** As long as nobody closes, every session stays open and everything offered is accepted. */
  lemma {:induction false} StaysOpen(s: State, ls: seq<Label>)
    requires Inv(s) && Runs(s, ls) && s.open && !s.closed && !s.closeRequested
    requires forall l | l in ls :: Harmless(l)
    ensures var t := Final(s, ls); t.open && !t.closed && !t.closeRequested
    ensures Offered(s, ls) == AllBytes(ls)
    decreases ls
  {
    hide Step, Enabled, Inv, Harmless;
    if ls != [] {
      HarmlessStep(s, ls[0]);
      StepKeepsInv(s, ls[0]);
      StaysOpen(Step(s, ls[0]), ls[1..]);
    }
  }

  // ---------------------------------------------------------------------
  // The promises
  // ---------------------------------------------------------------------

  /**
   * Byte conservation and FIFO order, in every reachable state of every
   * interleaving: what was written before and what was offered since, in lock
   * order, is on the wire, unwritten or pending.
   */
  lemma NothingLost(s: State, ls: seq<Label>)
    requires Initial(s) && Runs(s, ls)
    ensures var t, stream := Final(s, ls), s.earlier + Offered(s, ls);
            && t.outOff <= |t.out|
            && (t.open ==> stream == t.wire + Unwritten(t) + t.pending)
            && t.wire <= stream
  {
    hide Step, Enabled;
    InitialInv(s);
    RunKeepsInv(s, ls);
    HistoryIs(s, ls);
    assert [] + Offered(s, ls) == Offered(s, ls);
  }

  /**
   * Whatever is waiting in an open connection, someone is going to see to it:
   * pending bytes have a notification on its way, a worker bound for the lock
   * section, or write interest; unwritten bytes have a busy worker or write interest.
   */
  lemma NoLostWakeup(s: State, ls: seq<Label>)
    requires Initial(s) && Runs(s, ls)
    ensures var t := Final(s, ls);
            t.open ==>
              && (t.pending != [] ==> Notified(t) || WillFlush(t) || WaitsForSocket(t))
              && (t.outOff < |t.out| && t.worker == Loop ==> t.registeredWrite)
  {
    hide Step, Enabled;
    InitialInv(s);
    RunKeepsInv(s, ls);
  }

  /** When the worker closes because it was asked to, everything accepted before the request is written. */
  lemma RequestedCloseIsComplete(s: State, ls: seq<Label>)
    requires Initial(s) && Runs(s, ls)
    requires Final(s, ls).worker.Drained? && Final(s, ls).worker.closeSeen
    ensures var t, k := Final(s, ls), OfferedAtClose(s, ls);
            && Enabled(t, AfterDrain) && t.outOff <= |t.out|
            && !Step(t, AfterDrain).open
            && k.Some? && k.value <= |Offered(s, ls)|
            && s.earlier + Offered(s, ls)[..k.value] <= t.wire
  {
    hide Runs, Final, Offered, OfferedAtClose;
    InitialInv(s);
    RunKeepsInv(s, ls);
    HistoryIs(s, ls);
    assert [] + Offered(s, ls) == Offered(s, ls);
    var t := Final(s, ls);
    var k := t.acceptedAtClose.value;
    assert Stream(t)[..|t.earlier| + k] == t.earlier + t.accepted[..k];
  }

  // ---------------------------------------------------------------------
  // Progress
  // ---------------------------------------------------------------------

  /** Nothing is left to do until someone enqueues again. */
  predicate Quiet(s: State) { s.worker == Loop && !Notified(s) && !WaitsForSocket(s) }

  /**
   * The steps that get work done: a thread delivers its notification, the worker
   * goes on, the socket takes some bytes.  Nobody enqueues or asks for closing,
   * and nothing blocks, fails or is dropped.
   */
  predicate Advances(s: State, l: Label) {
    Enabled(s, l) &&
    match l
    case Enqueue(_) => false
    case RequestClose => false
    case FeedFails(_) => false
    case WouldBlock => false
    case SwapPosted => s.posted > 0
    case Readable => false
    case Drop => false
    case _ => true
  }

  predicate AllAdvance(s: State, ls: seq<Label>)
    decreases ls
  {
    s.outOff <= |s.out| && (ls != [] ==> Advances(s, ls[0]) && AllAdvance(Step(s, ls[0]), ls[1..]))
  }

  /** How far the worker is from being back in its loop with nothing to write. */
  function Rank(s: State): nat {
    match s.worker
    case Handling => 10
    case Feeding => 9
    case Entering(ret) => if ret == ToFlushOutput then 8 else 4
    case Draining(_, ret) => if ret == ToFlushOutput then 7 else 3
    case Drained(_, ret) => if ret == ToFlushOutput then 6 else 2
    case FlushOutput => 5
    case Loop => if WaitsForSocket(s) then 6 else 0
  }

  /** A bound on the work left: each notification may flush once more, and each write takes a byte at least. */
  function Work(s: State): nat
    requires s.outOff <= |s.out|
  {
    5 * (3 * s.inFlight + 2 * s.posted + s.batch) + Rank(s) + |Unwritten(s)| + |s.pending|
  }

  /** Every such step shrinks it, in whatever order they come. */
  lemma AdvanceShrinksWork(s: State, l: Label)
    requires Inv(s) && Advances(s, l)
    ensures Work(Step(s, l)) < Work(s)
  {
    hide Conserved, CloseCovered;
    assert s.outOff <= |s.out| by { ConservedBound(s); }
  }

  lemma ConservedBound(s: State)
    requires Conserved(s)
    ensures s.outOff <= |s.out|
  {
  }

  lemma {:induction false} AdvancesRun(s: State, ls: seq<Label>)
    requires AllAdvance(s, ls)
    ensures Runs(s, ls)
    decreases ls
  {
    hide Step;
    if ls != [] {
      AdvancesRun(Step(s, ls[0]), ls[1..]);
    }
  }

  /** So nobody can keep the worker busy without enqueueing: a run of such steps is no longer than the work. */
  lemma {:induction false} AdvancingIsBounded(s: State, ls: seq<Label>)
    requires Inv(s) && AllAdvance(s, ls)
    ensures |ls| <= Work(s)
    decreases ls
  {
    hide Step, Advances, Inv, Work;
    if ls != [] {
      AdvanceEnabled(s, ls[0]);
      AdvanceShrinksWork(s, ls[0]);
      StepKeepsInv(s, ls[0]);
      AdvancingIsBounded(Step(s, ls[0]), ls[1..]);
    }
  }

  lemma AdvanceEnabled(s: State, l: Label)
    requires Advances(s, l)
    ensures Enabled(s, l)
  {
  }

  /** A next step of that kind, with the socket taking all it is given. */
  function Next(s: State): Label
    requires s.outOff <= |s.out|
  {
    match s.worker
    case Handling => Adopt
    case Feeding => Fed
    case Entering(_) => LockSection
    case Drained(_, _) => AfterDrain
    case FlushOutput => if s.outOff < |s.out| then Write(|s.out| - s.outOff) else Finish
    case Draining(_, _) => if s.outOff < |s.out| then Write(|s.out| - s.outOff) else Finish
    case Loop => if s.batch > 0 then RunCallback else if s.posted > 0 then SwapPosted
                 else if s.inFlight > 0 then Notify else Writable
  }

  /** Such a run can go on until the state is quiet, and only until then. */
  lemma StuckIsQuiet(s: State)
    requires Inv(s)
    ensures Quiet(s) <==> forall l :: !Advances(s, l)
  {
    hide Conserved, CloseCovered;
    ConservedBound(s);
    if !Quiet(s) {
      assert Advances(s, Next(s));
    }
  }

  /** What is owed to the accepted bytes: all of them, or those accepted before a requested close. */
  predicate Delivered(s: State)
    requires s.outOff <= |s.out|
  {
    if s.open then s.pending == [] && Unwritten(s) == [] && s.wire == Stream(s)
    else ClosedInOrder(s)
  }

  predicate ClosedInOrder(s: State) {
    && s.closed && s.closeRequested && s.acceptedAtClose.Some?
    && s.acceptedAtClose.value <= |s.accepted|
    && s.earlier + s.accepted[..s.acceptedAtClose.value] <= s.wire
  }

  /** A step of that kind closes only a connection whose close was asked for, with everything due written. */
  lemma AdvanceClosesInOrder(s: State, l: Label)
    requires Inv(s) && Advances(s, l) && (s.open || ClosedInOrder(s))
    ensures var t := Step(s, l);
            && (t.open || ClosedInOrder(t)) && t.accepted == s.accepted && t.earlier == s.earlier
            && t.acceptedAtClose == s.acceptedAtClose
  {
    if l == AfterDrain && s.worker.closeSeen {
      var k := s.acceptedAtClose.value;
      assert Stream(s)[..|s.earlier| + k] == s.earlier + s.accepted[..k];
    }
  }

  lemma {:induction false} RunClosesInOrder(s: State, ls: seq<Label>)
    requires Inv(s) && AllAdvance(s, ls) && (s.open || ClosedInOrder(s))
    ensures Runs(s, ls)
    ensures var t := Final(s, ls);
            && Inv(t) && (t.open || ClosedInOrder(t)) && t.accepted == s.accepted && t.earlier == s.earlier
            && t.acceptedAtClose == s.acceptedAtClose
    decreases ls
  {
    hide Step, Advances, Inv, ClosedInOrder;
    if ls != [] {
      AdvanceEnabled(s, ls[0]);
      AdvanceClosesInOrder(s, ls[0]);
      StepKeepsInv(s, ls[0]);
      RunClosesInOrder(Step(s, ls[0]), ls[1..]);
    }
  }

  /**
   * Everything gets written, in any order of notifications, callbacks and partial
   * writes: once none of them is left to come, all that was ever offered is on
   * the wire, or closing was asked for and all that was offered before that is.
   */
  lemma EverythingWritten(s: State, before: seq<Label>, ls: seq<Label>)
    requires Initial(s) && Runs(s, before)
    requires Final(s, before).open && AllAdvance(Final(s, before), ls)
    requires Runs(Final(s, before), ls) && forall l :: !Advances(Final(Final(s, before), ls), l)
    ensures var t, k := Final(Final(s, before), ls), OfferedAtClose(s, before);
            if t.open then
              && t.wire == s.earlier + Offered(s, before) && t.pending == [] && Unwritten(t) == []
              && (k.Some? ==> t.kind == Pulse)
            else k.Some? && k.value <= |Offered(s, before)| && s.earlier + Offered(s, before)[..k.value] <= t.wire
  {
    hide Step, Advances, Runs, Final, AllAdvance, Offered, OfferedAtClose, Initial, CloseCovered, Conserved;
    var m := Final(s, before);
    InitialInv(s);
    RunKeepsInv(s, before);
    HistoryIs(s, before);
    InitialEmpty(s);
    assert [] + Offered(s, before) == Offered(s, before);
    AdvancingWrites(m, ls);
    RunClosesInOrder(m, ls);
    hide Inv, Delivered, ClosedInOrder;
    DeliveredMeans(Final(m, ls));
    AskedIsFlagged(Final(m, ls));
  }

  lemma DeliveredMeans(t: State)
    requires Inv(t) && Delivered(t)
    ensures if t.open then t.wire == Stream(t) && t.pending == [] && Unwritten(t) == [] else ClosedInOrder(t)
  {
  }

  lemma AskedIsFlagged(t: State)
    requires Inv(t)
    ensures t.acceptedAtClose.Some? <==> t.closeRequested
  {
    hide Conserved, CloseCovered, Awake;
  }

  lemma InitialEmpty(s: State)
    requires Initial(s)
    ensures s.accepted == [] && s.acceptedAtClose == None && s.open && !s.closed && !s.closeRequested
  {
  }

  /** If nobody closes, that is every byte anybody enqueued, before the connection was adopted or after. */
  lemma AllEnqueuedIsWritten(s: State, before: seq<Label>, ls: seq<Label>)
    requires Initial(s) && Runs(s, before) && forall l | l in before :: Harmless(l)
    requires Final(s, before).outOff <= |Final(s, before).out|
    requires AllAdvance(Final(s, before), ls) && Runs(Final(s, before), ls)
    requires forall l :: !Advances(Final(Final(s, before), ls), l)
    ensures var t := Final(Final(s, before), ls); t.open && t.wire == s.earlier + AllBytes(before)
  {
    hide Step, Advances, Runs, Final, AllAdvance, Offered, OfferedAtClose, Initial, Inv, Harmless;
    InitialInv(s);
    InitialEmpty(s);
    StaysOpen(s, before);
    HistoryIs(s, before);
    RunKeepsInv(s, before);
    AskedIsFlagged(Final(s, before));
    EverythingWritten(s, before, ls);
  }

  /**
   * From any state that keeps the invariant, once nothing is left to come the
   * connection is open with every accepted byte on the wire, or was closed on
   * request with every byte accepted before the request on the wire.
   */
  lemma AdvancingWrites(s: State, ls: seq<Label>)
    requires Inv(s) && s.open && AllAdvance(s, ls)
    ensures Runs(s, ls) && |ls| <= Work(s)
    ensures var t := Final(s, ls);
            && t.accepted == s.accepted && t.earlier == s.earlier
            && (t.open || ClosedInOrder(t))
            && ((forall l :: !Advances(t, l)) ==>
                  Delivered(t) && (t.closeRequested && (t.kind == Sse || t.closed) ==> !t.open))
  {
    hide Step, Advances, Inv, ClosedInOrder, AllAdvance, Runs, Final, Work;
    RunClosesInOrder(s, ls);
    AdvancingIsBounded(s, ls);
    var t := Final(s, ls);
    StuckIsQuiet(t);
    if Quiet(t) {
      QuietIsDelivered(t);
    }
  }

  lemma QuietIsDelivered(s: State)
    requires Inv(s) && Quiet(s) && (s.open || ClosedInOrder(s))
    ensures Delivered(s)
    ensures s.closeRequested && (s.kind == Sse || s.closed) ==> !s.open
  {
    if s.open {
      assert s.pending == [] && Unwritten(s) == [];
    }
  }

  /** From every state there is such a run to a quiet one. */
  lemma {:induction false} Quiesces(s: State) returns (ls: seq<Label>)
    requires Inv(s)
    ensures AllAdvance(s, ls) && Runs(s, ls) && Quiet(Final(s, ls))
    decreases Work(s)
  {
    hide Step, Advances, Work, Quiet;
    ConservedBound(s);
    StuckIsQuiet(s);
    if Quiet(s) {
      ls := [];
    } else {
      var l :| Advances(s, l);
      AdvanceEnabled(s, l);
      AdvanceShrinksWork(s, l);
      StepKeepsInv(s, l);
      var rest := Quiesces(Step(s, l));
      ls := [l] + rest;
      assert ls[1..] == rest;
    }
  }

  // ---------------------------------------------------------------------
  // The flush as the worker executes it
  // ---------------------------------------------------------------------

  /** What the socket answers to a write. */
  datatype Io = Ok(n: nat) | Blocked | Failed

  lemma {:induction false} RunSnoc(s: State, ls: seq<Label>, l: Label)
    requires Runs(s, ls) && Enabled(Final(s, ls), l)
    requires Step(Final(s, ls), l).outOff <= |Step(Final(s, ls), l).out|
    ensures Runs(s, ls + [l]) && Final(s, ls + [l]) == Step(Final(s, ls), l)
    decreases ls
  {
    hide Step, Enabled;
    if ls == [] {
      assert [l][1..] == [];
    } else {
      assert (ls + [l])[1..] == ls[1..] + [l];
      RunSnoc(Step(s, ls[0]), ls[1..], l);
    }
  }

  lemma CloseRequestStep(s: State)
    requires s.outOff <= |s.out|
    ensures Step(s, Label.RequestClose) ==
            if s.closed then s
            else s.(closeRequested := true, inFlight := s.inFlight + (if s.notifySet && s.kind == Sse then 1 else 0),
                    acceptedAtClose := if s.acceptedAtClose == None then Some(|s.accepted|) else s.acceptedAtClose)
  {
  }

  lemma NoSteps(s: State)
    requires s.outOff <= |s.out|
    ensures Runs(s, []) && Final(s, []) == s
  {
  }

  class Connection {
    const kind: Kind
    var pending: Bytes
    var closed: bool
    var closeRequested: bool
    var notifySet: bool
    var open: bool
    var out: Bytes
    var outOff: nat
    var registeredWrite: bool
    var wire: Bytes
    ghost var rest: State

    /** The shared state, with the worker at `w`; counters and history come from `rest`. */
    ghost function Abs(w: Worker): State
      reads this
    {
      State(kind, pending, closed, closeRequested, notifySet, open, out, outOff, registeredWrite, w,
            rest.inFlight, rest.posted, rest.batch, rest.earlier, rest.accepted, wire, rest.acceptedAtClose)
    }

    /** `close_conn_`, called by a worker at `w`. */
    method CloseConn(ghost w: Worker)
      requires open && outOff <= |out| && w != Handling && w != Feeding
      modifies this`closed, this`notifySet, this`pending, this`open
      ensures Enabled(old(Abs(w)), Label.Drop) && Abs(Loop) == Step(old(Abs(w)), Label.Drop) == CloseConnection(old(Abs(w)))
    {
      closed := true;
      notifySet := false;
      pending := [];
      open := false;
    }

    /** `enqueue`, by any thread: whether the session took the bytes, and whether the notifier is to be called. */
    method Enqueue(bytes: Bytes, ghost w: Worker) returns (ok: bool, called: bool)
      requires outOff <= |out|
      modifies this`pending, this`rest
      ensures ok == !closed && called == (ok && notifySet)
      ensures Enabled(old(Abs(w)), Label.Enqueue(bytes)) && Abs(w) == Step(old(Abs(w)), Label.Enqueue(bytes))
    {
      if closed { return false, false; }
      pending := pending + bytes;
      called := notifySet;
      rest := rest.(accepted := rest.accepted + bytes, inFlight := rest.inFlight + if called then 1 else 0);
      return true, called;
    }

    /** `close`, by any thread; a stream's notifier is called, too. */
    method RequestClose(ghost w: Worker) returns (called: bool)
      requires outOff <= |out|
      modifies this`closeRequested, this`rest
      ensures called == (!closed && notifySet && kind == Sse)
      ensures Enabled(old(Abs(w)), Label.RequestClose) && Abs(w) == Step(old(Abs(w)), Label.RequestClose)
    {
      hide Step;
      CloseRequestStep(Abs(w));
      if closed { return false; }
      closeRequested := true;
      called := notifySet && kind == Sse;
      rest := rest.(inFlight := rest.inFlight + (if called then 1 else 0),
                    acceptedAtClose := if rest.acceptedAtClose == None then Some(|rest.accepted|) else rest.acceptedAtClose);
    }

    /** The lock section: move what is pending, remember whether closing was asked for. */
    method LockAndTake() returns (closeSeen: bool)
      requires open && outOff <= |out|
      modifies this`pending, this`out, this`outOff
      ensures closeSeen == closeRequested && outOff <= |out|
      ensures Enabled(old(Abs(Entering(ToLoop))), LockSection)
      ensures Abs(Draining(closeSeen, ToLoop)) == Step(old(Abs(Entering(ToLoop))), LockSection)
    {
      if pending != [] {
        if outOff == |out| {
          out, pending := pending, out;
          outOff := 0;
          pending := [];
        } else {
          out := out + pending;
          pending := [];
        }
      }
      closeSeen := closeRequested;
    }

    /** The socket took `n` bytes. */
    method Advance(n: nat, ghost w: Worker)
      requires outOff < |out| && 0 < n <= |out| - outOff && w.Draining?
      modifies this`wire, this`outOff
      ensures outOff <= |out|
      ensures Enabled(old(Abs(w)), Write(n)) && Abs(w) == Step(old(Abs(w)), Write(n))
    {
      wire := wire + out[outOff..outOff + n];
      outOff := outOff + n;
    }

    /** `update_interest_` with bytes still to write: come back when the socket has room. */
    method AwaitRoom(ghost closeSeen: bool)
      requires outOff < |out|
      modifies this`registeredWrite
      ensures var s := old(Abs(Draining(closeSeen, ToLoop))); Enabled(s, WouldBlock) && Abs(Loop) == Step(s, WouldBlock)
    {
      if !registeredWrite { registeredWrite := true; }
    }

    /** Everything is written. */
    method Spent(ghost closeSeen: bool)
      requires outOff == |out|
      modifies this`out, this`outOff
      ensures outOff == |out|
      ensures var s := old(Abs(Draining(closeSeen, ToLoop)));
              Enabled(s, Finish) && Abs(Drained(closeSeen, ToLoop)) == Step(s, Finish)
    {
      out := [];
      outOff := 0;
    }

    /** Close if that was asked for; otherwise drop the write interest. */
    method Conclude(closeSeen: bool)
      requires open && outOff == |out|
      modifies this`closed, this`notifySet, this`pending, this`open, this`registeredWrite
      ensures var s := old(Abs(Drained(closeSeen, ToLoop)));
              Enabled(s, AfterDrain) && Abs(Loop) == Step(s, AfterDrain)
    {
      if closeSeen {
        CloseConn(Drained(closeSeen, ToLoop));
        return;
      }
      if registeredWrite { registeredWrite := false; }
    }

    /**
     * The flush called from the event loop, while the socket answers `io` (and
     * blocks when asked again): its effect is a run of the worker's steps.
     */
    method Flush(io: seq<Io>) returns (ghost ls: seq<Label>)
      requires open && outOff <= |out|
      requires forall i | 0 <= i < |io| && io[i].Ok? :: 0 < io[i].n
      modifies this`pending, this`out, this`outOff, this`wire, this`registeredWrite, this`closed, this`notifySet, this`open
      ensures Runs(old(Abs(Entering(ToLoop))), ls)
      ensures Final(old(Abs(Entering(ToLoop))), ls) == Abs(Loop)
    {
      hide Runs, Final, Step, Enabled;
      ghost var s := Abs(Entering(ToLoop));
      NoSteps(s);
      var closeSeen := LockAndTake();
      RunSnoc(s, [], LockSection);
      ls := [] + [LockSection];
      var i := 0;
      while outOff < |out|
        invariant 0 <= i <= |io| && outOff <= |out| && open
        invariant Runs(s, ls) && Final(s, ls) == Abs(Draining(closeSeen, ToLoop))
        decreases |io| - i
      {
        if i == |io| || io[i].Blocked? {
          AwaitRoom(closeSeen);
          RunSnoc(s, ls, WouldBlock);
          ls := ls + [WouldBlock];
          return;
        }
        if io[i].Failed? {
          CloseConn(Draining(closeSeen, ToLoop));
          RunSnoc(s, ls, Label.Drop);
          ls := ls + [Label.Drop];
          return;
        }
        var n := if io[i].n <= |out| - outOff then io[i].n else |out| - outOff;
        Advance(n, Draining(closeSeen, ToLoop));
        RunSnoc(s, ls, Write(n));
        ls := ls + [Write(n)];
        i := i + 1;
      }
      Spent(closeSeen);
      RunSnoc(s, ls, Finish);
      ls := ls + [Finish];
      Conclude(closeSeen);
      RunSnoc(s, ls, AfterDrain);
      ls := ls + [AfterDrain];
    }
  }
}
