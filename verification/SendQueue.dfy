/** The send queue of the network-flow agent as a protocol: any number of goroutines enqueue events while
    one sender goroutine dials, drains batches, sends them outside the lock and puts failed batches back.
    Every step below is one critical section, one channel operation or one network outcome, so a schedule
    of actions is an interleaving of the real program. */
module SendQueue {

  /** An event together with its position in the enqueue history. Positions are ghost identities:
      no step looks at them to decide what to do. */
  datatype Item<+E> = Item(pos: nat, event: E)

  datatype Config = Config(batchSize: nat, maxPending: nat)
  {
    ghost predicate Valid() { 0 < batchSize && 0 < maxPending }
  }

  /** Which call of sendPending the sender is in: right after dialing, from the select loop,
      or the last one after cancellation. */
  datatype Phase = Initial | Connected | Final

  /** The sender's program counter, with the locals that survive between critical sections. */
  datatype Sender<+E> =
    | Dialing
    | TakeDrops
    | AddDrops(held: nat)
    | WarnDrops(total: nat)
    | Draining
    | Sending(batch: seq<Item<E>>)
    | CountFailure(batch: seq<Item<E>>)
    | Requeueing(batch: seq<Item<E>>)
    | Parked
    | Stopped

  datatype State<+E> = State(
    hist: seq<Item<E>>,
    pending: seq<Item<E>>,
    signalers: nat,           // Enqueue calls that decided to flush and have not signalled yet
    token: bool,              // flushCh, a channel of capacity one
    ctxDone: bool,
    droppedPending: nat,
    sendFailures: nat,
    dropLogCount: nat,
    dropLogNext: int,
    phase: Phase,
    sender: Sender<E>,
    sent: seq<Item<E>>,       // events of batches whose Send returned nil
    dropped: seq<Item<E>>,
    logged: nat               // total of the "dropped" figures already written to the log
  )

  datatype Action<+E> =
    | Enqueue(event: E) | Signal | Flush | Cancel
    | DialFailed | DialOk | SeeDone | Tick | Wake
    | TakeCount | AddCount(now: int) | Warn
    | Drain | SendOk | SendFailed | CountFail | PutBack

  const MINUTE: int := 60_000_000_000

  function Init<E>(): State<E> {
    State([], [], 0, false, false, 0, 0, 0, 0, Initial, Dialing, [], [], 0)
  }

  // ----- The bounded buffer -----

  function Overflow(len: nat, max: nat): nat {
    if len > max then len - max else 0
  }

  function KeepNewest<T>(q: seq<T>, max: nat): seq<T> {
    q[Overflow(|q|, max)..]
  }

  function Oldest<T>(q: seq<T>, max: nat): seq<T> {
    q[..Overflow(|q|, max)]
  }

  /** The queue after enforceMaxLocked ran on `q`. */
  function Enforce<E>(s: State<E>, q: seq<Item<E>>, max: nat): State<E> {
    s.(pending := KeepNewest(q, max),
       droppedPending := s.droppedPending + Overflow(|q|, max),
       dropped := s.dropped + Oldest(q, max))
  }

  // ----- Steps -----

  function InFlight<E>(s: Sender<E>): seq<Item<E>> {
    match s
    case Sending(batch) => batch
    case CountFailure(batch) => batch
    case Requeueing(batch) => batch
    case _ => []
  }

  predicate HoldsBatch<E>(s: Sender<E>) {
    s.Sending? || s.CountFailure? || s.Requeueing?
  }

  predicate Enabled<E>(s: State<E>, a: Action<E>) {
    match a
    case Enqueue(_) => true
    case Signal => s.signalers > 0
    case Flush => true
    case Cancel => true
    case DialFailed => s.sender.Dialing?
    case DialOk => s.sender.Dialing?
    case SeeDone => s.ctxDone && (s.sender.Dialing? || s.sender.Parked?)
    case Tick => s.sender.Parked?
    case Wake => s.sender.Parked? && s.token
    case TakeCount => s.sender.TakeDrops?
    case AddCount(_) => s.sender.AddDrops?
    case Warn => s.sender.WarnDrops?
    case Drain => s.sender.Draining?
    case SendOk => s.sender.Sending?
    case SendFailed => s.sender.Sending?
    case CountFail => s.sender.CountFailure?
    case PutBack => s.sender.Requeueing?
  }

  /** sendPending found the queue empty and returned nil. */
  function SendReturnedOk<E>(s: State<E>): State<E> {
    if s.phase.Final? then s.(sender := Stopped) else s.(phase := Connected, sender := Parked)
  }

  /** sendPending returned the error of a failed Send. */
  function SendReturnedError<E>(s: State<E>): State<E> {
    match s.phase
    case Initial => s.(sender := Dialing)
    case Connected => if s.ctxDone then s.(phase := Final, sender := TakeDrops) else s.(sender := Dialing)
    case Final => s.(sender := Stopped)
  }

  function Apply<E>(c: Config, s: State<E>, a: Action<E>): State<E>
    requires Enabled(s, a)
  {
    match a
    case Enqueue(event) =>
      var item := Item(|s.hist|, event);
      var t := Enforce(s.(hist := s.hist + [item]), s.pending + [item], c.maxPending);
      if |t.pending| >= c.batchSize then t.(signalers := t.signalers + 1) else t
    case Signal => s.(signalers := s.signalers - 1, token := true)
    case Flush => s.(token := true)
    case Cancel => s.(ctxDone := true)
    case DialFailed => s
    case DialOk => s.(phase := Initial, sender := TakeDrops)
    case SeeDone => if s.sender.Dialing? then s.(sender := Stopped) else s.(phase := Final, sender := TakeDrops)
    case Tick => s.(sender := TakeDrops)
    case Wake => s.(token := false, sender := TakeDrops)
    case TakeCount =>
      if s.droppedPending == 0 then s.(sender := Draining)
      else s.(droppedPending := 0, sender := AddDrops(s.droppedPending))
    case AddCount(now) =>
      var total := s.dropLogCount + s.sender.held;
      if now < s.dropLogNext then s.(dropLogCount := total, sender := Draining)
      else s.(dropLogCount := 0, dropLogNext := now + MINUTE, sender := WarnDrops(total))
    case Warn => s.(logged := s.logged + s.sender.total, sender := Draining)
    case Drain =>
      if s.pending == [] then SendReturnedOk(s)
      else
        var k := if c.batchSize > |s.pending| then |s.pending| else c.batchSize;
        s.(pending := s.pending[k..], sender := Sending(s.pending[..k]))
    case SendOk => s.(sent := s.sent + s.sender.batch, sender := Draining)
    case SendFailed => s.(sender := CountFailure(s.sender.batch))
    case CountFail => s.(sendFailures := s.sendFailures + 1, sender := Requeueing(s.sender.batch))
    case PutBack => SendReturnedError(Enforce(s, s.sender.batch + s.pending, c.maxPending))
  }

  // ----- Invariant -----

  /** Every queued event keeps its place: the queue is the end of the history. */
  ghost predicate PendingIsSuffix<E>(hist: seq<Item<E>>, pending: seq<Item<E>>) {
    && |pending| <= |hist|
    && pending == hist[|hist| - |pending|..]
  }

  ghost predicate Numbered<E>(hist: seq<Item<E>>) {
    forall i :: 0 <= i < |hist| ==> hist[i].pos == i
  }

  /** Position of the first event that is neither sent nor given up. */
  function Frontier<E>(batch: seq<Item<E>>, seen: nat, waiting: nat): int {
    if batch != [] then batch[0].pos else seen - waiting
  }

  /** The in-flight batch is a stretch of the history that ends where the queue begins, unless the queue
      overflowed meanwhile, and then it is full and a failed batch would be dropped whole. */
  ghost predicate FlightPrecedesPending<E>(max: nat, hist: seq<Item<E>>, batch: seq<Item<E>>, waiting: nat) {
    batch != [] ==>
      var end := batch[0].pos + |batch|;
      && end <= |hist| - waiting
      && batch == hist[batch[0].pos..end]
      && (end == |hist| - waiting || waiting == max)
  }

  ghost predicate SentInOrder<E>(sent: seq<Item<E>>, frontier: int) {
    && (forall i, j :: 0 <= i < j < |sent| ==> sent[i].pos < sent[j].pos)
    && (forall i :: 0 <= i < |sent| ==> sent[i].pos < frontier)
  }

  /** Sent, in-flight, pending and dropped events partition the history. */
  ghost predicate Conserved<E>(sent: seq<Item<E>>, batch: seq<Item<E>>, pending: seq<Item<E>>,
                               dropped: seq<Item<E>>, hist: seq<Item<E>>) {
    multiset(sent) + multiset(batch) + multiset(pending) + multiset(dropped) == multiset(hist)
  }

  ghost predicate StateConserved<E>(s: State<E>) {
    Conserved(s.sent, InFlight(s.sender), s.pending, s.dropped, s.hist)
  }

  ghost predicate NewestKept<E>(max: nat, dropped: seq<Item<E>>, seen: nat) {
    forall i :: 0 <= i < |dropped| ==> dropped[i].pos + max < seen
  }

  /** Drop counts on their way from the queue to the log: held between the two critical sections
      of logDroppedPending, or about to be written. */
  function HeldDrops<E>(s: Sender<E>): nat {
    match s
    case AddDrops(held) => held
    case WarnDrops(total) => total
    case _ => 0
  }

  ghost predicate DropsAccounted<E>(s: State<E>) {
    s.droppedPending + HeldDrops(s.sender) + s.dropLogCount + s.logged == |s.dropped|
  }

  ghost predicate NoLostWakeup<E>(c: Config, s: State<E>) {
    s.sender.Parked? && |s.pending| >= c.batchSize ==> s.token || s.signalers > 0
  }

  /** Where events are: the part of the invariant about positions. */
  ghost predicate InPlace<E>(c: Config, s: State<E>) {
    && Numbered(s.hist)
    && PendingIsSuffix(s.hist, s.pending)
    && |s.pending| <= c.maxPending
    && (HoldsBatch(s.sender) ==> InFlight(s.sender) != [])
    && FlightPrecedesPending(c.maxPending, s.hist, InFlight(s.sender), |s.pending|)
    && SentInOrder(s.sent, Frontier(InFlight(s.sender), |s.hist|, |s.pending|))
    && NewestKept(c.maxPending, s.dropped, |s.hist|)
  }

  ghost predicate Inv<E>(c: Config, s: State<E>) {
    && InPlace(c, s)
    && StateConserved(s)
    && DropsAccounted(s)
    && NoLostWakeup(c, s)
  }

  // ----- What enforcing the bound does to a queue that ends the history -----

  lemma ShedFromSuffix<E>(hist: seq<Item<E>>, q: seq<Item<E>>, max: nat)
    requires PendingIsSuffix(hist, q)
    ensures PendingIsSuffix(hist, KeepNewest(q, max)) && |KeepNewest(q, max)| <= max
  {
    var kept := KeepNewest(q, max);
    assert kept == hist[|hist| - |kept|..];
  }

  lemma ShedIsOld<E>(hist: seq<Item<E>>, q: seq<Item<E>>, max: nat)
    requires Numbered(hist) && PendingIsSuffix(hist, q)
    ensures NewestKept(max, Oldest(q, max), |hist|)
  {
    assert forall i :: 0 <= i < |q| ==> q[i] == hist[|hist| - |q| + i];
  }

  lemma NewestKeptJoins<E>(max: nat, d0: seq<Item<E>>, d1: seq<Item<E>>, before: nat, now: nat)
    requires NewestKept(max, d0, before) && NewestKept(max, d1, now) && before <= now
    ensures NewestKept(max, d0 + d1, now)
  {
  }

  lemma ShedCounts<T>(q: seq<T>, max: nat)
    ensures multiset(Oldest(q, max)) + multiset(KeepNewest(q, max)) == multiset(q)
  {
    assert q[..Overflow(|q|, max)] + q[Overflow(|q|, max)..] == q;
  }

  lemma PutBackMoves<E>(c: Config, s: State<E>)
    requires Enabled(s, PutBack)
    ensures var t := Apply(c, s, PutBack); var q := s.sender.batch + s.pending;
      && t.hist == s.hist && t.sent == s.sent && !HoldsBatch(t.sender)
      && t.pending == KeepNewest(q, c.maxPending) && t.dropped == s.dropped + Oldest(q, c.maxPending)
  {
  }

  lemma EnqueueMovesItems<E>(c: Config, s: State<E>, event: E)
    ensures var t := Apply(c, s, Enqueue(event)); var item := Item(|s.hist|, event); var q := s.pending + [item];
      && t.hist == s.hist + [item] && t.sent == s.sent && t.sender == s.sender
      && t.pending == KeepNewest(q, c.maxPending) && t.dropped == s.dropped + Oldest(q, c.maxPending)
  {
  }

  lemma DrainMovesItems<E>(c: Config, s: State<E>)
    requires Enabled(s, Drain)
    ensures var t := Apply(c, s, Drain);
      && t.hist == s.hist && t.sent == s.sent && t.dropped == s.dropped && |InFlight(t.sender)| <= |s.pending|
      && InFlight(t.sender) == s.pending[..|InFlight(t.sender)|] && t.pending == s.pending[|InFlight(t.sender)|..]
  {
  }

  // ----- Positions are kept by every step -----

  lemma EnqueueKeepsFlight<E>(max: nat, hist: seq<Item<E>>, batch: seq<Item<E>>, waiting: nat, item: Item<E>)
    requires FlightPrecedesPending(max, hist, batch, waiting) && waiting <= max
    ensures FlightPrecedesPending(max, hist + [item], batch, if waiting < max then waiting + 1 else max)
  {
    if batch != [] {
      var end := batch[0].pos + |batch|;
      assert (hist + [item])[batch[0].pos..end] == hist[batch[0].pos..end];
    }
  }

  lemma AppendKeepsSuffix<E>(hist: seq<Item<E>>, q: seq<Item<E>>, item: Item<E>)
    requires Numbered(hist) && PendingIsSuffix(hist, q) && item.pos == |hist|
    ensures Numbered(hist + [item]) && PendingIsSuffix(hist + [item], q + [item])
  {
    var h, r := hist + [item], q + [item];
    assert r == h[|h| - |r|..];
  }

  lemma EnqueueKeepsPlace<E>(c: Config, s: State<E>, event: E)
    requires c.Valid() && InPlace(c, s)
    ensures InPlace(c, Apply(c, s, Enqueue(event)))
  {
    var item := Item(|s.hist|, event);
    var hist := s.hist + [item];
    var q := s.pending + [item];
    EnqueueMovesItems(c, s, event);
    AppendKeepsSuffix(s.hist, s.pending, item);
    ShedFromSuffix(hist, q, c.maxPending);
    ShedIsOld(hist, q, c.maxPending);
    NewestKeptJoins(c.maxPending, s.dropped, Oldest(q, c.maxPending), |s.hist|, |hist|);
    EnqueueKeepsFlight(c.maxPending, s.hist, InFlight(s.sender), |s.pending|, item);
  }

  lemma DrainedIsFlight<E>(max: nat, hist: seq<Item<E>>, pending: seq<Item<E>>, k: nat)
    requires Numbered(hist) && PendingIsSuffix(hist, pending) && 0 < k <= |pending|
    ensures PendingIsSuffix(hist, pending[k..])
    ensures FlightPrecedesPending(max, hist, pending[..k], |pending| - k)
    ensures pending[0].pos == |hist| - |pending|
  {
    var n := |hist|;
    assert pending[k..] == hist[n - (|pending| - k)..];
    assert pending[0] == hist[n - |pending|];
    assert pending[..k] == hist[n - |pending|..n - |pending| + k];
  }

  lemma DrainKeepsPlace<E>(c: Config, s: State<E>)
    requires c.Valid() && InPlace(c, s) && Enabled(s, Drain)
    ensures InPlace(c, Apply(c, s, Drain))
  {
    if s.pending != [] {
      DrainedIsFlight(c.maxPending, s.hist, s.pending, |Apply(c, s, Drain).sender.batch|);
    }
  }

  lemma SentFlightInOrder<E>(max: nat, hist: seq<Item<E>>, batch: seq<Item<E>>, waiting: nat, sent: seq<Item<E>>)
    requires Numbered(hist) && batch != [] && FlightPrecedesPending(max, hist, batch, waiting)
    requires SentInOrder(sent, batch[0].pos)
    ensures SentInOrder(sent + batch, |hist| - waiting)
  {
    assert forall i :: 0 <= i < |batch| ==> batch[i] == hist[batch[0].pos + i];
  }

  lemma SendOkKeepsPlace<E>(c: Config, s: State<E>)
    requires c.Valid() && InPlace(c, s) && Enabled(s, SendOk)
    ensures InPlace(c, Apply(c, s, SendOk))
  {
    SentFlightInOrder(c.maxPending, s.hist, s.sender.batch, |s.pending|, s.sent);
  }

  lemma RequeuedIsSuffix<E>(max: nat, hist: seq<Item<E>>, batch: seq<Item<E>>, pending: seq<Item<E>>)
    requires Numbered(hist) && PendingIsSuffix(hist, pending) && |pending| <= max
    requires batch != [] && FlightPrecedesPending(max, hist, batch, |pending|)
    ensures PendingIsSuffix(hist, KeepNewest(batch + pending, max)) && |KeepNewest(batch + pending, max)| <= max
    ensures NewestKept(max, Oldest(batch + pending, max), |hist|)
    ensures |hist| - |KeepNewest(batch + pending, max)| >= batch[0].pos
  {
    var end := batch[0].pos + |batch|;
    var q := batch + pending;
    if end == |hist| - |pending| {
      assert q == hist[|hist| - |q|..];
      ShedFromSuffix(hist, q, max);
      ShedIsOld(hist, q, max);
    } else {
      assert KeepNewest(q, max) == pending && Oldest(q, max) == batch;
      assert forall i :: 0 <= i < |batch| ==> batch[i] == hist[batch[0].pos + i];
    }
  }

  lemma PutBackKeepsPlace<E>(c: Config, s: State<E>)
    requires c.Valid() && InPlace(c, s) && Enabled(s, PutBack)
    ensures InPlace(c, Apply(c, s, PutBack))
  {
    PutBackMoves(c, s);
    RequeuedIsSuffix(c.maxPending, s.hist, s.sender.batch, s.pending);
    NewestKeptJoins(c.maxPending, s.dropped, Oldest(s.sender.batch + s.pending, c.maxPending), |s.hist|, |s.hist|);
  }

  /** Only four steps move events. */
  lemma OtherStepsMoveNothing<E>(c: Config, s: State<E>, a: Action<E>)
    requires Enabled(s, a) && !a.Enqueue? && !a.Drain? && !a.SendOk? && !a.PutBack?
    ensures var t := Apply(c, s, a);
      && t.sent == s.sent && InFlight(t.sender) == InFlight(s.sender) && t.pending == s.pending
      && t.dropped == s.dropped && t.hist == s.hist && HoldsBatch(t.sender) == HoldsBatch(s.sender)
  {
  }

  lemma StepKeepsPlace<E>(c: Config, s: State<E>, a: Action<E>)
    requires c.Valid() && InPlace(c, s) && Enabled(s, a)
    ensures InPlace(c, Apply(c, s, a))
  {
    match a
    case Enqueue(event) => EnqueueKeepsPlace(c, s, event);
    case Drain => DrainKeepsPlace(c, s);
    case SendOk => SendOkKeepsPlace(c, s);
    case PutBack => PutBackKeepsPlace(c, s);
    case _ => OtherStepsMoveNothing(c, s, a);
  }

  // ----- Events are conserved by every step -----

  lemma JoinCounts<T>(a: seq<T>, b: seq<T>)
    ensures multiset(a + b) == multiset(a) + multiset(b)
  {
  }

  lemma EnforceConserves<E>(sent: seq<Item<E>>, q: seq<Item<E>>, dropped: seq<Item<E>>, hist: seq<Item<E>>,
                            batch: seq<Item<E>>, max: nat)
    requires Conserved(sent, batch, q, dropped, hist)
    ensures Conserved(sent, batch, KeepNewest(q, max), dropped + Oldest(q, max), hist)
  {
    ShedCounts(q, max);
    JoinCounts(dropped, Oldest(q, max));
  }

  lemma EnqueueConserves<E>(c: Config, s: State<E>, event: E)
    requires StateConserved(s)
    ensures StateConserved(Apply(c, s, Enqueue(event)))
  {
    var item := Item(|s.hist|, event);
    JoinCounts(s.pending, [item]);
    JoinCounts(s.hist, [item]);
    EnforceConserves(s.sent, s.pending + [item], s.dropped, s.hist + [item], InFlight(s.sender), c.maxPending);
  }

  lemma SplitConserves<E>(sent: seq<Item<E>>, pending: seq<Item<E>>, dropped: seq<Item<E>>, hist: seq<Item<E>>, k: nat)
    requires Conserved(sent, [], pending, dropped, hist) && k <= |pending|
    ensures Conserved(sent, pending[..k], pending[k..], dropped, hist)
  {
    JoinCounts(pending[..k], pending[k..]);
    assert pending[..k] + pending[k..] == pending;
  }

  lemma DrainConserves<E>(c: Config, s: State<E>)
    requires StateConserved(s) && Enabled(s, Drain)
    ensures StateConserved(Apply(c, s, Drain))
  {
    DrainMovesItems(c, s);
    SplitConserves(s.sent, s.pending, s.dropped, s.hist, |InFlight(Apply(c, s, Drain).sender)|);
  }

  lemma SendOkConserves<E>(c: Config, s: State<E>)
    requires StateConserved(s) && Enabled(s, SendOk)
    ensures StateConserved(Apply(c, s, SendOk))
  {
    JoinCounts(s.sent, s.sender.batch);
  }

  lemma JoinConserves<E>(sent: seq<Item<E>>, batch: seq<Item<E>>, pending: seq<Item<E>>,
                         dropped: seq<Item<E>>, hist: seq<Item<E>>)
    requires Conserved(sent, batch, pending, dropped, hist)
    ensures Conserved(sent, [], batch + pending, dropped, hist)
  {
    JoinCounts(batch, pending);
  }

  lemma PutBackConserves<E>(c: Config, s: State<E>)
    requires StateConserved(s) && Enabled(s, PutBack)
    ensures StateConserved(Apply(c, s, PutBack))
  {
    PutBackMoves(c, s);
    JoinConserves(s.sent, s.sender.batch, s.pending, s.dropped, s.hist);
    EnforceConserves(s.sent, s.sender.batch + s.pending, s.dropped, s.hist, [], c.maxPending);
  }

  lemma StepConserves<E>(c: Config, s: State<E>, a: Action<E>)
    requires StateConserved(s) && Enabled(s, a)
    ensures StateConserved(Apply(c, s, a))
  {
    match a
    case Enqueue(event) => EnqueueConserves(c, s, event);
    case Drain => DrainConserves(c, s);
    case SendOk => SendOkConserves(c, s);
    case PutBack => PutBackConserves(c, s);
    case _ => OtherStepsMoveNothing(c, s, a);
  }

  // ----- Counts and wakeups -----

  lemma MovingStepAccounts<E>(c: Config, s: State<E>, a: Action<E>)
    requires DropsAccounted(s) && Enabled(s, a) && (a.Enqueue? || a.Drain? || a.SendOk? || a.PutBack?)
    ensures DropsAccounted(Apply(c, s, a))
  {
  }

  lemma StepAccounts<E>(c: Config, s: State<E>, a: Action<E>)
    requires DropsAccounted(s) && Enabled(s, a)
    ensures DropsAccounted(Apply(c, s, a))
  {
    if a.Enqueue? || a.Drain? || a.SendOk? || a.PutBack? {
      MovingStepAccounts(c, s, a);
    } else {
      OtherStepsMoveNothing(c, s, a);
    }
  }

  lemma StepKeepsWakeup<E>(c: Config, s: State<E>, a: Action<E>)
    requires c.Valid() && NoLostWakeup(c, s) && Enabled(s, a)
    ensures NoLostWakeup(c, Apply(c, s, a))
  {
  }

  lemma StepKeepsInv<E>(c: Config, s: State<E>, a: Action<E>)
    requires c.Valid() && Inv(c, s) && Enabled(s, a)
    ensures Inv(c, Apply(c, s, a))
  {
    StepKeepsPlace(c, s, a);
    StepConserves(c, s, a);
    StepAccounts(c, s, a);
    StepKeepsWakeup(c, s, a);
  }

  // ----- Whole runs -----

  /** `run` is the sequence of states that the schedule `acts` goes through. */
  ghost predicate IsRun<E>(c: Config, run: seq<State<E>>, acts: seq<Action<E>>) {
    && |run| == |acts| + 1
    && run[0] == Init()
    && forall i :: 0 <= i < |acts| ==> Enabled(run[i], acts[i]) && run[i + 1] == Apply(c, run[i], acts[i])
  }

  /** A run that takes one more step is a run. */
  lemma RunGrows<E>(c: Config, run: seq<State<E>>, acts: seq<Action<E>>, a: Action<E>)
    requires IsRun(c, run, acts) && Enabled(run[|acts|], a)
    ensures IsRun(c, run + [Apply(c, run[|acts|], a)], acts + [a])
  {
  }

  lemma {:induction false} InvAlongRun<E>(c: Config, run: seq<State<E>>, acts: seq<Action<E>>, k: nat)
    requires c.Valid() && IsRun(c, run, acts) && k < |run|
    ensures Inv(c, run[k])
  {
    if k > 0 {
      InvAlongRun(c, run, acts, k - 1);
      StepKeepsInv(c, run[k - 1], acts[k - 1]);
    }
  }

  // ----- Where the sender goes -----

  /** Where a refused batch leads: the sender dials again, unless it was connected and sees cancellation, and then it
      drains once more, or this was that last drain. */
  ghost predicate RefusalLeads<E>(s: State<E>, t: State<E>) {
    && t.ctxDone == s.ctxDone
    && (s.phase.Initial? ==> t.sender.Dialing? && t.phase.Initial?)
    && (s.phase.Connected? && !s.ctxDone ==> t.sender.Dialing? && t.phase.Connected?)
    && (s.phase.Connected? && s.ctxDone ==> t.sender.TakeDrops? && t.phase.Final?)
    && (s.phase.Final? ==> t.sender.Stopped? && t.phase.Final?)
  }

  lemma PutBackLeads<E>(c: Config, s: State<E>)
    requires Enabled(s, PutBack)
    ensures RefusalLeads(s, Apply(c, s, PutBack))
  {
  }

  ghost predicate PhaseFits<E>(s: State<E>) {
    && (s.sender.Stopped? || s.phase.Final? ==> s.ctxDone)
    && (s.sender.Parked? ==> s.phase.Connected?)
    && (s.sender.Dialing? ==> !s.phase.Final?)
  }

  lemma StepKeepsPhase<E>(c: Config, s: State<E>, a: Action<E>)
    requires Enabled(s, a) && PhaseFits(s)
    ensures PhaseFits(Apply(c, s, a))
  {
  }

  /** A batch held in the last call was held in it before, or has just been drained in it. */
  lemma StepHolds<E>(c: Config, s: State<E>, a: Action<E>)
    requires Enabled(s, a) && HoldsBatch(Apply(c, s, a).sender) && Apply(c, s, a).phase.Final?
    ensures s.phase.Final? && (a.Drain? || HoldsBatch(s.sender))
  {
  }

  lemma {:induction false} PhaseAlongRun<E>(c: Config, run: seq<State<E>>, acts: seq<Action<E>>, k: nat)
    requires IsRun(c, run, acts) && k < |run|
    ensures PhaseFits(run[k])
  {
    if k > 0 {
      PhaseAlongRun(c, run, acts, k - 1);
      StepKeepsPhase(c, run[k - 1], acts[k - 1]);
    }
  }

  /** In every run the sender gives up, or makes its last call of sendPending, only after a cancellation. */
  lemma {:induction false} StopsOnlyWhenCancelled<E>(c: Config, run: seq<State<E>>, acts: seq<Action<E>>, k: nat)
    requires IsRun(c, run, acts) && k < |run| && (run[k].sender.Stopped? || run[k].phase.Final? || run[k].ctxDone)
    ensures run[k].ctxDone && exists i :: 0 <= i < k && acts[i].Cancel?
  {
    PhaseAlongRun(c, run, acts, k);
    StepCancels(c, run[k - 1], acts[k - 1]);
    if run[k - 1].ctxDone {
      StopsOnlyWhenCancelled(c, run, acts, k - 1);
    }
  }

  lemma StepCancels<E>(c: Config, s: State<E>, a: Action<E>)
    requires Enabled(s, a)
    ensures Apply(c, s, a).ctxDone <==> s.ctxDone || a.Cancel?
  {
  }

  /** In every run a refused batch sends the sender back to dialing if the stream is new or nobody has cancelled; a
      connected sender that is cancelled makes one more call of sendPending instead. */
  lemma RedialsAfterRefusal<E>(c: Config, run: seq<State<E>>, acts: seq<Action<E>>, k: nat)
    requires IsRun(c, run, acts) && k < |acts| && acts[k].PutBack? && !run[k].phase.Final?
    ensures run[k].phase.Initial? || (forall i :: 0 <= i < k ==> !acts[i].Cancel?) ==> Enabled(run[k + 1], DialOk)
    ensures run[k].phase.Connected? && run[k].ctxDone ==> run[k + 1].phase.Final? && run[k + 1].sender.TakeDrops?
  {
    PutBackLeads(c, run[k]);
    if run[k].ctxDone {
      StopsOnlyWhenCancelled(c, run, acts, k);
    }
  }

  /** In every run the sender stops while dialing, or in its last call of sendPending: with nothing left in the queue,
      or with a refused batch. */
  lemma StopsDialingOrDrained<E>(c: Config, run: seq<State<E>>, acts: seq<Action<E>>, k: nat)
    requires IsRun(c, run, acts) && k < |acts| && !run[k].sender.Stopped? && run[k + 1].sender.Stopped?
    ensures (run[k].sender.Dialing? && acts[k].SeeDone?)
         || (run[k].phase.Final? && acts[k].Drain? && run[k].pending == [])
         || (run[k].phase.Final? && acts[k].PutBack?)
  {
  }

  /** A batch that is in flight in the last call was drained in it. */
  lemma {:induction false} LastBatchWasDrained<E>(c: Config, run: seq<State<E>>, acts: seq<Action<E>>, j: nat, k: nat)
    requires IsRun(c, run, acts) && j < k < |run| && run[j].sender.Parked?
    requires HoldsBatch(run[k].sender) && run[k].phase.Final?
    ensures exists i :: j <= i < k && acts[i].Drain? && run[i].phase.Final?
  {
    StepHolds(c, run[k - 1], acts[k - 1]);
    if !acts[k - 1].Drain? {
      LastBatchWasDrained(c, run, acts, j, k - 1);
    }
  }

  /** In every run a connected sender drains once more before it stops, unless it was dialing again meanwhile. */
  lemma {:induction false} DrainsBeforeStopping<E>(c: Config, run: seq<State<E>>, acts: seq<Action<E>>, j: nat, k: nat)
    requires IsRun(c, run, acts) && j < k < |run| && run[j].sender.Parked? && run[k].sender.Stopped?
    requires forall i :: j <= i < k ==> !run[i].sender.Dialing?
    ensures exists i :: j <= i < k && acts[i].Drain? && run[i].phase.Final?
  {
    if run[k - 1].sender.Stopped? {
      DrainsBeforeStopping(c, run, acts, j, k - 1);
    } else {
      StopsDialingOrDrained(c, run, acts, k - 1);
      if acts[k - 1].PutBack? {
        LastBatchWasDrained(c, run, acts, j, k - 1);
      }
    }
  }

  // ----- Tokens and warnings -----

  function SignalsTo<E>(acts: seq<Action<E>>, n: nat): nat
    requires n <= |acts|
  {
    if n == 0 then 0 else SignalsTo(acts, n - 1) + if acts[n - 1].Signal? then 1 else 0
  }

  function FlushesTo<E>(acts: seq<Action<E>>, n: nat): nat
    requires n <= |acts|
  {
    if n == 0 then 0 else FlushesTo(acts, n - 1) + if acts[n - 1].Flush? then 1 else 0
  }

  function WakesTo<E>(acts: seq<Action<E>>, n: nat): nat
    requires n <= |acts|
  {
    if n == 0 then 0 else WakesTo(acts, n - 1) + if acts[n - 1].Wake? then 1 else 0
  }

  /** Enqueues that left at least a full batch in the queue. */
  function FullEnqueues<E>(c: Config, run: seq<State<E>>, acts: seq<Action<E>>, n: nat): nat
    requires n <= |acts| < |run|
  {
    if n == 0 then 0
    else FullEnqueues(c, run, acts, n - 1)
         + if acts[n - 1].Enqueue? && |run[n].pending| >= c.batchSize then 1 else 0
  }

  lemma StepMovesToken<E>(c: Config, s: State<E>, a: Action<E>)
    requires Enabled(s, a)
    ensures var t := Apply(c, s, a);
      && (a.Wake? ==> s.token && !t.token)
      && (t.token ==> s.token || a.Signal? || a.Flush?)
  {
  }

  /** In every run each wakeup by the flush channel uses up a signal or a flush of its own; a token that waits is one
      more. */
  lemma {:induction false} WakesAreSignalled<E>(c: Config, run: seq<State<E>>, acts: seq<Action<E>>, k: nat)
    requires IsRun(c, run, acts) && k < |run|
    ensures WakesTo(acts, k) + (if run[k].token then 1 else 0) <= SignalsTo(acts, k) + FlushesTo(acts, k)
  {
    if k > 0 {
      WakesAreSignalled(c, run, acts, k - 1);
      StepMovesToken(c, run[k - 1], acts[k - 1]);
    }
  }

  lemma StepMovesSignalers<E>(c: Config, s: State<E>, a: Action<E>)
    requires Enabled(s, a)
    ensures var t := Apply(c, s, a);
      t.signalers + (if a.Signal? then 1 else 0)
      == s.signalers + if a.Enqueue? && |t.pending| >= c.batchSize then 1 else 0
  {
  }

  /** In every run each enqueue that leaves a full batch signals once, or is about to, and no other one does. */
  lemma {:induction false} FullEnqueuesSignal<E>(c: Config, run: seq<State<E>>, acts: seq<Action<E>>, k: nat)
    requires IsRun(c, run, acts) && k < |run|
    ensures SignalsTo(acts, k) + run[k].signalers == FullEnqueues(c, run, acts, k)
  {
    if k > 0 {
      FullEnqueuesSignal(c, run, acts, k - 1);
      StepMovesSignalers(c, run[k - 1], acts[k - 1]);
    }
  }

  /** The step writes a warning about dropped events. */
  ghost predicate Warns<E>(run: seq<State<E>>, acts: seq<Action<E>>, k: nat)
    requires |run| == |acts| + 1
  {
    k < |acts| && acts[k].AddCount? && run[k + 1].sender.WarnDrops?
  }

  lemma StepMovesNextWarning<E>(c: Config, s: State<E>, a: Action<E>)
    requires Enabled(s, a)
    ensures var t := Apply(c, s, a);
      if !a.AddCount? then t.dropLogNext == s.dropLogNext
      else if a.now < s.dropLogNext then t.dropLogNext == s.dropLogNext && !t.sender.WarnDrops?
      else t.dropLogNext == a.now + 60_000_000_000 && t.sender.WarnDrops?
  {
  }

  lemma RunMovesNextWarning<E>(c: Config, run: seq<State<E>>, acts: seq<Action<E>>, i: nat)
    requires IsRun(c, run, acts) && i < |acts|
    ensures if Warns(run, acts, i) then run[i + 1].dropLogNext == acts[i].now + 60_000_000_000
            else run[i + 1].dropLogNext == run[i].dropLogNext
    ensures acts[i].AddCount? ==> (Warns(run, acts, i) <==> acts[i].now >= run[i].dropLogNext)
  {
    StepMovesNextWarning(c, run[i], acts[i]);
  }

  /** From the warning at step `j` on, until the next one. */
  lemma NextWarningIsSet<E>(c: Config, run: seq<State<E>>, acts: seq<Action<E>>, j: nat, k: nat)
    requires IsRun(c, run, acts) && j < k < |run| && Warns(run, acts, j)
    requires forall i :: j < i < k ==> !Warns(run, acts, i)
    ensures run[k].dropLogNext == acts[j].now + 60_000_000_000
  {
    RunMovesNextWarning(c, run, acts, j);
    for i := j + 1 to k
      invariant run[i].dropLogNext == acts[j].now + 60_000_000_000
    {
      RunMovesNextWarning(c, run, acts, i);
    }
  }

  /** In every run a count that is added after a warning leads to the next one if and only if the clock says that a
      minute has passed, in nanoseconds; the first count that finds a clock past zero leads to the first warning. */
  lemma WarnsIffAMinutePassed<E>(c: Config, run: seq<State<E>>, acts: seq<Action<E>>, j: nat, k: nat)
    requires IsRun(c, run, acts) && j < k < |acts| && Warns(run, acts, j) && acts[k].AddCount?
    requires forall i :: j < i < k ==> !Warns(run, acts, i)
    ensures Warns(run, acts, k) <==> acts[k].now >= acts[j].now + 60_000_000_000
  {
    NextWarningIsSet(c, run, acts, j, k);
    RunMovesNextWarning(c, run, acts, k);
  }

  lemma {:induction false} FirstWarning<E>(c: Config, run: seq<State<E>>, acts: seq<Action<E>>, k: nat)
    requires IsRun(c, run, acts) && k < |acts| && acts[k].AddCount?
    requires forall i :: 0 <= i < k ==> !Warns(run, acts, i)
    ensures run[k].dropLogNext == 0 && (Warns(run, acts, k) <==> acts[k].now >= 0)
  {
    for i := 0 to k
      invariant run[i].dropLogNext == 0
    {
      RunMovesNextWarning(c, run, acts, i);
    }
    RunMovesNextWarning(c, run, acts, k);
  }

  /** In every run the clock readings of any two warnings are at least a minute apart. */
  lemma {:induction false} WarningsAreAMinuteApart<E>(c: Config, run: seq<State<E>>, acts: seq<Action<E>>,
                                                      j: nat, k: nat)
    requires IsRun(c, run, acts) && j < k && Warns(run, acts, j) && Warns(run, acts, k)
    ensures acts[k].now >= acts[j].now + 60_000_000_000
    decreases k - j
  {
    if i :| j < i < k && Warns(run, acts, i) {
      WarningsAreAMinuteApart(c, run, acts, j, i);
      WarningsAreAMinuteApart(c, run, acts, i, k);
    } else {
      WarnsIffAMinutePassed(c, run, acts, j, k);
    }
  }

  ghost predicate SizesAddUp<E>(s: State<E>) {
    |s.sent| + |InFlight(s.sender)| + |s.pending| + |s.dropped| == |s.hist|
  }

  lemma SizesConserved<E>(s: State<E>)
    requires StateConserved(s)
    ensures SizesAddUp(s)
  {
    assert |multiset(s.hist)| == |s.hist|;
    assert |multiset(s.sent)| == |s.sent|;
  }

  /** A step that drops events leaves more events unsent than the queue may hold. */
  lemma FirstDropNeedsBacklog<E>(c: Config, s: State<E>, a: Action<E>)
    requires Enabled(s, a) && SizesAddUp(s) && SizesAddUp(Apply(c, s, a))
    requires s.dropped == [] && Apply(c, s, a).dropped != []
    ensures var t := Apply(c, s, a); |t.hist| > |t.sent| + c.maxPending
  {
  }

  /** Nothing is ever dropped unless, at some moment, more events than the queue may hold were waiting. */
  lemma {:induction false} DropsNeedBacklog<E>(c: Config, run: seq<State<E>>, acts: seq<Action<E>>, k: nat)
    requires c.Valid() && IsRun(c, run, acts) && k < |run| && run[k].dropped != []
    ensures exists i :: 0 <= i <= k && |run[i].hist| > |run[i].sent| + c.maxPending
  {
    if run[k - 1].dropped != [] {
      DropsNeedBacklog(c, run, acts, k - 1);
    } else {
      InvAlongRun(c, run, acts, k - 1);
      InvAlongRun(c, run, acts, k);
      SizesConserved(run[k - 1]);
      SizesConserved(run[k]);
      FirstDropNeedsBacklog(c, run[k - 1], acts[k - 1]);
    }
  }

  // ----- What the invariant means for one event -----

  lemma {:induction false} NumberedOnce<E>(hist: seq<Item<E>>, p: nat)
    requires Numbered(hist) && p < |hist|
    ensures multiset(hist)[hist[p]] == 1
  {
    var n := |hist| - 1;
    var front := hist[..n];
    assert hist == front + [hist[n]];
    JoinCounts(front, [hist[n]]);
    if p < n {
      NumberedOnce(front, p);
      assert hist[p] == front[p] && hist[n] != hist[p];
    } else {
      assert hist[n] !in front;
    }
  }

  /** Every event ever enqueued is in exactly one place, once: sent, in flight, waiting or dropped. */
  lemma EveryEventInOnePlace<E>(c: Config, s: State<E>, p: nat)
    requires Inv(c, s) && p < |s.hist|
    ensures multiset(s.sent)[s.hist[p]] + multiset(InFlight(s.sender))[s.hist[p]]
          + multiset(s.pending)[s.hist[p]] + multiset(s.dropped)[s.hist[p]] == 1
  {
    NumberedOnce(s.hist, p);
  }

  /** What was sent is what was enqueued, in the order it was enqueued. */
  lemma SentIsSubsequence<E>(c: Config, s: State<E>, i: nat)
    requires Inv(c, s) && i < |s.sent|
    ensures s.sent[i].pos < |s.hist| && s.sent[i] == s.hist[s.sent[i].pos]
    ensures i > 0 ==> s.sent[i - 1].pos < s.sent[i].pos
  {
    assert s.sent[i] in multiset(s.sent);
    assert s.sent[i] in multiset(s.hist);
  }

  /** In every run, a parked sender with a full batch waiting is woken by steps that are already due. */
  lemma WakeupIsDue<E>(c: Config, run: seq<State<E>>, acts: seq<Action<E>>, k: nat)
    requires c.Valid() && IsRun(c, run, acts) && k < |run|
    requires run[k].sender.Parked? && |run[k].pending| >= c.batchSize
    ensures Enabled(run[k], Wake) || (Enabled(run[k], Signal) && Enabled(Apply(c, run[k], Signal), Wake))
  {
    InvAlongRun(c, run, acts, k);
  }

  // ----- Everything can be sent -----

  /** The schedule `acts` leads from `s` to `t`. */
  ghost predicate Leads<E>(c: Config, s: State<E>, acts: seq<Action<E>>, t: State<E>)
    decreases |acts|
  {
    if acts == [] then t == s else Enabled(s, acts[0]) && Leads(c, Apply(c, s, acts[0]), acts[1..], t)
  }

  lemma LeadsFirst<E>(c: Config, s: State<E>, a: Action<E>, acts: seq<Action<E>>, t: State<E>)
    requires Enabled(s, a) && Leads(c, Apply(c, s, a), acts, t)
    ensures Leads(c, s, [a] + acts, t)
  {
    assert ([a] + acts)[1..] == acts;
  }

  /** In `t` all is sent that in `s` was sent, in flight or waiting, in this order, and nothing was dropped. */
  ghost predicate AllSent<E>(s: State<E>, t: State<E>) {
    && t.sent == s.sent + InFlight(s.sender) + s.pending && t.pending == [] && InFlight(t.sender) == []
    && t.dropped == s.dropped && t.hist == s.hist
  }

  /** Steps of the sender on a connection that accepts every batch. */
  ghost predicate Smooth<E>(acts: seq<Action<E>>) {
    forall a :: a in acts ==>
      a.DialOk? || a.Tick? || a.TakeCount? || a.AddCount? || a.Warn? || a.Drain? || a.SendOk?
  }

  /** The step of the sender that comes next, if its connection works. */
  function SmoothStep<E>(s: State<E>, now: int): Action<E> {
    match s.sender
    case Dialing => DialOk
    case TakeDrops => TakeCount
    case AddDrops(_) => AddCount(now)
    case WarnDrops(_) => Warn
    case Sending(_) => SendOk
    case Parked => Tick
    case _ => Drain
  }

  /** How far the sender is from having sent everything. */
  function Distance<E>(s: State<E>): nat {
    match s.sender
    case Dialing => 5 + 2 * |s.pending|
    case Parked => 5 + 2 * |s.pending|
    case TakeDrops => 4 + 2 * |s.pending|
    case AddDrops(_) => 3 + 2 * |s.pending|
    case WarnDrops(_) => 2 + 2 * |s.pending|
    case Draining => 1 + 2 * |s.pending|
    case Sending(_) => 2 + 2 * |s.pending|
    case _ => 0
  }

  predicate OnItsWay<E>(s: State<E>) {
    !s.sender.Stopped? && !s.sender.CountFailure? && !s.sender.Requeueing?
  }

  lemma SmoothStepGoesOn<E>(c: Config, s: State<E>, now: int)
    requires c.Valid() && OnItsWay(s) && (s.pending != [] || !s.sender.Draining?)
    ensures var a := SmoothStep(s, now);
      Enabled(s, a) && Smooth([a]) && var t := Apply(c, s, a); OnItsWay(t) && Distance(t) < Distance(s)
  {
  }

  lemma SmoothStepSends<E>(c: Config, s: State<E>, now: int)
    requires c.Valid() && OnItsWay(s) && (s.pending != [] || !s.sender.Draining?)
    ensures var a := SmoothStep(s, now); Enabled(s, a) && var t := Apply(c, s, a);
      && t.sent + InFlight(t.sender) + t.pending == s.sent + InFlight(s.sender) + s.pending
      && t.dropped == s.dropped && t.hist == s.hist
  {
    if s.sender.Draining? {
      DrainSends(c, s);
    } else if s.sender.Sending? {
      assert s.sent + s.sender.batch + [] == s.sent + s.sender.batch;
    } else {
      OtherStepsMoveNothing(c, s, SmoothStep(s, now));
    }
  }

  lemma DrainSends<E>(c: Config, s: State<E>)
    requires Enabled(s, Drain)
    ensures var t := Apply(c, s, Drain);
      && t.sent + InFlight(t.sender) + t.pending == s.sent + InFlight(s.sender) + s.pending
      && t.dropped == s.dropped && t.hist == s.hist
  {
    DrainMovesItems(c, s);
    CutJoins(s.sent, s.pending, |InFlight(Apply(c, s, Drain).sender)|);
  }

  lemma CutJoins<T>(front: seq<T>, q: seq<T>, k: nat)
    requires k <= |q|
    ensures front + q[..k] + q[k..] == front + [] + q
  {
  }

  /** From every state in which no failed batch is on its way back and the sender has not stopped, it can go on to send
      everything that is in flight or waiting, in order, dropping nothing. */
  lemma {:induction false} AllCanBeSent<E>(c: Config, s: State<E>, now: int) returns (acts: seq<Action<E>>, t: State<E>)
    requires c.Valid() && OnItsWay(s)
    ensures Leads(c, s, acts, t) && Smooth(acts) && AllSent(s, t)
    ensures t.sender.Draining?
    decreases Distance(s)
  {
    if s.sender.Draining? && s.pending == [] {
      acts, t := [], s;
      assert s.sent + [] + [] == s.sent;
    } else {
      var a := SmoothStep(s, now);
      SmoothStepGoesOn(c, s, now);
      SmoothStepSends(c, s, now);
      acts, t := AllCanBeSent(c, Apply(c, s, a), now);
      LeadsFirst(c, s, a, acts, t);
      acts := [a] + acts;
    }
  }

  lemma {:induction false} LeadsThen<E>(c: Config, s: State<E>, a: seq<Action<E>>, t: State<E>, b: seq<Action<E>>,
                                        u: State<E>)
    requires Leads(c, s, a, t) && Leads(c, t, b, u)
    ensures Leads(c, s, a + b, u)
    decreases |a|
  {
    if a == [] {
      assert a + b == b;
    } else {
      LeadsThen(c, Apply(c, s, a[0]), a[1..], t, b, u);
      assert (a + b)[1..] == a[1..] + b;
    }
  }

  /** Steps outside the queue and its sender can come at any time; a dial fails while dialing. */
  lemma OutsideStepsAreFree<E>(s: State<E>, event: E)
    ensures Enabled(s, Enqueue(event)) && Enabled(s, Flush) && Enabled(s, Cancel)
    ensures Enabled(s, DialFailed) <==> s.sender.Dialing?
  {
  }

  /** Nothing waits and the last drain is over. */
  ghost predicate Finished<E>(s: State<E>, t: State<E>) {
    AllSent(s, t) && t.sender.Stopped? && t.ctxDone
  }

  /** The last call, once everything has been sent. */
  lemma LastCall<E>(c: Config, s: State<E>, now: int) returns (acts: seq<Action<E>>, t: State<E>)
    requires c.Valid() && s.sender.Draining? && s.pending == [] && s.ctxDone
    ensures Leads(c, s, acts, t) && Finished(s, t)
  {
    var parked := Apply(c, s, Drain);
    assert s.sent + [] + [] == s.sent;
    if s.phase.Final? {
      assert Leads(c, parked, [], parked);
      LeadsFirst(c, s, Drain, [], parked);
      acts, t := [Drain], parked;
    } else {
      var last := Apply(c, parked, SeeDone);
      var more, drained := AllCanBeSent(c, last, now);
      SmoothKeepsEnd(c, last, more, drained);
      t := Apply(c, drained, Drain);
      assert Leads(c, t, [], t);
      LeadsFirst(c, drained, Drain, [], t);
      LeadsThen(c, last, more, drained, [Drain], t);
      LeadsFirst(c, parked, SeeDone, more + [Drain], t);
      LeadsFirst(c, s, Drain, [SeeDone] + (more + [Drain]), t);
      acts := [Drain] + ([SeeDone] + (more + [Drain]));
    }
  }

  /** On a connection that works the sender keeps what it knows of cancellation, and stays in its last call. */
  lemma {:induction false} SmoothKeepsEnd<E>(c: Config, s: State<E>, acts: seq<Action<E>>, t: State<E>)
    requires Leads(c, s, acts, t) && Smooth(acts)
    ensures t.ctxDone == s.ctxDone
    ensures s.phase.Final? && !s.sender.Dialing? && !s.sender.Parked? ==>
              t.phase.Final? && !t.sender.Dialing? && !t.sender.Parked?
    decreases |acts|
  {
    if acts != [] {
      var u := Apply(c, s, acts[0]);
      assert acts[0] in acts;
      SmoothKeepsEnd(c, u, acts[1..], t);
    }
  }

  /** After a cancellation the sender can still send all that is in flight or waiting, in order, and then it stops. */
  lemma CanFinish<E>(c: Config, s: State<E>, now: int) returns (acts: seq<Action<E>>, t: State<E>)
    requires c.Valid() && OnItsWay(s) && s.ctxDone
    ensures Leads(c, s, acts, t) && Finished(s, t)
  {
    var first, drained := AllCanBeSent(c, s, now);
    SmoothKeepsEnd(c, s, first, drained);
    var last;
    last, t := LastCall(c, drained, now);
    LeadsThen(c, s, first, drained, last, t);
    acts := first + last;
    SentAgain(s, drained, t);
  }

  lemma SentAgain<E>(s: State<E>, t: State<E>, u: State<E>)
    requires AllSent(s, t) && AllSent(t, u)
    ensures AllSent(s, u)
  {
    assert t.sent + [] + [] == t.sent;
  }
}
