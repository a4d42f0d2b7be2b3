/** The Client object of the network-flow agent at the level of Go slices: the queue and the in-flight batch
    are windows that share backing arrays. Each method takes exactly the steps of the protocol in SendQueue that
    its contract names, and a valid object carries the run that led to it, so everything proved there for all
    runs holds of the contents of these windows. */
module FlowClient {
  import opened Options
  import opened GoSlice
  import opened SendQueue

  function Events<E>(q: seq<Item<E>>): (r: seq<E>)
    ensures |r| == |q| && forall i :: 0 <= i < |q| ==> r[i] == q[i].event
  {
    seq(|q|, i requires 0 <= i < |q| => q[i].event)
  }

  lemma EventsOfShed<E>(q: seq<Item<E>>, max: nat)
    ensures Events(KeepNewest(q, max)) == KeepNewest(Events(q), max)
  {
  }

  lemma EventsJoin<E>(a: seq<Item<E>>, b: seq<Item<E>>)
    ensures Events(a + b) == Events(a) + Events(b)
  {
  }

  lemma EnqueueMoves<E>(c: Config, s: State<E>, event: E)
    ensures var t := Apply(c, s, SendQueue.Enqueue(event));
      && Events(t.pending) == KeepNewest(Events(s.pending) + [event], c.maxPending)
      && t.droppedPending == s.droppedPending + Overflow(|s.pending| + 1, c.maxPending)
      && t.signalers == s.signalers + (if |t.pending| >= c.batchSize then 1 else 0)
      && t.sender == s.sender
  {
    var item := Item(|s.hist|, event);
    EventsJoin(s.pending, [item]);
    EventsOfShed(s.pending + [item], c.maxPending);
    assert Events([item]) == [event];
  }

  lemma EnqueueSparesSender<E>(c: Config, s: State<E>, event: E)
    ensures var t := Apply(c, s, SendQueue.Enqueue(event));
      && t.sender == s.sender && t.sent == s.sent && t.sendFailures == s.sendFailures
      && (t.signalers > 0 ==>
            var u := Apply(c, t, Signal); u.sender == s.sender && u.sent == s.sent && u.sendFailures == s.sendFailures)
  {
  }

  lemma DrainMovesEvents<E>(c: Config, s: State<E>)
    requires Enabled(s, Drain) && s.pending != []
    ensures var t := Apply(c, s, Drain); var k := if c.batchSize > |s.pending| then |s.pending| else c.batchSize;
      && t.sender.Sending? && (c.batchSize > 0 ==> t.sender.batch != [])
      && Events(t.sender.batch) == Events(s.pending)[..k] && Events(t.pending) == Events(s.pending)[k..]
  {
  }

  /** How one round of sendPending's loop ends. */
  datatype Round = Empty | Accepted | Refused

  /** sendPending returned nil: the sender waits on its connection, or stops after the last call. */
  ghost predicate Returned<E>(s: State<E>, t: State<E>) {
    if s.phase.Final? then t.sender.Stopped? && t.phase.Final? else t.sender.Parked? && t.phase.Connected?
  }

  /** What a round that starts in state `s` makes of it. */
  ghost predicate RoundDone<E>(c: Config, round: Round, accept: bool, s: State<E>, t: State<E>) {
    && t.sent + t.pending == s.sent + s.pending && t.dropped == s.dropped
    && t.hist == s.hist && t.signalers == s.signalers && t.token == s.token && t.ctxDone == s.ctxDone
    && (round.Empty? <==> s.pending == [])
    && (round.Empty? ==> t == s.(phase := t.phase, sender := t.sender) && Returned(s, t))
    && (round.Accepted? ==>
          && accept && t.sender.Draining? && t.phase == s.phase
          && |t.pending| == |s.pending| - Min(|s.pending|, c.batchSize))
    && (round.Refused? ==> !accept && t.sent == s.sent && RefusalLeads(s, t))
  }

  /** Without events the round returns at once. */
  lemma EmptyRound<E>(c: Config, accept: bool, s: State<E>)
    requires Enabled(s, Drain) && s.pending == []
    ensures RoundDone(c, Empty, accept, s, Apply(c, s, Drain))
  {
  }

  /** What logDroppedPending leaves unchanged, and where the counts go. */
  ghost predicate Logged<E>(s: State<E>, t: State<E>) {
    && t == s.(sender := t.sender, droppedPending := 0, dropLogCount := t.dropLogCount,
               dropLogNext := t.dropLogNext, logged := t.logged)
    && t.logged + t.dropLogCount + HeldDrops(t.sender) == s.logged + s.dropLogCount + s.droppedPending
  }

  /** The state after the second critical section, and the warning if one is due. */
  function Counted<E>(c: Config, s: State<E>, now: int): State<E>
    requires s.sender.AddDrops?
  {
    var t := Apply(c, s, AddCount(now));
    if t.sender.WarnDrops? then Apply(c, t, Warn) else t
  }

  lemma LogKeeps<E>(c: Config, s: State<E>, now: int)
    requires s.sender.TakeDrops?
    ensures var t := Apply(c, s, TakeCount);
      if s.droppedPending == 0 then t.sender.Draining? && Logged(s, t)
      else
        && t.sender == AddDrops(s.droppedPending) && t.dropLogNext == s.dropLogNext
        && Counted(c, t, now).sender.Draining? && Logged(s, Counted(c, t, now))
  {
  }

  /** A batch drained and accepted moves from the front of the queue to the end of what was sent. */
  lemma AcceptedRound<E>(c: Config, s: State<E>)
    requires c.Valid() && Enabled(s, Drain) && s.pending != []
    ensures var t := Apply(c, s, Drain);
      && t.sender.Sending? && t.sender.batch != []
      && RoundDone(c, Accepted, true, s, Apply(c, t, SendOk))
  {
    var t := Apply(c, s, Drain);
    assert t.sender.batch + t.pending == s.pending;
    assert (s.sent + t.sender.batch) + t.pending == s.sent + (t.sender.batch + t.pending);
  }

  /** A refused batch is still held when the failure is counted. */
  lemma FailMoves<E>(c: Config, s: State<E>)
    requires s.sender.Sending?
    ensures Apply(c, Apply(c, s, SendFailed), CountFail)
            == s.(sendFailures := s.sendFailures + 1, sender := Requeueing(s.sender.batch))
  {
  }

  function Refuse<E>(c: Config, s: State<E>): State<E>
    requires s.sender.Sending?
  {
    Apply(c, Apply(c, Apply(c, s, SendFailed), CountFail), PutBack)
  }

  lemma RefuseMoves<E>(c: Config, s: State<E>)
    requires s.sender.Sending?
    ensures var t := Refuse(c, s);
      && t.pending == KeepNewest(s.sender.batch + s.pending, c.maxPending)
      && t.dropped == s.dropped + Oldest(s.sender.batch + s.pending, c.maxPending)
      && t.sent == s.sent && t.hist == s.hist && t.signalers == s.signalers && t.token == s.token
      && RefusalLeads(s, t)
  {
    var u := Apply(c, Apply(c, s, SendFailed), CountFail);
    PutBackMoves(c, u);
    PutBackLeads(c, u);
  }

  /** A batch drained, refused and put back leaves the queue as it was. */
  lemma RefusedRound<E>(c: Config, s: State<E>)
    requires c.Valid() && Enabled(s, Drain) && s.pending != [] && |s.pending| <= c.maxPending
    ensures var t := Apply(c, s, Drain);
      && t.sender.Sending? && t.sender.batch != []
      && RoundDone(c, Refused, false, s, Refuse(c, t)) && Refuse(c, t).pending == s.pending
  {
    var t := Apply(c, s, Drain);
    assert t.sender.batch + t.pending == s.pending;
    RefuseMoves(c, t);
    assert s.dropped + [] == s.dropped;
  }

  lemma PutBackMovesEvents<E>(c: Config, s: State<E>)
    requires Enabled(s, PutBack)
    ensures var t := Apply(c, s, PutBack);
      && Events(t.pending) == KeepNewest(Events(s.sender.batch) + Events(s.pending), c.maxPending)
      && t.droppedPending == s.droppedPending + Overflow(|s.sender.batch| + |s.pending|, c.maxPending)
      && !HoldsBatch(t.sender)
  {
    EventsJoin(s.sender.batch, s.pending);
    EventsOfShed(s.sender.batch + s.pending, c.maxPending);
    PutBackMoves(c, s);
  }

  const DEFAULT_BATCH_SIZE: nat := 5_000
  const DEFAULT_MAX_PENDING: nat := 50_000

  /** The protocol steps of a round. */
  function RoundSteps<E>(round: Round): seq<Action<E>> {
    match round
    case Empty => [Drain]
    case Accepted => [Drain, SendOk]
    case Refused => [Drain, SendFailed, CountFail, PutBack]
  }

  function AcceptedRounds<E>(n: nat): seq<Action<E>> {
    if n == 0 then [] else AcceptedRounds(n - 1) + RoundSteps(Accepted)
  }

  /** The protocol steps of logDroppedPending. */
  function LogSteps<E>(count: nat, now: int, dropLogNext: int): seq<Action<E>> {
    if count == 0 then [TakeCount]
    else if now < dropLogNext then [TakeCount, AddCount(now)]
    else [TakeCount, AddCount(now), Warn]
  }

  class Client<E> {
    const config: Config
    var events: Slice<E>
    var flushToken: bool
    var droppedPending: nat
    var sendFailures: nat
    var pendingDropLogCount: nat
    var dropLogNext: int

    ghost var batch: Slice<E>          // the sender's local, meaningful while it holds a batch
    ghost var m: State<E>              // the protocol state this object stands for
    ghost var run: seq<State<E>>       // the run that led to it
    ghost var acts: seq<Action<E>>

    ghost predicate Valid()
      reads this, events.arr, batch.arr
    {
      && config.Valid()
      && Represents()
      && Separate()
      && HasRun()
    }

    ghost predicate Represents()
      reads this, events.arr, batch.arr
    {
      && events.Valid() && events.View() == Events(m.pending) && events.len <= config.maxPending
      && CountersOf(m)
      && (HoldsBatch(m.sender) ==> batch.Valid() && batch.View() == Events(InFlight(m.sender)))
    }

    ghost predicate CountersOf(s: State<E>)
      reads this
    {
      && flushToken == s.token
      && droppedPending == s.droppedPending
      && sendFailures == s.sendFailures
      && pendingDropLogCount == s.dropLogCount
      && dropLogNext == s.dropLogNext
    }

    /** Within one array the in-flight batch lies in front of the queue. */
    ghost predicate Separate()
      reads this
    {
      HoldsBatch(m.sender) && batch.arr == events.arr ==> batch.off + batch.len <= events.off
    }

    ghost predicate HasRun()
      reads this
    {
      IsRun(config, run, acts) && m == run[|acts|]
    }

    ghost function Footprint(): set<object>
      reads this
    {
      {this, events.arr, batch.arr}
    }

    /** Whatever led to it, a valid object stands for a state that satisfies the invariant of the protocol. */
    lemma StandsForInvariant()
      requires Valid()
      ensures Inv(config, m)
    {
      InvAlongRun(config, run, acts, |acts|);
    }

    constructor (batchSize: int, maxPending: int)
      ensures Valid() && fresh(Footprint()) && m == Init() && acts == []
      ensures config == Config(if batchSize <= 0 then 5_000 else batchSize,
                               if maxPending <= 0 then 50_000 else maxPending)
    {
      config := Config(if batchSize <= 0 then DEFAULT_BATCH_SIZE else batchSize,
                       if maxPending <= 0 then DEFAULT_MAX_PENDING else maxPending);
      var none := new E[0];
      events := Slice(none, 0, 0);
      batch := Slice(none, 0, 0);
      flushToken, droppedPending, sendFailures, pendingDropLogCount, dropLogNext := false, 0, 0, 0, 0;
      m, run, acts := Init(), [Init()], [];
    }

    /** The protocol takes a step. */
    ghost method Step(a: Action<E>)
      requires HasRun() && Enabled(m, a)
      modifies this`m, this`run, this`acts
      ensures HasRun() && m == Apply(config, old(m), a) && acts == old(acts) + [a]
    {
      RunGrows(config, run, acts, a);
      m := Apply(config, m, a);
      run, acts := run + [m], acts + [a];
    }

    /** enforceMaxLocked: reslice past the overflow. */
    method EnforceMaxLocked()
      requires events.Valid()
      modifies this`events, this`droppedPending
      ensures events.Valid() && events.View() == KeepNewest(old(events.View()), config.maxPending)
      ensures events.arr == old(events.arr) && events.off >= old(events.off)
      ensures droppedPending == old(droppedPending) + Overflow(old(events.len), config.maxPending)
    {
      var overflow := events.len - config.maxPending;
      if overflow <= 0 {
        return;
      }
      events := events.Drop(overflow);
      droppedPending := droppedPending + overflow;
    }

    /** c.events = append(c.events, event), then enforceMaxLocked. Cells in front of the queue keep their values. */
    method PushBack(event: E)
      requires events.Valid()
      modifies this`events, this`droppedPending, events.arr
      ensures events.Valid() && events.View() == KeepNewest(old(events.View()) + [event], config.maxPending)
      ensures droppedPending == old(droppedPending) + Overflow(old(events.len) + 1, config.maxPending)
      ensures fresh(events.arr) || (events.arr == old(events.arr) && events.off >= old(events.off))
      ensures forall i :: 0 <= i < old(events.off) + old(events.len) ==> old(events.arr)[i] == old(events.arr[i])
    {
      var one := new E[1](_ => event);
      var single := Slice(one, 0, 1);
      assert single.View() == [event];
      events := Append(events, single);
      EnforceMaxLocked();
    }

    /** requeue: append the queue behind the batch and enforce the bound. The append may copy the queue
        over the very cells it already occupies. */
    method Requeue(failed: Slice<E>)
      requires events.Valid() && failed.Valid()
      modifies this`events, this`droppedPending, failed.arr
      ensures events.Valid()
      ensures failed.len == 0 ==> events == old(events) && droppedPending == old(droppedPending)
      ensures failed.len > 0 ==>
                && events.View() == KeepNewest(old(failed.View()) + old(events.View()), config.maxPending)
                && droppedPending == old(droppedPending) + Overflow(failed.len + old(events.len), config.maxPending)
                && (fresh(events.arr) || events.arr == failed.arr)
    {
      if failed.len == 0 {
        return;
      }
      events := Append(failed, events);
      EnforceMaxLocked();
    }

    /** The locked part of Enqueue. It leaves an in-flight batch as it is. */
    method EnqueueLocked(event: E) returns (shouldFlush: bool)
      requires Valid()
      modifies this`events, this`droppedPending, this`m, this`run, this`acts, events.arr
      ensures Valid() && (fresh(events.arr) || events.arr == old(events.arr))
      ensures m == Apply(config, old(m), SendQueue.Enqueue(event)) && acts == old(acts) + [SendQueue.Enqueue(event)]
      ensures shouldFlush <==> m.signalers > old(m.signalers)
      ensures HoldsBatch(m.sender) ==> batch.View() == old(batch.View())
      ensures events.View() == KeepNewest(old(events.View()) + [event], config.maxPending)
    {
      ghost var s := m;
      EnqueueMoves(config, s, event);
      PushBack(event);
      assert HoldsBatch(s.sender) ==> batch.View() == old(batch.View()) by {
        if HoldsBatch(s.sender) {
          assert forall i :: 0 <= i < batch.len ==> batch.View()[i] == old(batch.View())[i];
        }
      }
      shouldFlush := events.len >= config.batchSize;
      Step(SendQueue.Enqueue(event));
      assert m.sender == s.sender && InFlight(m.sender) == InFlight(s.sender);
    }

    /** signalFlush after Enqueue decided to flush. */
    method SignalFlush()
      requires Valid() && Enabled(m, Signal)
      modifies this`flushToken, this`m, this`run, this`acts
      ensures Valid() && m == Apply(config, old(m), Signal) && acts == old(acts) + [Signal]
    {
      flushToken := true;
      Step(Signal);
    }

    /** The exported Flush. */
    method Flush()
      requires Valid()
      modifies this`flushToken, this`m, this`run, this`acts
      ensures Valid() && m == Apply(config, old(m), SendQueue.Flush) && acts == old(acts) + [SendQueue.Flush]
    {
      flushToken := true;
      Step(SendQueue.Flush);
    }

    /** The select loop receives from flushCh. */
    method ReceiveFlush()
      requires Valid() && Enabled(m, Wake)
      modifies this`flushToken, this`m, this`run, this`acts
      ensures Valid() && m == Apply(config, old(m), Wake) && acts == old(acts) + [Wake]
      ensures !flushToken && m.sender.TakeDrops? && m.phase == old(m.phase)
    {
      flushToken := false;
      Step(Wake);
    }

    /** Steps outside the object: dialing, ticks and cancellation. */
    ghost method Elsewhere(a: Action<E>)
      requires Valid() && Enabled(m, a)
      requires a.DialFailed? || a.DialOk? || a.SeeDone? || a.Tick? || a.Cancel?
      modifies this`m, this`run, this`acts
      ensures Valid() && m == Apply(config, old(m), a) && acts == old(acts) + [a]
      ensures m == old(m).(sender := m.sender, phase := m.phase, ctxDone := old(m.ctxDone) || a.Cancel?)
      ensures a.DialFailed? || a.Cancel? ==> m.sender == old(m.sender) && m.phase == old(m.phase)
      ensures a.DialOk? ==> m.sender.TakeDrops? && m.phase.Initial?
      ensures a.Tick? ==> m.sender.TakeDrops? && m.phase.Connected?
      ensures a.SeeDone? ==> if old(m.sender).Parked? then m.sender.TakeDrops? && m.phase.Final? else m.sender.Stopped?
    {
      PhaseAlongRun(config, run, acts, |acts|);
      Step(a);
    }

    /** The exported Enqueue, at any moment of the sender: an in-flight batch keeps its window and its contents. */
    method Enqueue(event: Option<E>)
      requires Valid()
      modifies this`events, this`droppedPending, this`flushToken, this`m, this`run, this`acts, events.arr
      ensures Valid() && (fresh(events.arr) || events.arr == old(events.arr))
      ensures m.sender == old(m.sender) && (HoldsBatch(m.sender) ==> batch.View() == old(batch.View()))
      ensures event.None? ==> m == old(m) && acts == old(acts) && events.View() == old(events.View())
      ensures event.Some? ==>
                var t := Apply(config, old(m), SendQueue.Enqueue(event.value));
                if |t.pending| >= config.batchSize
                then m == Apply(config, t, Signal) && acts == old(acts) + [SendQueue.Enqueue(event.value), Signal]
                else m == t && acts == old(acts) + [SendQueue.Enqueue(event.value)]
      ensures event.Some? ==> events.View() == KeepNewest(old(events.View()) + [event.value], config.maxPending)
    {
      match event
      case None =>
      case Some(e) =>
        EnqueueMoves(config, m, e);
        var shouldFlush := EnqueueLocked(e);
        if shouldFlush {
          SignalFlush();
        }
    }

    /** drainBatchLocked: the batch keeps the capacity that reaches over the rest of the queue. */
    method DrainBatchLocked(max: int) returns (taken: Option<Slice<E>>)
      requires config.Valid() && events.Valid()
      modifies this`events
      ensures taken.None? <==> old(events.len) == 0
      ensures taken.None? ==> events == old(events)
      ensures taken.Some? ==>
                var want := if max <= 0 then config.batchSize else max;
                var k := if want > old(events.len) then old(events.len) else want;
                taken.value == old(events).Take(k) && events == old(events).Drop(k)
    {
      if events.len == 0 {
        return None;
      }
      var n := if max <= 0 then config.batchSize else max;
      if n > events.len {
        n := events.len;
      }
      taken := Some(events.Take(n));
      events := events.Drop(n);
    }

    /** After a drain in state `s` the object stands for the next state. */
    lemma DrainedStands(s: State<E>, q: Slice<E>)
      requires config.Valid() && Enabled(s, Drain) && s.pending != [] && m == Apply(config, s, Drain) && CountersOf(s)
      requires q.Valid() && q.View() == Events(s.pending) && q.len <= config.maxPending
      requires var k := Min(config.batchSize, q.len); batch == q.Take(k) && events == q.Drop(k)
      ensures Represents() && Separate() && m.sender.Sending? && InFlight(m.sender) != []
      ensures batch.View() + events.View() == q.View()
    {
      DrainMovesEvents(config, s);
      SplitView(q, Min(config.batchSize, q.len));
    }

    lemma NothingDrainedStands(s: State<E>)
      requires Enabled(s, Drain) && s.pending == [] && m == Apply(config, s, Drain) && CountersOf(s)
      requires events.Valid() && events.View() == Events(s.pending) && events.len <= config.maxPending
      ensures Represents() && Separate()
    {
    }

    /** The locked part of sendPending. */
    method DrainForSend() returns (taken: Option<Slice<E>>)
      requires Valid() && Enabled(m, Drain)
      modifies this`events, this`batch, this`m, this`run, this`acts
      ensures Valid() && m == Apply(config, old(m), Drain) && acts == old(acts) + [Drain]
      ensures taken.Some? <==> old(m.pending) != []
      ensures taken.Some? ==> m.sender.Sending? && batch == taken.value && batch.arr == old(events.arr)
      ensures taken.Some? ==> InFlight(m.sender) != [] && batch.View() + events.View() == old(events.View())
      ensures events.arr == old(events.arr)
    {
      ghost var s := m;
      ghost var q := events;
      taken := DrainBatchLocked(config.batchSize);
      Step(Drain);
      if taken.Some? {
        batch := taken.value;
        DrainedStands(s, q);
      } else {
        NothingDrainedStands(s);
      }
    }

    method SendSucceeded()
      requires Valid() && Enabled(m, SendOk)
      modifies this`m, this`run, this`acts
      ensures Valid() && m == Apply(config, old(m), SendOk) && acts == old(acts) + [SendOk]
    {
      Step(SendOk);
    }

    method SendFailedAndCounted()
      requires Valid() && Enabled(m, SendFailed)
      modifies this`sendFailures, this`m, this`run, this`acts
      ensures Valid() && m == Apply(config, Apply(config, old(m), SendFailed), CountFail)
      ensures acts == old(acts) + [SendFailed, CountFail]
    {
      ghost var before := acts;
      FailMoves(config, m);
      Step(SendFailed);
      Step(CountFail);
      sendFailures := sendFailures + 1;
      JoinSteps(before, [SendFailed], [CountFail]);
    }

    /** requeue as the step that ends a failed send. */
    method PutBackFailed(failed: Slice<E>)
      requires Valid() && failed == batch && Enabled(m, PutBack) && InFlight(m.sender) != []
      modifies this`events, this`droppedPending, this`m, this`run, this`acts, batch.arr
      ensures Valid() && (fresh(events.arr) || events.arr == batch.arr)
      ensures m == Apply(config, old(m), PutBack) && acts == old(acts) + [PutBack] && RefusalLeads(old(m), m)
      ensures events.View() == KeepNewest(old(failed.View()) + old(events.View()), config.maxPending)
    {
      PutBackMovesEvents(config, m);
      PutBackLeads(config, m);
      Requeue(failed);
      Step(PutBack);
    }

    /** The error branch of sendPending. */
    method HandleSendError(failed: Slice<E>)
      requires Valid() && Enabled(m, SendFailed) && failed == batch && InFlight(m.sender) != []
      modifies this`events, this`droppedPending, this`sendFailures, this`m, this`run, this`acts, batch.arr
      ensures Valid() && (fresh(events.arr) || events.arr == batch.arr)
      ensures m == Refuse(config, old(m)) && acts == old(acts) + [SendFailed, CountFail, PutBack]
      ensures RefusalLeads(old(m), m) && m.sendFailures == old(m.sendFailures) + 1
      ensures events.View() == KeepNewest(old(failed.View()) + old(events.View()), config.maxPending)
    {
      SendFailedAndCounted();
      PutBackFailed(failed);
    }

    /** One enqueue, as the sender sees it. */
    method EnqueueMeanwhile(event: E)
      requires Valid()
      modifies this`events, this`droppedPending, this`flushToken, this`m, this`run, this`acts, events.arr
      ensures Valid() && (fresh(events.arr) || events.arr == old(events.arr))
      ensures m.sender == old(m.sender) && m.sent == old(m.sent) && m.sendFailures == old(m.sendFailures)
      ensures HoldsBatch(m.sender) ==> batch.View() == old(batch.View())
      ensures events.View() == KeepNewest(old(events.View()) + [event], config.maxPending)
    {
      EnqueueSparesSender(config, m, event);
      Enqueue(Some(event));
    }

    /** Any number of enqueues, at any moment of the sender. */
    method EnqueueAll(arrivals: seq<E>)
      requires Valid()
      modifies this`events, this`droppedPending, this`flushToken, this`m, this`run, this`acts, events.arr
      ensures Valid() && (fresh(events.arr) || events.arr == old(events.arr))
      ensures m.sender == old(m.sender) && m.sent == old(m.sent) && m.sendFailures == old(m.sendFailures)
      ensures HoldsBatch(m.sender) ==> batch.View() == old(batch.View())
      ensures events.View() == KeepNewest(old(events.View()) + arrivals, config.maxPending)
    {
      ghost var q := events.View();
      assert KeepNewest(q + [], config.maxPending) == q;
      for i := 0 to |arrivals|
        invariant Valid() && (fresh(events.arr) || events.arr == old(events.arr))
        invariant m.sender == old(m.sender) && m.sent == old(m.sent) && m.sendFailures == old(m.sendFailures)
        invariant HoldsBatch(m.sender) ==> batch.View() == old(batch.View())
        invariant events.View() == KeepNewest(q + arrivals[..i], config.maxPending)
      {
        KeepThenAppend(q + arrivals[..i], arrivals[i], config.maxPending);
        assert q + arrivals[..i] + [arrivals[i]] == q + arrivals[..i + 1];
        EnqueueMeanwhile(arrivals[i]);
      }
      assert arrivals[..|arrivals|] == arrivals;
    }

    /** From the drain of queue `q` on: enqueues while the batch is sent, and then the failure. */
    method FailWhileEnqueuing(taken: Slice<E>, arrivals: seq<E>, ghost q: seq<E>)
      requires Valid() && m.sender.Sending? && taken == batch && InFlight(m.sender) != []
      requires batch.View() + events.View() == q
      modifies this, events.arr, batch.arr
      ensures Valid() && events.View() == KeepNewest(q + arrivals, config.maxPending)
    {
      ghost var sending, rest := batch.View(), events.View();
      assert sending + (rest + arrivals) == q + arrivals;
      KeepThenPutBack(sending, rest + arrivals, config.maxPending);
      EnqueueAll(arrivals);
      HandleSendError(taken);
    }

    /** A send that fails while events are enqueued: the batch keeps its contents until it is put back, and the queue
        ends as the newest events of the old queue followed by the new ones. */
    method RefusedWhileEnqueuing(arrivals: seq<E>)
      requires Valid() && m.sender.Draining? && m.pending != []
      modifies this, events.arr
      ensures Valid() && events.View() == KeepNewest(old(events.View()) + arrivals, config.maxPending)
    {
      ghost var q := events.View();
      var taken := DrainForSend();
      FailWhileEnqueuing(taken.value, arrivals, q);
    }

    /** First critical section of logDroppedPending. */
    method TakeDropped() returns (count: nat)
      requires Valid() && Enabled(m, TakeCount)
      modifies this`droppedPending, this`m, this`run, this`acts
      ensures Valid() && m == Apply(config, old(m), TakeCount) && acts == old(acts) + [TakeCount]
      ensures count == old(droppedPending)
    {
      count := droppedPending;
      if count > 0 {
        droppedPending := 0;
      }
      Step(TakeCount);
    }

    /** Second critical section of logDroppedPending; `due` says whether a warning must be written. */
    method AddDropped(count: nat, now: int) returns (due: bool)
      requires Valid() && m.sender == AddDrops(count)
      modifies this`pendingDropLogCount, this`dropLogNext, this`m, this`run, this`acts
      ensures Valid() && m == Apply(config, old(m), AddCount(now)) && acts == old(acts) + [AddCount(now)]
      ensures due <==> m.sender.WarnDrops?
    {
      pendingDropLogCount := pendingDropLogCount + count;
      Step(AddCount(now));
      if now < dropLogNext {
        return false;
      }
      dropLogNext := now + MINUTE;
      pendingDropLogCount := 0;
      return true;
    }

    /** The second critical section and the warning. */
    method CountDropped(count: nat, now: int)
      requires Valid() && m.sender == AddDrops(count)
      modifies this`pendingDropLogCount, this`dropLogNext, this`m, this`run, this`acts
      ensures Valid() && m == Counted(config, old(m), now)
      ensures acts == old(acts) + if now < old(dropLogNext) then [AddCount(now)] else [AddCount(now), Warn]
    {
      ghost var before := acts;
      var due := AddDropped(count, now);
      if due {
        Step(Warn);
        JoinSteps(before, [AddCount(now)], [Warn]);
      }
    }

    method LogDroppedPending(now: int)
      requires Valid() && m.sender.TakeDrops?
      modifies this`droppedPending, this`pendingDropLogCount, this`dropLogNext, this`m, this`run, this`acts
      ensures Valid() && acts == old(acts) + LogSteps(old(droppedPending), now, old(dropLogNext))
      ensures m.sender.Draining? && Logged(old(m), m)
    {
      ghost var before := acts;
      LogKeeps(config, m, now);
      var count := TakeDropped();
      if count == 0 {
        return;
      }
      CountDropped(count, now);
      JoinSteps(before, [TakeCount], if now < old(dropLogNext) then [AddCount(now)] else [AddCount(now), Warn]);
    }

    /** The part of a round after the drain in state `s`, when the connection accepts the batch. */
    method SendAccepted(ghost s: State<E>)
      requires Valid() && s.sender.Draining? && s.pending != [] && m == Apply(config, s, Drain)
      modifies this`m, this`run, this`acts
      ensures Valid() && acts == old(acts) + [SendOk] && RoundDone(config, Accepted, true, s, m)
    {
      AcceptedRound(config, s);
      SendSucceeded();
    }

    /** The same when it refuses the batch. */
    method SendRefused(taken: Slice<E>, ghost s: State<E>)
      requires Valid() && s.sender.Draining? && s.pending != [] && m == Apply(config, s, Drain)
      requires taken == batch && |s.pending| <= config.maxPending
      modifies this`events, this`droppedPending, this`sendFailures, this`m, this`run, this`acts, batch.arr
      ensures Valid() && acts == old(acts) + [SendFailed, CountFail, PutBack] && RoundDone(config, Refused, false, s, m)
      ensures fresh(events.arr) || events.arr == batch.arr
    {
      RefusedRound(config, s);
      HandleSendError(taken);
    }

    /** The part of a round after a drain in state `s` that took a batch. */
    method SendDrained(taken: Slice<E>, accept: bool, ghost s: State<E>) returns (round: Round)
      requires Valid() && s.sender.Draining? && s.pending != [] && m == Apply(config, s, Drain)
      requires taken == batch && |s.pending| <= config.maxPending
      modifies this`events, this`droppedPending, this`sendFailures, this`m, this`run, this`acts, batch.arr
      ensures Valid() && RoundDone(config, round, accept, s, m)
      ensures old(acts) <= acts && [Drain] + acts[|old(acts)|..] == RoundSteps(round)
      ensures if accept then events == old(events) else fresh(events.arr) || events.arr == batch.arr
    {
      if accept {
        SendAccepted(s);
        return Accepted;
      }
      SendRefused(taken, s);
      return Refused;
    }

    /** One round of sendPending's loop: nothing left, a batch accepted, or a batch refused and put back. */
    method SendBatch(accept: bool) returns (round: Round)
      requires Valid() && m.sender.Draining?
      modifies this`events, this`batch, this`droppedPending, this`sendFailures, this`m, this`run, this`acts, events.arr
      ensures Valid() && acts == old(acts) + RoundSteps(round) && RoundDone(config, round, accept, old(m), m)
      ensures round.Accepted? ==> events.arr == old(events.arr)
    {
      ghost var s, before := m, acts;
      var taken := DrainForSend();
      ghost var drained := acts;
      if taken.None? {
        EmptyRound(config, accept, s);
        return Empty;
      }
      round := SendDrained(taken.value, accept, s);
      JoinSteps(before, [Drain], acts[|drained|..]);
      assert acts == drained + acts[|drained|..];
    }

    /** sendPending while no Enqueue interferes, on a connection that accepts `okSends` more batches.
        Whatever is not sent is back in the queue, in order, and nothing is lost. */
    method SendPending(now: int, okSends: nat) returns (failed: bool, ghost sends: nat)
      requires Valid() && m.sender.TakeDrops?
      modifies this, events.arr
      ensures Valid() && sends <= okSends
      ensures acts == old(acts) + LogSteps(old(droppedPending), now, old(dropLogNext))
                      + AcceptedRounds(sends) + RoundSteps(if failed then Refused else Empty)
      ensures SentWhatFits(config, old(m), m, failed, okSends)
    {
      ghost var s := m;
      LogDroppedPending(now);
      NothingSentYet(config, s, m);
      ghost var logged := acts;
      var sent := 0;
      sends := 0;
      while true
        invariant Valid() && SomeSent(config, s, m, sent)
        invariant acts == logged + AcceptedRounds(sends) && sends == sent
        invariant sent <= okSends && events.arr == old(events.arr)
        decreases |m.pending|
      {
        ghost var t, before := m, acts;
        var round := SendBatch(sent < okSends);
        if round.Empty? {
          NothingLeft(config, s, t, m, sent, okSends);
          return false, sends;
        }
        if round.Refused? {
          RestIsBack(config, s, t, m, sent, okSends);
          return true, sends;
        }
        OneMoreSent(config, s, t, m, sent);
        JoinSteps(logged, AcceptedRounds(sends), RoundSteps(Accepted));
        sent := sent + 1;
        sends := sends + 1;
      }
    }
  }

  /** Since state `s` the first `n` batches were accepted. */
  ghost predicate SomeSent<E>(c: Config, s: State<E>, t: State<E>, n: nat) {
    && t.sender.Draining? && t.phase == s.phase
    && t.sent + t.pending == s.sent + s.pending && t.dropped == s.dropped
    && t.hist == s.hist && t.signalers == s.signalers && t.token == s.token && t.ctxDone == s.ctxDone
    && |t.pending| == |s.pending| - Min(|s.pending|, n * c.batchSize)
  }

  lemma OneMoreSent<E>(c: Config, s: State<E>, t: State<E>, u: State<E>, n: nat)
    requires SomeSent(c, s, t, n) && RoundDone(c, Accepted, true, t, u)
    ensures SomeSent(c, s, u, n + 1)
    ensures c.batchSize > 0 ==> |u.pending| < |t.pending|
  {
    NextBatch(|s.pending|, n, c.batchSize);
  }

  /** What a call of sendPending makes of state `s` on a connection that accepts `okSends` more batches: these are sent,
      in order, and the rest is back in the queue; the call fails exactly if something is left. */
  ghost predicate SentWhatFits<E>(c: Config, s: State<E>, t: State<E>, failed: bool, okSends: nat) {
    && t.sent + t.pending == s.sent + s.pending && t.dropped == s.dropped
    && t.hist == s.hist && t.signalers == s.signalers && t.token == s.token
    && (failed <==> t.pending != [])
    && |t.sent| == |s.sent| + Min(|s.pending|, okSends * c.batchSize)
    && if failed then RefusalLeads(s, t) else Returned(s, t)
  }

  lemma NothingSentYet<E>(c: Config, s: State<E>, t: State<E>)
    requires Logged(s, t) && t.sender.Draining?
    ensures SomeSent(c, s, t, 0)
  {
  }

  lemma NothingLeft<E>(c: Config, s: State<E>, t: State<E>, u: State<E>, n: nat, okSends: nat)
    requires SomeSent(c, s, t, n) && RoundDone(c, Empty, n < okSends, t, u) && n <= okSends
    ensures SentWhatFits(c, s, u, false, okSends)
  {
    MoreBatches(|s.pending|, n, okSends, c.batchSize);
    assert u.sent + [] == u.sent;
  }

  lemma RestIsBack<E>(c: Config, s: State<E>, t: State<E>, u: State<E>, n: nat, okSends: nat)
    requires SomeSent(c, s, t, n) && RoundDone(c, Refused, n < okSends, t, u) && n <= okSends
    ensures SentWhatFits(c, s, u, true, okSends)
  {
    assert |u.sent| + |u.pending| == |s.sent| + |s.pending|;
    assert |t.sent| + |t.pending| == |s.sent| + |s.pending|;
  }

  lemma JoinSteps<E>(a: seq<Action<E>>, b: seq<Action<E>>, c: seq<Action<E>>)
    ensures a + b + c == a + (b + c)
  {
  }

  lemma KeepThenAppend<T>(q: seq<T>, x: T, max: nat)
    ensures KeepNewest(KeepNewest(q, max) + [x], max) == KeepNewest(q + [x], max)
  {
  }

  /** Shedding the queue before a batch is put back in front of it makes no difference. */
  lemma KeepThenPutBack<T>(batch: seq<T>, q: seq<T>, max: nat)
    ensures KeepNewest(batch + KeepNewest(q, max), max) == KeepNewest(batch + q, max)
  {
    if |q| > max {
      assert (batch + KeepNewest(q, max))[|batch|..] == KeepNewest(q, max);
    }
  }

  function Min(a: int, b: int): int {
    if a < b then a else b
  }

  lemma NextBatch(total: nat, sends: nat, size: nat)
    ensures total - Min(total, sends * size) - Min(total - Min(total, sends * size), size)
         == total - Min(total, (sends + 1) * size)
  {
  }

  lemma MoreBatches(total: nat, sends: nat, okSends: nat, size: nat)
    requires sends <= okSends && Min(total, sends * size) == total
    ensures Min(total, okSends * size) == total
  {
    assert sends * size <= okSends * size;
  }
}
