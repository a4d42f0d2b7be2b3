/** The bounded pool that verifies images: a spawning loop takes a semaphore slot before it starts each worker,
    workers fill their own slot of the results, give the semaphore slot back and sign off with the wait group. */
module WorkerPool {
  import opened Options

  datatype Outcome<+O> = Observed(observation: O) | Failed(reason: string)

  /** Where a worker is; its defers run in the order progress, semaphore, wait group. */
  datatype Worker = NotSpawned | Verifying | Written | Counted | Released | Done

  /** The spawning loop at image `i`: about to count it in, about to take a slot, about to start its worker. */
  datatype Spawner = Adding(i: nat) | Acquiring(i: nat) | Spawning(i: nat) | Waiting | Returned

  datatype State<+R> = State(
    spawner: Spawner,
    workers: seq<Worker>,
    slots: nat,                  // elements in the semaphore channel
    waitGroup: int,
    processed: nat,
    results: seq<Option<R>>,
    writes: seq<nat>             // how often each slot of the results was written
  )

  datatype Action<+O> =
    | Add | Acquire | Spawn | StopSpawning | Wait
    | Finish(w: nat, outcome: Outcome<O>)      // the worker decides and writes its result
    | Progress(w: nat) | Release(w: nat) | SignOff(w: nat)

  /** `n` images, a requested bound, and how one image's outcome becomes its result. */
  datatype Pool<!O, !R> = Pool(n: nat, maxConcurrent: int, result: (nat, Outcome<O>) -> R)
  {
    function Capacity(): nat { if maxConcurrent < 1 then 1 else maxConcurrent }
  }

  function Init<O, R>(p: Pool<O, R>): State<R> {
    State(Adding(0), seq(p.n, _ => NotSpawned), 0, 0, 0, seq(p.n, _ => None), seq(p.n, _ => 0))
  }

  predicate At<R>(s: State<R>, w: nat, pc: Worker) {
    w < |s.workers| && s.workers[w] == pc
  }

  predicate Enabled<O, R>(p: Pool<O, R>, s: State<R>, a: Action<O>) {
    && |s.workers| == |s.results| == |s.writes| == p.n
    && match a
       case Add => s.spawner.Adding? && s.spawner.i < p.n
       case Acquire => s.spawner.Acquiring? && s.slots < p.Capacity()
       case Spawn => s.spawner.Spawning? && s.spawner.i < p.n
       case StopSpawning => s.spawner.Adding? && s.spawner.i == p.n
       case Wait => s.spawner.Waiting? && s.waitGroup == 0
       case Finish(w, _) => At(s, w, Verifying)
       case Progress(w) => At(s, w, Written)
       case Release(w) => At(s, w, Counted) && s.slots > 0
       case SignOff(w) => At(s, w, Released)
  }

  function Move<R>(s: State<R>, w: nat, pc: Worker): State<R>
    requires w < |s.workers|
  {
    s.(workers := s.workers[w := pc])
  }

  function Apply<O, R>(p: Pool<O, R>, s: State<R>, a: Action<O>): State<R>
    requires Enabled(p, s, a)
  {
    match a
    case Add => s.(waitGroup := s.waitGroup + 1, spawner := Acquiring(s.spawner.i))
    case Acquire => s.(slots := s.slots + 1, spawner := Spawning(s.spawner.i))
    case Spawn => Move(s, s.spawner.i, Verifying).(spawner := Adding(s.spawner.i + 1))
    case StopSpawning => s.(spawner := Waiting)
    case Wait => s.(spawner := Returned)
    case Finish(w, outcome) =>
      Move(s, w, Written).(results := s.results[w := Some(p.result(w, outcome))],
                           writes := s.writes[w := s.writes[w] + 1])
    case Progress(w) => Move(s, w, Counted).(processed := s.processed + 1)
    case Release(w) => Move(s, w, Released).(slots := s.slots - 1)
    case SignOff(w) => Move(s, w, Done).(waitGroup := s.waitGroup - 1)
  }

  // ----- Counting workers -----

  predicate Holds(pc: Worker) { pc.Verifying? || pc.Written? || pc.Counted? }
  predicate Open(pc: Worker) { !pc.NotSpawned? && !pc.Done? }
  predicate Logged(pc: Worker) { pc.Counted? || pc.Released? || pc.Done? }
  predicate Wrote(pc: Worker) { !pc.NotSpawned? && !pc.Verifying? }

  function Count(ws: seq<Worker>, f: Worker -> bool): (c: nat)
    ensures c <= |ws|
  {
    if ws == [] then 0 else (if f(ws[0]) then 1 else 0) + Count(ws[1..], f)
  }

  lemma {:induction false} CountMove(ws: seq<Worker>, f: Worker -> bool, w: nat, pc: Worker)
    requires w < |ws|
    ensures Count(ws[w := pc], f) == Count(ws, f) - (if f(ws[w]) then 1 else 0) + (if f(pc) then 1 else 0)
  {
    if w > 0 {
      assert ws[w := pc][1..] == ws[1..][w - 1 := pc];
      CountMove(ws[1..], f, w - 1, pc);
    } else {
      assert ws[w := pc][1..] == ws[1..];
    }
  }

  lemma {:induction false} CountNone(ws: seq<Worker>, f: Worker -> bool)
    requires Count(ws, f) == 0
    ensures forall w :: 0 <= w < |ws| ==> !f(ws[w])
  {
    if ws != [] {
      CountNone(ws[1..], f);
      assert forall w :: 0 < w < |ws| ==> ws[w] == ws[1..][w - 1];
    }
  }

  lemma {:induction false} CountSome(ws: seq<Worker>, f: Worker -> bool) returns (w: nat)
    requires Count(ws, f) > 0
    ensures w < |ws| && f(ws[w])
  {
    if f(ws[0]) {
      w := 0;
    } else {
      var v := CountSome(ws[1..], f);
      w := v + 1;
    }
  }

  lemma {:induction false} CountInit(n: nat, f: Worker -> bool)
    requires !f(NotSpawned)
    ensures Count(seq(n, _ => NotSpawned), f) == 0
  {
    if n > 0 {
      assert seq(n, _ => NotSpawned)[1..] == seq(n - 1, _ => NotSpawned);
      CountInit(n - 1, f);
    }
  }

  lemma {:induction false} CountAll(ws: seq<Worker>, f: Worker -> bool)
    requires forall w :: 0 <= w < |ws| ==> f(ws[w])
    ensures Count(ws, f) == |ws|
  {
    if ws != [] {
      CountAll(ws[1..], f);
    }
  }

  // ----- Invariant -----

  /** Images whose worker has been started. */
  function Spawned(s: Spawner, n: nat): int {
    match s
    case Adding(i) => i
    case Acquiring(i) => i
    case Spawning(i) => i
    case _ => n
  }

  ghost predicate Shape<O, R>(p: Pool<O, R>, s: State<R>) {
    && |s.workers| == |s.results| == |s.writes| == p.n
    && Spawned(s.spawner, p.n) <= p.n
    && (s.spawner.Acquiring? || s.spawner.Spawning? ==> s.spawner.i < p.n)
    && (forall w :: 0 <= w < p.n ==> (s.workers[w].NotSpawned? <==> w >= Spawned(s.spawner, p.n)))
  }

  /** Slots taken: one per worker that holds one, and one the spawner holds for the worker it is starting. */
  ghost predicate SlotsCounted<O, R>(p: Pool<O, R>, s: State<R>) {
    && s.slots == Count(s.workers, Holds) + (if s.spawner.Spawning? then 1 else 0)
    && s.slots <= p.Capacity()
  }

  ghost predicate WaitCounted<R>(s: State<R>) {
    s.waitGroup == Count(s.workers, Open) + (if s.spawner.Acquiring? || s.spawner.Spawning? then 1 else 0)
  }

  ghost predicate ProgressCounted<R>(s: State<R>) {
    s.processed == Count(s.workers, Logged)
  }

  ghost predicate WrittenOnce<R>(s: State<R>) {
    && |s.workers| == |s.results| == |s.writes|
    && forall w :: 0 <= w < |s.workers| ==>
         s.writes[w] == (if Wrote(s.workers[w]) then 1 else 0) && (s.results[w].Some? <==> Wrote(s.workers[w]))
  }

  ghost predicate ReturnedLast<R>(s: State<R>) {
    s.spawner.Returned? ==> s.waitGroup == 0
  }

  ghost predicate Inv<O, R>(p: Pool<O, R>, s: State<R>) {
    Shape(p, s) && SlotsCounted(p, s) && WaitCounted(s) && ProgressCounted(s) && WrittenOnce(s) && ReturnedLast(s)
  }

  lemma InitHolds<O, R>(p: Pool<O, R>)
    ensures Inv(p, Init(p))
  {
    CountInit(p.n, Holds);
    CountInit(p.n, Open);
    CountInit(p.n, Logged);
  }

  /** The worker an action moves and where it goes. */
  function Mover<O, R>(s: State<R>, a: Action<O>): Option<(nat, Worker)> {
    match a
    case Spawn => if s.spawner.Spawning? then Some((s.spawner.i, Verifying)) else None
    case Finish(w, _) => Some((w, Written))
    case Progress(w) => Some((w, Counted))
    case Release(w) => Some((w, Released))
    case SignOff(w) => Some((w, Done))
    case _ => None
  }

  lemma StepMoves<O, R>(p: Pool<O, R>, s: State<R>, a: Action<O>)
    requires Enabled(p, s, a)
    ensures Mover(s, a).None? ==> Apply(p, s, a).workers == s.workers
    ensures Mover(s, a).Some? ==> Mover(s, a).value.0 < |s.workers|
                                  && Apply(p, s, a).workers == s.workers[Mover(s, a).value.0 := Mover(s, a).value.1]
  {
  }

  lemma StepCounts<O, R>(p: Pool<O, R>, s: State<R>, a: Action<O>)
    requires Shape(p, s) && Enabled(p, s, a)
    requires SlotsCounted(p, s) && WaitCounted(s) && ProgressCounted(s)
    ensures var t := Apply(p, s, a); SlotsCounted(p, t) && WaitCounted(t) && ProgressCounted(t)
  {
    StepMoves(p, s, a);
    if Mover(s, a).Some? {
      var (w, pc) := Mover(s, a).value;
      CountMove(s.workers, Holds, w, pc);
      CountMove(s.workers, Open, w, pc);
      CountMove(s.workers, Logged, w, pc);
    }
  }

  lemma StepKeepsRest<O, R>(p: Pool<O, R>, s: State<R>, a: Action<O>)
    requires Inv(p, s) && Enabled(p, s, a)
    ensures var t := Apply(p, s, a); Shape(p, t) && WrittenOnce(t)
  {
  }

  lemma StepKeepsReturned<O, R>(p: Pool<O, R>, s: State<R>, a: Action<O>)
    requires Inv(p, s) && Enabled(p, s, a)
    ensures ReturnedLast(Apply(p, s, a))
  {
    if s.spawner.Returned? {
      CountNone(s.workers, Open);
    }
  }

  lemma StepKeepsInv<O, R>(p: Pool<O, R>, s: State<R>, a: Action<O>)
    requires Inv(p, s) && Enabled(p, s, a)
    ensures Inv(p, Apply(p, s, a))
  {
    StepCounts(p, s, a);
    StepKeepsRest(p, s, a);
    StepKeepsReturned(p, s, a);
  }

  // ----- No deadlock, and every schedule ends -----

  /** Unless the call has returned, some step of the program itself can be taken. */
  lemma NeverStuck<O, R>(p: Pool<O, R>, s: State<R>, outcome: Outcome<O>) returns (a: Action<O>)
    requires Inv(p, s) && !s.spawner.Returned?
    ensures Enabled(p, s, a)
  {
    match s.spawner
    case Adding(i) => a := if i < p.n then Add else StopSpawning;
    case Acquiring(i) =>
      if s.slots < p.Capacity() {
        a := Acquire;
      } else {
        var w := CountSome(s.workers, Holds);
        a := WorkerStep(s.workers[w], w, outcome);
      }
    case Spawning(_) => a := Spawn;
    case Waiting =>
      if s.waitGroup == 0 {
        a := Wait;
      } else {
        var w := CountSome(s.workers, Open);
        a := WorkerStep(s.workers[w], w, outcome);
        if s.workers[w].Counted? && Count(s.workers, Holds) == 0 {
          CountNone(s.workers, Holds);
        }
      }
  }

  function WorkerStep<O>(pc: Worker, w: nat, outcome: Outcome<O>): Action<O> {
    match pc
    case Verifying => Finish(w, outcome)
    case Written => Progress(w)
    case Counted => Release(w)
    case _ => SignOff(w)
  }

  function WorkerLeft(pc: Worker): nat {
    match pc
    case NotSpawned => 4
    case Verifying => 4
    case Written => 3
    case Counted => 2
    case Released => 1
    case Done => 0
  }

  function WorkersLeft(ws: seq<Worker>): nat {
    if ws == [] then 0 else WorkerLeft(ws[0]) + WorkersLeft(ws[1..])
  }

  function SpawnerLeft(s: Spawner, n: nat): int {
    match s
    case Adding(i) => 3 * (n - i) + 2
    case Acquiring(i) => 3 * (n - i) + 1
    case Spawning(i) => 3 * (n - i)
    case Waiting => 1
    case Returned => 0
  }

  lemma {:induction false} WorkersLeftMove(ws: seq<Worker>, w: nat, pc: Worker)
    requires w < |ws|
    ensures WorkersLeft(ws[w := pc]) == WorkersLeft(ws) - WorkerLeft(ws[w]) + WorkerLeft(pc)
  {
    if w > 0 {
      assert ws[w := pc][1..] == ws[1..][w - 1 := pc];
      WorkersLeftMove(ws[1..], w - 1, pc);
    } else {
      assert ws[w := pc][1..] == ws[1..];
    }
  }

  function StepsLeft<O, R>(p: Pool<O, R>, s: State<R>): int {
    SpawnerLeft(s.spawner, p.n) + WorkersLeft(s.workers)
  }

  /** Every step takes exactly one off the number of steps left, so every schedule is finite
      and all complete schedules have the same length. */
  lemma StepsCountDown<O, R>(p: Pool<O, R>, s: State<R>, a: Action<O>)
    requires Inv(p, s) && Enabled(p, s, a)
    ensures StepsLeft(p, Apply(p, s, a)) == StepsLeft(p, s) - 1 >= 0
  {
    StepMoves(p, s, a);
    if Mover(s, a).Some? {
      var (w, pc) := Mover(s, a).value;
      WorkersLeftMove(s.workers, w, pc);
    }
    StepKeepsInv(p, s, a);
  }

  // ----- Whole runs -----

  ghost predicate IsRun<O, R>(p: Pool<O, R>, run: seq<State<R>>, acts: seq<Action<O>>) {
    && |run| == |acts| + 1
    && run[0] == Init(p)
    && forall i :: 0 <= i < |acts| ==> Enabled(p, run[i], acts[i]) && run[i + 1] == Apply(p, run[i], acts[i])
  }

  lemma {:induction false} InvAlongRun<O, R>(p: Pool<O, R>, run: seq<State<R>>, acts: seq<Action<O>>, k: nat)
    requires IsRun(p, run, acts) && k < |run|
    ensures Inv(p, run[k])
  {
    if k == 0 {
      InitHolds(p);
    } else {
      InvAlongRun(p, run, acts, k - 1);
      StepKeepsInv(p, run[k - 1], acts[k - 1]);
    }
  }

  /** At no moment do more workers hold a slot than the bound allows, a bound below one counting as one. */
  lemma PoolIsBounded<O, R>(p: Pool<O, R>, run: seq<State<R>>, acts: seq<Action<O>>, k: nat)
    requires IsRun(p, run, acts) && k < |run|
    ensures Count(run[k].workers, Holds) <= if p.maxConcurrent < 1 then 1 else p.maxConcurrent
    ensures run[k].waitGroup >= 0
  {
    InvAlongRun(p, run, acts, k);
  }

  /** The first `m` workers are verifying, and the next one is about to be added. */
  ghost predicate Filled<O, R>(p: Pool<O, R>, s: State<R>, m: nat) {
    && m <= p.n && s.spawner == Adding(m) && s.slots == m
    && |s.workers| == |s.results| == |s.writes| == p.n
    && (forall w :: 0 <= w < m ==> s.workers[w].Verifying?)
    && Count(s.workers, Holds) == m
  }

  lemma FillOneMore<O, R>(p: Pool<O, R>, s: State<R>, m: nat) returns (t: State<R>, u: State<R>, v: State<R>)
    requires Filled(p, s, m) && m < p.n && m < (if p.maxConcurrent < 1 then 1 else p.maxConcurrent)
    requires s.workers[m].NotSpawned?
    ensures Enabled(p, s, Add) && t == Apply(p, s, Add) && Enabled(p, t, Acquire) && u == Apply(p, t, Acquire)
    ensures Enabled(p, u, Spawn) && v == Apply(p, u, Spawn) && Filled(p, v, m + 1)
    ensures forall w :: m < w < p.n ==> v.workers[w] == s.workers[w]
  {
    t := Apply(p, s, Add);
    u := Apply(p, t, Acquire);
    v := Apply(p, u, Spawn);
    CountMove(s.workers, Holds, m, Verifying);
  }

  /** The bound is reached: there is a run in which as many workers hold a slot at once as there are images and the
      bound allows, a bound below one counting as one. */
  lemma {:induction false} BoundIsReached<O, R>(p: Pool<O, R>, m: nat)
    returns (run: seq<State<R>>, acts: seq<Action<O>>)
    requires m <= p.n && m <= if p.maxConcurrent < 1 then 1 else p.maxConcurrent
    ensures IsRun(p, run, acts) && Filled(p, run[|acts|], m) && Count(run[|acts|].workers, Holds) == m
    ensures forall w :: m <= w < p.n ==> run[|acts|].workers[w].NotSpawned?
  {
    if m == 0 {
      run, acts := [Init(p)], [];
      CountInit(p.n, Holds);
    } else {
      run, acts := BoundIsReached(p, m - 1);
      var t, u, v := FillOneMore(p, run[|acts|], m - 1);
      run, acts := run + [t, u, v], acts + [Add, Acquire, Spawn];
    }
  }

  lemma {:induction false} RunLength<O, R>(p: Pool<O, R>, run: seq<State<R>>, acts: seq<Action<O>>, k: nat)
    requires IsRun(p, run, acts) && k < |run|
    ensures StepsLeft(p, run[k]) == 7 * p.n + 2 - k
  {
    if k == 0 {
      AllToDo(p.n);
    } else {
      RunLength(p, run, acts, k - 1);
      InvAlongRun(p, run, acts, k - 1);
      StepsCountDown(p, run[k - 1], acts[k - 1]);
    }
  }

  lemma {:induction false} AllToDo(n: nat)
    ensures WorkersLeft(seq(n, _ => NotSpawned)) == 4 * n
  {
    if n > 0 {
      assert seq(n, _ => NotSpawned)[1..] == seq(n - 1, _ => NotSpawned);
      AllToDo(n - 1);
    }
  }

  /** No schedule deadlocks or runs on: every run has at most 7n + 2 steps, and short of that length
      the call has not returned and can go on. */
  lemma EveryScheduleReturns<O, R>(p: Pool<O, R>, run: seq<State<R>>, acts: seq<Action<O>>, outcome: Outcome<O>)
    returns (a: Action<O>)
    requires IsRun(p, run, acts)
    ensures |acts| <= 7 * p.n + 2
    ensures |acts| == 7 * p.n + 2 ==> run[|acts|].spawner.Returned?
    ensures |acts| < 7 * p.n + 2 ==> Enabled(p, run[|acts|], a)
  {
    var last := run[|acts|];
    InvAlongRun(p, run, acts, |acts|);
    RunLength(p, run, acts, |acts|);
    WorkersDone(p, last);
    a := Add;
    if !last.spawner.Returned? {
      a := NeverStuck(p, last, outcome);
      StepsCountDown(p, last, a);
    }
  }

  lemma {:induction false} NothingLeft(ws: seq<Worker>)
    requires forall w :: 0 <= w < |ws| ==> ws[w].Done?
    ensures WorkersLeft(ws) == 0
  {
    if ws != [] {
      NothingLeft(ws[1..]);
    }
  }

  /** When the call returns every worker has signed off. */
  lemma WorkersDone<O, R>(p: Pool<O, R>, s: State<R>)
    requires Inv(p, s)
    ensures s.spawner.Returned? ==> WorkersLeft(s.workers) == 0 && forall w :: 0 <= w < p.n ==> s.workers[w].Done?
  {
    if s.spawner.Returned? {
      CountNone(s.workers, Open);
      NothingLeft(s.workers);
    }
  }

  /** The schedule gives image `w` the outcome `f(w)`. */
  ghost predicate Follows<O>(acts: seq<Action<O>>, f: nat -> Outcome<O>) {
    forall i :: 0 <= i < |acts| ==> acts[i].Finish? ==> acts[i].outcome == f(acts[i].w)
  }

  lemma {:induction false} ResultsFollow<O, R>(p: Pool<O, R>, run: seq<State<R>>, acts: seq<Action<O>>,
                                               f: nat -> Outcome<O>, k: nat)
    requires IsRun(p, run, acts) && Follows(acts, f) && k < |run|
    ensures |run[k].results| == p.n
    ensures forall w :: 0 <= w < p.n && run[k].results[w].Some? ==> run[k].results[w].value == p.result(w, f(w))
  {
    if k > 0 {
      ResultsFollow(p, run, acts, f, k - 1);
      InvAlongRun(p, run, acts, k - 1);
    }
  }

  /** When the call returns, every slot was written exactly once and holds the result of its own image's outcome,
      whatever the schedule; the semaphore is empty and every image was counted. */
  lemma PoolDelivers<O, R>(p: Pool<O, R>, run: seq<State<R>>, acts: seq<Action<O>>, f: nat -> Outcome<O>)
    requires IsRun(p, run, acts) && Follows(acts, f) && run[|acts|].spawner.Returned?
    ensures var last := run[|acts|];
      && |last.results| == |last.writes| == p.n && last.slots == 0 && last.processed == p.n
      && (forall w :: 0 <= w < p.n ==> last.writes[w] == 1 && last.results[w] == Some(p.result(w, f(w))))
  {
    var last := run[|acts|];
    InvAlongRun(p, run, acts, |acts|);
    ResultsFollow(p, run, acts, f, |acts|);
    WorkersDone(p, last);
    CountAll(last.workers, Logged);
    if last.slots > 0 {
      var w := CountSome(last.workers, Holds);
    }
  }
}
