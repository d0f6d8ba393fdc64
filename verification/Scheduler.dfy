// The per-UE scheduler: workers with a bounded channel each, a stop signal, and a
// shutdown that waits for all of them. A step of the state machine is one channel
// operation or one beginning or end of a handler call; any goroutine may go next.

module Scheduler {

  type U64 = x: int | 0 <= x < 0x1_0000_0000_0000_0000

  datatype Task = Task(ueId: U64, message: nat)

  // Where a worker is: in the select of run, in a handler call (from run or from
  // drainAndExit), in the select of drainAndExit, or gone.
  datatype Phase = Idle | Handling(task: Task, draining: bool) | Draining | Exited | Panicked(task: Task)

  datatype WorkerState = WorkerState(queue: seq<Task>, stopped: bool, phase: Phase)

  // began and ended list the handler calls in the order in which they began and ended.
  datatype State = State(workers: seq<WorkerState>, accepted: seq<Task>, began: seq<Task>, ended: seq<Task>, returned: bool)

  datatype Step =
    | Accept(task: Task)        // Submit puts the task into the buffer
    | HandOver(task: Task)      // Submit meets a worker that is waiting to receive
    | Reject(task: Task)        // Submit sees the stop signal
    | Take(w: nat) | Finish(w: nat) | Panic(w: nat)
    | Stop(w: nat) | SeeStop(w: nat)
    | DrainTake(w: nat) | DrainExit(w: nat)
    | Return                    // Shutdown has stopped every worker and wg.Wait is over

  // hashUEID
  function Hash(ueId: U64, numWorkers: nat): (w: nat)
    requires numWorkers > 0
    ensures w < numWorkers
  {
    ueId % numWorkers
  }

  function Target(s: State, t: Task): (w: nat)
    requires s.workers != []
    ensures w < |s.workers|
  {
    Hash(t.ueId, |s.workers|)
  }

  predicate Gone(w: WorkerState) {
    w.phase.Exited? || w.phase.Panicked?
  }

  predicate Enabled(capacity: nat, s: State, e: Step) {
    && s.workers != []
    && (e.Take? || e.Finish? || e.Panic? || e.Stop? || e.SeeStop? || e.DrainTake? || e.DrainExit? ==> e.w < |s.workers|)
    && match e
       case Accept(t) => |s.workers[Target(s, t)].queue| < capacity
       case HandOver(t) =>
         var w := s.workers[Target(s, t)];
         w.queue == [] && (w.phase.Idle? || w.phase.Draining?)
       case Reject(t) => s.workers[Target(s, t)].stopped
       case Take(i) => s.workers[i].phase.Idle? && s.workers[i].queue != []
       case Finish(i) => s.workers[i].phase.Handling?
       case Panic(i) => s.workers[i].phase.Handling?
       case Stop(i) => true
       case SeeStop(i) => s.workers[i].phase.Idle? && s.workers[i].stopped
       case DrainTake(i) => s.workers[i].phase.Draining? && s.workers[i].queue != []
       case DrainExit(i) => s.workers[i].phase.Draining? && s.workers[i].queue == []
       case Return => forall w :: w in s.workers ==> w.stopped && Gone(w)
  }

  // What one channel operation, or the end of a handler call, makes of a worker
  function Buffer(w: WorkerState, t: Task): WorkerState { w.(queue := w.queue + [t]) }

  function Meet(w: WorkerState, t: Task): WorkerState { w.(phase := Handling(t, w.phase.Draining?)) }

  function TakeFirst(w: WorkerState, draining: bool): WorkerState
    requires w.queue != []
  {
    w.(queue := w.queue[1..], phase := Handling(w.queue[0], draining))
  }

  function End(w: WorkerState): WorkerState
    requires w.phase.Handling?
  {
    w.(phase := if w.phase.draining then Draining else Idle)
  }

  function Apply(capacity: nat, s: State, e: Step): (s': State)
    requires Enabled(capacity, s, e)
    ensures |s'.workers| == |s.workers|
  {
    match e
    case Accept(t) =>
      var i := Target(s, t);
      var w := s.workers[i];
      s.(workers := s.workers[i := Buffer(w, t)], accepted := s.accepted + [t])
    case HandOver(t) =>
      var i := Target(s, t);
      var w := s.workers[i];
      s.(workers := s.workers[i := Meet(w, t)],
         accepted := s.accepted + [t], began := s.began + [t])
    case Reject(_) => s
    case Take(i) => Receive(s, i, false)
    case DrainTake(i) => Receive(s, i, true)
    case Finish(i) =>
      var w := s.workers[i];
      s.(workers := s.workers[i := End(w)],
         ended := s.ended + [w.phase.task])
    case Panic(i) =>
      var w := s.workers[i];
      s.(workers := s.workers[i := w.(phase := Panicked(w.phase.task))])
    case Stop(i) => s.(workers := s.workers[i := s.workers[i].(stopped := true)])
    case SeeStop(i) => s.(workers := s.workers[i := s.workers[i].(phase := Draining)])
    case DrainExit(i) => s.(workers := s.workers[i := s.workers[i].(phase := Exited)])
    case Return => s.(returned := true)
  }

  function Receive(s: State, i: nat, draining: bool): (s': State)
    requires i < |s.workers| && s.workers[i].queue != []
    ensures |s'.workers| == |s.workers|
  {
    var w := s.workers[i];
    s.(workers := s.workers[i := TakeFirst(w, draining)],
       began := s.began + [w.queue[0]])
  }

  // A worker as its goroutine and its callers see it; each method up to DrainAndExit is
  // one step above, and requires that the operation does not block.
  class Worker {
    const bufferSize: nat
    var taskChan: seq<Task>
    var stopped: bool  // stopChan is closed
    var phase: Phase
    ghost var handled: seq<Task>

    function View(): WorkerState
      reads this
    {
      WorkerState(taskChan, stopped, phase)
    }

    constructor (bufferSize: nat)
      ensures View() == WorkerState([], false, Idle) && this.bufferSize == bufferSize && handled == []
    {
      this.bufferSize, taskChan, stopped, phase, handled := bufferSize, [], false, Idle, [];
    }

    // With both cases of the select ready, either may be chosen.
    method Submit(task: Task) returns (accepted: bool)
      requires |taskChan| < bufferSize || (taskChan == [] && (phase.Idle? || phase.Draining?)) || stopped
      modifies this`taskChan, this`phase
      ensures !accepted ==> stopped && View() == old(View())
      ensures accepted ==>
                || (old(|taskChan|) < bufferSize && View() == Buffer(old(View()), task))
                || (old(taskChan == [] && (phase.Idle? || phase.Draining?)) && View() == Meet(old(View()), task))
    {
      if {
        case |taskChan| < bufferSize =>
          taskChan := taskChan + [task];
          accepted := true;
        case taskChan == [] && (phase.Idle? || phase.Draining?) =>
          phase := Handling(task, phase.Draining?);
          accepted := true;
        case stopped =>
          accepted := false;
      }
    }

    method Stop()
      modifies this`stopped
      ensures View() == old(View()).(stopped := true)
    {
      stopped := true;
    }

    // The select of run
    method Select()
      requires phase.Idle? && (taskChan != [] || stopped)
      modifies this`taskChan, this`phase
      ensures || (old(taskChan) != [] && View() == TakeFirst(old(View()), false))
              || (stopped && View() == old(View()).(phase := Draining))
    {
      if {
        case taskChan != [] =>
          phase := Handling(taskChan[0], false);
          taskChan := taskChan[1..];
        case stopped =>
          phase := Draining;
      }
    }

    // The select of drainAndExit: its default is chosen only when the buffer is empty.
    method SelectOrExit()
      requires phase.Draining?
      modifies this`taskChan, this`phase
      ensures View() == if old(taskChan) != [] then TakeFirst(old(View()), true) else old(View()).(phase := Exited)
    {
      if taskChan != [] {
        phase := Handling(taskChan[0], true);
        taskChan := taskChan[1..];
      } else {
        phase := Exited;
      }
    }

    // The handler returns.
    method EndHandler()
      requires phase.Handling?
      modifies this`phase, this`handled
      ensures View() == End(old(View())) && handled == old(handled) + [old(phase.task)]
    {
      handled := handled + [phase.task];
      phase := if phase.draining then Draining else Idle;
    }

    // drainAndExit, when nothing is submitted meanwhile
    method DrainAndExit()
      requires phase.Draining?
      modifies this`taskChan, this`phase, this`handled
      ensures View() == WorkerState([], stopped, Exited) && handled == old(handled) + old(taskChan)
    {
      while !phase.Exited?
        invariant phase.Draining? || phase.Exited?
        invariant handled + taskChan == old(handled) + old(taskChan)
        invariant phase.Exited? ==> taskChan == []
        decreases |taskChan|, phase.Draining?
      {
        SelectOrExit();
        if phase.Handling? {
          EndHandler();
        }
      }
    }
  }

  function Start(numWorkers: nat): State {
    State(seq(numWorkers, _ => WorkerState([], false, Idle)), [], [], [], false)
  }

  ghost predicate Run(capacity: nat, states: seq<State>, steps: seq<Step>) {
    && |states| == |steps| + 1
    && |states[0].workers| > 0 && states[0] == Start(|states[0].workers|)
    && forall i {:trigger steps[i]} :: 0 <= i < |steps| ==>
         Enabled(capacity, states[i], steps[i]) && states[i + 1] == Apply(capacity, states[i], steps[i])
  }

  // ----- projections -----

  // The tasks of one worker, and those of one key
  function On(tasks: seq<Task>, n: nat, w: nat): seq<Task>
    requires n > 0
  {
    if tasks == [] then []
    else
      var last := tasks[|tasks| - 1];
      On(tasks[..|tasks| - 1], n, w) + if Hash(last.ueId, n) == w then [last] else []
  }

  function Of(tasks: seq<Task>, key: U64): seq<Task> {
    if tasks == [] then []
    else
      var last := tasks[|tasks| - 1];
      Of(tasks[..|tasks| - 1], key) + if last.ueId == key then [last] else []
  }

  lemma OnAppend(tasks: seq<Task>, t: Task, n: nat, w: nat)
    requires n > 0
    ensures On(tasks + [t], n, w) == On(tasks, n, w) + if Hash(t.ueId, n) == w then [t] else []
  {
    assert (tasks + [t])[..|tasks|] == tasks;
  }

  lemma OfAppend(tasks: seq<Task>, t: Task, key: U64)
    ensures Of(tasks + [t], key) == Of(tasks, key) + if t.ueId == key then [t] else []
  {
    assert (tasks + [t])[..|tasks|] == tasks;
  }

  lemma {:induction false} OfConcat(a: seq<Task>, b: seq<Task>, key: U64)
    ensures Of(a + b, key) == Of(a, key) + Of(b, key)
  {
    if b == [] {
      assert a + b == a;
    } else {
      var front, last := b[..|b| - 1], b[|b| - 1];
      OfConcat(a, front, key);
      assert a + b == (a + front) + [last];
      OfAppend(a + front, last, key);
    }
  }

  // All tasks of a key are tasks of one worker.
  lemma {:induction false} KeyIsOnItsWorker(tasks: seq<Task>, n: nat, key: U64)
    requires n > 0
    ensures Of(On(tasks, n, Hash(key, n)), key) == Of(tasks, key)
  {
    if tasks != [] {
      var front, last := tasks[..|tasks| - 1], tasks[|tasks| - 1];
      KeyIsOnItsWorker(front, n, key);
      var on := On(front, n, Hash(key, n));
      assert on + [] == on && Of(front, key) + [] == Of(front, key);
      OfAppend(on, last, key);
    }
  }

  // ----- the invariant -----

  function Current(w: WorkerState): seq<Task> {
    if w.phase.Handling? || w.phase.Panicked? then [w.phase.task] else []
  }

  // What a worker was given is what it began with, in order, and what still waits; all
  // that it began has ended except the call it is in.
  predicate InOrder(s: State, i: nat)
    requires i < |s.workers|
  {
    var n, w := |s.workers|, s.workers[i];
    && On(s.accepted, n, i) == On(s.began, n, i) + w.queue
    && On(s.began, n, i) == On(s.ended, n, i) + Current(w)
    && (forall t :: t in w.queue + Current(w) ==> Hash(t.ueId, n) == i)
    && (w.phase.Exited? || w.phase.Draining? || (w.phase.Handling? && w.phase.draining) ==> w.stopped)
  }

  ghost predicate Inv(s: State) {
    && s.workers != []
    && forall i {:trigger InOrder(s, i)} :: 0 <= i < |s.workers| ==> InOrder(s, i)
  }

  lemma StartInv(n: nat)
    requires n > 0
    ensures Inv(Start(n))
  {
  }

  lemma StepKeepsOrder(capacity: nat, s: State, e: Step, i: nat)
    requires Inv(s) && Enabled(capacity, s, e) && i < |s.workers|
    ensures InOrder(Apply(capacity, s, e), i)
  {
    hide On, Hash;
    assert InOrder(s, i);
    match e
    case Accept(t) => AcceptKeepsOrder(s, t, i);
    case HandOver(t) => HandOverKeepsOrder(capacity, s, t, i);
    case Take(j) => assert InOrder(s, j); ReceiveKeepsOrder(s, j, false, i);
    case DrainTake(j) => assert InOrder(s, j); ReceiveKeepsOrder(s, j, true, i);
    case Finish(j) => assert InOrder(s, j); FinishKeepsOrder(capacity, s, j, i);
    case _ =>
  }

  lemma AcceptKeepsOrder(s: State, t: Task, i: nat)
    requires s.workers != [] && i < |s.workers| && InOrder(s, i)
    ensures var j := Target(s, t);
      var w := s.workers[j];
      InOrder(s.(workers := s.workers[j := w.(queue := w.queue + [t])], accepted := s.accepted + [t]), i)
  {
    hide On, Hash;
    var n, began, queue := |s.workers|, On(s.began, |s.workers|, i), s.workers[i].queue;
    OnAppend(s.accepted, t, n, i);
    assert (began + queue) + [t] == began + (queue + [t]) && (began + queue) + [] == began + queue;
  }

  lemma HandOverKeepsOrder(capacity: nat, s: State, t: Task, i: nat)
    requires Enabled(capacity, s, HandOver(t)) && i < |s.workers| && InOrder(s, i)
    ensures InOrder(Apply(capacity, s, HandOver(t)), i)
  {
    hide On, Hash;
    var n := |s.workers|;
    var accepted, began, ended := On(s.accepted, n, i), On(s.began, n, i), On(s.ended, n, i);
    OnAppend(s.accepted, t, n, i);
    OnAppend(s.began, t, n, i);
    assert accepted + [] == accepted && began + [] == began && ended + [] == ended && (began + [t]) + [] == began + [t];
  }

  lemma ReceiveKeepsOrder(s: State, j: nat, draining: bool, i: nat)
    requires i < |s.workers| && j < |s.workers| && s.workers[j].queue != [] && InOrder(s, i) && InOrder(s, j)
    requires if draining then s.workers[j].phase.Draining? else s.workers[j].phase.Idle?
    ensures InOrder(Receive(s, j, draining), i)
  {
    hide On, Hash;
    var n, queue := |s.workers|, s.workers[j].queue;
    var began, ended := On(s.began, n, i), On(s.ended, n, i);
    assert queue[0] in queue + Current(s.workers[j]);
    OnAppend(s.began, queue[0], n, i);
    assert began + ([queue[0]] + queue[1..]) == (began + [queue[0]]) + queue[1..] && [queue[0]] + queue[1..] == queue;
    assert began + [] == began && ended + [] == ended;
    forall t | t in queue[1..] + [queue[0]] ensures t in queue + Current(s.workers[j]) {}
  }

  lemma FinishKeepsOrder(capacity: nat, s: State, j: nat, i: nat)
    requires i < |s.workers| && InOrder(s, i)
    requires Enabled(capacity, s, Finish(j)) && InOrder(s, j)
    ensures InOrder(Apply(capacity, s, Finish(j)), i)
  {
    hide On, Hash;
    var n, t := |s.workers|, s.workers[j].phase.task;
    assert t in s.workers[j].queue + Current(s.workers[j]);
    OnAppend(s.ended, t, n, i);
    var ended := On(s.ended, n, i);
    assert ended + [] == ended && (ended + [t]) + [] == ended + [t];
    forall u | u in s.workers[j].queue + [] ensures u in s.workers[j].queue + Current(s.workers[j]) {}
  }

  lemma {:induction false} RunKeepsInv(capacity: nat, states: seq<State>, steps: seq<Step>, k: nat)
    requires Run(capacity, states, steps) && k <= |steps|
    ensures Inv(states[k]) && |states[k].workers| == |states[0].workers|
  {
    if k == 0 {
      StartInv(|states[0].workers|);
    } else {
      RunKeepsInv(capacity, states, steps, k - 1);
      var s, e := states[k - 1], steps[k - 1];
      forall i | 0 <= i < |states[k].workers| ensures InOrder(states[k], i) { StepKeepsOrder(capacity, s, e, i); }
    }
  }

  // ----- what every interleaving guarantees -----

  // No channel ever holds more than it has room for.
  lemma {:induction false} BuffersAreBounded(capacity: nat, states: seq<State>, steps: seq<Step>, k: nat, w: nat)
    requires Run(capacity, states, steps) && k <= |steps| && w < |states[k].workers|
    ensures |states[k].workers[w].queue| <= capacity
  {
    if k > 0 {
      assert Enabled(capacity, states[k - 1], steps[k - 1]);
      BuffersAreBounded(capacity, states, steps, k - 1, w);
    }
  }

  // A worker sees the stop signal exactly if it has been stopped, so Submit rejects a task
  // only after that; and it begins to drain only then.
  lemma {:induction false} StoppedExactly(capacity: nat, states: seq<State>, steps: seq<Step>, k: nat, w: nat)
    requires Run(capacity, states, steps) && k <= |steps| && w < |states[k].workers|
    ensures states[k].workers[w].stopped <==> exists i :: 0 <= i < k && steps[i] == Stop(w)
  {
    if k > 0 {
      var e := steps[k - 1];
      assert Enabled(capacity, states[k - 1], e);
      StoppedExactly(capacity, states, steps, k - 1, w);
      assert states[k].workers[w].stopped <==> states[k - 1].workers[w].stopped || e == Stop(w);
    }
  }

  // Each worker has a key of its own among the first ones, and from there on the keys go
  // round the workers.
  lemma KeysGoRound(key: U64, numWorkers: nat)
    requires numWorkers > 0
    ensures key < numWorkers ==> Hash(key, numWorkers) == key
    ensures key + numWorkers < 0x1_0000_0000_0000_0000 ==> Hash(key + numWorkers, numWorkers) == Hash(key, numWorkers)
  {
    if key < numWorkers {
      Remainder(key, numWorkers, 0, key);
    }
    var q, m := key / numWorkers, key % numWorkers;
    assert key + numWorkers == (q + 1) * numWorkers + m;
    Remainder(key + numWorkers, numWorkers, q + 1, m);
  }

  lemma Remainder(a: nat, n: nat, q: nat, m: nat)
    requires m < n && a == q * n + m
    ensures a % n == m
  {
    var d := a / n - q;
    assert d * n == m - a % n;
    assert d > 0 ==> d * n >= n;
    assert d < 0 ==> d * n + n <= 0;
  }

  // The handler calls of a key begin in the order in which its tasks were accepted,
  // and the next begins only after the one before has ended: at most one is open.
  lemma KeysAreSequential(capacity: nat, states: seq<State>, steps: seq<Step>, k: nat, key: U64)
    requires Run(capacity, states, steps) && k <= |steps|
    ensures var s := states[k];
      && Of(s.began, key) <= Of(s.accepted, key)
      && Of(s.ended, key) <= Of(s.began, key)
      && |Of(s.began, key)| <= |Of(s.ended, key)| + 1
  {
    RunKeepsInv(capacity, states, steps, k);
    var s := states[k];
    var n := |s.workers|;
    var i := Hash(key, n);
    assert InOrder(s, i);
    KeyIsOnItsWorker(s.accepted, n, key);
    KeyIsOnItsWorker(s.began, n, key);
    KeyIsOnItsWorker(s.ended, n, key);
    OfConcat(On(s.began, n, i), s.workers[i].queue, key);
    OfConcat(On(s.ended, n, i), Current(s.workers[i]), key);
    AtMostOne(Current(s.workers[i]), key);
  }

  lemma AtMostOne(tasks: seq<Task>, key: U64)
    requires |tasks| <= 1
    ensures |Of(tasks, key)| <= 1
  {
  }

  // Two workers never handle tasks of the same key.
  lemma NoKeyOnTwoWorkers(capacity: nat, states: seq<State>, steps: seq<Step>, k: nat, i: nat, j: nat)
    requires Run(capacity, states, steps) && k <= |steps|
    requires i < j < |states[k].workers| && states[k].workers[i].phase.Handling? && states[k].workers[j].phase.Handling?
    ensures states[k].workers[i].phase.task.ueId != states[k].workers[j].phase.task.ueId
  {
    RunKeepsInv(capacity, states, steps, k);
    var s := states[k];
    assert InOrder(s, i) && InOrder(s, j);
    assert s.workers[i].phase.task in Current(s.workers[i]) && s.workers[j].phase.task in Current(s.workers[j]);
  }

  lemma {:induction false} OnIsMonotone(a: seq<Task>, b: seq<Task>, n: nat, w: nat)
    requires n > 0
    ensures On(a, n, w) <= On(a + b, n, w)
  {
    if b == [] {
      assert a + b == a;
    } else {
      var front := b[..|b| - 1];
      OnIsMonotone(a, front, n, w);
      assert a + b == (a + front) + [b[|b| - 1]];
      OnAppend(a + front, b[|b| - 1], n, w);
    }
  }

  lemma LogsGrow(capacity: nat, s: State, e: Step)
    requires Enabled(capacity, s, e)
    ensures var s' := Apply(capacity, s, e); s.accepted <= s'.accepted && s.ended <= s'.ended
  {
  }

  lemma {:induction false} AcceptedGrows(capacity: nat, states: seq<State>, steps: seq<Step>, i: nat, j: nat)
    requires Run(capacity, states, steps) && i <= j <= |steps|
    ensures states[i].accepted <= states[j].accepted
  {
    if i < j {
      AcceptedGrows(capacity, states, steps, i, j - 1);
      LogsGrow(capacity, states[j - 1], steps[j - 1]);
    }
  }

  lemma OnPrefix(a: seq<Task>, b: seq<Task>, n: nat, w: nat)
    requires n > 0 && a <= b
    ensures On(a, n, w) <= On(b, n, w)
  {
    assert b == a + b[|a|..];
    OnIsMonotone(a, b[|a|..], n, w);
  }

  // A worker that has left by itself has handled, in order, everything it was given
  // up to any point at which it was still there, stopped or not.
  lemma {:induction false} ExitedHandledAll(
    capacity: nat, states: seq<State>, steps: seq<Step>, i: nat, j: nat, w: nat)
    requires Run(capacity, states, steps) && i <= j <= |steps| && w < |states[0].workers| == |states[i].workers| == |states[j].workers|
    requires !states[i].workers[w].phase.Exited? && states[j].workers[w].phase.Exited?
    ensures On(states[i].accepted, |states[0].workers|, w) <= On(states[j].ended, |states[0].workers|, w)
    decreases j
  {
    RunKeepsInv(capacity, states, steps, j);
    var n := |states[0].workers|;
    assert InOrder(states[j], w);
    if i < j {
      RunKeepsInv(capacity, states, steps, j - 1);
      var s, e := states[j - 1], steps[j - 1];
      LogsGrow(capacity, s, e);
      OnPrefix(s.ended, states[j].ended, n, w);
      if s.workers[w].phase.Exited? {
        ExitedHandledAll(capacity, states, steps, i, j - 1, w);
      } else {
        assert e == DrainExit(w);
        AcceptedGrows(capacity, states, steps, i, j);
        OnPrefix(states[i].accepted, states[j].accepted, n, w);
      }
    }
  }

  // A worker that has left ends no further call.
  lemma {:induction false} ExitedEndsNothing(capacity: nat, states: seq<State>, steps: seq<Step>, i: nat, j: nat, w: nat)
    requires Run(capacity, states, steps) && i <= j <= |steps| && w < |states[0].workers| == |states[i].workers| == |states[j].workers|
    requires states[i].workers[w].phase.Exited?
    ensures states[j].workers[w].phase.Exited?
    ensures On(states[j].ended, |states[0].workers|, w) == On(states[i].ended, |states[0].workers|, w)
    decreases j
  {
    if i < j {
      RunKeepsInv(capacity, states, steps, j - 1);
      var n, s, e := |states[0].workers|, states[j - 1], steps[j - 1];
      ExitedEndsNothing(capacity, states, steps, i, j - 1, w);
      if e.Finish? {
        var t := s.workers[e.w].phase.task;
        assert InOrder(s, e.w) && t in s.workers[e.w].queue + Current(s.workers[e.w]);
        OnAppend(s.ended, t, n, w);
        assert On(s.ended, n, w) + [] == On(s.ended, n, w);
      }
    }
  }

  predicate Gives(e: Step) {
    e.Accept? || e.HandOver?
  }

  // A task that is accepted takes the next position among the tasks of its worker. Once the
  // worker has left, the call at that position has ended exactly if the worker had not left
  // when the task was accepted; otherwise there is no such call.
  lemma AcceptedIsHandledExactly(capacity: nat, states: seq<State>, steps: seq<Step>, k: nat, j: nat, w: nat)
    requires Run(capacity, states, steps) && k < j <= |steps| && Gives(steps[k])
    requires w < |states[0].workers| == |states[k].workers| == |states[j].workers| && w == Target(states[k], steps[k].task)
    requires states[j].workers[w].phase.Exited?
    ensures var n := |states[0].workers|;
      var p := |On(states[k].accepted, n, w)|;
      var ended := On(states[j].ended, n, w);
      && (p < |ended| <==> !states[k].workers[w].phase.Exited?)
      && (p < |ended| ==> ended[p] == steps[k].task)
  {
    var n, t := |states[0].workers|, steps[k].task;
    RunKeepsInv(capacity, states, steps, k);
    RunKeepsInv(capacity, states, steps, k + 1);
    OnAppend(states[k].accepted, t, n, w);
    if states[k].workers[w].phase.Exited? {
      ExitedEndsNothing(capacity, states, steps, k, j, w);
      assert InOrder(states[k], w);
    } else {
      ExitedHandledAll(capacity, states, steps, k + 1, j, w);
    }
  }

  // So if its worker does not panic, a task that Submit took is handled by the time Shutdown
  // returns exactly if the worker had not left yet, be it before or after the stop signal.
  lemma ShutdownHandlesExactly(capacity: nat, states: seq<State>, steps: seq<Step>, k: nat, j: nat)
    requires Run(capacity, states, steps) && k < j <= |steps| && Gives(steps[k]) && states[k].workers != []
    requires states[j].returned && |states[j].workers| == |states[k].workers|
    requires !states[j].workers[Target(states[k], steps[k].task)].phase.Panicked?
    ensures var n, w := |states[0].workers|, Target(states[k], steps[k].task);
      var p := |On(states[k].accepted, n, w)|;
      var ended := On(states[j].ended, n, w);
      && (p < |ended| <==> !states[k].workers[w].phase.Exited?)
      && (p < |ended| ==> ended[p] == steps[k].task)
  {
    var w := Target(states[k], steps[k].task);
    RunKeepsInv(capacity, states, steps, k);
    RunKeepsInv(capacity, states, steps, j);
    ReturnedMeansGone(capacity, states, steps, j);
    assert states[j].workers[w] in states[j].workers;
    AcceptedIsHandledExactly(capacity, states, steps, k, j, w);
  }

  // Once Shutdown has returned, every task of a worker that did not panic that was accepted
  // before the worker had left, so also before it was stopped, has been handled exactly
  // once, each key's in order.
  lemma ShutdownHandledAll(capacity: nat, states: seq<State>, steps: seq<Step>, i: nat, j: nat, key: U64)
    requires Run(capacity, states, steps) && i <= j <= |steps|
    requires states[j].returned && |states[i].workers| == |states[j].workers| > 0
    requires var w := Hash(key, |states[j].workers|);
      !states[i].workers[w].phase.Exited? && !states[j].workers[w].phase.Panicked?
    ensures Of(states[i].accepted, key) <= Of(states[j].ended, key) <= Of(states[j].accepted, key)
  {
    RunKeepsInv(capacity, states, steps, i);
    RunKeepsInv(capacity, states, steps, j);
    ReturnedMeansGone(capacity, states, steps, j);
    var n := |states[0].workers|;
    var w := Hash(key, n);
    assert states[j].workers[w] in states[j].workers;
    ExitedHandledAll(capacity, states, steps, i, j, w);
    var a, b := On(states[i].accepted, n, w), On(states[j].ended, n, w);
    assert b == a + b[|a|..];
    OfConcat(a, b[|a|..], key);
    KeyIsOnItsWorker(states[i].accepted, n, key);
    KeyIsOnItsWorker(states[j].ended, n, key);
    KeysAreSequential(capacity, states, steps, j, key);
  }

  lemma UnstoppedHasNotLeft(capacity: nat, states: seq<State>, steps: seq<Step>, i: nat)
    requires Run(capacity, states, steps) && i <= |steps|
    ensures forall w :: w in states[i].workers && !w.stopped ==> !w.phase.Exited?
  {
    RunKeepsInv(capacity, states, steps, i);
    forall w | w in states[i].workers && !w.stopped ensures !w.phase.Exited? {
      var k :| 0 <= k < |states[i].workers| && states[i].workers[k] == w;
      assert InOrder(states[i], k);
    }
  }

  lemma {:induction false} ReturnedMeansGone(capacity: nat, states: seq<State>, steps: seq<Step>, j: nat)
    requires Run(capacity, states, steps) && j <= |steps| && states[j].returned
    ensures forall w :: w in states[j].workers ==> w.stopped && Gone(w)
  {
    if j > 0 {
      var s, e := states[j - 1], steps[j - 1];
      if s.returned {
        ReturnedMeansGone(capacity, states, steps, j - 1);
      }
      forall w | w in states[j].workers ensures w.stopped && Gone(w) {
        var i :| 0 <= i < |states[j].workers| && states[j].workers[i] == w;
        assert s.workers[i] in s.workers;
      }
    }
  }

  // ----- progress -----

  // Workers that have been stopped always have a next step until Shutdown returns.
  lemma ShutdownIsNeverStuck(capacity: nat, states: seq<State>, steps: seq<Step>, k: nat) returns (e: Step)
    requires Run(capacity, states, steps) && k <= |steps|
    requires forall w :: w in states[k].workers ==> w.stopped
    ensures Enabled(capacity, states[k], e) && !e.Accept? && !e.HandOver? && !e.Reject? && !e.Stop?
    ensures e.Return? <==> forall w :: w in states[k].workers ==> Gone(w)
  {
    RunKeepsInv(capacity, states, steps, k);
    var s := states[k];
    if w :| w in s.workers && !Gone(w) {
      var i :| 0 <= i < |s.workers| && s.workers[i] == w;
      e := match w.phase
           case Idle => SeeStop(i)
           case Handling(_, _) => Finish(i)
           case Draining => if w.queue == [] then DrainExit(i) else DrainTake(i)
           case _ => Return;
    } else {
      e := Return;
    }
  }

  // How many steps a worker can still take if it is given nothing more.
  function Rank(w: WorkerState): nat {
    2 * |w.queue| +
    match w.phase
    case Idle => 2
    case Handling(_, draining) => if draining then 2 else 3
    case Draining => 1
    case _ => 0
  }

  lemma WorkersWindDown(capacity: nat, s: State, e: Step)
    requires Enabled(capacity, s, e) && (e.Take? || e.Finish? || e.Panic? || e.SeeStop? || e.DrainTake? || e.DrainExit?)
    ensures var s' := Apply(capacity, s, e);
      Rank(s'.workers[e.w]) < Rank(s.workers[e.w]) && forall i :: 0 <= i < |s.workers| && i != e.w ==> s'.workers[i] == s.workers[i]
  {
  }

  // ----- what is not guaranteed -----

  // A single worker that handles nothing
  function Alone(w: WorkerState, accepted: seq<Task>, returned: bool): State {
    State([w], accepted, [], [], returned)
  }

  lemma AloneAccepts(t: Task, phase: Phase)
    ensures var s := Alone(WorkerState([], true, phase), [], false);
      Enabled(1, s, Accept(t)) && Apply(1, s, Accept(t)) == Alone(WorkerState([t], true, phase), [t], false)
  {
    var s := Alone(WorkerState([], true, phase), [], false);
    assert Target(s, t) == 0;
    assert [] + [t] == [t] && s.workers[0 := WorkerState([t], true, phase)] == [WorkerState([t], true, phase)];
  }

  lemma AloneStops(e: Step, before: WorkerState, after: WorkerState)
    requires (e == Stop(0) && after == before.(stopped := true))
             || (e == SeeStop(0) && before.stopped && before.phase.Idle? && after == before.(phase := Draining))
             || (e == DrainExit(0) && before.phase.Draining? && before.queue == [] && after == before.(phase := Exited))
    ensures var s := Alone(before, [], false); Enabled(1, s, e) && Apply(1, s, e) == Alone(after, [], false)
  {
    assert [before][0 := after] == [after];
  }

  lemma RunOfFive(states: seq<State>, steps: seq<Step>)
    requires |states| == 6 && |steps| == 5 && |states[0].workers| > 0
    ensures
      && states[0] == Start(|states[0].workers|)
      && Enabled(1, states[0], steps[0]) && states[1] == Apply(1, states[0], steps[0])
      && Enabled(1, states[1], steps[1]) && states[2] == Apply(1, states[1], steps[1])
      && Enabled(1, states[2], steps[2]) && states[3] == Apply(1, states[2], steps[2])
      && Enabled(1, states[3], steps[3]) && states[4] == Apply(1, states[3], steps[3])
      && Enabled(1, states[4], steps[4]) && states[5] == Apply(1, states[4], steps[4])
      ==> Run(1, states, steps)
  {
    hide Enabled, Apply;
  }

  // A task can be accepted after the stop signal, by a worker that has left: Submit
  // reports success, Shutdown returns, and the task is never handled.
  lemma AcceptedAfterStopIsLost(t: Task)
    ensures var steps := [Stop(0), SeeStop(0), DrainExit(0), Accept(t), Return];
      exists states: seq<State> :: Run(1, states, steps)
        && Of(states[5].accepted, t.ueId) == [t] && Of(states[5].ended, t.ueId) == [] && states[5].returned
  {
    hide Run, Apply, Enabled, Start;
    var w0 := WorkerState([], false, Idle);
    var w1 := w0.(stopped := true);
    var w2 := w1.(phase := Draining);
    var w3 := w2.(phase := Exited);
    var w4 := w3.(queue := [t]);
    var states := [Alone(w0, [], false), Alone(w1, [], false), Alone(w2, [], false), Alone(w3, [], false),
                   Alone(w4, [t], false), Alone(w4, [t], true)];
    var steps := [Stop(0), SeeStop(0), DrainExit(0), Accept(t), Return];
    AloneAtStart();
    AloneStops(Stop(0), w0, w1);
    AloneStops(SeeStop(0), w1, w2);
    AloneStops(DrainExit(0), w2, w3);
    AloneAccepts(t, Exited);
    AloneReturns(w4, [t]);
    RunOfFive(states, steps);
    OfAppend([], t, t.ueId);
    assert [] + [t] == [t];
  }

  lemma AloneAtStart()
    ensures Start(1) == Alone(WorkerState([], false, Idle), [], false)
  {
    assert Start(1).workers == [WorkerState([], false, Idle)];
  }

  lemma AloneReturns(w: WorkerState, accepted: seq<Task>)
    requires w.stopped && Gone(w)
    ensures var s := Alone(w, accepted, false);
      Enabled(1, s, Return) && Apply(1, s, Return) == Alone(w, accepted, true)
  {
  }
}
