/** The goroutines of the scheduler as code over the shared fields.  Between any two atomic actions
    other goroutines may take any number of their own steps. */
module Pool {
  import opened MinMaxHeap
  import opened Tasks
  import opened WorkerPool
  import opened Wrappers

  // What became of a call of Submit.
  datatype Outcome = Blocked | Accepted | Replaced(worst: Task) | Refused(worst: Task)

  class Pool {
    const cfg: Config
    const heap: MinMaxHeap
    var buf: nat
    var wg: int
    var mutex: Mutex
    var stack: seq<Record>
    var crashed: bool
    // where the goroutines are, and what became of the tasks
    var pending: multiset<Task>
    var workers: seq<Pc>
    var ticker: Option<Task>
    var submitted: multiset<Task>
    var finished: multiset<Task>
    var dropped: multiset<Task>
    // the execution so far
    ghost var states: seq<State>
    ghost var steps: seq<Step>

    ghost function Now(): State
      reads this, heap
    {
      State(buf, multiset(heap.data), wg, mutex, pending, workers, ticker, stack, crashed, submitted, finished, dropped)
    }

    // The fields are the last state of an execution of the protocol.
    ghost predicate Valid()
      reads this, heap
    {
      && heap.Valid() && cfg.capacity > 0
      && IsExecution(cfg, states, steps)
      && states[|steps|] == Now()
    }

    twostate predicate Extended()
      reads this
    {
      old(states) <= states && old(steps) <= steps
    }

    // The next step of the execution was `step`; others may have run after it.
    twostate predicate Did(step: Step)
      reads this, heap
    {
      && Valid() && Extended()
      && |old(steps)| < |steps| && steps[|old(steps)|] == step
    }

    // What that says about the fields: the step led from the old state to the next recorded one.
    twostate lemma DidIsNext(step: Step)
      requires old(Valid()) && Did(step)
      ensures states[|old(steps)|] == old(Now())
      ensures Next(cfg, old(Now()), step, states[|old(steps)| + 1])
    {
      var n := |old(steps)|;
      assert states[n] == old(states)[n];
      assert StepAt(cfg, states, steps, n);
    }

    constructor (cfg: Config, saved: seq<Record>)
      requires cfg.capacity > 0
      ensures Valid() && fresh(heap) && this.cfg == cfg && heap.data == []
      ensures InitialState(cfg, Now()) && stack == saved && steps == []
    {
      this.cfg := cfg;
      heap := new MinMaxHeap();
      buf, wg, mutex, stack, crashed := 0, 0, Free, saved, false;
      pending, workers, ticker := multiset{}, seq(cfg.workers, _ => Waiting), None;
      submitted, finished, dropped := Bag(saved), multiset{}, multiset{};
      steps := [];
      new;
      states := [Now()];
    }

    // The fields have just changed by `step`.
    ghost method Record(step: Step)
      requires heap.Valid() && cfg.capacity > 0 && IsExecution(cfg, states, steps)
      requires Next(cfg, states[|steps|], step, Now())
      modifies this`states, this`steps
      ensures Valid() && states == old(states) + [Now()] && steps == old(steps) + [step]
    {
      ExtendExecution(cfg, states, steps, step, Now());
      states, steps := states + [Now()], steps + [step];
    }

    // Other goroutines run: any number of steps that `g` does not take.  That is all callers know.
    // If one of those steps panics, the process is over and control does not come back.
    method Interfere(ghost g: Goroutine)
      requires Valid() && !crashed && g.call <= pending && (g.holding ==> mutex != Free)
      modifies this, heap
      ensures Valid() && Extended() && !crashed && OthersRan(states, steps, |old(steps)|, g)
    {
    }

    // What follows from that for `g`.
    method LetOthersRun(ghost g: Goroutine)
      requires Valid() && !crashed && g.call <= pending && (g.holding ==> mutex != Free)
      modifies this, heap
      ensures Valid() && Extended() && !crashed && LeftAlone(old(Now()), Now(), g)
    {
      Interfere(g);
      OthersLeaveAlone(cfg, states, steps, |old(steps)|, |steps|, g);
      assert states[|old(steps)|] == old(Now());
    }

    // ---------- Atomic actions, each followed by others' steps while the mutex is held ----------

    method CallSubmit(task: Task)
      requires Valid() && !crashed
      modifies this
      ensures Did(BySubmit(Call(task))) && !crashed
      ensures task in pending
    {
      pending, submitted := pending + multiset{task}, submitted + multiset{task};
      Record(BySubmit(Call(task)));
    }

    method EnterSubmit(task: Task)
      requires Valid() && !crashed && mutex == Free && task in pending
      modifies this, heap
      ensures Did(BySubmit(Enter(task))) && !crashed
      ensures mutex == Entered(task)
    {
      pending, mutex := pending - multiset{task}, Entered(task);
      Record(BySubmit(Enter(task)));
      LetOthersRun(Goroutine(NOBODY, multiset{}, true));
    }

    // The select of Submit: send a token if the channel has room.
    method TrySend() returns (sent: bool)
      requires Valid() && !crashed && mutex.Entered?
      modifies this, heap
      ensures Did(BySubmit(if sent then Send else Overflow)) && !crashed
      ensures mutex == if sent then Sent(old(mutex).t) else Full(old(mutex).t)
    {
      sent := buf < cfg.capacity;
      if sent {
        SendToken();
      } else {
        FindFull();
      }
      LetOthersRun(Goroutine(NOBODY, multiset{}, true));
    }

    method SendToken()
      requires Valid() && !crashed && mutex.Entered? && buf < cfg.capacity
      modifies this
      ensures Did(BySubmit(Send)) && !crashed && mutex == Sent(old(mutex).t)
    {
      buf, mutex := buf + 1, Sent(mutex.t);
      Record(BySubmit(Send));
    }

    method FindFull()
      requires Valid() && !crashed && mutex.Entered? && buf >= cfg.capacity
      modifies this
      ensures Did(BySubmit(Overflow)) && !crashed && mutex == Full(old(mutex).t)
    {
      mutex := Full(mutex.t);
      Record(BySubmit(Overflow));
    }

    method AddWait()
      requires Valid() && !crashed && mutex.Sent?
      modifies this, heap
      ensures Did(BySubmit(Add)) && !crashed
      ensures mutex == Counted(old(mutex).t)
    {
      wg, mutex := wg + 1, Counted(mutex.t);
      Record(BySubmit(Add));
      LetOthersRun(Goroutine(NOBODY, multiset{}, true));
    }

    method InsertTask()
      requires Valid() && !crashed && mutex.Counted?
      modifies this, heap
      ensures Did(BySubmit(InsertNew)) && !crashed
      ensures mutex == Free
    {
      heap.Insert(mutex.t);
      mutex := Free;
      Record(BySubmit(InsertNew));
    }

    method DeleteWorstTask()
      requires Valid() && !crashed && mutex.Full? && heap.data != [] && mutex.t.priority > heap.data[0].priority
      modifies this, heap
      ensures Did(BySubmit(DeleteWorst(old(heap.data)[0]))) && !crashed
      ensures mutex == Replacing(old(mutex).t, old(heap.data)[0])
    {
      TakeWorst();
      LetOthersRun(Goroutine(NOBODY, multiset{}, true));
    }

    method TakeWorst()
      requires Valid() && !crashed && mutex.Full? && heap.data != [] && mutex.t.priority > heap.data[0].priority
      modifies this, heap
      ensures Did(BySubmit(DeleteWorst(old(heap.data)[0]))) && !crashed
      ensures mutex == Replacing(old(mutex).t, old(heap.data)[0])
    {
      var worst := heap.DeleteMin();
      mutex := Replacing(mutex.t, worst.value);
      Record(BySubmit(DeleteWorst(worst.value)));
    }

    method InsertBetterTask()
      requires Valid() && !crashed && mutex.Replacing?
      modifies this, heap
      ensures Did(BySubmit(InsertBetter)) && !crashed
      ensures mutex == Spilling(old(mutex).worst)
    {
      heap.Insert(mutex.t);
      mutex := Spilling(mutex.worst);
      Record(BySubmit(InsertBetter));
      LetOthersRun(Goroutine(NOBODY, multiset{}, true));
    }

    method RefuseTask(ghost worst: Task)
      requires Valid() && !crashed && mutex.Full? && IsLeast(worst, multiset(heap.data)) && mutex.t.priority <= worst.priority
      modifies this, heap
      ensures Did(BySubmit(KeepHeap(worst))) && !crashed
      ensures mutex == Spilling(old(mutex).t)
    {
      mutex := Spilling(mutex.t);
      Record(BySubmit(KeepHeap(worst)));
      LetOthersRun(Goroutine(NOBODY, multiset{}, true));
    }

    method PushOnStack(t: Task)
      requires !crashed
      modifies this`stack, this`dropped, this`crashed
      ensures stack == StackAfter(cfg, old(stack), t) && crashed == Crashes(cfg, old(stack), t)
      ensures dropped == old(dropped) + Loss(cfg, old(stack), t)
    {
      if StackSize(cfg, stack) > cfg.bound {
        dropped := dropped + multiset{t};
      } else {
        match cfg.fate(t)
        case Kept => stack := stack + [Whole(t)];
        case CutShort => stack, dropped := stack + [Cut(t)], dropped + multiset{t};
        case Panicking => crashed := true;
      }
    }

    // The mutex is released, unless the push panics.
    method SpillTask()
      requires Valid() && !crashed && mutex.Spilling?
      modifies this
      ensures Did(BySubmit(Spill))
      ensures crashed || mutex == Free
    {
      PushOnStack(mutex.t);
      if !crashed {
        mutex := Free;
      }
      Record(BySubmit(Spill));
    }

    // ---------- Submit ----------

    // Step number `at` of the execution settles a call of Submit with `task`, as `outcome` says.
    ghost predicate Settled(task: Task, outcome: Outcome, at: nat)
      reads this
    {
      && at < |steps| < |states|
      && match outcome
         case Blocked => steps[at] == BySubmit(Call(task))
         case Accepted => states[at].mutex == Counted(task) && steps[at] == BySubmit(InsertNew)
         case Replaced(worst) =>
           && states[at].mutex == Full(task) && task.priority > worst.priority && steps[at] == BySubmit(DeleteWorst(worst))
           && IsLeast(worst, states[at].heap)
         case Refused(worst) =>
           && states[at].mutex == Full(task) && task.priority <= worst.priority && steps[at] == BySubmit(KeepHeap(worst))
           && IsLeast(worst, states[at].heap)
    }

    // The branch of the select that sent a token.
    method Accept(task: Task) returns (ghost at: nat)
      requires Valid() && !crashed && mutex == Sent(task)
      modifies this, heap
      ensures Valid() && Extended() && !crashed && mutex == Free
      ensures |old(steps)| <= at && Settled(task, Accepted, at)
    {
      AddWait();
      at := |steps|;
      InsertTask();
    }

    method Replace(task: Task) returns (ghost at: nat)
      requires Valid() && !crashed && mutex == Full(task) && heap.data != [] && task.priority > heap.data[0].priority
      modifies this, heap
      ensures Valid() && Extended() && (crashed || mutex == Free)
      ensures |old(steps)| <= at && Settled(task, Replaced(old(heap.data)[0]), at)
    {
      at := |steps|;
      DeleteWorstTask();
      InsertBetterTask();
      SpillTask();
      PicksAreRight(cfg, states, steps, at);
    }

    method Refuse(task: Task, worst: Task) returns (ghost at: nat)
      requires Valid() && !crashed && mutex == Full(task) && IsLeast(worst, multiset(heap.data)) && task.priority <= worst.priority
      modifies this, heap
      ensures Valid() && Extended() && (crashed || mutex == Free)
      ensures |old(steps)| <= at && Settled(task, Refused(worst), at)
    {
      at := |steps|;
      RefuseTask(worst);
      SpillTask();
      PicksAreRight(cfg, states, steps, at);
    }

    // The default branch: the worse of the new task and the worst one of the heap is spilled.
    // There always is a worst task, so the branch that would forget the new one is not written.
    method Overflowing(task: Task) returns (outcome: Outcome, ghost at: nat)
      requires Valid() && !crashed && mutex == Full(task)
      modifies this, heap
      ensures Valid() && Extended() && (crashed || mutex == Free)
      ensures !outcome.Blocked? && !outcome.Accepted?
      ensures |old(steps)| <= at && Settled(task, outcome, at)
    {
      BalanceHolds();
      var worst := heap.GetMin();
      outcome := if task.priority > worst.value.priority then Replaced(worst.value) else Refused(worst.value);
      if task.priority > worst.value.priority {
        at := Replace(task);
      } else {
        at := Refuse(task, worst.value);
      }
    }

    // From the moment the mutex is held.
    method SubmitLocked(task: Task) returns (outcome: Outcome, ghost at: nat)
      requires Valid() && !crashed && mutex == Free && task in pending
      modifies this, heap
      ensures Valid() && Extended() && (crashed || mutex == Free)
      ensures !outcome.Blocked?
      ensures |old(steps)| <= at && Settled(task, outcome, at)
    {
      EnterSubmit(task);
      var sent := TrySend();
      if sent {
        outcome := Accepted;
        at := Accept(task);
      } else {
        outcome, at := Overflowing(task);
      }
    }

    // A call under way.  The outcome is Blocked if the execution ended with the caller still
    // waiting for the mutex.
    method SubmitCalled(task: Task) returns (outcome: Outcome, ghost at: nat)
      requires Valid() && !crashed && task in pending
      modifies this, heap
      ensures Valid() && Extended()
      ensures outcome.Blocked? ==> !crashed && mutex != Free && task in pending
      ensures !outcome.Blocked? ==> (crashed || mutex == Free) && |old(steps)| <= at && Settled(task, outcome, at)
    {
      outcome, at := Blocked, 0;
      LetOthersRun(Goroutine(NOBODY, multiset{task}, false));
      if mutex == Free {
        outcome, at := SubmitLocked(task);
      }
    }

    method Submit(task: Task) returns (outcome: Outcome, ghost at: nat)
      requires Valid() && !crashed
      modifies this, heap
      ensures Valid() && Extended() && Did(BySubmit(Call(task)))
      ensures outcome.Blocked? ==> !crashed && mutex != Free && task in pending
      ensures !outcome.Blocked? ==> (crashed || mutex == Free) && |old(steps)| < at && Settled(task, outcome, at)
    {
      CallSubmit(task);
      outcome, at := SubmitCalled(task);
    }

    // ---------- Worker ----------

    method ReceiveToken(w: nat)
      requires Valid() && !crashed && w < |workers| && workers[w] == Waiting && buf > 0
      modifies this, heap
      ensures Did(ByWorker(w, Receive)) && !crashed && w < |workers| && workers[w] == HasToken
    {
      buf, workers := buf - 1, workers[w := HasToken];
      Record(ByWorker(w, Receive));
      LetOthersRun(Goroutine(w, multiset{}, false));
    }

    method LockToPop(w: nat)
      requires Valid() && !crashed && w < |workers| && workers[w] == HasToken && mutex == Free
      modifies this, heap
      ensures Did(ByWorker(w, Lock)) && !crashed && w < |workers| && workers[w] == HasToken && mutex == Popping(w)
    {
      mutex := Popping(w);
      Record(ByWorker(w, Lock));
      LetOthersRun(Goroutine(w, multiset{}, true));
    }

    // What the balance of tokens promises the holder of the mutex, and whoever waits for the group.
    lemma BalanceHolds()
      requires Valid()
      ensures mutex.Popping? || mutex.Full? ==> heap.data != []
      ensures wg == 0 ==> heap.data == []
      ensures |heap.data| <= cfg.capacity + cfg.workers
    {
      ExecutionIsSafe(cfg, states, steps, |steps|);
      BalanceGuarantees(cfg, Now());
      assert |multiset(heap.data)| == |heap.data|;
    }

    // GetMax and DeleteMax under the mutex.  The heap is never empty here, so the branch that
    // returns the token is not written.
    method PopTask(w: nat) returns (task: Task)
      requires Valid() && !crashed && w < |workers| && mutex == Popping(w)
      modifies this, heap
      ensures Did(ByWorker(w, PopMax(task))) && !crashed && w < |workers| && workers[w] == Popped(task)
    {
      BalanceHolds();
      task := TakeMax();
      workers, mutex := workers[w := Popped(task)], Free;
      Record(ByWorker(w, PopMax(task)));
    }

    method TakeMax() returns (task: Task)
      requires heap.Valid() && heap.data != []
      modifies heap
      ensures heap.Valid()
      ensures IsGreatest(task, multiset(old(heap.data)))
      ensures multiset(heap.data) == multiset(old(heap.data)) - multiset{task}
    {
      var best := heap.GetMax();
      task := best.value;
      var _ := heap.DeleteMax();
    }

    method MarkTaskDone(w: nat, task: Task)
      requires Valid() && !crashed && w < |workers| && workers[w] == Popped(task)
      modifies this, heap
      ensures Did(ByWorker(w, MarkDone)) && !crashed && w < |workers| && workers[w] == Running(task)
    {
      LeaveGroup(w, task);
      LetOthersRun(Goroutine(w, multiset{}, false));
    }

    method LeaveGroup(w: nat, task: Task)
      requires Valid() && !crashed && w < |workers| && workers[w] == Popped(task)
      modifies this
      ensures Did(ByWorker(w, MarkDone)) && !crashed && w < |workers| && workers[w] == Running(task)
    {
      wg, workers := wg - 1, workers[w := Running(task)];
      Record(ByWorker(w, MarkDone));
    }

    method FinishTask(w: nat, task: Task)
      requires Valid() && !crashed && w < |workers| && workers[w] == Running(task)
      modifies this
      ensures Did(ByWorker(w, Finish)) && !crashed && w < |workers| && workers[w] == Waiting
    {
      finished, workers := finished + multiset{task}, workers[w := Waiting];
      Record(ByWorker(w, Finish));
    }

    method CancelTask(w: nat, task: Task)
      requires Valid() && !crashed && w < |workers| && workers[w] == Running(task)
      modifies this, heap
      ensures Did(ByWorker(w, Cancel)) && !crashed && w < |workers| && workers[w] == Pc.Canceled(task)
    {
      workers := workers[w := Pc.Canceled(task)];
      Record(ByWorker(w, Cancel));
      LetOthersRun(Goroutine(w, multiset{}, false));
    }

    method PushTaskBack(w: nat, task: Task)
      requires Valid() && !crashed && w < |workers| && workers[w] == Pc.Canceled(task)
      modifies this
      ensures Did(ByWorker(w, PushBack)) && w < |workers| && (crashed || workers[w] == Waiting)
    {
      PushOnStack(task);
      if !crashed {
        workers := workers[w := Waiting];
      }
      Record(ByWorker(w, PushBack));
    }

    // Step `at` gives worker `w` task `task`, a greatest one, and step `end` is how `w` is done with it.
    ghost predicate Served(w: nat, task: Task, completion: CompletionState, at: nat, end: nat)
      reads this
    {
      && at < end < |steps| < |states|
      && steps[at] == ByWorker(w, PopMax(task)) && states[at].mutex == Popping(w)
      && IsGreatest(task, states[at].heap)
      && steps[end] == ByWorker(w, if completion.Canceled? then PushBack else Finish)
      && w < |states[end].workers|
      && states[end].workers[w] == if completion.Canceled? then Pc.Canceled(task) else Running(task)
    }

    // Executing a popped task; `completion` is what the crawl of the page returns.
    method HeapAct(w: nat, task: Task, completion: CompletionState) returns (ghost end: nat)
      requires Valid() && !crashed && w < |workers| && workers[w] == Popped(task)
      modifies this, heap
      ensures Valid() && Extended()
      ensures |old(steps)| < end < |steps|
      ensures steps[end] == ByWorker(w, if completion.Canceled? then PushBack else Finish)
      ensures w < |states[end].workers|
      ensures states[end].workers[w] == if completion.Canceled? then Pc.Canceled(task) else Running(task)
    {
      LetOthersRun(Goroutine(w, multiset{}, false));
      MarkTaskDone(w, task);
      if completion.Canceled? {
        CancelTask(w, task);
        end := |steps|;
        PushTaskBack(w, task);
      } else {
        end := |steps|;
        FinishTask(w, task);
      }
    }

    // One turn of a worker whose select received a token; `served` is false if the execution ended
    // with the worker still waiting for the mutex.
    method Work(w: nat, completion: CompletionState)
      returns (served: bool, ghost task: Task, ghost at: nat, ghost end: nat)
      requires Valid() && !crashed && w < |workers| && workers[w] == Waiting && buf > 0
      modifies this, heap
      ensures Valid() && Extended()
      ensures !served ==> mutex != Free && w < |workers| && workers[w] == HasToken
      ensures served ==> |old(steps)| <= at && Served(w, task, completion, at, end)
    {
      task, at, end := Task("", 0.0, 0, false), 0, 0;
      ReceiveToken(w);
      served := mutex == Free;
      if served {
        LockToPop(w);
        at := |steps|;
        var best := PopTask(w);
        task := best;
        end := HeapAct(w, best, completion);
        PicksAreRight(cfg, states, steps, at);
      }
    }

    // ---------- Ticker and Wait ----------

    method PopFromStack() returns (r: Option<Task>)
      requires Valid() && !crashed && mutex == Free && ticker == None && stack != []
      modifies this, heap
      ensures Did(ByTicker(PopStack)) && !crashed && r == ticker == Decoded(old(stack)[|old(stack)| - 1])
    {
      r := Decoded(stack[|stack| - 1]);
      stack, ticker := stack[..|stack| - 1], r;
      Record(ByTicker(PopStack));
      LetOthersRun(Goroutine(TICKER, multiset{}, false));
    }

    method Resubmit(task: Task)
      requires Valid() && !crashed && ticker == Some(task)
      modifies this
      ensures Did(ByTicker(TickerAct.Resubmit)) && !crashed && task in pending
    {
      pending, ticker := pending + multiset{task}, None;
      Record(ByTicker(TickerAct.Resubmit));
    }

    // One tick: the most recently spilled task is submitted again, if its record decodes.
    method Tick() returns (outcome: Outcome, ghost at: nat)
      requires Valid() && !crashed && mutex == Free && ticker == None
      modifies this, heap
      ensures Valid() && Extended()
      ensures old(stack) == [] ==> outcome.Blocked? && Now() == old(Now())
      ensures old(stack) != [] ==> Did(ByTicker(PopStack))
      ensures old(stack) != [] ==>
        match old(stack)[|old(stack)| - 1]
        case Cut(_) => outcome.Blocked? && ticker == None
        case Whole(task) =>
          if outcome.Blocked? then mutex != Free && task in pending
          else (crashed || mutex == Free) && |old(steps)| < at && Settled(task, outcome, at)
    {
      outcome, at := Blocked, 0;
      if stack != [] {
        var task := PopFromStack();
        if task.Some? {
          Resubmit(task.value);
          outcome, at := SubmitCalled(task.value);
        }
      }
    }

    // Whoever finds the wait group idle finds the heap empty.
    method Wait() returns (idle: bool)
      requires Valid() && !crashed
      ensures idle <==> wg == 0
      ensures idle ==> heap.data == []
    {
      BalanceHolds();
      idle := wg == 0;
    }
  }
}
