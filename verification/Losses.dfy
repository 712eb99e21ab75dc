/** Which pushes on the overflow stack lose a task or end the process, exactly for which tasks no
    interleaving has one, and executions with one. */
module Losses {
  import opened MinMaxHeap
  import opened Tasks
  import opened WorkerPool
  import opened Wrappers

  // ---------- When a task is lost ----------

  // The task that the step pushes on the stack.
  function Pushing(s: State, step: Step): Option<Task> {
    match step
    case BySubmit(Spill) => if s.mutex.Spilling? then Some(s.mutex.t) else None
    case ByWorker(w, PushBack) => if w < |s.workers| && s.workers[w].Canceled? then Some(s.workers[w].t) else None
    case _ => None
  }

  lemma {:induction false} StackAfterStep(c: Config, s: State, step: Step, s': State)
    requires Next(c, s, step, s')
    ensures step == ByTicker(PopStack) ==> s.stack != []
    ensures s'.stack == if Pushing(s, step).Some? then StackAfter(c, s.stack, Pushing(s, step).value)
                        else if step == ByTicker(PopStack) then s.stack[..|s.stack| - 1]
                        else s.stack
  {
  }

  // The step pushes on a stack that is past its bound, or a task whose data is too long.
  predicate Overflows(c: Config, s: State, step: Step) {
    var t := Pushing(s, step);
    t.Some? && (IsFull(c, s.stack) || !c.fate(t.value).Kept?)
  }

  // Exactly such steps lose a task or end the process; the latter, if the stack is not past its bound
  // and the length plus two wraps around.
  lemma {:induction false} LossIsOverflow(c: Config, s: State, step: Step, s': State)
    requires Next(c, s, step, s')
    ensures s'.dropped != s.dropped || s'.crashed <==> Overflows(c, s, step)
    ensures s'.crashed <==> Overflows(c, s, step) && !IsFull(c, s.stack) && c.fate(Pushing(s, step).value).Panicking?
    ensures s.dropped <= s'.dropped
  {
    var t := Pushing(s, step);
    LossAfterStep(c, s, step, s');
    if t.Some? {
      OneMore(s.dropped, t.value);
      NoneMore(s.dropped);
    }
  }

  lemma {:induction false} LossAfterStep(c: Config, s: State, step: Step, s': State)
    requires Next(c, s, step, s')
    ensures var t := Pushing(s, step);
      && s'.dropped == (if t.Some? then s.dropped + Loss(c, s.stack, t.value) else s.dropped)
      && s'.crashed == (t.Some? && Crashes(c, s.stack, t.value))
  {
  }

  lemma NoneMore(m: multiset<Task>)
    ensures m + multiset{} == m
  {
  }

  lemma OneMore(m: multiset<Task>, t: Task)
    ensures m + multiset{t} != m
  {
    assert (m + multiset{t})[t] == m[t] + 1;
  }

  lemma {:induction false} LossAt(c: Config, states: seq<State>, steps: seq<Step>, k: nat)
    requires IsExecution(c, states, steps) && 1 <= k <= |steps|
    ensures states[k].dropped == multiset{} && !states[k].crashed
       <==> states[k - 1].dropped == multiset{} && !states[k - 1].crashed && !Overflows(c, states[k - 1], steps[k - 1])
  {
    assert StepAt(c, states, steps, k - 1);
    LossIsOverflow(c, states[k - 1], steps[k - 1], states[k]);
  }

  // An interleaving has lost nothing, and goes on, exactly if none of its steps was such a push.
  lemma {:induction false} LossesAreOverflows(c: Config, states: seq<State>, steps: seq<Step>, k: nat)
    requires IsExecution(c, states, steps) && k <= |steps|
    ensures states[k].dropped == multiset{} && !states[k].crashed
       <==> forall i :: 0 <= i < k ==> !Overflows(c, states[i], steps[i])
  {
    if k > 0 {
      LossesAreOverflows(c, states, steps, k - 1);
      LossAt(c, states, steps, k);
    }
  }

  // ---------- When nothing is lost ----------

  // Bytes the tasks in `m` take on the stack.
  ghost function Weight(c: Config, m: multiset<Task>): nat
    decreases |m|
  {
    if m == multiset{} then 0
    else
      var t :| t in m;
      Weight(c, m - multiset{t}) + c.room(t)
  }

  lemma {:induction false} WeightRemove(c: Config, m: multiset<Task>, t: Task)
    requires t in m
    ensures Weight(c, m) == Weight(c, m - multiset{t}) + c.room(t)
    decreases |m|
  {
    var u :| u in m && Weight(c, m) == Weight(c, m - multiset{u}) + c.room(u);
    if u != t {
      WeightRemove(c, m - multiset{u}, t);
      WeightRemove(c, m - multiset{t}, u);
      assert m - multiset{u} - multiset{t} == m - multiset{t} - multiset{u};
    }
  }

  lemma {:induction false} WeightMonotone(c: Config, a: multiset<Task>, b: multiset<Task>)
    requires a <= b
    ensures Weight(c, a) <= Weight(c, b)
    decreases |a|
  {
    if a != multiset{} {
      var t :| t in a;
      WeightRemove(c, a, t);
      WeightRemove(c, b, t);
      WeightMonotone(c, a - multiset{t}, b - multiset{t});
    }
  }

  ghost predicate AllWhole(stack: seq<Record>) {
    forall i :: 0 <= i < |stack| ==> stack[i].Whole?
  }

  lemma {:induction false} StackSizeIsWeight(c: Config, stack: seq<Record>)
    requires AllWhole(stack)
    ensures StackSize(c, stack) == Weight(c, Bag(stack))
  {
    if stack != [] {
      var rest, top := stack[..|stack| - 1], stack[|stack| - 1].t;
      StackSizeIsWeight(c, rest);
      WeightRemove(c, Bag(stack), top);
      assert Bag(stack) - multiset{top} == Bag(rest);
    }
  }

  lemma {:induction false} SubmittedGrows(c: Config, states: seq<State>, steps: seq<Step>, i: nat, k: nat)
    requires IsExecution(c, states, steps) && i <= k <= |steps|
    ensures states[i].submitted <= states[k].submitted
    decreases k - i
  {
    if i < k {
      SubmittedGrows(c, states, steps, i, k - 1);
      assert StepAt(c, states, steps, k - 1);
      SubmittedGrowsAtStep(c, states[k - 1], steps[k - 1], states[k]);
    }
  }

  lemma SubmittedGrowsAtStep(c: Config, s: State, step: Step, s': State)
    requires Next(c, s, step, s')
    ensures s.submitted <= s'.submitted
  {
    if !(step.BySubmit? && step.submit.Call?) {
      assert s'.submitted == s.submitted;
    }
  }

  function Pushed(s: State, step: Step): multiset<Task> {
    if Pushing(s, step).Some? then multiset{Pushing(s, step).value} else multiset{}
  }

  lemma PushedIsHeld(s: State, step: Step)
    ensures Pushed(s, step) <= InMutex(s.mutex) + Hands(s.workers)
  {
    if step.ByWorker? && Pushing(s, step).Some? {
      HandIsInHands(s.workers, step.w);
    }
  }

  // What is on the stack, together with what is about to be pushed, was submitted.
  lemma WithinSubmitted(s: State, step: Step)
    requires Conserved(s)
    ensures Bag(s.stack) + Pushed(s, step) <= s.submitted
  {
    PushedIsHeld(s, step);
    forall t
      ensures Bag(s.stack)[t] + Pushed(s, step)[t] <= s.submitted[t]
    {
      assert Tally(s, t) == s.submitted[t];
      assert Pushed(s, step)[t] <= (InMutex(s.mutex) + Hands(s.workers))[t];
    }
  }

  lemma {:induction false} HandIsInHands(ws: seq<Pc>, w: nat)
    requires w < |ws|
    ensures Hand(ws[w]) <= Hands(ws)
  {
    if w > 0 {
      HandIsInHands(ws[1..], w - 1);
    }
  }

  // Each task would be kept as the last one to be pushed, with all the others on the stack.
  ghost predicate JustFit(c: Config, all: multiset<Task>) {
    forall t :: t in all ==> c.fate(t).Kept? && Weight(c, all - multiset{t}) <= c.bound
  }

  lemma FewerJustFit(c: Config, some: multiset<Task>, all: multiset<Task>)
    requires some <= all && JustFit(c, all)
    ensures JustFit(c, some)
  {
    forall t | t in some
      ensures c.fate(t).Kept? && Weight(c, some - multiset{t}) <= c.bound
    {
      WeightMonotone(c, some - multiset{t}, all - multiset{t});
    }
  }

  lemma LastPushed(stack: multiset<Task>, t: Task, all: multiset<Task>)
    requires stack + multiset{t} <= all
    ensures t in all && stack <= all - multiset{t}
  {
    assert (stack + multiset{t})[t] >= 1;
    assert stack == stack + multiset{t} - multiset{t};
  }

  lemma {:induction false} FittingPush(c: Config, s: State, step: Step)
    requires Conserved(s) && AllWhole(s.stack) && JustFit(c, s.submitted)
    ensures !Overflows(c, s, step)
  {
    if Pushing(s, step).Some? {
      var t := Pushing(s, step).value;
      WithinSubmitted(s, step);
      LastPushed(Bag(s.stack), t, s.submitted);
      StackSizeIsWeight(c, s.stack);
      WeightMonotone(c, Bag(s.stack), s.submitted - multiset{t});
    }
  }

  lemma {:induction false} StepKeepsWhole(c: Config, s: State, step: Step, s': State)
    requires Next(c, s, step, s') && AllWhole(s.stack) && !Overflows(c, s, step)
    ensures AllWhole(s'.stack)
  {
  }

  lemma {:induction false} FittingAt(c: Config, states: seq<State>, steps: seq<Step>, k: nat)
    requires IsExecution(c, states, steps) && k < |steps| && c.capacity > 0
    requires AllWhole(states[k].stack) && JustFit(c, states[|steps|].submitted)
    ensures !Overflows(c, states[k], steps[k]) && AllWhole(states[k + 1].stack)
  {
    ExecutionIsSafe(c, states, steps, k);
    SubmittedGrows(c, states, steps, k, |steps|);
    FewerJustFit(c, states[k].submitted, states[|steps|].submitted);
    FittingPush(c, states[k], steps[k]);
    assert StepAt(c, states, steps, k);
    StepKeepsWhole(c, states[k], steps[k], states[k + 1]);
  }

  // If the submitted tasks just fit, then no interleaving ever makes such a push.
  lemma {:induction false} NoOverflow(c: Config, states: seq<State>, steps: seq<Step>, k: nat)
    requires IsExecution(c, states, steps) && k <= |steps| && c.capacity > 0
    requires AllWhole(states[0].stack) && JustFit(c, states[|steps|].submitted)
    ensures AllWhole(states[k].stack) && forall i :: 0 <= i < k ==> !Overflows(c, states[i], steps[i])
  {
    if k > 0 {
      var j := k - 1;
      NoOverflow(c, states, steps, j);
      FittingAt(c, states, steps, j);
      assert j + 1 == k;
    }
  }

  // ... so nothing is lost: whatever was submitted is finished or still in the system.
  lemma {:induction false} NothingIsLost(c: Config, states: seq<State>, steps: seq<Step>, k: nat)
    requires IsExecution(c, states, steps) && k <= |steps| && c.capacity > 0
    requires AllWhole(states[0].stack) && JustFit(c, states[|steps|].submitted)
    ensures states[k].dropped == multiset{} && !states[k].crashed
  {
    NoOverflow(c, states, steps, k);
    LossesAreOverflows(c, states, steps, k);
  }

  // ---------- When something can be lost ----------

  // Some interleaving leads from one state to the other.
  ghost predicate Reaches(c: Config, s: State, s': State) {
    exists states, steps :: IsExecution(c, states, steps) && states[0] == s && states[|steps|] == s'
  }

  predicate HasLost(s: State) {
    s.dropped != multiset{} || s.crashed
  }

  lemma ReachesItself(c: Config, s: State)
    requires InitialState(c, s)
    ensures Reaches(c, s, s)
  {
    assert IsExecution(c, [s], []);
  }

  lemma ReachesNext(c: Config, s: State, a: State, step: Step, b: State)
    requires Reaches(c, s, a) && Next(c, a, step, b)
    ensures Reaches(c, s, b)
  {
    var states, steps :| IsExecution(c, states, steps) && states[0] == s && states[|steps|] == a;
    ExtendExecution(c, states, steps, step, b);
    assert (states + [b])[0] == s && (states + [b])[|steps + [step]|] == b;
  }

  // Nothing is under way but calls of Submit that wait for the mutex.
  ghost predicate IsIdle(s: State) {
    && !s.crashed && s.buf == 0 && s.heap == multiset{} && s.wg == 0 && s.mutex == Free && s.ticker == None
    && |s.workers| > 0 && s.workers[0] == Waiting
  }

  // The ticker takes every task off the stack, and waits to submit it again.
  lemma {:induction false} Drained(c: Config, s: State, a: State) returns (b: State)
    requires Reaches(c, s, a) && IsIdle(a) && AllWhole(a.stack)
    ensures Reaches(c, s, b) && IsIdle(b)
    ensures b == a.(stack := [], pending := a.pending + Bag(a.stack))
    decreases |a.stack|
  {
    if a.stack == [] {
      b := a;
    } else {
      var rest, t := a.stack[..|a.stack| - 1], a.stack[|a.stack| - 1].t;
      var popped := a.(stack := rest, ticker := Some(t));
      var again := a.(stack := rest, pending := a.pending + multiset{t});
      ReachesNext(c, s, a, ByTicker(PopStack), popped);
      ReachesNext(c, s, popped, ByTicker(Resubmit), again);
      b := Drained(c, s, again);
      assert a.pending + multiset{t} + Bag(rest) == a.pending + (Bag(rest) + multiset{t});
    }
  }

  // More tasks are submitted.
  lemma {:induction false} Called(c: Config, s: State, a: State, more: multiset<Task>) returns (b: State)
    requires Reaches(c, s, a) && IsIdle(a)
    ensures Reaches(c, s, b) && IsIdle(b)
    ensures b == a.(pending := a.pending + more, submitted := a.submitted + more)
    decreases |more|
  {
    if more == multiset{} {
      b := a;
    } else {
      var t :| t in more;
      var next := a.(pending := a.pending + multiset{t}, submitted := a.submitted + multiset{t});
      ReachesNext(c, s, a, BySubmit(Call(t)), next);
      b := Called(c, s, next, more - multiset{t});
      TakeOut(a.pending, more, t);
      TakeOut(a.submitted, more, t);
    }
  }

  lemma TakeOut(m: multiset<Task>, more: multiset<Task>, t: Task)
    requires t in more
    ensures m + multiset{t} + (more - multiset{t}) == m + more
  {
  }

  // One waiting task is accepted, taken by a worker, and canceled.
  function Queued(a: State, t: Task): State {
    a.(pending := a.pending - multiset{t}, buf := 1, wg := 1, heap := multiset{t})
  }

  function InHand(a: State, t: Task): State
    requires |a.workers| > 0
  {
    Goes(a, 0, Pc.Canceled(t)).(pending := a.pending - multiset{t})
  }

  lemma ReachesQueued(c: Config, s: State, a: State, t: Task)
    requires Reaches(c, s, a) && IsIdle(a) && t in a.pending && c.capacity > 0
    ensures Reaches(c, s, Queued(a, t))
  {
    var entered := a.(pending := a.pending - multiset{t}, mutex := Entered(t));
    var sent := entered.(buf := 1, mutex := Sent(t));
    var counted := sent.(wg := 1, mutex := Counted(t));
    ReachesNext(c, s, a, BySubmit(Enter(t)), entered);
    ReachesNext(c, s, entered, BySubmit(Send), sent);
    ReachesNext(c, s, sent, BySubmit(Add), counted);
    ReachesNext(c, s, counted, BySubmit(InsertNew), Queued(a, t));
  }

  lemma ReachesPopped(c: Config, s: State, a: State, t: Task)
    requires IsIdle(a) && Reaches(c, s, Queued(a, t))
    ensures Reaches(c, s, Goes(Queued(a, t), 0, Popped(t)).(buf := 0, heap := multiset{}))
  {
    var q := Queued(a, t);
    var received := Goes(q, 0, HasToken).(buf := 0);
    var locked := received.(mutex := Popping(0));
    ReachesNext(c, s, q, ByWorker(0, Receive), received);
    ReachesNext(c, s, received, ByWorker(0, Lock), locked);
    ReachesNext(c, s, locked, ByWorker(0, PopMax(t)), Goes(q, 0, Popped(t)).(buf := 0, heap := multiset{}));
  }

  lemma ReachesInHand(c: Config, s: State, a: State, t: Task)
    requires Reaches(c, s, a) && IsIdle(a) && t in a.pending && c.capacity > 0
    ensures Reaches(c, s, InHand(a, t))
  {
    ReachesQueued(c, s, a, t);
    ReachesPopped(c, s, a, t);
    var popped := Goes(Queued(a, t), 0, Popped(t)).(buf := 0, heap := multiset{});
    var running := Goes(InHand(a, t), 0, Running(t));
    ReachesNext(c, s, popped, ByWorker(0, MarkDone), running);
    ReachesNext(c, s, running, ByWorker(0, Cancel), InHand(a, t));
  }

  // Then it is pushed back, and either it is lost, or the pool is idle again.
  lemma {:induction false} PushedBack(c: Config, s: State, a: State, t: Task) returns (b: State)
    requires Reaches(c, s, a) && IsIdle(a) && t in a.pending && c.capacity > 0
    ensures Reaches(c, s, b) && b.submitted == a.submitted
    ensures if IsFull(c, a.stack) || !c.fate(t).Kept? then HasLost(b)
            else b == a.(pending := a.pending - multiset{t}, stack := a.stack + [Whole(t)])
  {
    ReachesInHand(c, s, a, t);
    b := AfterPushBack(c, InHand(a, t), 0);
    ReachesNext(c, s, InHand(a, t), ByWorker(0, PushBack), b);
    assert multiset{t}[t] == 1;
    if c.fate(t).Kept? && !IsFull(c, a.stack) {
      NoneMore(a.dropped);
      assert a.workers[0 := Pc.Canceled(t)][0 := Waiting] == a.workers;
    }
  }

  // So waiting tasks get on the stack, one after the other, unless one of them is lost.
  lemma {:induction false} AllPushedBack(c: Config, s: State, a: State, some: multiset<Task>) returns (b: State)
    requires Reaches(c, s, a) && IsIdle(a) && AllWhole(a.stack) && some <= a.pending && c.capacity > 0
    ensures Reaches(c, s, b) && b.submitted == a.submitted
    ensures HasLost(b) || (
      IsIdle(b) && AllWhole(b.stack) && b.pending == a.pending - some && Bag(b.stack) == Bag(a.stack) + some)
    decreases |some|
  {
    if some == multiset{} {
      b := a;
    } else {
      var t :| t in some;
      b := PushedBack(c, s, a, t);
      if !HasLost(b) {
        BagAfterPush(a.stack, t);
        var next := b;
        b := AllPushedBack(c, s, next, some - multiset{t});
        TakeOut(Bag(a.stack), some, t);
        assert a.pending - multiset{t} - (some - multiset{t}) == a.pending - some;
      }
    }
  }

  lemma InitiallyIdlePool(c: Config, s: State)
    requires InitialState(c, s) && c.workers > 0
    ensures IsIdle(s) && s.pending == multiset{} && s.submitted == Bag(s.stack)
  {
  }

  lemma Replaced(m: multiset<Task>, all: multiset<Task>)
    requires m <= all
    ensures multiset{} + m + (all - m) == all && m + (all - m) == all
  {
  }

  lemma LastIsLeft(all: multiset<Task>, last: Task)
    requires last in all
    ensures multiset{} + (all - multiset{last}) == all - multiset{last} && last in all - (all - multiset{last})
  {
  }

  // All tasks, also those found on the stack, wait to be accepted.
  lemma {:induction false} AllWaiting(c: Config, s: State, all: multiset<Task>) returns (b: State)
    requires InitialState(c, s) && AllWhole(s.stack) && s.submitted <= all && c.workers > 0
    ensures Reaches(c, s, b) && IsIdle(b) && b.stack == [] && b.pending == all && b.submitted == all
  {
    ReachesItself(c, s);
    InitiallyIdlePool(c, s);
    var drained := Drained(c, s, s);
    b := Called(c, s, drained, all - s.submitted);
    Replaced(s.submitted, all);
  }

  // If a task would not be kept on top of all others, then some interleaving loses one.
  lemma {:induction false} SomethingIsLost(c: Config, s: State, all: multiset<Task>, last: Task) returns (end: State)
    requires InitialState(c, s) && AllWhole(s.stack) && s.submitted <= all && c.capacity > 0 && c.workers > 0
    requires last in all && (!c.fate(last).Kept? || Weight(c, all - multiset{last}) > c.bound)
    ensures Reaches(c, s, end) && end.submitted == all && HasLost(end)
  {
    var waiting := AllWaiting(c, s, all);
    end := AllPushedBack(c, s, waiting, all - multiset{last});
    if !HasLost(end) {
      StackSizeIsWeight(c, end.stack);
      LastIsLeft(all, last);
      end := PushedBack(c, s, end, last);
    }
  }

  // No interleaving of submissions out of `all` loses a task or ends the process.
  ghost predicate LosesNothing(c: Config, s: State, all: multiset<Task>) {
    forall s' :: Reaches(c, s, s') && s'.submitted <= all ==> !HasLost(s')
  }

  // That is so exactly if they just fit.
  lemma {:induction false} NothingIsLostExactly(c: Config, s: State, all: multiset<Task>)
    requires InitialState(c, s) && AllWhole(s.stack) && s.submitted <= all && c.capacity > 0 && c.workers > 0
    ensures LosesNothing(c, s, all) <==> JustFit(c, all)
  {
    if JustFit(c, all) {
      forall s' | Reaches(c, s, s') && s'.submitted <= all
        ensures !HasLost(s')
      {
        var states, steps :| IsExecution(c, states, steps) && states[0] == s && states[|steps|] == s';
        FewerJustFit(c, s'.submitted, all);
        NothingIsLost(c, states, steps, |steps|);
      }
    } else {
      var t :| t in all && !(c.fate(t).Kept? && Weight(c, all - multiset{t}) <= c.bound);
      var end := SomethingIsLost(c, s, all, t);
    }
  }

  // ---------- An execution that loses a task ----------

  // The states of one Submit that finds room, from an idle pool.
  function Accepting(s: State, t: Task): seq<State> {
    var called := s.(pending := s.pending + multiset{t}, submitted := s.submitted + multiset{t});
    var entered := called.(pending := s.pending, mutex := Entered(t));
    var sent := entered.(buf := s.buf + 1, mutex := Sent(t));
    var counted := sent.(wg := s.wg + 1, mutex := Counted(t));
    [called, entered, sent, counted, counted.(heap := s.heap + multiset{t}, mutex := Free)]
  }

  // ... and of one that finds none, and a worst task that is no worse.
  function Refusing(c: Config, s: State, t: Task): seq<State> {
    var called := s.(pending := s.pending + multiset{t}, submitted := s.submitted + multiset{t});
    var entered := called.(pending := s.pending, mutex := Entered(t));
    var full := entered.(mutex := Full(t));
    var spilling := full.(mutex := Spilling(t));
    [called, entered, full, spilling, AfterSpill(c, spilling)]
  }

  function AcceptActs(t: Task): seq<Step> {
    [BySubmit(Call(t)), BySubmit(Enter(t)), BySubmit(Send), BySubmit(Add), BySubmit(InsertNew)]
  }

  function RefuseActs(t: Task, worst: Task): seq<Step> {
    [BySubmit(Call(t)), BySubmit(Enter(t)), BySubmit(Overflow), BySubmit(KeepHeap(worst)), BySubmit(Spill)]
  }

  ghost predicate Leads(c: Config, s: State, acts: seq<Step>, more: seq<State>) {
    && |more| == |acts| == 5
    && Next(c, s, acts[0], more[0]) && Next(c, more[0], acts[1], more[1]) && Next(c, more[1], acts[2], more[2])
    && Next(c, more[2], acts[3], more[3]) && Next(c, more[3], acts[4], more[4])
  }

  lemma AcceptingBegins(c: Config, s: State, t: Task)
    requires s.mutex == Free && s.buf < c.capacity && !s.crashed
    ensures var a := Accepting(s, t);
      && Next(c, s, BySubmit(Call(t)), a[0]) && Next(c, a[0], BySubmit(Enter(t)), a[1])
      && Next(c, a[1], BySubmit(Send), a[2])
  {
    assert s.pending + multiset{t} - multiset{t} == s.pending;
  }

  lemma AcceptingLeads(c: Config, s: State, t: Task)
    requires s.mutex == Free && s.buf < c.capacity && !s.crashed
    ensures Leads(c, s, AcceptActs(t), Accepting(s, t))
  {
    AcceptingBegins(c, s, t);
  }

  lemma RefusingBegins(c: Config, s: State, t: Task)
    requires s.mutex == Free && s.buf >= c.capacity && !s.crashed
    ensures var a := Refusing(c, s, t);
      && Next(c, s, BySubmit(Call(t)), a[0]) && Next(c, a[0], BySubmit(Enter(t)), a[1])
      && Next(c, a[1], BySubmit(Overflow), a[2])
  {
    assert s.pending + multiset{t} - multiset{t} == s.pending;
  }

  lemma RefusingEnds(c: Config, s: State, t: Task, worst: Task)
    requires !s.crashed && IsLeast(worst, s.heap) && t.priority <= worst.priority
    ensures var a := Refusing(c, s, t);
      Next(c, a[2], BySubmit(KeepHeap(worst)), a[3]) && Next(c, a[3], BySubmit(Spill), a[4])
  {
  }

  lemma RefusingLeads(c: Config, s: State, t: Task, worst: Task)
    requires s.mutex == Free && s.buf >= c.capacity && !s.crashed
    requires IsLeast(worst, s.heap) && t.priority <= worst.priority
    ensures Leads(c, s, RefuseActs(t, worst), Refusing(c, s, t))
  {
    RefusingBegins(c, s, t);
    RefusingEnds(c, s, t, worst);
  }

  lemma FiveMore(c: Config, states: seq<State>, steps: seq<Step>, acts: seq<Step>, more: seq<State>)
    requires IsExecution(c, states, steps) && Leads(c, states[|steps|], acts, more)
    ensures IsExecution(c, states + more, steps + acts)
  {
    var n := |steps|;
    forall i: nat | i < n + 5
      ensures StepAt(c, states + more, steps + acts, i)
    {
      if i < n {
        assert StepAt(c, states, steps, i);
      } else {
        assert i == n || i == n + 1 || i == n + 2 || i == n + 3 || i == n + 4;
      }
    }
  }

  lemma CutIsLost(c: Config, s: State, t: Task)
    requires s.stack == [] && s.dropped == multiset{} && !s.crashed && c.bound >= 0 && !c.fate(t).Kept?
    ensures var end := Refusing(c, s, t)[4];
      if c.fate(t).Panicking? then end.crashed else end.dropped == multiset{t} && Bag(end.stack) == multiset{}
  {
    BagAfterPush([], t);
    assert [] + [Cut(t)] == [Cut(t)];
  }

  // With room for one task, a second one that is no better and too long for the stack is lost, or
  // ends the process, though the stack is empty.
  lemma LongTaskIsLost(c: Config, s: State, first: Task, second: Task) returns (states: seq<State>, steps: seq<Step>)
    requires c.capacity == 1 && c.bound >= 0 && InitialState(c, s) && s.stack == []
    requires second.priority <= first.priority && !c.fate(second).Kept?
    ensures IsExecution(c, states, steps) && states[0] == s
    ensures var end := states[|steps|];
      if c.fate(second).Panicking? then end.crashed
      else end.dropped == multiset{second} && Bag(end.stack) == multiset{}
  {
    var accepted := Accepting(s, first)[4];
    FirstIs(c, s, first);
    RefusingLeads(c, accepted, second, first);
    CutIsLost(c, accepted, second);
    states, steps := [s] + Accepting(s, first), AcceptActs(first);
    FiveMore(c, states, steps, RefuseActs(second, first), Refusing(c, accepted, second));
    states, steps := states + Refusing(c, accepted, second), steps + RefuseActs(second, first);
  }

  lemma FirstIs(c: Config, s: State, first: Task)
    requires InitialState(c, s) && s.stack == []
    ensures var s' := Accepting(s, first)[4];
      s'.heap == multiset{first} && s'.stack == [] && s'.dropped == multiset{} && s'.buf == 1 && s'.mutex == Free && !s'.crashed
    ensures c.capacity > 0 ==> IsExecution(c, [s] + Accepting(s, first), AcceptActs(first))
  {
    if c.capacity > 0 {
      AcceptingLeads(c, s, first);
      FiveMore(c, [s], [], AcceptActs(first), Accepting(s, first));
      assert [] + AcceptActs(first) == AcceptActs(first);
    }
  }
}
