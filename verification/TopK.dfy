/** The scheduler as a bounded best-of buffer: while no worker takes a token and the ticker takes
    nothing back, Submit keeps the best tasks in the heap and spills the others. */
module TopK {
  import opened MinMaxHeap
  import opened Tasks
  import opened WorkerPool
  import opened Wrappers

  // An execution of Submits alone, from an empty pool.
  ghost predicate OnlySubmits(c: Config, states: seq<State>, steps: seq<Step>) {
    && IsExecution(c, states, steps)
    && states[0].stack == []
    && forall i :: 0 <= i < |steps| ==> steps[i].BySubmit?
  }

  // Tasks the pool has decided to spill.
  function Spilled(s: State): multiset<Task> {
    Bag(s.stack) + s.dropped + Doomed(s.mutex)
  }

  function Doomed(m: Mutex): multiset<Task> {
    match m
    case Replacing(_, worst) => multiset{worst}
    case Spilling(t) => multiset{t}
    case _ => multiset{}
  }

  // Tasks in the heap or certain to get there.
  function Kept(s: State): multiset<Task> {
    s.heap + Arriving(s.mutex)
  }

  function Arriving(m: Mutex): multiset<Task> {
    match m
    case Replacing(t, _) => multiset{t}
    case Sent(t) => multiset{t}
    case Counted(t) => multiset{t}
    case _ => multiset{}
  }

  ghost predicate Dominates(kept: multiset<Task>, spilled: multiset<Task>) {
    forall u, v :: u in spilled && v in kept ==> u.priority <= v.priority
  }

  ghost predicate Best(c: Config, s: State) {
    && Dominates(Kept(s), Spilled(s))
    && s.buf <= c.capacity
    && s.finished == multiset{} && s.ticker == None
    && s.workers == seq(c.workers, _ => Waiting)
    && (s.mutex.Full? || s.mutex.Replacing? || s.mutex.Spilling? ==> s.buf == c.capacity)
    && (s.buf < c.capacity || s.mutex.Sent? || s.mutex.Counted? ==> Spilled(s) == multiset{})
  }

  lemma ReplaceKeepsBest(c: Config, s: State, worst: Task)
    requires Best(c, s) && s.mutex.Full? && IsLeast(worst, s.heap) && s.mutex.t.priority > worst.priority
    ensures Best(c, s.(heap := s.heap - multiset{worst}, mutex := Replacing(s.mutex.t, worst)))
  {
    var s' := s.(heap := s.heap - multiset{worst}, mutex := Replacing(s.mutex.t, worst));
    forall u, v | u in Spilled(s') && v in Kept(s')
      ensures u.priority <= v.priority
    {
      assert worst in Kept(s);
      assert u == worst || u in Spilled(s);
      assert v == s.mutex.t || v in Kept(s);
    }
  }

  lemma KeepKeepsBest(c: Config, s: State, worst: Task)
    requires Best(c, s) && s.mutex.Full? && IsLeast(worst, s.heap) && !(s.mutex.t.priority > worst.priority)
    ensures Best(c, s.(mutex := Spilling(s.mutex.t)))
  {
    var s' := s.(mutex := Spilling(s.mutex.t));
    forall u, v | u in Spilled(s') && v in Kept(s')
      ensures u.priority <= v.priority
    {
      assert u == s.mutex.t || u in Spilled(s);
      assert v in Kept(s);
    }
  }

  // A step that changes neither set, or leaves nothing spilled, keeps the order.
  lemma SameSetsKeepBest(c: Config, s: State, s': State)
    requires Best(c, s) && s'.finished == s.finished && s'.ticker == s.ticker && s'.workers == s.workers
    requires s'.buf <= c.capacity
    requires Spilled(s') == Spilled(s) && (Kept(s') == Kept(s) || Spilled(s) == multiset{})
    requires s'.mutex.Full? || s'.mutex.Replacing? || s'.mutex.Spilling? ==> s'.buf == c.capacity
    requires s'.buf < c.capacity || s'.mutex.Sent? || s'.mutex.Counted? ==> Spilled(s) == multiset{}
    ensures Best(c, s')
  {
  }

  lemma ThreeWays(a: multiset<Task>, t: Task)
    ensures a + multiset{t} + multiset{} == a + multiset{t}
    ensures a + multiset{} + multiset{t} == a + multiset{t}
  {
  }

  // A push neither adds to the spilled tasks nor removes one.
  lemma {:induction false} PushKeepsSpilled(c: Config, stack: seq<Record>, t: Task)
    ensures Bag(StackAfter(c, stack, t)) + Loss(c, stack, t) + Doomed(if Crashes(c, stack, t) then Spilling(t) else Free)
         == Bag(stack) + multiset{t}
  {
    BagAfterPush(stack, t);
    ThreeWays(Bag(stack), t);
    NothingAdded(Bag(stack) + multiset{t});
  }

  lemma Reorder(a: multiset<Task>, b: multiset<Task>, x: multiset<Task>, y: multiset<Task>)
    ensures a + (b + x) + y == b + (a + x + y)
  {
  }

  lemma SpillKeepsSpilled(c: Config, s: State)
    requires s.mutex.Spilling?
    ensures Spilled(AfterSpill(c, s)) == Spilled(s)
  {
    var t, s' := s.mutex.t, AfterSpill(c, s);
    PushKeepsSpilled(c, s.stack, t);
    Reorder(Bag(s'.stack), s.dropped, Loss(c, s.stack, t), Doomed(s'.mutex));
    Reorder(Bag(s.stack), s.dropped, multiset{}, multiset{t});
  }

  lemma SpillKeepsBest(c: Config, s: State, s': State)
    requires Best(c, s) && SubmitNext(c, s, Spill, s')
    ensures Best(c, s')
  {
    SpillKeepsSpilled(c, s);
    SameSetsKeepBest(c, s, s');
  }

  // The task moves from the mutex into the heap.
  lemma InsertKeepsSets(s: State, m: Mutex)
    requires s.mutex.Counted? || s.mutex.Replacing?
    requires m == if s.mutex.Counted? then Free else Spilling(s.mutex.worst)
    ensures var s' := s.(heap := s.heap + multiset{s.mutex.t}, mutex := m);
      Spilled(s') == Spilled(s) && Kept(s') == Kept(s)
  {
    NothingAdded(s.heap + multiset{s.mutex.t});
  }

  lemma NothingAdded(m: multiset<Task>)
    ensures m + multiset{} == m
  {
  }

  lemma InsertKeepsBest(c: Config, s: State, act: SubmitAct, s': State)
    requires Best(c, s) && SubmitNext(c, s, act, s') && (act.InsertNew? || act.InsertBetter?)
    ensures Best(c, s')
  {
    InsertKeepsSets(s, s'.mutex);
    SameSetsKeepBest(c, s, s');
  }

  lemma OtherKeepsSets(c: Config, s: State, act: SubmitAct, s': State)
    requires SubmitNext(c, s, act, s')
    requires act.Call? || act.Enter? || act.Send? || act.Overflow? || act.Add? || act.Forget?
    ensures s'.heap == s.heap && s'.stack == s.stack && s'.dropped == s.dropped
    ensures Doomed(s'.mutex) == Doomed(s.mutex) && (act.Send? || Arriving(s'.mutex) == Arriving(s.mutex))
    ensures act.Send? ==> s.buf < c.capacity
  {
  }

  lemma OtherKeepsBest(c: Config, s: State, act: SubmitAct, s': State)
    requires Best(c, s) && SubmitNext(c, s, act, s')
    requires act.Call? || act.Enter? || act.Send? || act.Overflow? || act.Add? || act.Forget?
    ensures Best(c, s')
  {
    OtherKeepsSets(c, s, act, s');
    assert Spilled(s') == Spilled(s);
    assert act.Send? || Kept(s') == Kept(s);
    SameSetsKeepBest(c, s, s');
  }

  lemma StepKeepsBest(c: Config, s: State, step: Step, s': State)
    requires Best(c, s) && step.BySubmit? && Next(c, s, step, s')
    ensures Best(c, s')
  {
    var act := step.submit;
    match act
    case DeleteWorst(worst) => ReplaceKeepsBest(c, s, worst);
    case KeepHeap(worst) => KeepKeepsBest(c, s, worst);
    case Spill => SpillKeepsBest(c, s, s');
    case InsertNew => InsertKeepsBest(c, s, act, s');
    case InsertBetter => InsertKeepsBest(c, s, act, s');
    case _ => OtherKeepsBest(c, s, act, s');
  }

  lemma InitialIsBest(c: Config, s: State)
    requires InitialState(c, s) && s.stack == []
    ensures Best(c, s)
  {
  }

  lemma FirstIsBest(c: Config, states: seq<State>, steps: seq<Step>)
    requires OnlySubmits(c, states, steps)
    ensures Best(c, states[0])
  {
    InitialIsBest(c, states[0]);
  }

  lemma StepAtKeepsBest(c: Config, states: seq<State>, steps: seq<Step>, k: nat)
    requires OnlySubmits(c, states, steps) && 1 <= k <= |steps| && Best(c, states[k - 1])
    ensures Best(c, states[k])
  {
    assert StepAt(c, states, steps, k - 1);
    StepKeepsBest(c, states[k - 1], steps[k - 1], states[k]);
  }

  lemma {:induction false} SubmitsKeepBest(c: Config, states: seq<State>, steps: seq<Step>, k: nat)
    requires OnlySubmits(c, states, steps) && k <= |steps|
    ensures Best(c, states[k])
  {
    if k == 0 {
      FirstIsBest(c, states, steps);
    } else {
      SubmitsKeepBest(c, states, steps, k - 1);
      StepAtKeepsBest(c, states, steps, k);
    }
  }

  // Once every Submit has returned, the heap holds as many tasks as it can and no spilled task
  // is better than a kept one.
  lemma HeapHoldsTheBest(c: Config, states: seq<State>, steps: seq<Step>, k: nat)
    requires OnlySubmits(c, states, steps) && k <= |steps| && c.capacity > 0
    requires states[k].mutex == Free && states[k].pending == multiset{}
    ensures var s := states[k];
      var spilled := Bag(s.stack) + s.dropped;
      && s.submitted == s.heap + spilled
      && |s.heap| == (if |s.submitted| < c.capacity then |s.submitted| else c.capacity)
      && Dominates(s.heap, spilled)
  {
    SubmitsKeepBest(c, states, steps, k);
    ExecutionIsSafe(c, states, steps, k);
    IdleHeapIsBest(c, states[k]);
  }

  lemma IdleSubmitted(c: Config, s: State)
    requires Conserved(s) && s.workers == seq(c.workers, _ => Waiting) && s.ticker == None
    requires s.mutex == Free && s.pending == multiset{} && s.finished == multiset{}
    ensures s.submitted == s.heap + (Bag(s.stack) + s.dropped)
  {
    IdleWorkers(s.workers);
    forall t
      ensures s.submitted[t] == (s.heap + (Bag(s.stack) + s.dropped))[t]
    {
      assert Tally(s, t) == s.submitted[t];
    }
  }

  lemma IdleHeapIsBest(c: Config, s: State)
    requires Best(c, s) && Balanced(c, s) && Conserved(s) && s.mutex == Free && s.pending == multiset{}
    ensures var spilled := Bag(s.stack) + s.dropped;
      && s.submitted == s.heap + spilled
      && |s.heap| == (if |s.submitted| < c.capacity then |s.submitted| else c.capacity)
      && Dominates(s.heap, spilled)
  {
    var spilled := Bag(s.stack) + s.dropped;
    IdleWorkers(s.workers);
    IdleSubmitted(c, s);
    NothingAdded(spilled);
    NothingAdded(s.heap);
    assert Spilled(s) == spilled && Kept(s) == s.heap;
    assert |s.submitted| == |s.heap| + |spilled|;
  }

  lemma {:induction false} IdleWorkers(ws: seq<Pc>)
    requires forall w :: 0 <= w < |ws| ==> ws[w] == Waiting
    ensures Holders(ws) == 0 && Hands(ws) == multiset{}
  {
    if ws != [] {
      IdleWorkers(ws[1..]);
    }
  }
}
