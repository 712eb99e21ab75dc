/** The crawl scheduler: submitters, workers and a ticker that share a token channel, a
    mutex-guarded heap, a wait group and an overflow stack.  The module states the protocol as a
    transition system, with one step for each action another goroutine can observe. */
module WorkerPool {
  import FileStack
  import opened MinMaxHeap
  import opened Tasks
  import opened Wrappers

  // ---------- State ----------

  // `capacity` of the token channel, number of workers, size past which the overflow stack
  // refuses records, what becomes of a task that is pushed there, and how many bytes it takes.
  datatype Config = Config(
    capacity: nat, workers: nat, bound: int, fate: Task -> FileStack.Fate, room: Task -> nat)

  // Who holds the mutex, and how far that goroutine has come.
  datatype Mutex =
    | Free
    | Entered(t: Task)                  // Submit, before its select
    | Sent(t: Task)                     // Submit, token sent
    | Counted(t: Task)                  // Submit, wait group incremented
    | Full(t: Task)                     // Submit, in the default branch
    | Replacing(t: Task, worst: Task)   // Submit, worst task deleted, new one not inserted
    | Spilling(t: Task)                 // Submit, about to push `t` on the stack
    | Popping(w: nat)                   // worker `w` is about to take its task

  datatype Pc =
    | Waiting                 // in the select on the token channel
    | HasToken                // received a token, wants a task
    | Popped(t: Task)         // has a task, not yet marked done in the wait group
    | Running(t: Task)        // executing the task
    | Canceled(t: Task)       // the task was canceled, about to push it back
    | Refunding               // found the heap empty, about to return the token

  datatype State = State(
    buf: nat,                   // tokens in the channel
    heap: multiset<Task>,
    wg: int,
    mutex: Mutex,
    pending: multiset<Task>,    // Submit called, mutex not yet acquired
    workers: seq<Pc>,
    ticker: Option<Task>,       // popped from the stack, not yet submitted again
    stack: seq<Record>,
    crashed: bool,              // a push panicked, which ends the process
    submitted: multiset<Task>,  // history: everything Submit was first called with
    finished: multiset<Task>,   // history: executed and not canceled
    dropped: multiset<Task>)    // history: refused or cut by the stack

  // What the stack holds: a task, or the beginning of one whose data was too long.  The latter does
  // not decode, so nothing comes of it.
  datatype Record = Whole(t: Task) | Cut(t: Task)

  // Bytes on the stack.
  function StackSize(c: Config, stack: seq<Record>): nat {
    if stack == [] then 0 else StackSize(c, stack[..|stack| - 1]) + c.room(stack[|stack| - 1].t)
  }

  predicate IsFull(c: Config, stack: seq<Record>) {
    StackSize(c, stack) > c.bound
  }

  // What a push leaves on the stack, what it loses, and whether it panics.
  function StackAfter(c: Config, stack: seq<Record>, t: Task): seq<Record> {
    if IsFull(c, stack) || c.fate(t).Panicking? then stack
    else stack + [if c.fate(t).Kept? then Whole(t) else Cut(t)]
  }

  function Loss(c: Config, stack: seq<Record>, t: Task): multiset<Task> {
    if IsFull(c, stack) || c.fate(t).CutShort? then multiset{t} else multiset{}
  }

  predicate Crashes(c: Config, stack: seq<Record>, t: Task) {
    !IsFull(c, stack) && c.fate(t).Panicking?
  }

  function Push(c: Config, s: State, t: Task): State {
    s.(stack := StackAfter(c, s.stack, t), dropped := s.dropped + Loss(c, s.stack, t),
       crashed := s.crashed || Crashes(c, s.stack, t))
  }

  predicate InitialState(c: Config, s: State) {
    && !s.crashed
    && s.buf == 0 && s.heap == multiset{} && s.wg == 0 && s.mutex == Free && s.pending == multiset{}
    && s.workers == seq(c.workers, _ => Waiting)
    && s.ticker == None
    && s.submitted == Bag(s.stack) && s.finished == multiset{} && s.dropped == multiset{}
  }

  // ---------- Steps ----------

  datatype SubmitAct =
    | Call(t: Task) | Enter(t: Task) | Send | Overflow | Add | InsertNew
    | DeleteWorst(worst: Task) | InsertBetter | KeepHeap(worst: Task) | Forget | Spill

  datatype WorkerAct =
    | Receive | Lock | PopMax(best: Task) | FindEmpty | Refund | MarkDone | Finish | Cancel | PushBack

  datatype TickerAct = PopStack | Resubmit

  datatype Step = BySubmit(submit: SubmitAct) | ByWorker(w: nat, worker: WorkerAct) | ByTicker(ticker: TickerAct)

  ghost predicate SubmitNext(c: Config, s: State, act: SubmitAct, s': State) {
    match act
    case Call(t) =>
      s' == s.(pending := s.pending + multiset{t}, submitted := s.submitted + multiset{t})
    case Enter(t) =>
      s.mutex == Free && t in s.pending && s' == s.(pending := s.pending - multiset{t}, mutex := Entered(t))
    case Send =>
      s.mutex.Entered? && s.buf < c.capacity && s' == s.(buf := s.buf + 1, mutex := Sent(s.mutex.t))
    case Overflow =>
      s.mutex.Entered? && s.buf >= c.capacity && s' == s.(mutex := Full(s.mutex.t))
    case Add =>
      s.mutex.Sent? && s' == s.(wg := s.wg + 1, mutex := Counted(s.mutex.t))
    case InsertNew =>
      s.mutex.Counted? && s' == s.(heap := s.heap + multiset{s.mutex.t}, mutex := Free)
    case DeleteWorst(worst) =>
      s.mutex.Full? && IsLeast(worst, s.heap) && s.mutex.t.priority > worst.priority &&
      s' == s.(heap := s.heap - multiset{worst}, mutex := Replacing(s.mutex.t, worst))
    case InsertBetter =>
      s.mutex.Replacing? && s' == s.(heap := s.heap + multiset{s.mutex.t}, mutex := Spilling(s.mutex.worst))
    case KeepHeap(worst) =>
      s.mutex.Full? && IsLeast(worst, s.heap) && !(s.mutex.t.priority > worst.priority) &&
      s' == s.(mutex := Spilling(s.mutex.t))
    case Forget =>
      s.mutex.Full? && s.heap == multiset{} && s' == s.(mutex := Free)
    case Spill =>
      s.mutex.Spilling? && s' == AfterSpill(c, s)
  }

  // A goroutine goes on after its push, unless that panicked.
  function AfterSpill(c: Config, s: State): State
    requires s.mutex.Spilling?
  {
    Push(c, s, s.mutex.t).(mutex := if Crashes(c, s.stack, s.mutex.t) then s.mutex else Free)
  }

  function AfterPushBack(c: Config, s: State, w: nat): State
    requires w < |s.workers| && s.workers[w].Canceled?
  {
    var pc := s.workers[w];
    Goes(Push(c, s, pc.t), w, if Crashes(c, s.stack, pc.t) then pc else Waiting)
  }

  // What worker `w` does to its own program counter.
  function Goes(s: State, w: nat, p: Pc): State
    requires w < |s.workers|
  {
    s.(workers := s.workers[w := p])
  }

  ghost predicate WorkerNext(c: Config, s: State, w: nat, act: WorkerAct, s': State) {
    w < |s.workers| && var pc := s.workers[w];
    match act
    case Receive =>
      pc == Waiting && s.buf > 0 && s' == Goes(s, w, HasToken).(buf := s.buf - 1)
    case Lock =>
      pc == HasToken && s.mutex == Free && s' == s.(mutex := Popping(w))
    case PopMax(best) =>
      s.mutex == Popping(w) && IsGreatest(best, s.heap) &&
      s' == Goes(s, w, Popped(best)).(heap := s.heap - multiset{best}, mutex := Free)
    case FindEmpty =>
      s.mutex == Popping(w) && s.heap == multiset{} && s' == Goes(s, w, Refunding).(mutex := Free)
    case Refund =>
      pc == Refunding && s' == Goes(s, w, Waiting).(buf := if s.buf < c.capacity then s.buf + 1 else s.buf)
    case MarkDone =>
      pc.Popped? && s' == Goes(s, w, Running(pc.t)).(wg := s.wg - 1)
    case Finish =>
      pc.Running? && s' == Goes(s, w, Waiting).(finished := s.finished + multiset{pc.t})
    case Cancel =>
      pc.Running? && s' == Goes(s, w, Pc.Canceled(pc.t))
    case PushBack =>
      pc.Canceled? && s' == AfterPushBack(c, s, w)
  }

  function Decoded(r: Record): Option<Task> {
    if r.Whole? then Some(r.t) else None
  }

  ghost predicate TickerNext(s: State, act: TickerAct, s': State) {
    match act
    case PopStack =>
      s.ticker == None && s.mutex == Free && s.stack != [] &&
      s' == s.(stack := s.stack[..|s.stack| - 1], ticker := Decoded(s.stack[|s.stack| - 1]))
    case Resubmit =>
      s.ticker.Some? && s' == s.(pending := s.pending + multiset{s.ticker.value}, ticker := None)
  }

  ghost predicate Next(c: Config, s: State, step: Step, s': State) {
    !s.crashed &&
    match step
    case BySubmit(act) => SubmitNext(c, s, act, s')
    case ByWorker(w, act) => WorkerNext(c, s, w, act, s')
    case ByTicker(act) => TickerNext(s, act, s')
  }

  // ---------- Counting over the workers ----------

  function Bit(b: bool): nat {
    if b then 1 else 0
  }

  // Workers that own a token they have not yet turned into a task.
  function Holders(ws: seq<Pc>): nat {
    if ws == [] then 0 else Holders(ws[1..]) + Bit(ws[0] == HasToken)
  }

  // Workers whose task is still counted by the wait group.
  function Undone(ws: seq<Pc>): nat {
    if ws == [] then 0 else Undone(ws[1..]) + Bit(ws[0].Popped?)
  }

  function Hand(p: Pc): multiset<Task> {
    if p.Popped? || p.Running? || p.Canceled? then multiset{p.t} else multiset{}
  }

  function Hands(ws: seq<Pc>): multiset<Task> {
    if ws == [] then multiset{} else Hand(ws[0]) + Hands(ws[1..])
  }

  lemma UpdateTail(ws: seq<Pc>, w: nat, p: Pc)
    requires 0 < w < |ws|
    ensures ws[w := p][0] == ws[0] && ws[w := p][1..] == ws[1..][w - 1 := p]
  {
  }

  lemma {:induction false} CountsAfterUpdate(ws: seq<Pc>, w: nat, p: Pc)
    requires w < |ws|
    ensures Holders(ws[w := p]) == Holders(ws) - Bit(ws[w] == HasToken) + Bit(p == HasToken)
    ensures Undone(ws[w := p]) == Undone(ws) - Bit(ws[w].Popped?) + Bit(p.Popped?)
  {
    if w == 0 {
      assert ws[w := p][1..] == ws[1..];
    } else {
      UpdateTail(ws, w, p);
      CountsAfterUpdate(ws[1..], w - 1, p);
    }
  }

  lemma Regroup(a: multiset<Task>, b: multiset<Task>, c: multiset<Task>)
    ensures (a + b) + c == a + (b + c)
  {
  }

  lemma {:induction false} HandsAfterUpdate(ws: seq<Pc>, w: nat, p: Pc)
    requires w < |ws|
    ensures Hands(ws[w := p]) + Hand(ws[w]) == Hands(ws) + Hand(p)
  {
    if w == 0 {
      assert ws[w := p][1..] == ws[1..];
    } else {
      UpdateTail(ws, w, p);
      HandsAfterUpdate(ws[1..], w - 1, p);
      Regroup(Hand(ws[0]), Hands(ws[1..][w - 1 := p]), Hand(ws[w]));
      Regroup(Hand(ws[0]), Hands(ws[1..]), Hand(p));
    }
  }

  lemma {:induction false} HoldersBounds(ws: seq<Pc>)
    ensures Holders(ws) <= |ws|
    ensures forall w :: 0 <= w < |ws| && ws[w] == HasToken ==> Holders(ws) >= 1
  {
    if ws != [] {
      HoldersBounds(ws[1..]);
    }
  }

  // ---------- Token balance ----------

  // Every token in the channel or in a worker's hand stands for one task that is in the heap or
  // on its way into it, and the wait group counts the tasks not yet marked done.
  ghost predicate Balanced(c: Config, s: State) {
    && |s.workers| == c.workers
    && s.buf <= c.capacity
    && s.buf + Holders(s.workers)
       == |s.heap| + Bit(s.mutex.Sent? || s.mutex.Counted? || s.mutex.Replacing?)
    && s.wg == |s.heap| + Undone(s.workers) + Bit(s.mutex.Counted? || s.mutex.Replacing?)
    && (s.mutex.Full? ==> s.buf + Holders(s.workers) >= c.capacity)
    && (s.mutex.Popping? ==> s.mutex.w < |s.workers| && s.workers[s.mutex.w] == HasToken)
    && Refunding !in s.workers
  }

  lemma {:induction false} InitiallyIdle(c: Config, s: State, k: nat)
    requires InitialState(c, s) && k <= c.workers
    ensures Holders(s.workers[k..]) == 0 && Undone(s.workers[k..]) == 0 && Hands(s.workers[k..]) == multiset{}
    decreases c.workers - k
  {
    if k < c.workers {
      InitiallyIdle(c, s, k + 1);
      assert s.workers[k..] == [Waiting] + s.workers[k + 1..];
    }
  }

  lemma DeleteWorstKeepsBalance(c: Config, s: State, worst: Task)
    requires Balanced(c, s) && s.mutex.Full? && worst in s.heap
    ensures Balanced(c, s.(heap := s.heap - multiset{worst}, mutex := Replacing(s.mutex.t, worst)))
  {
  }

  lemma InsertKeepsBalance(c: Config, s: State, m: Mutex)
    requires Balanced(c, s) && (s.mutex.Counted? || s.mutex.Replacing?) && (m.Free? || m.Spilling?)
    ensures Balanced(c, s.(heap := s.heap + multiset{s.mutex.t}, mutex := m))
  {
  }

  // A Submit step that moves nothing into the heap or out of it.
  lemma OtherKeepsBalance(c: Config, s: State, act: SubmitAct, s': State)
    requires Balanced(c, s) && SubmitNext(c, s, act, s')
    requires !act.DeleteWorst? && !act.InsertNew? && !act.InsertBetter?
    ensures Balanced(c, s')
  {
    assert s'.heap == s.heap;
  }

  lemma SubmitKeepsBalance(c: Config, s: State, act: SubmitAct, s': State)
    requires Balanced(c, s) && SubmitNext(c, s, act, s')
    ensures Balanced(c, s')
  {
    match act
    case DeleteWorst(worst) => DeleteWorstKeepsBalance(c, s, worst);
    case InsertNew => InsertKeepsBalance(c, s, Free);
    case InsertBetter => InsertKeepsBalance(c, s, Spilling(s.mutex.worst));
    case _ => OtherKeepsBalance(c, s, act, s');
  }

  lemma WorkerKeepsBalance(c: Config, s: State, w: nat, act: WorkerAct, s': State)
    requires Balanced(c, s) && WorkerNext(c, s, w, act, s') && !act.PopMax?
    ensures Balanced(c, s')
  {
    HoldersBounds(s.workers);
    CountsAfterUpdate(s.workers, w, s'.workers[w]);
  }

  lemma PopKeepsBalance(c: Config, s: State, w: nat, act: WorkerAct, s': State)
    requires Balanced(c, s) && WorkerNext(c, s, w, act, s') && act.PopMax?
    ensures Balanced(c, s')
  {
    CountsAfterUpdate(s.workers, w, Popped(act.best));
  }

  lemma StepKeepsBalance(c: Config, s: State, step: Step, s': State)
    requires Balanced(c, s) && Next(c, s, step, s')
    ensures Balanced(c, s')
  {
    match step
    case BySubmit(act) => SubmitKeepsBalance(c, s, act, s');
    case ByWorker(w, act) =>
      if act.PopMax? { PopKeepsBalance(c, s, w, act, s'); } else { WorkerKeepsBalance(c, s, w, act, s'); }
    case ByTicker(_) =>
  }

  // What the balance guarantees: a worker in its critical section finds a task, so the branch
  // that returns the token is dead; a Submit that found the channel full finds a worst task, so no
  // task is forgotten; the heap stays bounded; and an idle wait group means an empty heap.
  lemma BalanceGuarantees(c: Config, s: State)
    requires Balanced(c, s) && c.capacity > 0
    ensures s.mutex.Popping? ==> s.heap != multiset{}
    ensures s.mutex.Full? ==> s.heap != multiset{}
    ensures forall s' :: !Next(c, s, BySubmit(Forget), s')
    ensures forall w, s' :: !Next(c, s, ByWorker(w, FindEmpty), s') && !Next(c, s, ByWorker(w, Refund), s')
    ensures |s.heap| <= c.capacity + c.workers
    ensures s.wg == 0 ==> s.heap == multiset{} && forall w :: 0 <= w < |s.workers| ==> !s.workers[w].Popped?
  {
    HoldersBounds(s.workers);
    UndoneBounds(s.workers);
  }

  lemma {:induction false} UndoneBounds(ws: seq<Pc>)
    ensures forall w :: 0 <= w < |ws| && ws[w].Popped? ==> Undone(ws) >= 1
  {
    if ws != [] {
      UndoneBounds(ws[1..]);
    }
  }

  // ---------- Conservation of tasks ----------

  function InMutex(m: Mutex): multiset<Task> {
    match m
    case Free => multiset{}
    case Popping(_) => multiset{}
    case Replacing(t, worst) => multiset{t} + multiset{worst}
    case Entered(t) => multiset{t}
    case Sent(t) => multiset{t}
    case Counted(t) => multiset{t}
    case Full(t) => multiset{t}
    case Spilling(t) => multiset{t}
  }

  // How often `t` occurs, over all the places where a task can be.
  function Tally(s: State, t: Task): nat {
    s.pending[t] + InMutex(s.mutex)[t] + s.heap[t] + Hands(s.workers)[t] + Taken(s.ticker)[t]
    + Bag(s.stack)[t] + s.finished[t] + s.dropped[t]
  }

  // Each submitted task is in exactly one place.
  ghost predicate Conserved(s: State) {
    forall t :: Tally(s, t) == s.submitted[t]
  }

  // The tasks on the stack.
  function Bag(stack: seq<Record>): multiset<Task> {
    if stack == [] then multiset{}
    else
      var rest := Bag(stack[..|stack| - 1]);
      match stack[|stack| - 1]
      case Whole(t) => rest + multiset{t}
      case Cut(_) => rest
  }

  lemma {:induction false} BagAfterPush(stack: seq<Record>, t: Task)
    ensures Bag(stack + [Whole(t)]) == Bag(stack) + multiset{t}
    ensures Bag(stack + [Cut(t)]) == Bag(stack)
  {
    assert (stack + [Whole(t)])[..|stack|] == stack;
    assert (stack + [Cut(t)])[..|stack|] == stack;
  }

  // A push accounts for its task: it is on the stack, lost, or still where it was.
  lemma {:induction false} PushAccounts(c: Config, stack: seq<Record>, t: Task, u: Task)
    ensures Bag(StackAfter(c, stack, t))[u] + Loss(c, stack, t)[u] + (if Crashes(c, stack, t) then multiset{t}[u] else 0)
         == Bag(stack)[u] + multiset{t}[u]
  {
    BagAfterPush(stack, t);
  }

  // The step moves no task.
  predicate SamePlaces(s: State, s': State) {
    && s'.pending == s.pending && InMutex(s'.mutex) == InMutex(s.mutex) && s'.heap == s.heap
    && s'.workers == s.workers && s'.ticker == s.ticker && s'.stack == s.stack
    && s'.finished == s.finished && s'.dropped == s.dropped && s'.submitted == s.submitted
  }

  lemma SamePlacesSameTally(s: State, s': State, t: Task)
    requires SamePlaces(s, s')
    ensures Tally(s', t) == Tally(s, t)
  {
  }

  lemma HeapLessOne(heap: multiset<Task>, u: Task, t: Task)
    requires u in heap
    ensures heap[t] == (heap - multiset{u})[t] + multiset{u}[t]
  {
  }

  lemma CallAddsToTally(s: State, u: Task, t: Task)
    ensures Tally(s.(pending := s.pending + multiset{u}), t) == Tally(s, t) + multiset{u}[t]
  {
  }

  lemma EnterKeepsTally(s: State, u: Task, t: Task)
    requires s.mutex == Free && u in s.pending
    ensures Tally(s.(pending := s.pending - multiset{u}, mutex := Entered(u)), t) == Tally(s, t)
  {
    HeapLessOne(s.pending, u, t);
  }

  lemma InsertKeepsTally(s: State, t: Task)
    requires s.mutex.Counted?
    ensures Tally(s.(heap := s.heap + multiset{s.mutex.t}, mutex := Free), t) == Tally(s, t)
  {
  }

  lemma DeleteWorstKeepsTally(s: State, worst: Task, t: Task)
    requires s.mutex.Full? && worst in s.heap
    ensures Tally(s.(heap := s.heap - multiset{worst}, mutex := Replacing(s.mutex.t, worst)), t) == Tally(s, t)
  {
    HeapLessOne(s.heap, worst, t);
  }

  lemma InsertBetterKeepsTally(s: State, t: Task)
    requires s.mutex.Replacing?
    ensures Tally(s.(heap := s.heap + multiset{s.mutex.t}, mutex := Spilling(s.mutex.worst)), t) == Tally(s, t)
  {
  }

  lemma {:induction false} PushMoves(s: State, stack: seq<Record>, loss: multiset<Task>, m: Mutex, crashed: bool, t: Task)
    requires InMutex(m)[t] + Bag(stack)[t] + loss[t] == InMutex(s.mutex)[t] + Bag(s.stack)[t]
    ensures Tally(s.(stack := stack, dropped := s.dropped + loss, mutex := m, crashed := crashed), t) == Tally(s, t)
  {
  }

  function AfterPush(m: Mutex, crash: bool): Mutex {
    if crash then m else Free
  }

  lemma AfterSpillIs(c: Config, s: State)
    requires s.mutex.Spilling?
    ensures var u := s.mutex.t;
      AfterSpill(c, s) == s.(stack := StackAfter(c, s.stack, u), dropped := s.dropped + Loss(c, s.stack, u),
                             mutex := AfterPush(s.mutex, Crashes(c, s.stack, u)),
                             crashed := s.crashed || Crashes(c, s.stack, u))
  {
  }

  lemma {:induction false} SpillAccounts(c: Config, stack: seq<Record>, u: Task, t: Task)
    ensures InMutex(AfterPush(Spilling(u), Crashes(c, stack, u)))[t] + Bag(StackAfter(c, stack, u))[t] + Loss(c, stack, u)[t]
         == InMutex(Spilling(u))[t] + Bag(stack)[t]
  {
    PushAccounts(c, stack, u, t);
  }

  lemma SpillKeepsTally(c: Config, s: State, t: Task)
    requires s.mutex.Spilling?
    ensures Tally(AfterSpill(c, s), t) == Tally(s, t)
  {
    var u := s.mutex.t;
    var crash := Crashes(c, s.stack, u);
    AfterSpillIs(c, s);
    SpillAccounts(c, s.stack, u, t);
    PushMoves(s, StackAfter(c, s.stack, u), Loss(c, s.stack, u), AfterPush(s.mutex, crash), s.crashed || crash, t);
  }

  lemma MutexActKeepsPlaces(c: Config, s: State, act: SubmitAct, s': State)
    requires SubmitNext(c, s, act, s') && (act.Send? || act.Overflow? || act.Add? || act.KeepHeap?)
    ensures SamePlaces(s, s')
  {
  }

  lemma SubmitKeepsTally(c: Config, s: State, act: SubmitAct, s': State, t: Task)
    requires SubmitNext(c, s, act, s') && !act.Forget? && !act.Call?
    ensures Tally(s', t) == Tally(s, t) && s'.submitted == s.submitted
  {
    match act
    case Enter(u) => EnterKeepsTally(s, u, t);
    case InsertNew => InsertKeepsTally(s, t);
    case InsertBetter => InsertBetterKeepsTally(s, t);
    case DeleteWorst(worst) => DeleteWorstKeepsTally(s, worst, t);
    case Spill => SpillKeepsTally(c, s, t);
    case _ =>
      MutexActKeepsPlaces(c, s, act, s');
      SamePlacesSameTally(s, s', t);
  }

  lemma CallKeepsConserved(s: State, u: Task)
    requires Conserved(s)
    ensures Conserved(s.(pending := s.pending + multiset{u}, submitted := s.submitted + multiset{u}))
  {
    var s1 := s.(pending := s.pending + multiset{u});
    var s' := s1.(submitted := s.submitted + multiset{u});
    forall t
      ensures Tally(s', t) == s'.submitted[t]
    {
      CallAddsToTally(s, u, t);
      assert Tally(s, t) == s.submitted[t];
    }
  }

  lemma SubmitKeepsConserved(c: Config, s: State, act: SubmitAct, s': State)
    requires SubmitNext(c, s, act, s') && !act.Forget? && Conserved(s)
    ensures Conserved(s')
  {
    if act.Call? {
      CallKeepsConserved(s, act.t);
    } else {
      forall t
        ensures Tally(s', t) == s'.submitted[t]
      {
        SubmitKeepsTally(c, s, act, s', t);
      }
    }
  }

  lemma HandsKeepTally(s: State, w: nat, p: Pc, t: Task)
    requires w < |s.workers|
    ensures Tally(Goes(s, w, p), t) + Hand(s.workers[w])[t] == Tally(s, t) + Hand(p)[t]
  {
    HandsAfterUpdate(s.workers, w, p);
    assert (Hands(s.workers[w := p]) + Hand(s.workers[w]))[t] == (Hands(s.workers) + Hand(p))[t];
  }

  lemma PopKeepsTally(s: State, w: nat, best: Task, t: Task)
    requires w < |s.workers| && s.workers[w] == HasToken && s.mutex == Popping(w) && best in s.heap
    ensures Tally(Goes(s, w, Popped(best)).(heap := s.heap - multiset{best}, mutex := Free), t) == Tally(s, t)
  {
    HandsKeepTally(s, w, Popped(best), t);
    HeapLessOne(s.heap, best, t);
  }

  lemma FinishKeepsTally(s: State, w: nat, t: Task)
    requires w < |s.workers| && s.workers[w].Running?
    ensures Tally(Goes(s, w, Waiting).(finished := s.finished + multiset{s.workers[w].t}), t) == Tally(s, t)
  {
    HandsKeepTally(s, w, Waiting, t);
  }

  lemma PcActKeepsPlaces(c: Config, s: State, w: nat, act: WorkerAct, s': State)
    requires WorkerNext(c, s, w, act, s') && !act.FindEmpty? && !act.PushBack? && !act.PopMax? && !act.Finish?
    ensures SamePlaces(Goes(s, w, s'.workers[w]), s')
    ensures Hand(s'.workers[w]) == Hand(s.workers[w])
  {
  }

  lemma PcKeepsTally(c: Config, s: State, w: nat, act: WorkerAct, s': State, t: Task)
    requires WorkerNext(c, s, w, act, s') && !act.FindEmpty? && !act.PushBack? && !act.PopMax? && !act.Finish?
    ensures Tally(s', t) == Tally(s, t)
  {
    PcActKeepsPlaces(c, s, w, act, s');
    HandsKeepTally(s, w, s'.workers[w], t);
    SamePlacesSameTally(Goes(s, w, s'.workers[w]), s', t);
  }

  lemma PushBackKeepsTally(c: Config, s: State, w: nat, t: Task)
    requires w < |s.workers| && s.workers[w].Canceled?
    ensures Tally(AfterPushBack(c, s, w), t) == Tally(s, t)
  {
    var pc := s.workers[w];
    PushAccounts(c, s.stack, pc.t, t);
    assert Push(c, s, pc.t).dropped[t] == s.dropped[t] + Loss(c, s.stack, pc.t)[t];
    HandsKeepTally(Push(c, s, pc.t), w, if Crashes(c, s.stack, pc.t) then pc else Waiting, t);
  }

  lemma WorkerKeepsConserved(c: Config, s: State, w: nat, act: WorkerAct, s': State)
    requires WorkerNext(c, s, w, act, s') && !act.FindEmpty? && Conserved(s)
    requires act.PopMax? ==> s.workers[w] == HasToken
    ensures Conserved(s')
  {
    forall t
      ensures Tally(s', t) == s'.submitted[t]
    {
      assert Tally(s, t) == s.submitted[t];
      match act
      case PushBack => PushBackKeepsTally(c, s, w, t);
      case PopMax(best) => PopKeepsTally(s, w, best, t);
      case Finish => FinishKeepsTally(s, w, t);
      case _ => PcKeepsTally(c, s, w, act, s', t);
    }
  }

  lemma PopStackKeepsTally(s: State, t: Task)
    requires s.ticker == None && s.stack != []
    ensures Tally(s.(stack := s.stack[..|s.stack| - 1], ticker := Decoded(s.stack[|s.stack| - 1])), t) == Tally(s, t)
  {
  }

  lemma ResubmitKeepsTally(s: State, t: Task)
    requires s.ticker.Some?
    ensures Tally(s.(pending := s.pending + multiset{s.ticker.value}, ticker := None), t) == Tally(s, t)
  {
  }

  lemma TickerKeepsConserved(s: State, act: TickerAct, s': State)
    requires TickerNext(s, act, s') && Conserved(s)
    ensures Conserved(s')
  {
    forall t
      ensures Tally(s', t) == s'.submitted[t]
    {
      if act.PopStack? { PopStackKeepsTally(s, t); } else { ResubmitKeepsTally(s, t); }
      assert Tally(s, t) == s.submitted[t];
    }
  }

  lemma StepKeepsConserved(c: Config, s: State, step: Step, s': State)
    requires Next(c, s, step, s') && Balanced(c, s) && c.capacity > 0 && Conserved(s)
    ensures Conserved(s')
  {
    BalanceGuarantees(c, s);
    match step
    case BySubmit(act) => SubmitKeepsConserved(c, s, act, s');
    case ByWorker(w, act) => WorkerKeepsConserved(c, s, w, act, s');
    case ByTicker(act) => TickerKeepsConserved(s, act, s');
  }

  // ---------- Executions ----------

  ghost predicate StepAt(c: Config, states: seq<State>, steps: seq<Step>, i: nat)
    requires i < |steps| && |states| == |steps| + 1
  {
    Next(c, states[i], steps[i], states[i + 1])
  }

  // Any interleaving of the steps of submitters, workers and ticker.
  ghost predicate IsExecution(c: Config, states: seq<State>, steps: seq<Step>) {
    && |states| == |steps| + 1
    && InitialState(c, states[0])
    && forall i: nat {:trigger StepAt(c, states, steps, i)} :: i < |steps| ==> StepAt(c, states, steps, i)
  }

  lemma ExtendExecution(c: Config, states: seq<State>, steps: seq<Step>, step: Step, s': State)
    requires IsExecution(c, states, steps) && Next(c, states[|steps|], step, s')
    ensures IsExecution(c, states + [s'], steps + [step])
  {
    forall i: nat | i < |steps| + 1
      ensures StepAt(c, states + [s'], steps + [step], i)
    {
      assert i < |steps| ==> StepAt(c, states, steps, i);
    }
  }

  lemma InitialIsSafe(c: Config, s: State)
    requires InitialState(c, s)
    ensures Balanced(c, s) && Conserved(s)
  {
    InitiallyIdle(c, s, 0);
    assert s.workers[0..] == s.workers;
  }

  lemma {:induction false} ExecutionIsSafe(c: Config, states: seq<State>, steps: seq<Step>, k: nat)
    requires IsExecution(c, states, steps) && k <= |steps| && c.capacity > 0
    ensures Balanced(c, states[k]) && Conserved(states[k])
  {
    if k == 0 {
      InitialIsSafe(c, states[0]);
    } else {
      ExecutionIsSafe(c, states, steps, k - 1);
      assert StepAt(c, states, steps, k - 1);
      StepKeepsBalance(c, states[k - 1], steps[k - 1], states[k]);
      StepKeepsConserved(c, states[k - 1], steps[k - 1], states[k]);
    }
  }

  // ---------- Which tasks are picked ----------

  // Taken by a worker: a task that no other in the heap goes before.
  lemma PickedIsGreatest(c: Config, s: State, w: nat, t: Task, s': State)
    requires Next(c, s, ByWorker(w, PopMax(t)), s')
    ensures t in s.heap && forall u :: u in s.heap ==> u.priority <= t.priority
  {
  }

  // Thrown out: one that goes before no other, and not before the new one either.
  lemma ReplacedIsWorse(c: Config, s: State, worst: Task, s': State)
    requires Next(c, s, BySubmit(DeleteWorst(worst)), s')
    ensures s.mutex.Full? && worst in s.heap && worst.priority < s.mutex.t.priority
    ensures forall u :: u in s.heap ==> worst.priority <= u.priority
  {
  }

  // Not let in: one that goes before none in the heap, as the worst one there shows.
  lemma RefusedIsNoBetter(c: Config, s: State, worst: Task, s': State)
    requires Next(c, s, BySubmit(KeepHeap(worst)), s')
    ensures s.mutex.Full? && worst in s.heap
    ensures forall u :: u in s.heap ==> s.mutex.t.priority <= worst.priority <= u.priority
  {
  }

  // So it is at every step of every interleaving.
  lemma PicksAreRight(c: Config, states: seq<State>, steps: seq<Step>, k: nat)
    requires IsExecution(c, states, steps) && k < |steps|
    ensures var s := states[k];
      match steps[k]
      case ByWorker(_, PopMax(t)) =>
        t in s.heap && forall u :: u in s.heap ==> u.priority <= t.priority
      case BySubmit(DeleteWorst(worst)) =>
        && s.mutex.Full? && worst in s.heap && worst.priority < s.mutex.t.priority
        && forall u :: u in s.heap ==> worst.priority <= u.priority
      case BySubmit(KeepHeap(worst)) =>
        && s.mutex.Full? && worst in s.heap
        && forall u :: u in s.heap ==> s.mutex.t.priority <= worst.priority <= u.priority
      case _ => true
  {
    var s, next := states[k], k + 1;
    assert StepAt(c, states, steps, k);
    match steps[k]
    case ByWorker(w, PopMax(t)) => PickedIsGreatest(c, s, w, t, states[next]);
    case BySubmit(DeleteWorst(worst)) => ReplacedIsWorse(c, s, worst, states[next]);
    case BySubmit(KeepHeap(worst)) => RefusedIsNoBetter(c, s, worst, states[next]);
    case _ =>
  }

  // ---------- What other goroutines leave alone ----------

  // A goroutine while others run: the worker it is, if any, its own call of Submit, if it is waiting
  // for the mutex with one, and whether it holds the mutex.
  datatype Goroutine = Goroutine(me: int, call: multiset<Task>, holding: bool)

  // Goroutines that are not workers.
  const NOBODY := -1
  const TICKER := -2

  // A step that `g` does not take.  All of Submit after its entry, and the pop of a worker, are steps
  // of whoever holds the mutex.
  ghost predicate ByOthers(s: State, step: Step, g: Goroutine) {
    match step
    case BySubmit(Call(_)) => true
    case BySubmit(Enter(t)) => t in s.pending - g.call
    case BySubmit(_) => !g.holding
    case ByWorker(w, act) => w != g.me && (act.PopMax? || act.FindEmpty? ==> !g.holding)
    case ByTicker(_) => g.me != TICKER
  }

  ghost predicate LeftAlone(s: State, s': State, g: Goroutine) {
    && g.call <= s'.pending
    && (g.me == TICKER ==> s'.ticker == s.ticker)
    && (0 <= g.me < |s.workers| ==> g.me < |s'.workers| && s'.workers[g.me] == s.workers[g.me])
    && (g.holding ==> s'.mutex == s.mutex && s'.heap == s.heap)
  }

  lemma CallStays(pending: multiset<Task>, call: multiset<Task>, t: Task)
    requires call <= pending
    ensures call <= pending + multiset{t}
    ensures t in pending - call ==> call <= pending - multiset{t}
  {
  }

  lemma SubmitLeavesAlone(c: Config, s: State, act: SubmitAct, s': State, g: Goroutine)
    requires SubmitNext(c, s, act, s') && ByOthers(s, BySubmit(act), g)
    requires g.call <= s.pending && (g.holding ==> s.mutex != Free)
    ensures LeftAlone(s, s', g)
  {
    match act
    case Call(t) => CallStays(s.pending, g.call, t);
    case Enter(t) => CallStays(s.pending, g.call, t);
    case _ => assert s'.pending == s.pending;
  }

  lemma WorkerLeavesAlone(c: Config, s: State, w: nat, act: WorkerAct, s': State, g: Goroutine)
    requires WorkerNext(c, s, w, act, s') && ByOthers(s, ByWorker(w, act), g)
    requires g.call <= s.pending && (g.holding ==> s.mutex != Free)
    ensures LeftAlone(s, s', g)
  {
    assert s'.pending == s.pending && s'.ticker == s.ticker;
  }

  // Such a step leaves alone the call of `g`, what it holds as ticker or worker, and, while it has the
  // mutex, the mutex and the heap.
  lemma OtherStepLeavesAlone(c: Config, s: State, step: Step, s': State, g: Goroutine)
    requires Next(c, s, step, s') && ByOthers(s, step, g)
    requires g.call <= s.pending && (g.holding ==> s.mutex != Free)
    ensures LeftAlone(s, s', g)
  {
    match step
    case BySubmit(act) => SubmitLeavesAlone(c, s, act, s', g);
    case ByWorker(w, act) => WorkerLeavesAlone(c, s, w, act, s', g);
    case ByTicker(act) =>
      if act.Resubmit? {
        CallStays(s.pending, g.call, s.ticker.value);
      }
  }

  ghost predicate OtherAt(states: seq<State>, steps: seq<Step>, i: nat, g: Goroutine)
    requires i < |steps| && |states| == |steps| + 1
  {
    ByOthers(states[i], steps[i], g)
  }

  // From step `from` on only others have run.
  ghost predicate OthersRan(states: seq<State>, steps: seq<Step>, from: nat, g: Goroutine)
    requires |states| == |steps| + 1
  {
    forall i: nat {:trigger OtherAt(states, steps, i, g)} :: from <= i < |steps| ==> OtherAt(states, steps, i, g)
  }

  // ... and so does any number of such steps.
  lemma {:induction false} OthersLeaveAlone(c: Config, states: seq<State>, steps: seq<Step>, from: nat, k: nat, g: Goroutine)
    requires IsExecution(c, states, steps) && from <= k <= |steps| && OthersRan(states, steps, from, g)
    requires g.call <= states[from].pending && (g.holding ==> states[from].mutex != Free)
    ensures LeftAlone(states[from], states[k], g)
    decreases k - from
  {
    if from < k {
      var j := k - 1;
      OthersLeaveAlone(c, states, steps, from, j, g);
      assert StepAt(c, states, steps, j) && OtherAt(states, steps, j, g);
      OtherStepLeavesAlone(c, states[j], steps[j], states[j + 1], g);
    }
  }
}
