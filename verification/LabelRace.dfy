/** The label of one page under tasks that run at the same time: looking the label up and lowering it
    are two accesses, and another task may come between them. */
module LabelRace {
  import opened Wrappers

  datatype Pc =
    | Before                  // the label not yet looked up
    | Lowering(prev: nat)     // found a higher label, about to lower it
    | After

  datatype State = State(mark: Option<nat>, tasks: seq<Pc>)

  datatype Access = LoadOrStore(i: nat) | Swap(i: nat)

  // Task `i` comes with depth depths[i].
  ghost predicate Next(depths: seq<nat>, s: State, a: Access, s': State) {
    |s.tasks| == |depths| && a.i < |depths| &&
    match a
    case LoadOrStore(i) =>
      s.tasks[i].Before? &&
      (match s.mark
       case None => s' == State(Some(depths[i]), s.tasks[i := After])
       case Some(prev) => s' == s.(tasks := s.tasks[i := if prev <= depths[i] then After else Lowering(prev)]))
    case Swap(i) =>
      s.tasks[i].Lowering? && s' == State(Some(depths[i]), s.tasks[i := After])
  }

  ghost predicate StepAt(depths: seq<nat>, states: seq<State>, run: seq<Access>, n: nat)
    requires n < |run| && |states| == |run| + 1
  {
    Next(depths, states[n], run[n], states[n + 1])
  }

  ghost predicate IsRun(depths: seq<nat>, states: seq<State>, run: seq<Access>) {
    && |states| == |run| + 1
    && states[0].tasks == seq(|depths|, _ => Before)
    && forall n: nat {:trigger StepAt(depths, states, run, n)} :: n < |run| ==> StepAt(depths, states, run, n)
  }

  // The label goes up from one state to the other, or away.
  predicate Rises(s: State, s': State) {
    s.mark.Some? && (s'.mark == None || s.mark.value < s'.mark.value)
  }

  // The access is a Swap that finds a label below the one it brings.
  predicate IsLate(depths: seq<nat>, s: State, a: Access) {
    a.Swap? && a.i < |depths| && s.mark.Some? && s.mark.value < depths[a.i]
  }

  lemma RiseIsLateSwap(depths: seq<nat>, s: State, a: Access, s': State)
    requires Next(depths, s, a, s')
    ensures Rises(s, s') <==> IsLate(depths, s, a)
  {
  }

  // A stretch without late Swaps never ends higher than it began; where there is one, the label rises.
  lemma {:induction false} LabelsFallWithoutLateSwaps(depths: seq<nat>, states: seq<State>, run: seq<Access>, m: nat, n: nat)
    requires IsRun(depths, states, run) && m <= n <= |run|
    requires forall j :: m <= j < n ==> !IsLate(depths, states[j], run[j])
    ensures !Rises(states[m], states[n])
    decreases n - m
  {
    if m < n {
      var j := n - 1;
      assert StepAt(depths, states, run, j);
      LabelsFallWithoutLateSwaps(depths, states, run, m, j);
      RiseIsLateSwap(depths, states[j], run[j], states[j + 1]);
    }
  }

  lemma {:induction false} LabelsFallExactly(depths: seq<nat>, states: seq<State>, run: seq<Access>)
    requires IsRun(depths, states, run)
    ensures (forall m, n :: 0 <= m <= n <= |run| ==> !Rises(states[m], states[n]))
       <==> (forall j :: 0 <= j < |run| ==> !IsLate(depths, states[j], run[j]))
  {
    if forall m, n :: 0 <= m <= n <= |run| ==> !Rises(states[m], states[n]) {
      forall j | 0 <= j < |run|
        ensures !IsLate(depths, states[j], run[j])
      {
        var next := j + 1;
        assert StepAt(depths, states, run, j);
        RiseIsLateSwap(depths, states[j], run[j], states[next]);
        assert !Rises(states[j], states[next]);
      }
    }
    if forall j :: 0 <= j < |run| ==> !IsLate(depths, states[j], run[j]) {
      forall m, n | 0 <= m <= n <= |run|
        ensures !Rises(states[m], states[n])
      {
        LabelsFallWithoutLateSwaps(depths, states, run, m, n);
      }
    }
  }

  // ---------- Lookup and lowering as one access ----------

  // No two tasks are between their accesses.
  ghost predicate Exclusive(s: State) {
    forall i, j :: 0 <= i < j < |s.tasks| ==> !(s.tasks[i].Lowering? && s.tasks[j].Lowering?)
  }

  // A task that is about to lower the label found the one that is there.
  ghost predicate Fresh(depths: seq<nat>, s: State) {
    |s.tasks| == |depths| &&
    forall i :: 0 <= i < |depths| && s.tasks[i].Lowering? ==> s.mark == Some(s.tasks[i].prev) && depths[i] < s.tasks[i].prev
  }

  lemma StepKeepsFresh(depths: seq<nat>, s: State, a: Access, s': State)
    requires Fresh(depths, s) && Exclusive(s) && Next(depths, s, a, s')
    ensures Fresh(depths, s') && !IsLate(depths, s, a)
  {
  }

  lemma {:induction false} ExclusiveIsFresh(depths: seq<nat>, states: seq<State>, run: seq<Access>, n: nat)
    requires IsRun(depths, states, run) && n <= |run| && forall j :: 0 <= j < |states| ==> Exclusive(states[j])
    ensures Fresh(depths, states[n])
    ensures forall j :: 0 <= j < n ==> !IsLate(depths, states[j], run[j])
  {
    if n > 0 {
      var j := n - 1;
      ExclusiveIsFresh(depths, states, run, j);
      assert StepAt(depths, states, run, j);
      StepKeepsFresh(depths, states[j], run[j], states[j + 1]);
    }
  }

  // So labels only fall if no two tasks for a page overlap.
  lemma {:induction false} ExclusiveLabelsFall(depths: seq<nat>, states: seq<State>, run: seq<Access>, m: nat, n: nat)
    requires IsRun(depths, states, run) && m <= n <= |run| && forall j :: 0 <= j < |states| ==> Exclusive(states[j])
    ensures !Rises(states[m], states[n])
  {
    ExclusiveIsFresh(depths, states, run, n);
    LabelsFallWithoutLateSwaps(depths, states, run, m, n);
  }

  // ---------- Which tasks can make the label rise ----------

  // A label above `d` that a task may find: the first one, or, if there is none, the depth of a task.
  predicate FindsAbove(depths: seq<nat>, first: Option<nat>, d: nat) {
    match first
    case Some(m) => d < m
    case None => exists a :: 0 <= a < |depths| && d < depths[a]
  }

  // Two tasks of different depths that may both find a label above theirs.
  predicate CanOverlap(depths: seq<nat>, first: Option<nat>) {
    exists i, j :: 0 <= i < |depths| && 0 <= j < |depths| && depths[j] < depths[i] && FindsAbove(depths, first, depths[i])
  }

  // In no run that begins with the label `first` does the label ever rise.
  ghost predicate NeverRises(depths: seq<nat>, first: Option<nat>) {
    forall states: seq<State>, run: seq<Access>, m: nat, n: nat ::
      IsRun(depths, states, run) && states[0].mark == first && m <= n <= |run| ==> !Rises(states[m], states[n])
  }

  // The page may have been given the label `v`.
  predicate IsKnown(depths: seq<nat>, first: Option<nat>, v: nat) {
    (first == Some(v) || v in depths) && (first.Some? ==> v <= first.value)
  }

  ghost predicate AllKnown(depths: seq<nat>, first: Option<nat>, s: State) {
    && |s.tasks| == |depths|
    && (first.Some? ==> s.mark.Some?)
    && (s.mark.Some? ==> IsKnown(depths, first, s.mark.value))
    && forall i :: 0 <= i < |depths| && s.tasks[i].Lowering? ==>
         depths[i] < s.tasks[i].prev && IsKnown(depths, first, s.tasks[i].prev)
  }

  lemma {:induction false} StepKeepsKnown(depths: seq<nat>, first: Option<nat>, s: State, a: Access, s': State)
    requires AllKnown(depths, first, s) && Next(depths, s, a, s')
    ensures AllKnown(depths, first, s')
  {
    assert depths[a.i] in depths;
  }

  lemma {:induction false} LateNeedsOverlap(depths: seq<nat>, first: Option<nat>, s: State, a: Access, s': State)
    requires AllKnown(depths, first, s) && Next(depths, s, a, s') && IsLate(depths, s, a)
    ensures CanOverlap(depths, first)
  {
    assert s.mark.value in depths;
    var j :| 0 <= j < |depths| && depths[j] == s.mark.value;
    assert depths[j] < depths[a.i] && FindsAbove(depths, first, depths[a.i]);
  }

  lemma {:induction false} RunIsKnown(depths: seq<nat>, states: seq<State>, run: seq<Access>, n: nat)
    requires IsRun(depths, states, run) && n <= |run|
    ensures AllKnown(depths, states[0].mark, states[n])
  {
    if n > 0 {
      var j := n - 1;
      RunIsKnown(depths, states, run, j);
      assert StepAt(depths, states, run, j);
      StepKeepsKnown(depths, states[0].mark, states[j], run[j], states[j + 1]);
    }
  }

  lemma {:induction false} RisesNeedOverlap(depths: seq<nat>, states: seq<State>, run: seq<Access>, m: nat, n: nat)
    requires IsRun(depths, states, run) && m <= n <= |run| && Rises(states[m], states[n])
    ensures CanOverlap(depths, states[0].mark)
  {
    if j :| m <= j < n && IsLate(depths, states[j], run[j]) {
      RunIsKnown(depths, states, run, j);
      assert StepAt(depths, states, run, j);
      LateNeedsOverlap(depths, states[0].mark, states[j], run[j], states[j + 1]);
    } else {
      LabelsFallWithoutLateSwaps(depths, states, run, m, n);
    }
  }

  // Both tasks find `m`; one lowers it, and then the other sets it to its own greater depth.
  function Raising(depths: seq<nat>, tasks: seq<Pc>, m: nat, i: nat, j: nat): seq<State>
    requires |tasks| == |depths| && i < |depths| && j < |depths|
  {
    var found := Lowering(m);
    [State(Some(m), tasks), State(Some(m), tasks[i := found]), State(Some(m), tasks[i := found][j := found]),
     State(Some(depths[j]), tasks[i := found][j := After]), State(Some(depths[i]), tasks[i := After][j := After])]
  }

  function RaisingRun(i: nat, j: nat): seq<Access> {
    [LoadOrStore(i), LoadOrStore(j), Swap(j), Swap(i)]
  }

  lemma RaisingSteps(depths: seq<nat>, tasks: seq<Pc>, m: nat, i: nat, j: nat, n: nat)
    requires |tasks| == |depths| && i < |depths| && j < |depths| && depths[j] < depths[i] < m
    requires tasks[i] == Before && tasks[j] == Before && n < 4
    ensures Next(depths, Raising(depths, tasks, m, i, j)[n], RaisingRun(i, j)[n], Raising(depths, tasks, m, i, j)[n + 1])
  {
    assert tasks[i := Lowering(m)][j := Lowering(m)][j := After] == tasks[i := Lowering(m)][j := After];
    assert tasks[i := Lowering(m)][j := After][i := After] == tasks[i := After][j := After];
    assert n == 0 || n == 1 || n == 2 || n == 3;
  }

  // So labels do rise: any two such tasks have a run in which one label replaces a smaller one.
  lemma OverlapRaises(depths: seq<nat>, m: nat, i: nat, j: nat) returns (states: seq<State>, run: seq<Access>)
    requires i < |depths| && j < |depths| && depths[j] < depths[i] < m
    ensures IsRun(depths, states, run) && |run| == 4
    ensures states[0].mark == Some(m) && states[3].mark == Some(depths[j]) && states[4].mark == Some(depths[i])
  {
    var tasks: seq<Pc> := seq(|depths|, _ => Before);
    states, run := Raising(depths, tasks, m, i, j), RaisingRun(i, j);
    forall n: nat | n < 4
      ensures StepAt(depths, states, run, n)
    {
      RaisingSteps(depths, tasks, m, i, j, n);
    }
  }

  // ... also on a page without a label, after a third task has given it one.
  lemma OverlapRaisesNew(depths: seq<nat>, a: nat, i: nat, j: nat) returns (states: seq<State>, run: seq<Access>)
    requires a < |depths| && i < |depths| && j < |depths| && depths[j] < depths[i] < depths[a]
    ensures IsRun(depths, states, run) && |run| == 5
    ensures states[0].mark == None && states[4].mark == Some(depths[j]) && states[5].mark == Some(depths[i])
  {
    var tasks: seq<Pc> := seq(|depths|, _ => Before);
    var later := tasks[a := After];
    states, run := [State(None, tasks)] + Raising(depths, later, depths[a], i, j), [LoadOrStore(a)] + RaisingRun(i, j);
    forall n: nat | n < 5
      ensures StepAt(depths, states, run, n)
    {
      if n > 0 {
        RaisingSteps(depths, later, depths[a], i, j, n - 1);
      }
    }
  }

  // Whatever the order of the accesses, the label never rises: exactly if no two tasks of different depths
  // may both find a label above theirs.
  lemma {:induction false} LabelsFallUnlessTasksOverlap(depths: seq<nat>, first: Option<nat>)
    ensures NeverRises(depths, first) <==> !CanOverlap(depths, first)
  {
    if i, j :| 0 <= i < |depths| && 0 <= j < |depths| && depths[j] < depths[i] && FindsAbove(depths, first, depths[i]) {
      if first.Some? {
        var states, run := OverlapRaises(depths, first.value, i, j);
        assert Rises(states[3], states[4]);
      } else {
        var a :| 0 <= a < |depths| && depths[i] < depths[a];
        var states, run := OverlapRaisesNew(depths, a, i, j);
        assert Rises(states[4], states[5]);
      }
    } else {
      forall states: seq<State>, run: seq<Access>, m: nat, n: nat |
          IsRun(depths, states, run) && states[0].mark == first && m <= n <= |run|
        ensures !Rises(states[m], states[n])
      {
        if Rises(states[m], states[n]) {
          RisesNeedOverlap(depths, states, run, m, n);
        }
      }
    }
  }
}
