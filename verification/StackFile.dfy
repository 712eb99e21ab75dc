/** The scheduler's stack of records as the bytes of its file: what the protocol says of pushes and pops
    is what the file does. */
module StackFile {
  import FileStack
  import opened Losses
  import opened Tasks
  import opened WorkerPool
  import opened Wrappers

  // `data` is the serialised form, and the configuration says of it what the file does with it.
  ghost predicate Serialises(c: Config, data: Task -> Bytes) {
    forall t :: c.fate(t) == FileStack.FateOf(|data(t)|) && c.room(t) == FileStack.RoomOf(|data(t)|)
  }

  // The record of a task is its data, as far as it is written.
  function Written(data: Bytes): Bytes {
    data[..FileStack.Uint16(|data|)]
  }

  function Image(data: Task -> Bytes, stack: seq<Record>): seq<Bytes> {
    if stack == [] then [] else Image(data, stack[..|stack| - 1]) + [Written(data(stack[|stack| - 1].t))]
  }

  function FileOf(data: Task -> Bytes, stack: seq<Record>): Bytes {
    FileStack.Encode(Image(data, stack))
  }

  // Whole records are those whose data fits; of a panicking push nothing is written.
  ghost predicate RecordsOk(c: Config, stack: seq<Record>) {
    forall i :: 0 <= i < |stack| ==>
      c.fate(stack[i].t) == if stack[i].Whole? then FileStack.Kept else FileStack.CutShort
  }

  lemma {:induction false} SizeIsLength(c: Config, data: Task -> Bytes, stack: seq<Record>)
    requires Serialises(c, data)
    ensures |FileOf(data, stack)| == StackSize(c, stack)
  {
    if stack != [] {
      var rest, t := stack[..|stack| - 1], stack[|stack| - 1].t;
      SizeIsLength(c, data, rest);
      assert c.room(t) == FileStack.RoomOf(|data(t)|);
      FileOneMore(data, rest, stack[|stack| - 1]);
      assert stack == rest + [stack[|stack| - 1]];
    }
  }

  lemma {:induction false} FileOneMore(data: Task -> Bytes, stack: seq<Record>, r: Record)
    ensures var bytes := data(r.t);
      var length := FileStack.Uint16(|bytes|);
      FileOf(data, stack + [r]) == FileOf(data, stack) + bytes[..length] + FileStack.EncodeLength(length)
  {
    assert (stack + [r])[..|stack|] == stack;
    FileStack.EncodeOneMore(Image(data, stack), Written(data(r.t)));
  }

  lemma {:induction false} PushIsWritten(c: Config, data: Task -> Bytes, stack: seq<Record>, t: Task)
    requires !IsFull(c, stack) && !c.fate(t).Panicking?
    ensures var bytes := data(t);
      var length := FileStack.Uint16(|bytes|);
      FileOf(data, StackAfter(c, stack, t)) == FileOf(data, stack) + bytes[..length] + FileStack.EncodeLength(length)
  {
    FileOneMore(data, stack, if c.fate(t).Kept? then Whole(t) else Cut(t));
  }

  // A push in the protocol is a push on the file.
  lemma {:induction false} PushIsPushed(c: Config, data: Task -> Bytes, stack: seq<Record>, t: Task)
    requires Serialises(c, data)
    ensures FileStack.Pushed(FileOf(data, stack), c.bound, data(t))
         == (if Crashes(c, stack, t) then FileStack.Panic else FileStack.Ok(()), FileOf(data, StackAfter(c, stack, t)))
  {
    SizeIsLength(c, data, stack);
    FileStack.PushedByFate(FileOf(data, stack), c.bound, data(t));
    assert c.fate(t) == FileStack.FateOf(|data(t)|);
    if !IsFull(c, stack) && !c.fate(t).Panicking? {
      PushIsWritten(c, data, stack, t);
    }
  }

  lemma {:induction false} ImageFits(c: Config, data: Task -> Bytes, stack: seq<Record>)
    requires Serialises(c, data) && RecordsOk(c, stack)
    ensures FileStack.AllFit(Image(data, stack))
  {
    if stack != [] {
      var top := stack[|stack| - 1].t;
      ImageFits(c, data, stack[..|stack| - 1]);
      assert c.fate(top) == FileStack.FateOf(|data(top)|);
    }
  }

  // A pop in the protocol is a pop from the file, which is never corrupted.  A whole record comes back
  // byte for byte, of one that was cut less than was pushed.
  lemma {:induction false} PopIsPopped(c: Config, data: Task -> Bytes, stack: seq<Record>)
    requires Serialises(c, data) && RecordsOk(c, stack)
    ensures stack == [] ==> FileStack.Popped(FileOf(data, stack)).0 == FileStack.Eof
    ensures stack != [] ==>
      var top := stack[|stack| - 1];
      && FileStack.Popped(FileOf(data, stack)) == (FileStack.Ok(Written(data(top.t))), FileOf(data, stack[..|stack| - 1]))
      && if top.Whole? then Written(data(top.t)) == data(top.t) else |Written(data(top.t))| < |data(top.t)|
  {
    ImageFits(c, data, stack);
    FileStack.PopOfRecords(Image(data, stack));
    if stack != [] {
      var top := stack[|stack| - 1].t;
      assert c.fate(top) == FileStack.FateOf(|data(top)|);
      assert Image(data, stack)[..|Image(data, stack)| - 1] == Image(data, stack[..|stack| - 1]);
    }
  }

  // The file after a step of the scheduler.
  function FileAfter(c: Config, data: Task -> Bytes, s: State, step: Step): Bytes {
    var file := FileOf(data, s.stack);
    if Pushing(s, step).Some? then FileStack.Pushed(file, c.bound, data(Pushing(s, step).value)).1
    else if step == ByTicker(PopStack) then FileStack.Popped(file).1
    else file
  }

  lemma PushKeepsRecords(c: Config, stack: seq<Record>, t: Task)
    requires RecordsOk(c, stack)
    ensures RecordsOk(c, StackAfter(c, stack, t))
  {
  }

  lemma {:induction false} StepIsOnFile(c: Config, data: Task -> Bytes, s: State, step: Step, s': State)
    requires Serialises(c, data) && Next(c, s, step, s') && RecordsOk(c, s.stack)
    ensures RecordsOk(c, s'.stack) && FileOf(data, s'.stack) == FileAfter(c, data, s, step)
  {
    var t := Pushing(s, step);
    StackAfterStep(c, s, step, s');
    if t.Some? {
      PushIsPushed(c, data, s.stack, t.value);
      PushKeepsRecords(c, s.stack, t.value);
    } else if step == ByTicker(PopStack) {
      PopIsPopped(c, data, s.stack);
    }
  }

  // In every interleaving the file is the encoding of the stack, step by step what Push and Pop make
  // of it.
  lemma {:induction false} ExecutionIsOnFile(c: Config, data: Task -> Bytes, states: seq<State>, steps: seq<Step>, k: nat)
    requires Serialises(c, data) && IsExecution(c, states, steps) && RecordsOk(c, states[0].stack) && k <= |steps|
    ensures RecordsOk(c, states[k].stack)
    ensures k > 0 ==> FileOf(data, states[k].stack) == FileAfter(c, data, states[k - 1], steps[k - 1])
  {
    if k > 0 {
      ExecutionIsOnFile(c, data, states, steps, k - 1);
      assert StepAt(c, states, steps, k - 1);
      StepIsOnFile(c, data, states[k - 1], steps[k - 1], states[k]);
    }
  }
}
