/** The stack on disk that keeps spilled tasks: one file of records, each followed by its length in
    two bytes, so that the last record can be found from the end. */
module FileStack {
  import opened Wrappers

  const HEADER := 2

  datatype Result<T> = Ok(value: T) | Eof | Corrupted | Panic

  // ---------- Lengths on disk ----------

  // The conversion uint16(n).
  function Uint16(n: int): (r: nat)
    ensures r < 0x1_0000
  {
    n % 0x1_0000
  }

  function EncodeLength(n: nat): (r: Bytes)
    requires n < 0x1_0000
    ensures |r| == 2 && r[0] as int + 256 * r[1] as int == n
  {
    [(n % 0x100) as Byte, (n / 0x100) as Byte]
  }

  function DecodeLength(b: Bytes): (n: nat)
    requires |b| == 2
    ensures n < 0x1_0000
  {
    b[0] as int + 0x100 * b[1] as int
  }

  lemma LengthRoundTrip(n: nat)
    requires n < 0x1_0000
    ensures DecodeLength(EncodeLength(n)) == n
  {
  }

  // ---------- Push and Pop on the bytes of the file ----------

  // Push computes the length, and the length plus two, in 16 bits.  Where the sum wraps around,
  // slicing the buffer panics.
  predicate Panics(length: nat) {
    Uint16(HEADER + Uint16(length)) < Uint16(length)
  }

  // Lengths that 16 bits are enough for.
  predicate LengthFits(length: nat) {
    length <= 0xFFFD
  }

  // What becomes of data of this length on a file that is not past its bound.
  datatype Fate = Kept | CutShort | Panicking

  function FateOf(length: nat): Fate {
    if LengthFits(length) then Kept else if Panics(length) then Panicking else CutShort
  }

  lemma PushedByFate(file: Bytes, bound: int, data: Bytes)
    ensures Pushed(file, bound, data) ==
      if |file| > bound then (Ok(()), file)
      else if FateOf(|data|).Panicking? then (Panic, file)
      else (Ok(()), file + data[..Uint16(|data|)] + EncodeLength(Uint16(|data|)))
  {
  }

  // Bytes that it takes there.
  function RoomOf(length: nat): nat {
    Uint16(length) + HEADER
  }

  // Push writes nothing once the file is larger than `bound`, and only a prefix of data that is
  // too long.
  function Pushed(file: Bytes, bound: int, data: Bytes): (Result<()>, Bytes) {
    var length := Uint16(|data|);
    if |file| > bound then (Ok(()), file)
    else if Panics(|data|) then (Panic, file)
    else (Ok(()), file + data[..length] + EncodeLength(length))
  }

  function Popped(file: Bytes): (Result<Bytes>, Bytes) {
    if |file| < HEADER then (Eof, file)
    else
      var length := DecodeLength(file[|file| - HEADER..]);
      var offset := |file| - HEADER - length;
      if offset < 0 then (Corrupted, file)
      else (Ok(file[offset..offset + length]), file[..offset])
  }

  predicate Fits(record: Bytes) {
    LengthFits(|record|)
  }

  // Pop undoes an accepted Push, byte for byte, exactly for records that fit.
  lemma PopUndoesPush(file: Bytes, bound: int, data: Bytes)
    requires |file| <= bound
    ensures var (r, file') := Pushed(file, bound, data);
      Fits(data) <==> r == Ok(()) && Popped(file') == (Ok(data), file)
  {
    var (r, file') := Pushed(file, bound, data);
    if r == Ok(()) {
      var length := Uint16(|data|);
      LengthRoundTrip(length);
      assert file' == (file + data[..length]) + EncodeLength(length);
      assert file'[|file'| - HEADER..] == EncodeLength(length);
      assert file'[|file|..|file| + length] == data[..length];
      assert file'[..|file|] == file;
      if Fits(data) {
        assert data[..length] == data;
      }
    }
  }

  // What becomes of data of any length: a push panics for the two longest lengths in 16 bits, and what
  // wraps around to them; otherwise the pop gives back as much as the length in 16 bits says.
  lemma PopGivesBackTheLength(file: Bytes, bound: int, data: Bytes)
    requires |file| <= bound
    ensures var (r, file') := Pushed(file, bound, data);
      && (r == Panic <==> |data| % 65536 >= 65534)
      && (r == Panic ==> file' == file)
      && (r != Panic ==> r == Ok(()) && |file'| == |file| + |data| % 65536 + 2)
      && (r != Panic ==> Popped(file') == (Ok(data[..|data| % 65536]), file))
  {
    var (r, file') := Pushed(file, bound, data);
    var length := Uint16(|data|);
    if r == Ok(()) {
      LengthRoundTrip(length);
      assert file' == (file + data[..length]) + EncodeLength(length);
      assert file'[|file'| - HEADER..] == EncodeLength(length);
      assert file'[|file|..|file| + length] == data[..length];
      assert file'[..|file|] == file;
    }
  }

  // The shortest record that does not fit makes Push panic, and one of 65536 bytes comes back empty.
  lemma LongRecordsAreLost(file: Bytes, bound: int)
    requires |file| <= bound
    ensures Pushed(file, bound, seq(0xFFFE, _ => 0)) == (Panic, file)
    ensures var data: Bytes := seq(0x1_0000, _ => 0);
      Pushed(file, bound, data).0 == Ok(()) && Popped(Pushed(file, bound, data).1) == (Ok([]), file)
  {
    var data: Bytes := seq(0x1_0000, _ => 0);
    var file' := Pushed(file, bound, data).1;
    assert file' == file + EncodeLength(0);
    assert file'[|file'| - HEADER..] == EncodeLength(0);
    assert file'[..|file|] == file;
  }

  // ---------- A file of records ----------

  function Encode(records: seq<Bytes>): Bytes {
    if records == [] then []
    else
      var last := records[|records| - 1];
      Encode(records[..|records| - 1]) + last + EncodeLength(Uint16(|last|))
  }

  ghost predicate AllFit(records: seq<Bytes>) {
    forall i :: 0 <= i < |records| ==> Fits(records[i])
  }

  // The last record comes off the file whole, and what is left is again a file of records.
  lemma {:induction false} PopOfRecords(records: seq<Bytes>)
    requires AllFit(records)
    ensures Popped(Encode(records))
         == if records == [] then (Eof, [])
            else (Ok(records[|records| - 1]), Encode(records[..|records| - 1]))
  {
    if records != [] {
      var last, rest := records[|records| - 1], Encode(records[..|records| - 1]);
      PopUndoesPush(rest, |rest|, last);
      assert last[..Uint16(|last|)] == last;
    }
  }

  lemma {:induction false} PushOfRecords(records: seq<Bytes>, bound: int, data: Bytes)
    requires AllFit(records) && Fits(data)
    ensures Pushed(Encode(records), bound, data)
         == (Ok(()), if |Encode(records)| > bound then Encode(records) else Encode(records + [data]))
  {
    EncodeOneMore(records, data);
    assert data[..Uint16(|data|)] == data;
  }

  lemma {:induction false} EncodeOneMore(records: seq<Bytes>, data: Bytes)
    ensures Encode(records + [data]) == Encode(records) + data + EncodeLength(Uint16(|data|))
  {
    assert (records + [data])[..|records|] == records;
  }

  // The bytes determine the records: nothing but the file is needed to go on after a restart.
  lemma {:induction false} EncodeIsInjective(a: seq<Bytes>, b: seq<Bytes>)
    requires AllFit(a) && AllFit(b) && Encode(a) == Encode(b)
    ensures a == b
    decreases |a|
  {
    PopOfRecords(a);
    PopOfRecords(b);
    if a != [] {
      EncodeIsInjective(a[..|a| - 1], b[..|b| - 1]);
      assert a == a[..|a| - 1] + [a[|a| - 1]] && b == b[..|b| - 1] + [b[|b| - 1]];
    }
  }

  // ---------- Whole runs ----------

  datatype Op = Push(data: Bytes) | Pop | Reopen

  datatype Answer = Done | Refused | Got(data: Bytes) | Nothing | Failed

  // One operation on the bytes of the file.
  function OnFile(bound: int, file: Bytes, op: Op): (Answer, Bytes) {
    match op
    case Push(data) =>
      var (r, file') := Pushed(file, bound, data);
      (if r == Panic then Failed else if |file| > bound then Refused else Done, file')
    case Pop =>
      var (r, file') := Popped(file);
      (match r case Ok(data) => Got(data) case Eof => Nothing case _ => Failed, file')
    case Reopen => (Done, file)
  }

  // The same operation on a plain stack, the last record being on top.
  function OnStack(bound: int, records: seq<Bytes>, op: Op): (Answer, seq<Bytes>) {
    match op
    case Push(data) =>
      if |Encode(records)| > bound then (Refused, records) else (Done, records + [data])
    case Pop =>
      if records == [] then (Nothing, records)
      else (Got(records[|records| - 1]), records[..|records| - 1])
    case Reopen => (Done, records)
  }

  function FileRun(bound: int, file: Bytes, ops: seq<Op>): (seq<Answer>, Bytes) {
    if ops == [] then ([], file)
    else
      var (answers, before) := FileRun(bound, file, ops[..|ops| - 1]);
      var (answer, after) := OnFile(bound, before, ops[|ops| - 1]);
      (answers + [answer], after)
  }

  function StackRun(bound: int, records: seq<Bytes>, ops: seq<Op>): (seq<Answer>, seq<Bytes>) {
    if ops == [] then ([], records)
    else
      var (answers, before) := StackRun(bound, records, ops[..|ops| - 1]);
      var (answer, after) := OnStack(bound, before, ops[|ops| - 1]);
      (answers + [answer], after)
  }

  ghost predicate PushesFit(ops: seq<Op>) {
    forall i :: 0 <= i < |ops| ==> ops[i].Push? ==> Fits(ops[i].data)
  }

  lemma {:induction false} StepRefines(bound: int, records: seq<Bytes>, op: Op)
    requires AllFit(records) && (op.Push? ==> Fits(op.data))
    ensures OnFile(bound, Encode(records), op).0 == OnStack(bound, records, op).0
    ensures OnFile(bound, Encode(records), op).1 == Encode(OnStack(bound, records, op).1)
    ensures AllFit(OnStack(bound, records, op).1)
    ensures OnStack(bound, records, op).0 != Failed
  {
    match op
    case Push(data) => PushOfRecords(records, bound, data);
    case Pop => PopOfRecords(records);
    case Reopen =>
  }

  // The file answers every operation like a plain stack, across reopening, and always is the
  // encoding of what that stack holds.
  lemma {:induction false} FileRefinesStack(bound: int, records: seq<Bytes>, ops: seq<Op>)
    requires AllFit(records) && PushesFit(ops)
    ensures FileRun(bound, Encode(records), ops).0 == StackRun(bound, records, ops).0
    ensures FileRun(bound, Encode(records), ops).1 == Encode(StackRun(bound, records, ops).1)
    ensures AllFit(StackRun(bound, records, ops).1)
    ensures Failed !in FileRun(bound, Encode(records), ops).0
    decreases |ops|
  {
    if ops != [] {
      var before := ops[..|ops| - 1];
      FileRefinesStack(bound, records, before);
      StepRefines(bound, StackRun(bound, records, before).1, ops[|ops| - 1]);
    }
  }

  // A file that starts within the limit stays within it, whatever is pushed.
  lemma {:induction false} FileStaysBounded(bound: int, file: Bytes, ops: seq<Op>)
    requires bound >= 0 && |file| <= bound + 0xFFFF
    ensures |FileRun(bound, file, ops).1| <= bound + 0xFFFF
    decreases |ops|
  {
    if ops != [] {
      FileStaysBounded(bound, file, ops[..|ops| - 1]);
    }
  }

  // ---------- The file ----------

  class File {
    var bytes: Bytes
    var pos: nat

    constructor (bytes: Bytes)
      ensures this.bytes == bytes && pos == 0
    {
      this.bytes, pos := bytes, 0;
    }

    method SeekEnd(back: nat) returns (offset: int)
      modifies this`pos
      ensures back <= |bytes| ==> offset == pos == |bytes| - back
      ensures back > |bytes| ==> offset == -1 && pos == old(pos)
    {
      if back > |bytes| {
        return -1;
      }
      pos := |bytes| - back;
      return pos;
    }

    method SeekStart(offset: nat)
      modifies this`pos
      ensures pos == offset
    {
      pos := offset;
    }

    // Writes at the position; only ever called at the end.
    method Write(data: Bytes)
      requires pos == |bytes|
      modifies this
      ensures bytes == old(bytes) + data && pos == |bytes|
    {
      bytes := bytes + data;
      pos := |bytes|;
    }

    method Read(n: nat) returns (data: Bytes)
      requires pos + n <= |bytes|
      modifies this`pos
      ensures data == bytes[old(pos)..old(pos) + n] && pos == old(pos) + n
    {
      data := bytes[pos..pos + n];
      pos := pos + n;
    }

    method Truncate(size: nat)
      requires size <= |bytes|
      modifies this`bytes
      ensures bytes == old(bytes)[..size]
    {
      bytes := bytes[..size];
    }
  }

  // ---------- The stack ----------

  class Stack {
    const rw: File
    const mOffset: int

    // InitStack on a file that holds `bytes`.
    constructor (bytes: Bytes, maxOffset: int)
      ensures rw.bytes == bytes && mOffset == maxOffset && fresh(rw)
    {
      rw := new File(bytes);
      mOffset := maxOffset;
    }

    method Push(data: Bytes) returns (r: Result<()>)
      modifies rw
      ensures (r, rw.bytes) == Pushed(old(rw.bytes), mOffset, data)
    {
      var offset := rw.SeekEnd(0);
      if offset > mOffset {
        return Ok(());
      }
      var length := Uint16(|data|);
      var size := Uint16(HEADER + length);
      if size < length {
        return Panic;
      }
      var toWrite := data[..length] + EncodeLength(length);
      rw.Write(toWrite);
      assert rw.bytes == old(rw.bytes) + data[..length] + EncodeLength(length);
      return Ok(());
    }

    method Pop() returns (r: Result<Bytes>)
      modifies rw
      ensures (r, rw.bytes) == Popped(old(rw.bytes))
    {
      var size := rw.SeekEnd(0);
      if size < HEADER {
        return Eof;
      }
      var _ := rw.SeekEnd(HEADER);
      var header := rw.Read(HEADER);
      var length := DecodeLength(header);
      var offset := size - HEADER - length;
      if offset < 0 {
        return Corrupted;
      }
      rw.SeekStart(offset);
      var buf := rw.Read(length);
      rw.Truncate(offset);
      return Ok(buf);
    }
  }
}
