/** How what a document has of a word is stored: its count in 16 bits, and each position packed into 32
    bits together with the kind of text it is in. */
module PositionCodec {
  import PrefixScan
  import opened Wrappers

  const BODY: bv8 := 98     // 'b'
  const HEADER: bv8 := 104  // 'h'

  function Encode(tag: bv8, p: bv64): bv32 {
    (((p << 1) | (tag as bv64)) & 0xFFFF_FFFF) as bv32
  }

  function Decode(d: bv32): (bv8, bv64) {
    ((d & 1) as bv8, (d >> 1) as bv64)
  }

  // There is one bit for the tag, and 31 are left for the position.
  lemma RoundTrip(tag: bv8, p: bv64)
    ensures Decode(Encode(tag, p)) == (tag, p) <==> tag <= 1 && p < 0x8000_0000
  {
  }

  // Neither of the tags in use is among those: both come back as 0, with a position that has the bits
  // of the tag in it.
  lemma TagsAreLost(p: bv64)
    requires p < 0x8000_0000
    ensures Decode(Encode(BODY, p)) == (0, p | 49) && Decode(Encode(HEADER, p)) == (0, p | 52)
  {
  }

  // ---------- Records ----------

  datatype Position = Position(tag: bv8, place: bv64)

  // What reading a record comes to.
  datatype Reading = TooShort | Panic | Read(count: nat, positions: seq<Position>)

  const MAX_POSITIONS := 500

  function Min(x: nat, y: nat): nat {
    if x < y then x else y
  }

  // A number in two bytes, the low one first.
  function Two(n: nat): (r: Bytes)
    requires n < 0x1_0000
    ensures |r| == 2 && r[0] as int + 256 * r[1] as int == n
  {
    [(n % 256) as Byte, (n / 256) as Byte]
  }

  function Four(n: nat): (r: Bytes)
    requires n < 0x1_0000_0000
    ensures |r| == 4 && r[0] as int + 0x100 * r[1] as int + 0x1_0000 * r[2] as int + 0x100_0000 * r[3] as int == n
  {
    Two(n % 0x1_0000) + Two(n / 0x1_0000)
  }

  function FromTwo(b: Bytes): (n: nat)
    requires |b| == 2
    ensures n < 0x1_0000
  {
    b[0] as int + 256 * b[1] as int
  }

  function FromFour(b: Bytes): (n: nat)
    requires |b| == 4
    ensures n < 0x1_0000_0000
  {
    FromTwo(b[..2]) + 0x1_0000 * FromTwo(b[2..])
  }

  function Entry(p: Position): Bytes {
    Four(Encode(p.tag, p.place) as int)
  }

  function Entries(positions: seq<Position>): (r: Bytes)
    ensures |r| == 4 * |positions|
  {
    if positions == [] then [] else Entries(positions[..|positions| - 1]) + Entry(positions[|positions| - 1])
  }

  function Zeros(n: nat): Bytes {
    seq(n, _ => 0)
  }

  // The buffer has room for eight bytes a position, of which the last half is never written.
  function Marshaled(count: nat, positions: seq<Position>): (r: Bytes)
    ensures |r| == 2 + 8 * |positions|
  {
    Two(count % 0x1_0000) + Entries(positions) + Zeros(4 * |positions|)
  }

  // Entry number `i` of a record.
  function PositionAt(data: Bytes, i: nat): Position
    requires 2 + 4 * i + 4 <= |data|
  {
    var (tag, place) := Decode(FromFour(data[2 + 4 * i..2 + 4 * i + 4]) as bv32);
    Position(tag, place)
  }

  // The positions are as many as the count says, up to 500; where the data ends before, reading panics.
  function Unmarshaled(data: Bytes): Reading {
    if |data| < 2 then TooShort
    else
      var count := FromTwo(data[..2]);
      var n := Min(count, MAX_POSITIONS);
      if 2 + 4 * n > |data| then Panic
      else Read(count, seq(n, i requires 0 <= i < n => PositionAt(data, i)))
  }

  // ---------- Writing and reading ----------

  method PutFour(buf: array<Byte>, at: nat, n: nat)
    requires at + 4 <= buf.Length && n < 0x1_0000_0000
    modifies buf
    ensures buf[..] == old(buf[..at]) + Four(n) + old(buf[at + 4..])
  {
    var b := Four(n);
    buf[at], buf[at + 1], buf[at + 2], buf[at + 3] := b[0], b[1], b[2], b[3];
  }

  lemma {:induction false} PutEntry(positions: seq<Position>, i: nat, head: Bytes, before: Bytes, after: Bytes)
    requires i < |positions| && |head| == 2 && before == head + Entries(positions[..i]) + Zeros(8 * |positions| - 4 * i)
    requires after == before[..2 + 4 * i] + Entry(positions[i]) + before[2 + 4 * i + 4..]
    ensures after == head + Entries(positions[..i + 1]) + Zeros(8 * |positions| - 4 * (i + 1))
  {
    assert positions[..i + 1][..i] == positions[..i];
    assert before[..2 + 4 * i] == head + Entries(positions[..i]);
    assert before[2 + 4 * i + 4..] == Zeros(8 * |positions| - 4 * (i + 1));
  }

  method PutPosition(buf: array<Byte>, positions: seq<Position>, i: nat, ghost head: Bytes)
    requires i < |positions| && |head| == 2
    requires buf[..] == head + Entries(positions[..i]) + Zeros(8 * |positions| - 4 * i)
    modifies buf
    ensures buf[..] == head + Entries(positions[..i + 1]) + Zeros(8 * |positions| - 4 * (i + 1))
  {
    ghost var before := buf[..];
    var p := positions[i];
    PutFour(buf, 2 + i * 4, Encode(p.tag, p.place) as int);
    PutEntry(positions, i, head, before, buf[..]);
  }

  method MarshalWCP(count: nat, positions: seq<Position>) returns (buf: array<Byte>)
    ensures fresh(buf) && buf[..] == Marshaled(count, positions)
  {
    buf := new Byte[2 + |positions| * 8](_ => 0);
    var b := Two(count % 0x1_0000);
    buf[0], buf[1] := b[0], b[1];
    for i := 0 to |positions|
      invariant buf[..] == b + Entries(positions[..i]) + Zeros(8 * |positions| - 4 * i)
    {
      PutPosition(buf, positions, i, b);
    }
    assert positions[..|positions|] == positions;
  }

  method UnmarshalWCP(data: Bytes) returns (r: Reading)
    ensures r == Unmarshaled(data)
  {
    if |data| < 2 {
      return TooShort;
    }
    var count := FromTwo(data[0..2]);
    assert data[0..2] == data[..2];
    var n := Min(count, MAX_POSITIONS);
    var positions: seq<Position> := [];
    for i := 0 to n
      invariant 2 + 4 * i <= |data| && |positions| == i
      invariant forall k :: 0 <= k < i ==> positions[k] == PositionAt(data, k)
    {
      if 2 + i * 4 + 4 > |data| {
        return Panic;
      }
      positions := positions + [PositionAt(data, i)];
    }
    return Read(count, positions);
  }

  // ---------- What comes back ----------

  // What packing makes of a position.
  function Stored(p: Position): Position {
    var (tag, place) := Decode(Encode(p.tag, p.place));
    Position(tag, place)
  }

  lemma FourIsFour(n: nat)
    requires n < 0x1_0000_0000
    ensures FromFour(Four(n)) == n
  {
    var b := Four(n);
    assert b[..2] == [b[0], b[1]] && b[2..] == [b[2], b[3]];
  }

  lemma BackToBits(x: bv32)
    ensures (x as int) as bv32 == x
  {
  }

  lemma EntryRoundTrip(p: Position, b: Bytes)
    requires b == Entry(p)
    ensures Decode(FromFour(b) as bv32) == Decode(Encode(p.tag, p.place))
  {
    var x := Encode(p.tag, p.place);
    FourIsFour(x as int);
    BackToBits(x);
  }

  lemma {:induction false} EntryAt(positions: seq<Position>, i: nat)
    requires i < |positions|
    ensures Entries(positions)[4 * i..4 * i + 4] == Entry(positions[i])
  {
    var last := |positions| - 1;
    if i < last {
      EntryAt(positions[..last], i);
      assert Entries(positions)[4 * i..4 * i + 4] == Entries(positions[..last])[4 * i..4 * i + 4];
    }
  }

  lemma {:induction false} EntryInRecord(count: nat, positions: seq<Position>, i: nat)
    requires i < |positions|
    ensures Marshaled(count, positions)[2 + 4 * i..2 + 4 * i + 4] == Entry(positions[i])
  {
    EntryAt(positions, i);
    assert Marshaled(count, positions)[2 + 4 * i..2 + 4 * i + 4] == Entries(positions)[4 * i..4 * i + 4];
  }

  lemma {:induction false} WrittenAt(count: nat, positions: seq<Position>, i: nat)
    requires i < |positions|
    ensures PositionAt(Marshaled(count, positions), i) == Stored(positions[i])
  {
    EntryInRecord(count, positions, i);
    EntryRoundTrip(positions[i], Marshaled(count, positions)[2 + 4 * i..2 + 4 * i + 4]);
  }

  lemma {:induction false} UnwrittenAt(count: nat, positions: seq<Position>, i: nat)
    requires |positions| <= i < 2 * |positions|
    ensures PositionAt(Marshaled(count, positions), i) == Position(0, 0)
  {
    assert Marshaled(count, positions)[2 + 4 * i..2 + 4 * i + 4] == [0, 0, 0, 0];
    assert FromFour([0, 0, 0, 0]) == 0;
  }

  // The count comes back modulo 2^16, and with it that many positions up to 500: those that were written,
  // and behind them zeros; where even these end, reading panics.
  lemma {:induction false} WhatComesBack(count: nat, positions: seq<Position>)
    ensures var n, m := |positions|, Min(count % 65536, 500);
      var r := Unmarshaled(Marshaled(count, positions));
      if m > 2 * n then r == Panic
      else
        && r.Read? && r.count == count % 65536 && |r.positions| == m
        && forall i :: 0 <= i < m ==> r.positions[i] == if i < n then Stored(positions[i]) else Position(0, 0)
  {
    var n, m := |positions|, Min(count % 65536, 500);
    var data := Marshaled(count, positions);
    assert data[..2] == Two(count % 65536);
    if m <= 2 * n {
      forall i | 0 <= i < m
        ensures PositionAt(data, i) == if i < n then Stored(positions[i]) else Position(0, 0)
      {
        if i < n { WrittenAt(count, positions, i); } else { UnwrittenAt(count, positions, i); }
      }
    }
  }

  // A record is read as it was written exactly if the count fits into 16 bits and says how many positions
  // there are, and each of these comes back.
  lemma {:induction false} RecordRoundTrip(count: nat, positions: seq<Position>)
    ensures Unmarshaled(Marshaled(count, positions)) == Read(count, positions) <==>
      && count < 65536 && |positions| == Min(count, 500)
      && forall p :: p in positions ==> p.tag <= 1 && p.place < 0x8000_0000
  {
    WhatComesBack(count, positions);
    AllStay(positions);
    var r := Unmarshaled(Marshaled(count, positions));
    if count < 65536 && |positions| == Min(count, 500) {
      assert r.positions == positions <==> forall i :: 0 <= i < |positions| ==> Stored(positions[i]) == positions[i];
    }
  }

  lemma AllStay(positions: seq<Position>)
    ensures (forall p :: p in positions ==> p.tag <= 1 && p.place < 0x8000_0000)
       <==> forall i :: 0 <= i < |positions| ==> Stored(positions[i]) == positions[i]
  {
    forall p
      ensures Stored(p) == p <==> p.tag <= 1 && p.place < 0x8000_0000
    {
      RoundTrip(p.tag, p.place);
    }
    if forall i :: 0 <= i < |positions| ==> Stored(positions[i]) == positions[i] {
      forall p | p in positions
        ensures p.tag <= 1 && p.place < 0x8000_0000
      {
        assert Stored(p) == p;
      }
    }
  }

  // What is indexed has as many positions as it counts, or the first 500 of them.  Such a record is never
  // too large to be stored, and is read without an error; but the count comes back modulo 2^16, and then
  // no more positions come back than it says.
  lemma {:induction false} IndexedComesBack(sequence: map<Bytes, nat>, pos: map<Bytes, seq<Position>>, word: Bytes)
    requires word in sequence && word in pos && |pos[word]| == sequence[word]
    ensures var kept := PrefixScan.Counted(sequence, pos, word);
      var r := Unmarshaled(Marshaled(kept.count, kept.positions));
      && |Marshaled(kept.count, kept.positions)| <= 4002 <= PrefixScan.MAX_SIZE
      && r.Read? && (r.count == sequence[word] <==> sequence[word] < 65536)
      && |r.positions| == Min(r.count, 500)
      && forall i :: 0 <= i < |r.positions| ==> r.positions[i] == Stored(pos[word][i])
  {
    var kept := PrefixScan.Counted(sequence, pos, word);
    BeginningComesBack(pos[word], kept.positions);
  }

  lemma {:induction false} BeginningComesBack(all: seq<Position>, kept: seq<Position>)
    requires kept <= all && |kept| == Min(|all|, 500)
    ensures var r := Unmarshaled(Marshaled(|all|, kept));
      && r.Read? && r.count == |all| % 65536 && |r.positions| == Min(r.count, 500)
      && forall i :: 0 <= i < |r.positions| ==> r.positions[i] == Stored(all[i])
  {
    WhatComesBack(|all|, kept);
  }
}
