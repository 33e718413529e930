/** Fixed-width unsigned integers and big-endian (network order) byte layout,
    as `encoding/binary.BigEndian` reads and writes them. */
module Bytes {

  type uint8 = x: int | 0 <= x < 0x100
  type uint16 = x: int | 0 <= x < 0x1_0000
  type uint32 = x: int | 0 <= x < 0x1_0000_0000

  /** A Go `[]byte`. */
  type Bytes = seq<uint8>

  /** `binary.Write` of a uint16: high byte first. */
  function BE16(x: uint16): (b: Bytes)
    ensures |b| == 2
  {
    [x / 0x100, x % 0x100]
  }

  /** `binary.Write` of a uint32: the high half, then the low half. */
  function BE32(x: uint32): (b: Bytes)
    ensures |b| == 4
  {
    BE16(x / 0x1_0000) + BE16(x % 0x1_0000)
  }

  /** `binary.BigEndian.Uint16(data[offset:offset+2])`. */
  function U16At(data: Bytes, offset: nat): uint16
    requires offset + 2 <= |data|
  {
    data[offset] as int * 0x100 + data[offset + 1] as int
  }

  /** `binary.BigEndian.Uint32(data[offset:offset+4])`. */
  function U32At(data: Bytes, offset: nat): uint32
    requires offset + 4 <= |data|
  {
    U16At(data, offset) * 0x1_0000 + U16At(data, offset + 2)
  }

  /** The bytes `b` occur in `data` starting at `offset`. Stated byte by
      byte, so that the solver unfolds it only as far as a proof asks. */
  predicate At(data: Bytes, offset: nat, b: Bytes)
    decreases |b|
  {
    if b == [] then offset <= |data|
    else offset < |data| && data[offset] == b[0] && At(data, offset + 1, b[1..])
  }

  lemma {:induction false} AtSlice(data: Bytes, offset: nat, b: Bytes)
    ensures At(data, offset, b) <==> offset + |b| <= |data| && data[offset..offset + |b|] == b
    decreases |b|
  {
    if b != [] {
      AtSlice(data, offset + 1, b[1..]);
      if offset + |b| <= |data| {
        assert data[offset..offset + |b|] == [data[offset]] + data[offset + 1..offset + 1 + |b[1..]|];
        assert b == [b[0]] + b[1..];
      }
    }
  }

  lemma AtSplit(data: Bytes, offset: nat, a: Bytes, b: Bytes)
    requires At(data, offset, a + b)
    ensures At(data, offset, a) && At(data, offset + |a|, b)
  {
    AtSlice(data, offset, a + b);
    AtSlice(data, offset, a);
    AtSlice(data, offset + |a|, b);
    assert data[offset..offset + |a|] == (a + b)[..|a|];
    assert data[offset + |a|..offset + |a| + |b|] == (a + b)[|a|..];
  }

  lemma {:induction false} AtLength(data: Bytes, offset: nat, b: Bytes)
    requires At(data, offset, b)
    ensures offset + |b| <= |data|
    decreases |b|
  {
    if b != [] {
      AtLength(data, offset + 1, b[1..]);
    }
  }

  lemma {:induction false} AtIndex(data: Bytes, offset: nat, b: Bytes, i: nat)
    requires At(data, offset, b) && i < |b|
    ensures offset + |b| <= |data| && data[offset + i] == b[i]
    decreases i
  {
    AtLength(data, offset, b);
    if i > 0 {
      AtIndex(data, offset + 1, b[1..], i - 1);
    }
  }

  /** Reading a big-endian uint16 gives back what BE16 wrote. */
  lemma ReadBE16(data: Bytes, offset: nat, x: uint16)
    requires At(data, offset, BE16(x))
    ensures offset + 2 <= |data| && U16At(data, offset) == x
  {
    AtIndex(data, offset, BE16(x), 0);
    AtIndex(data, offset, BE16(x), 1);
  }

  /** Reading a big-endian uint32 gives back what BE32 wrote. */
  lemma ReadBE32(data: Bytes, offset: nat, x: uint32)
    requires At(data, offset, BE32(x))
    ensures offset + 4 <= |data| && U32At(data, offset) == x
  {
    AtSplit(data, offset, BE16(x / 0x1_0000), BE16(x % 0x1_0000));
    ReadBE16(data, offset, x / 0x1_0000);
    ReadBE16(data, offset + 2, x % 0x1_0000);
  }

  /** Every sequence sits in itself at offset 0. */
  lemma AtWhole(data: Bytes)
    ensures At(data, 0, data)
  {
    AtSlice(data, 0, data);
    assert data[0..|data|] == data;
  }

  /** The five parts of `a + b + c + d + e`, each where it starts. */
  lemma FiveParts(a: Bytes, b: Bytes, c: Bytes, d: Bytes, e: Bytes)
    ensures var all := a + b + c + d + e;
      && At(all, 0, a)
      && At(all, |a|, b)
      && At(all, |a| + |b|, c)
      && At(all, |a| + |b| + |c|, d)
      && At(all, |a| + |b| + |c| + |d|, e)
      && |all| == |a| + |b| + |c| + |d| + |e|
  {
    AtWhole(a + b + c + d + e);
    AtSplit(a + b + c + d + e, 0, a + b + c + d, e);
    AtSplit(a + b + c + d + e, 0, a + b + c, d);
    AtSplit(a + b + c + d + e, 0, a + b, c);
    AtSplit(a + b + c + d + e, 0, a, b);
  }

  /** The pieces `ws` written one after the other. */
  function Concat(ws: seq<Bytes>): (b: Bytes)
    decreases |ws|
  {
    if ws == [] then [] else ws[0] + Concat(ws[1..])
  }

  /** The pieces `ws` lie in `data` one after the other, from `offset` to
      `end`. */
  predicate PiecesAt(data: Bytes, offset: nat, ws: seq<Bytes>, end: nat)
    decreases |ws|
  {
    if ws == [] then offset == end && end <= |data|
    else At(data, offset, ws[0]) && PiecesAt(data, offset + |ws[0]|, ws[1..], end)
  }

  lemma {:induction false} ConcatAt(data: Bytes, offset: nat, ws: seq<Bytes>)
    requires At(data, offset, Concat(ws))
    ensures PiecesAt(data, offset, ws, offset + |Concat(ws)|)
    decreases |ws|
  {
    AtLength(data, offset, Concat(ws));
    if ws != [] {
      AtSplit(data, offset, ws[0], Concat(ws[1..]));
      ConcatAt(data, offset + |ws[0]|, ws[1..]);
    }
  }

  /** Reads inside `data` are unaffected by bytes appended after it. */
  lemma {:induction false} AtExtends(data: Bytes, more: Bytes, offset: nat, b: Bytes)
    requires At(data, offset, b)
    ensures At(data + more, offset, b)
    decreases |b|
  {
    if b != [] {
      AtExtends(data, more, offset + 1, b[1..]);
    }
  }

  /** Pieces extend with their data: bytes appended after them change
      nothing. */
  lemma {:induction false} PiecesExtend(data: Bytes, more: Bytes, offset: nat, ws: seq<Bytes>, end: nat)
    requires PiecesAt(data, offset, ws, end)
    ensures PiecesAt(data + more, offset, ws, end)
    decreases |ws|
  {
    if ws != [] {
      AtExtends(data, more, offset, ws[0]);
      PiecesExtend(data, more, offset + |ws[0]|, ws[1..], end);
    }
  }

  /** `At`, as one fact that the solver does not take apart until asked. */
  predicate Placed(data: Bytes, offset: nat, b: Bytes)
  {
    var here := At(data, offset, b);
    here
  }

  /** `PiecesAt`, as one fact that the solver does not take apart until
      asked. */
  predicate Run(data: Bytes, offset: nat, ws: seq<Bytes>, end: nat)
  {
    var here := PiecesAt(data, offset, ws, end);
    here
  }

  /** A sequence followed by a run of pieces holds that run right after it. */
  lemma RunAfter(a: Bytes, ws: seq<Bytes>, offset: nat)
    requires offset == |a|
    ensures Run(a + Concat(ws), offset, ws, offset + |Concat(ws)|)
  {
    AtWhole(a + Concat(ws));
    AtSplit(a + Concat(ws), 0, a, Concat(ws));
    ConcatAt(a + Concat(ws), |a|, ws);
  }

  /** The first piece of a run, and the run of the rest after it. */
  lemma RunFirst(data: Bytes, offset: nat, ws: seq<Bytes>, end: nat)
    requires ws != [] && Run(data, offset, ws, end)
    ensures At(data, offset, ws[0]) && Run(data, offset + |ws[0]|, ws[1..], end)
  {
  }

  lemma RunExtends(data: Bytes, more: Bytes, offset: nat, ws: seq<Bytes>, end: nat)
    requires Run(data, offset, ws, end)
    ensures Run(data + more, offset, ws, end)
  {
    PiecesExtend(data, more, offset, ws, end);
  }

  lemma PlacedExtends(data: Bytes, more: Bytes, offset: nat, b: Bytes)
    requires Placed(data, offset, b)
    ensures Placed(data + more, offset, b)
  {
    AtExtends(data, more, offset, b);
  }

  /** A first part followed by four runs of pieces: in their
      concatenation the first part and each run lie where they start. */
  lemma {:induction false} FivePieces(h: Bytes, ws1: seq<Bytes>, ws2: seq<Bytes>, ws3: seq<Bytes>, ws4: seq<Bytes>,
                                      start: nat, q: nat, an: nat, ns: nat, end: nat)
    requires start == |h| && q == start + |Concat(ws1)| && an == q + |Concat(ws2)|
    requires ns == an + |Concat(ws3)| && end == ns + |Concat(ws4)|
    ensures var all := h + Concat(ws1) + Concat(ws2) + Concat(ws3) + Concat(ws4);
      && Placed(all, 0, h) && Run(all, start, ws1, q) && Run(all, q, ws2, an)
      && Run(all, an, ws3, ns) && Run(all, ns, ws4, end) && |all| == end
  {
    var d1 := h + Concat(ws1);
    var d2 := d1 + Concat(ws2);
    var d3 := d2 + Concat(ws3);
    AtWhole(h);
    PlacedExtends(h, Concat(ws1), 0, h);
    RunAfter(h, ws1, start);
    PlacedExtends(d1, Concat(ws2), 0, h);
    RunExtends(d1, Concat(ws2), start, ws1, q);
    RunAfter(d1, ws2, q);
    PlacedExtends(d2, Concat(ws3), 0, h);
    RunExtends(d2, Concat(ws3), start, ws1, q);
    RunExtends(d2, Concat(ws3), q, ws2, an);
    RunAfter(d2, ws3, an);
    PlacedExtends(d3, Concat(ws4), 0, h);
    RunExtends(d3, Concat(ws4), start, ws1, q);
    RunExtends(d3, Concat(ws4), q, ws2, an);
    RunExtends(d3, Concat(ws4), an, ws3, ns);
    RunAfter(d3, ws4, ns);
  }
}
