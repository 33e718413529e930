/** Domain names in DNS wire format (section 3.1 of RFC 1035): the
    `encodeDomainName` and `decodeDomainName` halves of dns/message.go.

    A Go string is a sequence of bytes, so a name is a `seq<uint8>` and the
    separator is the byte '.' (46). */
module DomainNames {
  import opened Wrappers
  import opened Bytes

  type Name = seq<uint8>

  const DOT: uint8 := 46

  // ---------------------------------------------------------------------
  // Labels: strings.Split / strings.Join on "."
  // ---------------------------------------------------------------------

  /** `strings.Split(s, ".")`: the pieces between dots, never an empty list. */
  function SplitLabels(s: Name): (labels: seq<Name>)
    ensures |labels| >= 1
    ensures forall i :: 0 <= i < |labels| ==> DOT !in labels[i]
  {
    if s == [] then [[]]
    else
      var rest := SplitLabels(s[1..]);
      if s[0] == DOT then [[]] + rest
      else [[s[0]] + rest[0]] + rest[1..]
  }

  /** `strings.Join(labels, ".")`. */
  function JoinLabels(labels: seq<Name>): (joined: Name)
    requires |labels| >= 1
    ensures |joined| >= |labels[0]|
  {
    if |labels| == 1 then labels[0] else labels[0] + [DOT] + JoinLabels(labels[1..])
  }

  /** `strings.TrimSuffix(s, ".")`: at most one trailing dot goes. */
  function TrimDot(s: Name): Name
  {
    if |s| > 0 && s[|s| - 1] == DOT then s[..|s| - 1] else s
  }

  /** A label of 1 to 63 bytes (section 2.3.4 of RFC 1035). */
  predicate ValidLabel(lbl: Name)
  {
    1 <= |lbl| <= 63
  }

  /** Every label in the list is 1 to 63 bytes. */
  predicate ValidLabels(labels: seq<Name>)
  {
    labels == [] || (ValidLabel(labels[0]) && ValidLabels(labels[1..]))
  }

  lemma {:induction false} ValidLabelsAll(labels: seq<Name>)
    requires forall lbl | lbl in labels :: ValidLabel(lbl)
    ensures ValidLabels(labels)
  {
    if labels != [] {
      assert labels[0] in labels;
      assert forall lbl | lbl in labels[1..] :: lbl in labels;
      ValidLabelsAll(labels[1..]);
    }
  }

  /** The names the codec round-trips: the empty name, or dot-separated
      labels of 1 to 63 bytes each (so no empty label and no trailing dot). */
  predicate ValidName(name: Name)
  {
    name == [] || forall lbl | lbl in SplitLabels(name) :: ValidLabel(lbl)
  }

  /** Splitting on dots and joining with dots gives the string back. */
  lemma {:induction false} JoinSplit(s: Name)
    ensures JoinLabels(SplitLabels(s)) == s
  {
    if s != [] {
      var rest := SplitLabels(s[1..]);
      JoinSplit(s[1..]);
      var labels := SplitLabels(s);
      if s[0] == DOT {
        assert labels[1..] == rest;
        assert s == [DOT] + s[1..];
      } else if |rest| == 1 {
        assert s == [s[0]] + s[1..];
      } else {
        assert labels[1..] == rest[1..];
        assert s == [s[0]] + s[1..];
      }
    }
  }

  /** A joined name ends with the last byte of its last label. */
  lemma {:induction false} JoinEndsWithLastLabel(labels: seq<Name>)
    requires |labels| >= 1 && |labels[|labels| - 1]| > 0
    ensures var joined, last := JoinLabels(labels), labels[|labels| - 1];
      |joined| > 0 && joined[|joined| - 1] == last[|last| - 1]
  {
    if |labels| > 1 {
      JoinEndsWithLastLabel(labels[1..]);
    }
  }

  /** A name whose labels are all non-empty has no trailing dot to trim. */
  lemma ValidNameUntrimmed(name: Name)
    requires ValidName(name)
    ensures TrimDot(name) == name
  {
    if name != [] {
      var labels := SplitLabels(name);
      assert labels[|labels| - 1] in labels;
      JoinSplit(name);
      JoinEndsWithLastLabel(labels);
      var last := labels[|labels| - 1];
      assert last[|last| - 1] in last;
    }
  }

  // ---------------------------------------------------------------------
  // encodeDomainName
  // ---------------------------------------------------------------------

  /** One label as written by the encoder: `byte(len(label))` (which wraps
      at 256) followed by the label's bytes. */
  function LabelWire(lbl: Name): (b: Bytes)
  {
    [|lbl| % 0x100] + lbl
  }

  function LabelsWire(labels: seq<Name>): (b: Bytes)
  {
    if labels == [] then [] else LabelWire(labels[0]) + LabelsWire(labels[1..])
  }

  /** The bytes `encodeDomainName(domain)` returns. */
  function WireName(domain: Name): (b: Bytes)
  {
    if domain == [] || domain == [DOT] then [0]
    else LabelsWire(SplitLabels(TrimDot(domain))) + [0]
  }

  lemma {:induction false} LabelsWireSnoc(labels: seq<Name>, lbl: Name)
    ensures LabelsWire(labels + [lbl]) == LabelsWire(labels) + LabelWire(lbl)
  {
    if labels != [] {
      assert (labels + [lbl])[1..] == labels[1..] + [lbl];
      LabelsWireSnoc(labels[1..], lbl);
    }
  }

  /** Each split piece costs its bytes plus one length byte, and there is one
      more piece than there are dots, so the pieces cost |s| + 1 bytes. */
  lemma {:induction false} SplitWireLength(s: Name)
    ensures |LabelsWire(SplitLabels(s))| == |s| + 1
  {
    if s != [] {
      var rest := SplitLabels(s[1..]);
      SplitWireLength(s[1..]);
      if s[0] == DOT {
        assert SplitLabels(s)[1..] == rest;
      } else {
        assert SplitLabels(s)[1..] == rest[1..];
        assert |LabelsWire(rest)| == |LabelWire(rest[0])| + |LabelsWire(rest[1..])|;
      }
    }
  }

  /** `encodeDomainName` of "" and of "." is the single root byte; any other
      name costs two bytes more than its trimmed text and ends in the root
      byte. */
  lemma WireNameShape(domain: Name)
    ensures domain == [] || domain == [DOT] ==> WireName(domain) == [0]
    ensures domain != [] && domain != [DOT] ==>
      |WireName(domain)| == |TrimDot(domain)| + 2
    ensures WireName(domain)[|WireName(domain)| - 1] == 0
  {
    if domain != [] && domain != [DOT] {
      SplitWireLength(TrimDot(domain));
    }
  }

  /** `encodeDomainName`: a buffer that receives each label in turn. */
  method EncodeDomainName(domain: Name) returns (encoded: Bytes)
    ensures encoded == WireName(domain)
  {
    if domain == [] {
      return [0];
    }
    if domain == [DOT] {
      return [0];
    }
    var labels := SplitLabels(TrimDot(domain));
    encoded := [];
    for i := 0 to |labels|
      invariant encoded == LabelsWire(labels[..i])
    {
      LabelsWireSnoc(labels[..i], labels[i]);
      assert labels[..i + 1] == labels[..i] + [labels[i]];
      encoded := encoded + [|labels[i]| % 0x100] + labels[i];
    }
    assert labels[..|labels|] == labels;
    encoded := encoded + [0];
  }

  // ---------------------------------------------------------------------
  // decodeDomainName
  // ---------------------------------------------------------------------

  /** The errors `decodeDomainName` returns, plus `OutOfFuel`, which the
      source never returns: it stands for a chain of pointer hops longer than
      the fuel, on which the source recurses without bound. */
  datatype NameError =
    | OffsetOutOfBounds    // "offset out of bounds"
    | TruncatedName        // "truncated domain name"
    | InvalidPointer       // "invalid compression pointer"
    | ForwardPointer       // "forward compression pointer"
    | LabelExceedsMessage  // "label exceeds message"
    | OutOfFuel

  /** `decodeDomainName`'s (name, offset, error) triple: on success the name
      and the offset just past it; on failure the error and an offset. */
  datatype NameResult =
    | Decoded(name: Name, next: nat)
    | Failed(error: NameError, offset: nat)

  predicate Exhausted(r: NameResult)
  {
    r.Failed? && r.error == OutOfFuel
  }

  /** `length & 0xC0 == 0xC0`: the top two bits of a length byte are set. */
  predicate IsPointer(b: uint8)
  {
    b >= 0xC0
  }

  /** The low 14 bits of the big-endian word at `offset`. */
  function PointerTarget(data: Bytes, offset: nat): nat
    requires offset + 2 <= |data|
  {
    U16At(data, offset) % 0x4000
  }

  /** `name` + "." + `label`, or just `label` when nothing was read yet. */
  function Dotted(name: Name, lbl: Name): Name
  {
    (if |name| > 0 then name + [DOT] else name) + lbl
  }

  /** The result of `decodeDomainName(data, start)`, where at most `fuel`
      compression pointers are followed one after another. */
  function ReadName(data: Bytes, start: nat, fuel: nat): (r: NameResult)
    ensures r.Failed? ==> r.offset == start
    ensures r.Decoded? ==> start < r.next <= |data|
    decreases fuel, |data| - start, 2
  {
    if start >= |data| then Failed(OffsetOutOfBounds, start)
    else if data[start] == 0 then Decoded([], start + 1)
    else ReadLabels(data, start, start, [], fuel)
  }

  /** The label loop of `decodeDomainName`, entered with the cursor at
      `offset` and `name` read so far. The first length byte is not zero, so
      `name` is empty only on the first pass. */
  function ReadLabels(data: Bytes, start: nat, offset: nat, name: Name, fuel: nat): (r: NameResult)
    requires start < |data| && data[start] != 0
    requires offset == start || |name| > 0
    ensures r.Failed? ==> r.offset == start
    ensures r.Decoded? ==> offset < r.next <= |data|
    decreases fuel, |data| - offset, 1
  {
    if offset >= |data| then Failed(TruncatedName, start)
    else
      var length := data[offset];
      if IsPointer(length) then ReadPointer(data, start, offset, name, fuel)
      else if length == 0 then
        // The source returns "." here when nothing was read; that cannot happen.
        assert |name| > 0;
        Decoded(name, offset + 1)
      else if offset + 1 + length > |data| then Failed(LabelExceedsMessage, start)
      else ReadLabels(data, start, offset + 1 + length, Dotted(name, data[offset + 1..offset + 1 + length]), fuel)
  }

  /** The compression-pointer branch of the label loop: the cursor is on a
      length byte whose top two bits are set. */
  function ReadPointer(data: Bytes, start: nat, offset: nat, name: Name, fuel: nat): (r: NameResult)
    requires offset < |data| && IsPointer(data[offset])
    ensures r.Failed? ==> r.offset == start
    ensures r.Decoded? ==> r.next == offset + 2 <= |data|
    decreases fuel, |data| - offset, 0
  {
    if offset + 2 > |data| then Failed(InvalidPointer, start)
    else
      var pointer := PointerTarget(data, offset);
      if pointer >= offset then Failed(ForwardPointer, start)
      else if fuel == 0 then Failed(OutOfFuel, start)
      else match ReadName(data, pointer, fuel - 1)
        case Failed(e, _) => Failed(e, start)
        case Decoded(suffix, _) => Decoded(Dotted(name, suffix), offset + 2)
  }

  /** `decodeDomainName`: a cursor loop over labels that follows a
      compression pointer by a recursive call, one unit of fuel per call. */
  method DecodeDomainName(data: Bytes, start: nat, fuel: nat) returns (r: NameResult)
    ensures r == ReadName(data, start, fuel)
    decreases fuel, 2
  {
    if start >= |data| {
      return Failed(OffsetOutOfBounds, start);
    }
    if data[start] == 0 {
      return Decoded([], start + 1);
    }
    NameStart(data, start, fuel);
    r := DecodeLabels(data, start, fuel, ReadName(data, start, fuel));
  }

  /** The label loop of `decodeDomainName`, from a non-empty first label.
      `result` is what the loop must end with. */
  method DecodeLabels(data: Bytes, start: nat, fuel: nat, ghost result: NameResult) returns (r: NameResult)
    requires start < |data| && data[start] != 0
    requires ReadLabels(data, start, start, [], fuel) == result
    ensures r == result
    decreases fuel, 1
  {
    var name: Name := [];
    var offset := start;
    while offset < |data|
      invariant start <= offset <= |data|
      invariant offset == start || |name| > 0
      invariant ReadLabels(data, start, offset, name, fuel) == result
      decreases |data| - offset
    {
      var length := data[offset];
      if IsPointer(length) {
        r := FollowPointer(data, start, offset, name, fuel, result);
        return;
      }
      if length == 0 {
        return Decoded(name, offset + 1);
      }
      if offset + 1 + length > |data| {
        return Failed(LabelExceedsMessage, start);
      }
      var lbl := data[offset + 1..offset + 1 + length];
      ghost var before := name;
      if |name| > 0 {
        name := name + [DOT];
      }
      name := name + lbl;
      assert name == Dotted(before, lbl);
      offset := offset + 1 + length;
    }
    return Failed(TruncatedName, start);
  }

  /** The compression-pointer branch of the loop: a recursive
      `decodeDomainName` call at the pointer's target. */
  method FollowPointer(data: Bytes, start: nat, offset: nat, name: Name, fuel: nat, ghost result: NameResult) returns (r: NameResult)
    requires start < |data| && data[start] != 0
    requires offset == start || |name| > 0
    requires offset < |data| && IsPointer(data[offset])
    requires ReadLabels(data, start, offset, name, fuel) == result
    ensures r == result
    decreases fuel, 0
  {
    PointerBranch(data, start, offset, name, fuel);
    if offset + 2 > |data| {
      return Failed(InvalidPointer, start);
    }
    var pointer := PointerTarget(data, offset);
    if pointer >= offset {
      return Failed(ForwardPointer, start);
    }
    if fuel == 0 {
      return Failed(OutOfFuel, start);
    }
    var suffix := DecodeDomainName(data, pointer, fuel - 1);
    if suffix.Failed? {
      return Failed(suffix.error, start);
    }
    var full := name;
    if |name| > 0 {
      full := full + [DOT];
    }
    full := full + suffix.name;
    assert full == Dotted(name, suffix.name);
    return Decoded(full, offset + 2);
  }


  /** On a pointer byte the label loop hands over to the pointer branch. */
  lemma PointerBranch(data: Bytes, start: nat, offset: nat, name: Name, fuel: nat)
    requires start < |data| && data[start] != 0
    requires offset == start || |name| > 0
    requires offset < |data| && IsPointer(data[offset])
    ensures ReadLabels(data, start, offset, name, fuel) == ReadPointer(data, start, offset, name, fuel)
  {
  }

  // ---------------------------------------------------------------------
  // Decoding what the encoder wrote
  // ---------------------------------------------------------------------


  /** Where the encoded labels sit in the buffer: the first length byte,
      the first label's bytes, and the encoding of the rest after them. */
  lemma FirstLabelAt(data: Bytes, offset: nat, labels: seq<Name>)
    requires |labels| >= 1 && ValidLabel(labels[0])
    requires At(data, offset, LabelsWire(labels))
    ensures var next := offset + 1 + |labels[0]|;
      && next <= |data| && data[offset] == |labels[0]|
      && data[offset + 1..next] == labels[0]
      && At(data, next, LabelsWire(labels[1..]))
      && |LabelsWire(labels)| == 1 + |labels[0]| + |LabelsWire(labels[1..])|
  {
    var lbl := labels[0];
    assert LabelsWire(labels) == LabelWire(lbl) + LabelsWire(labels[1..]);
    AtSplit(data, offset, LabelWire(lbl), LabelsWire(labels[1..]));
    AtSplit(data, offset, [|lbl| % 0x100], lbl);
    AtIndex(data, offset, [|lbl| % 0x100], 0);
    AtSlice(data, offset + 1, lbl);
  }

  /** `labels` lie in `data` from `offset` to `end` as length-prefixed
      labels of 1 to 63 bytes each. */
  predicate LabelsAt(data: Bytes, offset: nat, labels: seq<Name>, end: nat)
    decreases |labels|
  {
    if labels == [] then offset == end
    else
      var lbl := labels[0];
      var next := offset + 1 + |lbl|;
      && ValidLabel(lbl) && next <= |data| && data[offset] == |lbl|
      && data[offset + 1..next] == lbl
      && LabelsAt(data, next, labels[1..], end)
  }

  /** The name the loop holds after appending `labels` to `name`. */
  function Appended(name: Name, labels: seq<Name>): (full: Name)
    ensures |full| >= |name|
    ensures labels != [] && ValidLabel(labels[0]) ==> |full| > 0
    decreases |labels|
  {
    if labels == [] then name else Appended(Dotted(name, labels[0]), labels[1..])
  }

  lemma {:induction false} AppendedJoin(name: Name, labels: seq<Name>)
    requires |labels| >= 1 && ValidLabels(labels)
    ensures Appended(name, labels) == Dotted(name, JoinLabels(labels))
    decreases |labels|
  {
    if |labels| > 1 {
      AppendedJoin(Dotted(name, labels[0]), labels[1..]);
      assert JoinLabels(labels) == labels[0] + [DOT] + JoinLabels(labels[1..]);
      assert Dotted(Dotted(name, labels[0]), JoinLabels(labels[1..])) == Dotted(name, JoinLabels(labels));
    }
  }

  /** The encoder's label run satisfies LabelsAt. */
  lemma {:induction false} WireLabelsAt(data: Bytes, offset: nat, labels: seq<Name>)
    requires ValidLabels(labels)
    requires At(data, offset, LabelsWire(labels))
    ensures LabelsAt(data, offset, labels, offset + |LabelsWire(labels)|)
    decreases |labels|
  {
    if labels != [] {
      FirstLabelAt(data, offset, labels);
      WireLabelsAt(data, offset + 1 + |labels[0]|, labels[1..]);
    }
  }

  /** One label read by the loop, in continuation form. */
  lemma LabelThen(data: Bytes, start: nat, offset: nat, name: Name, lbl: Name, fuel: nat, r: NameResult)
    requires start < |data| && data[start] != 0
    requires offset == start || |name| > 0
    requires ValidLabel(lbl) && offset < |data| && data[offset] == |lbl|
    requires offset + 1 + |lbl| <= |data| && data[offset + 1..offset + 1 + |lbl|] == lbl
    requires ReadLabels(data, start, offset + 1 + |lbl|, Dotted(name, lbl), fuel) == r
    ensures ReadLabels(data, start, offset, name, fuel) == r
  {
  }

  /** The label loop walks over a run of labels, in continuation form: what
      it returns from the start of the run is what it returns from its end. */
  lemma {:induction false} SkipLabels(data: Bytes, start: nat, offset: nat, name: Name, labels: seq<Name>, end: nat, fuel: nat, r: NameResult)
    requires start < |data| && data[start] != 0
    requires offset == start || |name| > 0
    requires LabelsAt(data, offset, labels, end)
    requires ReadLabels(data, start, end, Appended(name, labels), fuel) == r
    ensures ReadLabels(data, start, offset, name, fuel) == r
    decreases |labels|
  {
    if labels != [] {
      var lbl := labels[0];
      SkipLabels(data, start, offset + 1 + |lbl|, Dotted(name, lbl), labels[1..], end, fuel, r);
      LabelThen(data, start, offset, name, lbl, fuel, r);
    }
  }




  /** A name that does not start with the root byte is read by the loop. */
  lemma NameStart(data: Bytes, start: nat, fuel: nat)
    requires start < |data| && data[start] != 0
    ensures ReadName(data, start, fuel) == ReadLabels(data, start, start, [], fuel)
  {
  }

  /** The loop stops at a zero length byte with what it has read. */
  lemma RootStep(data: Bytes, start: nat, offset: nat, name: Name, fuel: nat)
    requires start < |data| && data[start] != 0
    requires offset == start || |name| > 0
    requires offset < |data| && data[offset] == 0
    ensures ReadLabels(data, start, offset, name, fuel) == Decoded(name, offset + 1)
  {
  }

  /** A valid non-empty name is encoded as its labels and the root byte. */
  lemma ValidNameWire(domain: Name)
    requires ValidName(domain) && domain != []
    ensures var labels := SplitLabels(domain);
      && ValidLabels(labels)
      && WireName(domain) == LabelsWire(labels) + [0]
      && LabelsWire(labels)[0] == |labels[0]|
  {
    assert SplitLabels([DOT]) == [[], []];
    assert [] in SplitLabels([DOT]);
    ValidNameUntrimmed(domain);
    ValidLabelsAll(SplitLabels(domain));
  }

  /** Decoding the encoder's output gives the name back, wherever in the
      buffer it sits, with the cursor just past it, and without following any
      pointer. "yahoo.com" and "www.example.com" are such names. */
  lemma NameRoundTrip(data: Bytes, offset: nat, domain: Name, fuel: nat)
    requires ValidName(domain)
    requires At(data, offset, WireName(domain))
    ensures ReadName(data, offset, fuel) == Decoded(domain, offset + |WireName(domain)|)
  {
    if domain == [] {
      assert WireName(domain) == [0];
      AtIndex(data, offset, [0], 0);
      assert ReadName(data, offset, fuel) == Decoded([], offset + 1);
    } else {
      ValidNameWire(domain);
      JoinSplit(domain);
      LabelsRoundTrip(data, offset, SplitLabels(domain), fuel);
    }
  }

  /** Decoding a run of valid labels closed by the root byte. */
  lemma LabelsRoundTrip(data: Bytes, offset: nat, labels: seq<Name>, fuel: nat)
    requires |labels| >= 1 && ValidLabels(labels)
    requires At(data, offset, LabelsWire(labels) + [0])
    ensures ReadName(data, offset, fuel) == Decoded(JoinLabels(labels), offset + |LabelsWire(labels)| + 1)
  {
    var end := offset + |LabelsWire(labels)|;
    var result := Decoded(JoinLabels(labels), end + 1);
    AtSplit(data, offset, LabelsWire(labels), [0]);
    FirstLabelAt(data, offset, labels);
    AtIndex(data, end, [0], 0);
    WireLabelsAt(data, offset, labels);
    AppendedJoin([], labels);
    RootStep(data, offset, end, JoinLabels(labels), fuel);
    SkipLabels(data, offset, offset, [], labels, end, fuel, result);
    NameStart(data, offset, fuel);
  }


  /** The encoder maps "" and "." alike to the root byte, which decodes to
      "": the two names are not told apart. */
  lemma RootAndEmptyCollide(fuel: nat)
    ensures WireName([]) == WireName([DOT]) == [0]
    ensures ReadName(WireName([DOT]), 0, fuel) == Decoded([], 1)
  {
  }

  /** Two bytes that point at `target`: top bits 11, then the 14-bit offset. */
  function PointerWire(target: nat): (b: Bytes)
    requires target < 0x4000
  {
    [0xC0 + target / 0x100, target % 0x100]
  }

  /** A compressed name (literal labels, then a pointer strictly before the
      pointer's own position) decodes to its labels, a dot, and the name at
      the target; the cursor ends just past the two pointer bytes. */
  lemma CompressedNameRead(data: Bytes, offset: nat, labels: seq<Name>, target: nat, fuel: nat)
    requires ValidLabels(labels)
    requires target < 0x4000 && target < offset + |LabelsWire(labels)|
    requires At(data, offset, LabelsWire(labels) + PointerWire(target))
    requires fuel > 0 && ReadName(data, target, fuel - 1).Decoded?
    ensures var suffix := ReadName(data, target, fuel - 1).name;
      ReadName(data, offset, fuel)
      == Decoded(if labels == [] then suffix else JoinLabels(labels) + [DOT] + suffix,
                 offset + |LabelsWire(labels)| + 2)
  {
    var p := offset + |LabelsWire(labels)|;
    var suffix := ReadName(data, target, fuel - 1).name;
    AtSplit(data, offset, LabelsWire(labels), PointerWire(target));
    AtIndex(data, p, PointerWire(target), 0);
    AtIndex(data, p, PointerWire(target), 1);
    assert U16At(data, p) == 0xC000 + target;
    assert PointerTarget(data, p) == target;
    if labels == [] {
      PointerStep(data, offset, offset, [], fuel);
    } else {
      LabelsThenPointer(data, offset, labels, p, fuel);
    }
  }

  lemma LabelsThenPointer(data: Bytes, offset: nat, labels: seq<Name>, p: nat, fuel: nat)
    requires |labels| >= 1 && ValidLabels(labels)
    requires At(data, offset, LabelsWire(labels)) && p == offset + |LabelsWire(labels)|
    requires p + 2 <= |data| && IsPointer(data[p]) && PointerTarget(data, p) < p && fuel > 0
    requires ReadName(data, PointerTarget(data, p), fuel - 1).Decoded?
    ensures ReadName(data, offset, fuel)
         == Decoded(JoinLabels(labels) + [DOT] + ReadName(data, PointerTarget(data, p), fuel - 1).name, p + 2)
  {
    var suffix := ReadName(data, PointerTarget(data, p), fuel - 1).name;
    FirstLabelAt(data, offset, labels);
    WireLabelsAt(data, offset, labels);
    AppendedJoin([], labels);
    PointerStep(data, offset, p, JoinLabels(labels), fuel);
    SkipLabels(data, offset, offset, [], labels, p, fuel, Decoded(JoinLabels(labels) + [DOT] + suffix, p + 2));
    NameStart(data, offset, fuel);
  }

  /** The loop on a pointer strictly behind it, whose target decodes. */
  lemma PointerStep(data: Bytes, start: nat, offset: nat, name: Name, fuel: nat)
    requires start < |data| && data[start] != 0
    requires offset == start || |name| > 0
    requires offset + 2 <= |data| && IsPointer(data[offset])
    requires PointerTarget(data, offset) < offset && fuel > 0
    requires ReadName(data, PointerTarget(data, offset), fuel - 1).Decoded?
    ensures ReadLabels(data, start, offset, name, fuel)
         == Decoded(Dotted(name, ReadName(data, PointerTarget(data, offset), fuel - 1).name), offset + 2)
  {
  }

  // ---------------------------------------------------------------------
  // Fuel: where the source does not terminate
  // ---------------------------------------------------------------------

  /** A one-byte label "a" at offset 12, then at 14 a pointer back to
      12: a complete query whose only question name points into itself. */
  function LoopingQuery(): (b: Bytes)
  {
    [0, 0, 0, 0, 0, 1, 0, 0, 0, 0, 0, 0, 1, 97, 0xC0, 0x0C, 0, 1, 0, 1]
  }

  /** The pointer at 14 targets 12, which is before 14, so the only guard
      (`pointer >= offset`) lets it through, and the decode from 12 calls the
      decode from 12 again: no amount of fuel is enough. (The source's
      `visited` map is fresh in every call and cannot catch it.) */
  lemma {:induction false} SelfReferenceExhaustsFuel(fuel: nat)
    ensures ReadName(LoopingQuery(), 12, fuel) == Failed(OutOfFuel, 12)
  {
    var data := LoopingQuery();
    assert data[13..14] == [97];
    assert Dotted([], [97]) == [97];
    assert ReadName(data, 12, fuel) == ReadLabels(data, 12, 14, [97], fuel);
    assert PointerTarget(data, 14) == 12;
    if fuel > 0 {
      SelfReferenceExhaustsFuel(fuel - 1);
    }
  }

  /** Where the label walk from `offset` meets a complete compression
      pointer that passes the `pointer >= offset` guard, its target: the
      start of the name the decoder calls itself on next. */
  function PointerHop(data: Bytes, offset: nat): (r: Option<nat>)
    ensures r.Some? ==> offset < |data| && r.value < |data|
    decreases |data| - offset
  {
    if offset >= |data| || data[offset] == 0 then None
    else if IsPointer(data[offset]) then
      if offset + 2 > |data| || PointerTarget(data, offset) >= offset then None
      else Some(PointerTarget(data, offset))
    else if offset + 1 + data[offset] > |data| then None
    else PointerHop(data, offset + 1 + data[offset])
  }

  /** Every pointer met while decoding from `start` targets strictly before
      the start of the name that contains it, and so on down the chain. */
  ghost predicate PointersBackward(data: Bytes, start: nat)
    decreases start
  {
    match PointerHop(data, start)
    case None => true
    case Some(target) => target < start && PointersBackward(data, target)
  }

  /** When every hop goes strictly before the start of the name being
      decoded, fuel equal to the start offset is enough. */
  lemma {:induction false} FuelSuffices(data: Bytes, start: nat, fuel: nat)
    requires PointersBackward(data, start) && start <= fuel
    ensures !Exhausted(ReadName(data, start, fuel))
    decreases fuel, |data| - start, 2
  {
    if start < |data| && data[start] != 0 {
      LabelsFuelSuffices(data, start, start, [], fuel);
    }
  }

  lemma {:induction false} LabelsFuelSuffices(data: Bytes, start: nat, offset: nat, name: Name, fuel: nat)
    requires start < |data| && data[start] != 0
    requires offset == start || |name| > 0
    requires PointersBackward(data, start) && start <= fuel
    requires PointerHop(data, offset) == PointerHop(data, start)
    ensures !Exhausted(ReadLabels(data, start, offset, name, fuel))
    decreases fuel, |data| - offset, 1
  {
    if offset < |data| {
      var length := data[offset];
      if IsPointer(length) {
        PointerFuelSuffices(data, start, offset, name, fuel);
      } else if length != 0 && offset + 1 + length <= |data| {
        var next := offset + 1 + length;
        LabelsFuelSuffices(data, start, next, Dotted(name, data[offset + 1..next]), fuel);
      }
    }
  }

  lemma {:induction false} PointerFuelSuffices(data: Bytes, start: nat, offset: nat, name: Name, fuel: nat)
    requires start < |data| && data[start] != 0
    requires offset < |data| && IsPointer(data[offset])
    requires PointersBackward(data, start) && start <= fuel
    requires PointerHop(data, offset) == PointerHop(data, start)
    ensures !Exhausted(ReadPointer(data, start, offset, name, fuel))
    decreases fuel, |data| - offset, 0
  {
    if offset + 2 <= |data| && PointerTarget(data, offset) < offset {
      var target := PointerTarget(data, offset);
      FuelSuffices(data, target, fuel - 1);
    }
  }

  /** Fuel equal to the buffer's length is always enough for such names. */
  lemma BufferLengthFuelSuffices(data: Bytes, start: nat)
    requires PointersBackward(data, start)
    ensures !Exhausted(ReadName(data, start, |data|))
  {
    if start < |data| {
      FuelSuffices(data, start, |data|);
    }
  }

  /** Fuel only decides whether a result is reached, never which one: once
      a decode succeeds or fails for a reason of the source's own, more fuel
      gives the same answer. */
  lemma {:induction false} FuelMonotone(data: Bytes, start: nat, fuel: nat, more: nat)
    requires fuel <= more && !Exhausted(ReadName(data, start, fuel))
    ensures ReadName(data, start, more) == ReadName(data, start, fuel)
    decreases fuel, |data| - start, 2
  {
    if start < |data| && data[start] != 0 {
      LabelsFuelMonotone(data, start, start, [], fuel, more);
    }
  }

  lemma {:induction false} LabelsFuelMonotone(data: Bytes, start: nat, offset: nat, name: Name, fuel: nat, more: nat)
    requires start < |data| && data[start] != 0
    requires offset == start || |name| > 0
    requires fuel <= more && !Exhausted(ReadLabels(data, start, offset, name, fuel))
    ensures ReadLabels(data, start, offset, name, more) == ReadLabels(data, start, offset, name, fuel)
    decreases fuel, |data| - offset, 1
  {
    if offset < |data| {
      var length := data[offset];
      if IsPointer(length) {
        PointerFuelMonotone(data, start, offset, name, fuel, more);
      } else if length != 0 && offset + 1 + length <= |data| {
        var next := offset + 1 + length;
        LabelsFuelMonotone(data, start, next, Dotted(name, data[offset + 1..next]), fuel, more);
      }
    }
  }

  lemma {:induction false} PointerFuelMonotone(data: Bytes, start: nat, offset: nat, name: Name, fuel: nat, more: nat)
    requires offset < |data| && IsPointer(data[offset])
    requires fuel <= more && !Exhausted(ReadPointer(data, start, offset, name, fuel))
    ensures ReadPointer(data, start, offset, name, more) == ReadPointer(data, start, offset, name, fuel)
    decreases fuel, |data| - offset, 0
  {
    if offset + 2 <= |data| && PointerTarget(data, offset) < offset && fuel > 0 {
      FuelMonotone(data, PointerTarget(data, offset), fuel - 1, more - 1);
    }
  }

  // ---------------------------------------------------------------------
  // Fuel equal to the buffer length decides every decode
  // ---------------------------------------------------------------------

  /** At least `n` recursive calls follow one another from `start`. */
  predicate Hops(data: Bytes, start: nat, n: nat)
    decreases n
  {
    n == 0 || (PointerHop(data, start).Some? && Hops(data, PointerHop(data, start).value, n - 1))
  }

  /** The start of the name decoded `n` recursive calls below `start`. */
  function Walk(data: Bytes, start: nat, n: nat): nat
    requires Hops(data, start, n)
    decreases n
  {
    if n == 0 then start else Walk(data, PointerHop(data, start).value, n - 1)
  }

  /** A decode runs out of fuel exactly when one more call than the fuel
      pays for would follow it. */
  lemma {:induction false} ExhaustedHops(data: Bytes, start: nat, fuel: nat)
    ensures Exhausted(ReadName(data, start, fuel)) <==> Hops(data, start, fuel + 1)
    decreases fuel, |data| - start, 2
  {
    if start < |data| && data[start] != 0 {
      LabelsExhaustedHops(data, start, start, [], fuel);
    }
  }

  lemma {:induction false} LabelsExhaustedHops(data: Bytes, start: nat, offset: nat, name: Name, fuel: nat)
    requires start < |data| && data[start] != 0
    requires offset == start || |name| > 0
    requires PointerHop(data, offset) == PointerHop(data, start)
    ensures Exhausted(ReadLabels(data, start, offset, name, fuel)) <==> Hops(data, start, fuel + 1)
    decreases fuel, |data| - offset, 1
  {
    if offset < |data| {
      var length := data[offset];
      if IsPointer(length) {
        PointerExhaustedHops(data, start, offset, name, fuel);
      } else if length != 0 && offset + 1 + length <= |data| {
        var next := offset + 1 + length;
        LabelsExhaustedHops(data, start, next, Dotted(name, data[offset + 1..next]), fuel);
      }
    }
  }

  lemma {:induction false} PointerExhaustedHops(data: Bytes, start: nat, offset: nat, name: Name, fuel: nat)
    requires offset < |data| && IsPointer(data[offset])
    requires PointerHop(data, offset) == PointerHop(data, start)
    ensures Exhausted(ReadPointer(data, start, offset, name, fuel)) <==> Hops(data, start, fuel + 1)
    decreases fuel, |data| - offset, 0
  {
    if offset + 2 <= |data| && PointerTarget(data, offset) < offset && fuel > 0 {
      ExhaustedHops(data, PointerTarget(data, offset), fuel - 1);
    }
  }

  /** Hops split at any point: `a` of them, then `b` more from where they
      lead. */
  lemma {:induction false} HopsSplit(data: Bytes, start: nat, a: nat, b: nat)
    requires Hops(data, start, a)
    ensures Hops(data, start, a + b) <==> Hops(data, Walk(data, start, a), b)
    ensures Hops(data, start, a + b) ==> Walk(data, start, a + b) == Walk(data, Walk(data, start, a), b)
    decreases a
  {
    if a > 0 {
      HopsSplit(data, PointerHop(data, start).value, a - 1, b);
    }
  }

  lemma {:induction false} HopsPrefix(data: Bytes, start: nat, a: nat, n: nat)
    requires a <= n && Hops(data, start, n)
    ensures Hops(data, start, a)
    decreases a
  {
    if a > 0 {
      HopsPrefix(data, PointerHop(data, start).value, a - 1, n - 1);
    }
  }

  /** Every start along a chain of hops is an offset inside the buffer. */
  lemma WalkInside(data: Bytes, start: nat, k: nat, n: nat)
    requires k < n && Hops(data, start, n)
    ensures Hops(data, start, k) && Walk(data, start, k) < |data|
  {
    HopsPrefix(data, start, k, n);
    HopsSplit(data, start, k, n - k);
  }

  /** `bound + 1` or more values below `bound` repeat one of them. */
  lemma {:induction false} Pigeonhole(xs: seq<nat>, bound: nat)
    requires |xs| > bound
    requires forall k | 0 <= k < |xs| :: xs[k] < bound
    ensures exists i, j :: 0 <= i < j < |xs| && xs[i] == xs[j]
    decreases bound
  {
    assert xs[0] < bound;
    var top := bound - 1;
    if k :| 0 <= k < |xs| && xs[k] == top {
      if other :| 0 <= other < |xs| && other != k && xs[other] == top {
        if k < other {
          assert xs[k] == xs[other];
        } else {
          assert xs[other] == xs[k];
        }
      } else {
        var ys := xs[..k] + xs[k + 1..];
        assert forall m | 0 <= m < |ys| :: ys[m] == (if m < k then xs[m] else xs[m + 1]);
        Pigeonhole(ys, top);
        var i, j :| 0 <= i < j < |ys| && ys[i] == ys[j];
        var i', j' := if i < k then i else i + 1, if j < k then j else j + 1;
        assert xs[i'] == xs[j'];
      }
    } else {
      Pigeonhole(xs, top);
    }
  }

  /** A chain that comes back to where it was goes round for ever. */
  lemma {:induction false} CycleHops(data: Bytes, c: nat, p: nat, m: nat)
    requires p > 0 && Hops(data, c, p) && Walk(data, c, p) == c
    ensures Hops(data, c, m)
    decreases m
  {
    if m <= p {
      HopsPrefix(data, c, m, p);
    } else {
      CycleHops(data, c, p, m - p);
      HopsSplit(data, c, p, m - p);
    }
  }

  /** More calls in a row than there are offsets in the buffer means one
      start came back, so the calls never end. */
  lemma HopsForever(data: Bytes, start: nat, m: nat)
    requires Hops(data, start, |data| + 1)
    ensures Hops(data, start, m)
  {
    var n := |data| + 1;
    forall k | 0 <= k < n
      ensures Hops(data, start, k) && Walk(data, start, k) < |data|
    {
      WalkInside(data, start, k, n);
    }
    var xs := seq(n, k requires 0 <= k < n => Walk(data, start, k));
    Pigeonhole(xs, |data|);
    var i, j :| 0 <= i < j < n && xs[i] == xs[j];
    var c := Walk(data, start, i);
    HopsPrefix(data, start, j, n);
    HopsSplit(data, start, i, j - i);
    if m <= i {
      HopsPrefix(data, start, m, n);
    } else {
      CycleHops(data, c, j - i, m - i);
      HopsSplit(data, start, i, m - i);
    }
  }

  /** Fuel equal to the buffer length decides every decode. A decode that
      runs out of it runs out of every fuel: the source's recursion never
      ends. Any other result is the one every larger fuel gives, which is
      what the source returns. */
  lemma BufferLengthFuelDecides(data: Bytes, start: nat, fuel: nat)
    ensures Exhausted(ReadName(data, start, |data|)) ==> Exhausted(ReadName(data, start, fuel))
    ensures fuel >= |data| ==> ReadName(data, start, fuel) == ReadName(data, start, |data|)
  {
    if Exhausted(ReadName(data, start, |data|)) {
      ExhaustedHops(data, start, |data|);
      HopsForever(data, start, fuel + 1);
      ExhaustedHops(data, start, fuel);
    } else if fuel >= |data| {
      FuelMonotone(data, start, |data|, fuel);
    }
  }

  // ---------------------------------------------------------------------
  // Bytes after a name do not change how it decodes
  // ---------------------------------------------------------------------

  /** A successful decode reads only bytes inside the buffer, so appending
      bytes does not change it. */
  lemma {:induction false} ReadNameExtends(data: Bytes, more: Bytes, start: nat, fuel: nat)
    requires ReadName(data, start, fuel).Decoded?
    ensures ReadName(data + more, start, fuel) == ReadName(data, start, fuel)
    decreases fuel, |data| - start, 2
  {
    if data[start] != 0 {
      ReadLabelsExtends(data, more, start, start, [], fuel);
    }
  }

  lemma {:induction false} ReadLabelsExtends(data: Bytes, more: Bytes, start: nat, offset: nat, name: Name, fuel: nat)
    requires start < |data| && data[start] != 0
    requires offset == start || |name| > 0
    requires ReadLabels(data, start, offset, name, fuel).Decoded?
    ensures ReadLabels(data + more, start, offset, name, fuel) == ReadLabels(data, start, offset, name, fuel)
    decreases fuel, |data| - offset, 1
  {
    var whole := data + more;
    var length := data[offset];
    assert whole[offset] == length;
    if IsPointer(length) {
      ReadPointerExtends(data, more, start, offset, name, fuel);
    } else if length != 0 {
      var next := offset + 1 + length;
      assert whole[offset + 1..next] == data[offset + 1..next];
      ReadLabelsExtends(data, more, start, next, Dotted(name, data[offset + 1..next]), fuel);
    }
  }

  lemma {:induction false} ReadPointerExtends(data: Bytes, more: Bytes, start: nat, offset: nat, name: Name, fuel: nat)
    requires offset < |data| && IsPointer(data[offset])
    requires ReadPointer(data, start, offset, name, fuel).Decoded?
    ensures ReadPointer(data + more, start, offset, name, fuel) == ReadPointer(data, start, offset, name, fuel)
    decreases fuel, |data| - offset, 0
  {
    var whole := data + more;
    assert whole[offset] == data[offset] && whole[offset + 1] == data[offset + 1];
    assert PointerTarget(whole, offset) == PointerTarget(data, offset);
    ReadNameExtends(data, more, PointerTarget(data, offset), fuel - 1);
  }

  // ---------------------------------------------------------------------
  // What the encoder does with labels it does not check
  // ---------------------------------------------------------------------

  lemma {:induction false} SplitWithoutDot(s: Name)
    requires DOT !in s
    ensures SplitLabels(s) == [s]
  {
    if s != [] {
      assert s[0] in s;
      assert forall b | b in s[1..] :: b in s;
      SplitWithoutDot(s[1..]);
      assert s == [s[0]] + s[1..];
    }
  }

  /** A 256-byte label: `byte(len(label))` wraps to 0, so the encoding
      starts with the root byte and decodes to the empty name. */
  lemma LongLabelWraps(fuel: nat)
    ensures var lbl := seq(256, _ => 97);
      WireName(lbl)[0] == 0 && ReadName(WireName(lbl), 0, fuel) == Decoded([], 1)
  {
    var lbl: Name := seq(256, _ => 97);
    assert lbl[255] == 97;
    assert TrimDot(lbl) == lbl;
    assert DOT !in lbl;
    SplitWithoutDot(lbl);
    assert [lbl][1..] == [];
    assert LabelsWire([lbl]) == LabelWire(lbl);
    assert WireName(lbl) == LabelWire(lbl) + [0];
    assert WireName(lbl)[0] == 0;
  }

  /** "a..b": the empty middle label is written as a zero byte, which ends
      the name, so it decodes to "a". */
  lemma EmptyLabelEndsName(fuel: nat)
    ensures WireName([97, DOT, DOT, 98]) == [1, 97, 0, 1, 98, 0]
    ensures ReadName(WireName([97, DOT, DOT, 98]), 0, fuel) == Decoded([97], 3)
  {
    EmptyLabelSplit();
    var data: Bytes := [1, 97, 0, 1, 98, 0];
    assert data[1..2] == [97];
    assert Dotted([], [97]) == [97];
    assert ReadName(data, 0, fuel) == ReadLabels(data, 0, 2, [97], fuel);
  }

  lemma EmptyLabelSplit()
    ensures SplitLabels([97, DOT, DOT, 98]) == [[97], [], [98]]
    ensures WireName([97, DOT, DOT, 98]) == [1, 97, 0, 1, 98, 0]
  {
    var name: Name := [97, DOT, DOT, 98];
    assert name[3..] == [98] && name[2..] == [DOT, 98] && name[1..] == [DOT, DOT, 98];
    assert DOT !in [98];
    SplitWithoutDot([98]);
    assert SplitLabels(name[2..]) == [[]] + [[98]];
    assert SplitLabels(name[1..]) == [[]] + [[], [98]];
    var rest := SplitLabels(name[1..]);
    assert rest[0] == [] && rest[1..] == [[], [98]];
    assert [name[0]] + rest[0] == [97];
    assert SplitLabels(name) == [[97]] + rest[1..];
    assert LabelsWire([[98]]) == [1, 98];
    assert LabelsWire([[], [98]]) == [0, 1, 98];
    assert LabelsWire([[97], [], [98]]) == [1, 97, 0, 1, 98];
  }

}
