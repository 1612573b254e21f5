/** The MPLS label stack entry codec of nl/mpls_linux.go (section 2.1 of RFC 3032)
    and its wrapping as a tunnel attribute in MPLSEncap. */
module Mpls {
  import opened Throttle

  type byte = x: int | 0 <= x < 256

  const MPLS_IPTUNNEL_DST: nat := 1

  /** The label shifted left by 12 and cut to 32 bits, with the bottom-of-stack bit.
      Labels are signed; the shift leaves the low 12 bits zero, so or-ing adds. */
  function Entry(value: int, bottom: bool): uint32 {
    value * 0x1000 % 0x1_0000_0000 + if bottom then 0x100 else 0
  }

  function Half(b0: byte, b1: byte): (x: uint16) {
    256 * b0 + b1
  }

  lemma HalfOfBytes(x: uint16)
    ensures Half(x / 256, x % 256) == x
  {
  }

  lemma BytesOfHalf(b0: byte, b1: byte)
    ensures Half(b0, b1) / 256 == b0 && Half(b0, b1) % 256 == b1
  {
  }

  lemma HalvesOfWord(h: uint16, l: uint16)
    ensures (0x1_0000 * h + l) / 0x1_0000 == h && (0x1_0000 * h + l) % 0x1_0000 == l
  {
  }

  function BigEndian(w: uint32): (b: seq<byte>)
    ensures |b| == 4
  {
    [w / 0x1_0000 / 256, w / 0x1_0000 % 256, w % 0x1_0000 / 256, w % 0x1_0000 % 256]
  }

  function FromBigEndian(b: seq<byte>): uint32
    requires |b| >= 4
  {
    0x1_0000 * Half(b[0], b[1]) + Half(b[2], b[3])
  }

  lemma BigEndianRoundTrip(w: uint32, rest: seq<byte>)
    ensures FromBigEndian(BigEndian(w) + rest) == w
  {
    HalfOfBytes(w / 0x1_0000);
    HalfOfBytes(w % 0x1_0000);
  }

  function LabelOf(w: uint32): nat { w / 0x1000 }

  predicate IsBottom(w: uint32) { w / 0x100 % 2 > 0 }

  lemma ShiftedLabel(value: int)
    ensures value * 0x1000 % 0x1_0000_0000 == 0x1000 * (value % 0x10_0000)
  {
    var k := value / 0x10_0000;
    assert value * 0x1000 == k * 0x1_0000_0000 + 0x1000 * (value % 0x10_0000);
  }

  /** Traffic class and TTL are zero. */
  predicate Plain(w: uint32) {
    w % 0x100 == 0 && w / 0x200 % 8 == 0
  }

  /** A label survives modulo 2^20, only a bottom entry has the S bit, and no other
      field is set. */
  lemma EntryFields(value: int, bottom: bool)
    ensures LabelOf(Entry(value, bottom)) == value % 0x10_0000
    ensures IsBottom(Entry(value, bottom)) <==> bottom
    ensures Plain(Entry(value, bottom))
  {
    ShiftedLabel(value);
    var x, k := value % 0x10_0000, if bottom then 1 else 0;
    LabelField(x, k);
    StackField(x, k);
    ClassField(x, k);
  }

  lemma LabelField(x: nat, k: nat)
    requires k <= 1
    ensures (0x1000 * x + 0x100 * k) / 0x1000 == x
  {
  }

  lemma StackField(x: nat, k: nat)
    requires k <= 1
    ensures (0x1000 * x + 0x100 * k) / 0x100 % 2 == k && (0x1000 * x + 0x100 * k) % 0x100 == 0
  {
    var y := 16 * x + k;
    assert 0x1000 * x + 0x100 * k == 0x100 * y;
    WholeMultiple(y);
    OddWhenSet(8 * x, k);
  }

  lemma OddWhenSet(h: nat, k: nat)
    requires k <= 1
    ensures (2 * h + k) % 2 == k
  {
    assert (2 * h + k) / 2 == h;
  }

  lemma WholeMultiple(y: nat)
    ensures 0x100 * y / 0x100 == y && 0x100 * y % 0x100 == 0
  {
  }

  lemma ClassField(x: nat, k: nat)
    requires k <= 1
    ensures (0x1000 * x + 0x100 * k) / 0x200 % 8 == 0
  {
    assert (0x1000 * x + 0x100 * k) / 0x200 == 8 * x;
  }

  function Encode(labels: seq<int>): (b: seq<byte>)
    ensures |b| == 4 * |labels|
  {
    if labels == [] then []
    else BigEndian(Entry(labels[0], |labels| == 1)) + Encode(labels[1..])
  }

  /** Entries up to the first with the S bit; None for a length not divisible by 4. */
  function Decode(buf: seq<byte>): Option<seq<int>> {
    if |buf| % 4 != 0 then None else Some(Entries(buf))
  }

  function Entries(buf: seq<byte>): seq<int>
    decreases |buf|, 0
  {
    if |buf| < 4 then [] else Following(FromBigEndian(buf), buf[4..])
  }

  function Following(w: uint32, rest: seq<byte>): seq<int>
    decreases |rest|, 1
  {
    [LabelOf(w)] + if IsBottom(w) then [] else Entries(rest)
  }

  function Reduced(labels: seq<int>): seq<int> {
    seq(|labels|, i requires 0 <= i < |labels| => labels[i] % 0x10_0000)
  }

  /** Decoding an encoded stack gives back its labels modulo 2^20 and ignores
      whatever follows the bottom entry. */
  lemma {:induction false} EntriesOfEncoded(labels: seq<int>, rest: seq<byte>)
    requires labels == [] ==> rest == []
    ensures Entries(Encode(labels) + rest) == Reduced(labels)
  {
    if labels == [] {
      assert Encode(labels) + rest == [];
    } else {
      var bottom := |labels| == 1;
      var w, tail := Entry(labels[0], bottom), Encode(labels[1..]) + rest;
      assert Encode(labels) + rest == BigEndian(w) + tail;
      EntriesOfCons(w, tail);
      EntryFields(labels[0], bottom);
      assert Reduced(labels) == [labels[0] % 0x10_0000] + Reduced(labels[1..]);
      if !bottom {
        EntriesOfEncoded(labels[1..], rest);
      }
    }
  }

  lemma EntriesOfCons(w: uint32, tail: seq<byte>)
    ensures Entries(BigEndian(w) + tail) == Following(w, tail)
  {
    BigEndianRoundTrip(w, tail);
    assert (BigEndian(w) + tail)[4..] == tail;
  }

  lemma WholeEntries(n: nat, m: nat)
    requires m % 4 == 0
    ensures (4 * n + m) % 4 == 0
  {
  }

  predicate InRange(labels: seq<int>) {
    forall i :: 0 <= i < |labels| ==> 0 <= labels[i] < 0x10_0000
  }

  lemma ReducedExactly(labels: seq<int>)
    ensures Reduced(labels) == labels <==> InRange(labels)
  {
    if Reduced(labels) == labels {
      assert forall i :: 0 <= i < |labels| ==> labels[i] == Reduced(labels)[i];
    }
  }

  /** The round trip is exact for 20-bit labels and only for those. */
  lemma RoundTripExactly(labels: seq<int>)
    ensures Decode(Encode(labels)) == Some(Reduced(labels))
    ensures Decode(Encode(labels)) == Some(labels) <==> InRange(labels)
  {
    DecodeOfEncoded(labels);
    ReducedExactly(labels);
  }

  lemma DecodeOfEncoded(labels: seq<int>)
    ensures Decode(Encode(labels)) == Some(Reduced(labels))
  {
    EntriesOfEncoded(labels, []);
    assert Encode(labels) + [] == Encode(labels);
    WholeEntries(|labels|, 0);
  }

  /** The bottom entry ends the stack: whole entries behind it are ignored. */
  lemma TrailingEntriesIgnored(labels: seq<int>, rest: seq<byte>)
    requires labels != [] && InRange(labels) && |rest| % 4 == 0
    ensures Decode(Encode(labels) + rest) == Some(labels)
  {
    EntriesOfEncoded(labels, rest);
    ReducedExactly(labels);
    WholeEntries(|labels|, |rest|);
    assert |Encode(labels) + rest| == 4 * |labels| + |rest|;
  }

  /** Entries whose traffic class and TTL are zero and of which exactly the last has
      the S bit: the stacks that the encoder writes. */
  predicate Canonical(buf: seq<byte>)
    decreases |buf|, 0
  {
    if |buf| < 4 then buf == [] else Leads(FromBigEndian(buf), buf[4..])
  }

  predicate Leads(w: uint32, rest: seq<byte>)
    decreases |rest|, 1
  {
    Plain(w) && (IsBottom(w) <==> rest == []) && Canonical(rest)
  }

  lemma WordOfFields(w: uint32)
    requires Plain(w)
    ensures Entry(LabelOf(w), IsBottom(w)) == w
  {
    assert w / 0x100 == 2 * (w / 0x200) + w / 0x100 % 2;
    assert w / 0x200 == 8 * (w / 0x1000);
    ShiftedLabel(w / 0x1000);
  }

  lemma BytesBack(b0: byte, b1: byte, b2: byte, b3: byte)
    ensures BigEndian(0x1_0000 * Half(b0, b1) + Half(b2, b3)) == [b0, b1, b2, b3]
  {
    HalvesOfWord(Half(b0, b1), Half(b2, b3));
    BytesOfHalf(b0, b1);
    BytesOfHalf(b2, b3);
  }

  lemma BigEndianOfBytes(b: seq<byte>)
    requires |b| >= 4
    ensures BigEndian(FromBigEndian(b)) == b[..4]
  {
    BytesBack(b[0], b[1], b[2], b[3]);
  }

  lemma CanonicalCons(w: uint32, tail: seq<byte>)
    ensures Canonical(BigEndian(w) + tail) == Leads(w, tail)
  {
    BigEndianRoundTrip(w, tail);
    assert (BigEndian(w) + tail)[4..] == tail;
  }

  lemma {:induction false} EncodeIsCanonical(labels: seq<int>)
    ensures Canonical(Encode(labels))
  {
    if labels != [] {
      EntryFields(labels[0], |labels| == 1);
      EncodeIsCanonical(labels[1..]);
      CanonicalCons(Entry(labels[0], |labels| == 1), Encode(labels[1..]));
    }
  }

  /** The other direction: encoding what was decoded restores the bytes exactly when
      they are canonical, so encoder and decoder are inverse bijections. */
  lemma ReencodeExactly(buf: seq<byte>)
    ensures Encode(Entries(buf)) == buf <==> Canonical(buf)
  {
    if Canonical(buf) {
      CanonicalReencodes(buf);
    } else {
      EncodeIsCanonical(Entries(buf));
    }
  }

  lemma {:induction false} CanonicalReencodes(buf: seq<byte>)
    requires Canonical(buf)
    ensures Encode(Entries(buf)) == buf && (buf != [] ==> Entries(buf) != [])
  {
    if buf != [] {
      var w, rest := FromBigEndian(buf), buf[4..];
      WordOfFields(w);
      BigEndianOfBytes(buf);
      CanonicalReencodes(rest);
      EncodeCons(w, if IsBottom(w) then [] else Entries(rest));
      assert buf == BigEndian(w) + rest;
    }
  }

  lemma EncodeCons(w: uint32, more: seq<int>)
    ensures Encode([LabelOf(w)] + more) == BigEndian(Entry(LabelOf(w), more == [])) + Encode(more)
  {
    assert ([LabelOf(w)] + more)[1..] == more;
  }

  method PutUint32(b: array<byte>, off: nat, w: uint32)
    requires off + 4 <= b.Length
    modifies b
    ensures b[..off + 4] == old(b[..off]) + BigEndian(w)
  {
    b[off], b[off + 1] := w / 0x1_0000 / 256, w / 0x1_0000 % 256;
    b[off + 2], b[off + 3] := w % 0x1_0000 / 256, w % 0x1_0000 % 256;
  }

  /** The encoder fills its buffer entry by entry. */
  method EncodeMPLSStack(labels: seq<int>) returns (b: array<byte>)
    ensures fresh(b) && b[..] == Encode(labels)
  {
    b := new byte[4 * |labels|](_ => 0);
    var idx := 0;
    while idx < |labels|
      invariant 0 <= idx <= |labels|
      invariant b[..4 * idx] + Encode(labels[idx..]) == Encode(labels)
    {
      var l := Entry(labels[idx], idx == |labels| - 1);
      EncodeStep(labels, idx, b[..4 * idx]);
      PutUint32(b, 4 * idx, l);
      idx := idx + 1;
    }
    assert b[..4 * idx] == b[..];
  }

  lemma EncodeStep(labels: seq<int>, idx: nat, done: seq<byte>)
    requires idx < |labels| && done + Encode(labels[idx..]) == Encode(labels)
    ensures done + BigEndian(Entry(labels[idx], idx == |labels| - 1)) + Encode(labels[idx + 1..]) == Encode(labels)
  {
    assert labels[idx..][1..] == labels[idx + 1..];
    Associate(done, BigEndian(Entry(labels[idx], idx == |labels| - 1)), Encode(labels[idx + 1..]));
  }

  lemma Associate(a: seq<byte>, b: seq<byte>, c: seq<byte>)
    ensures a + (b + c) == a + b + c
  {
  }

  /** What one turn of the decoder leaves to be done. */
  lemma DecodeStep(stack: seq<int>, buf: seq<byte>)
    requires |buf| >= 4
    ensures var l := FromBigEndian(buf);
      stack + Entries(buf) ==
        if IsBottom(l) then stack + [LabelOf(l)] else stack + [LabelOf(l)] + Entries(buf[4..])
  {
    assert Entries(buf) == Following(FromBigEndian(buf), buf[4..]);
  }

  predicate Aligned(buf: seq<byte>) {
    |buf| % 4 == 0
  }

  lemma OneEntryLess(buf: seq<byte>)
    requires Aligned(buf) && |buf| > 0
    ensures |buf| >= 4 && Aligned(buf[4..])
  {
  }

  /** The decoder consumes the buffer and stops at the bottom entry. */
  method DecodeMPLSStack(input: seq<byte>) returns (r: Option<seq<int>>)
    ensures r == Decode(input)
  {
    if |input| % 4 != 0 {
      return None;
    }
    assert Aligned(input);
    var buf, stack := input, [];
    while |buf| > 0
      invariant Aligned(buf) && Entries(input) == stack + Entries(buf)
      invariant buf == [] ==> Entries(input) == stack
      decreases |buf|
    {
      OneEntryLess(buf);
      DecodeStep(stack, buf);
      var l := FromBigEndian(buf);
      stack := stack + [LabelOf(l)];
      if IsBottom(l) {
        assert Entries(input) == stack;
        break;
      }
      buf := buf[4..];
      assert buf == [] ==> Entries(buf) == [] && stack + [] == stack;
    }
    return Some(stack);
  }

  // ---------------------------------------------------------------------
  // MPLSEncap
  // ---------------------------------------------------------------------

  /** A 16-bit value in the byte order of the machine. */
  function Native16(big: bool, x: uint16): (b: seq<byte>)
    ensures |b| == 2
  {
    if big then [x / 256, x % 256] else [x % 256, x / 256]
  }

  function FromNative16(big: bool, b: seq<byte>): uint16
    requires |b| >= 2
  {
    if big then Half(b[0], b[1]) else Half(b[1], b[0])
  }

  lemma Native16RoundTrip(big: bool, x: uint16, rest: seq<byte>)
    ensures FromNative16(big, Native16(big, x) + rest) == x
  {
  }

  datatype DecodeResult = Decoded | LackOfBytes | UnknownType | OutOfBounds

  /** Four header bytes, length and type, before the stack; the length is cut to 16 bits. */
  function Attribute(big: bool, labels: seq<int>): seq<byte> {
    Native16(big, (4 * |labels| + 4) % 0x1_0000) + Native16(big, MPLS_IPTUNNEL_DST) + Encode(labels)
  }

  class MPLSEncap {
    /** None stands for a nil slice. */
    var labels: Option<seq<int>>

    constructor (labels: Option<seq<int>>)
      ensures this.labels == labels
    {
      this.labels := labels;
    }

    function Labels(): seq<int>
      reads this
    {
      if labels.Some? then labels.value else []
    }

    method EncodeAttr(big: bool) returns (buf: seq<byte>)
      ensures buf == Attribute(big, Labels())
    {
      var s := EncodeMPLSStack(Labels());
      buf := Native16(big, (s.Length + 4) % 0x1_0000) + Native16(big, MPLS_IPTUNNEL_DST) + s[..];
    }

    /** A stated length below 4 leaves no header to slice: the source panics. */
    method DecodeAttr(big: bool, input: seq<byte>) returns (r: DecodeResult)
      modifies this
      ensures r == AttributeVerdict(big, input)
      ensures labels == if r == Decoded then Decode(input[4..FromNative16(big, input)]) else old(labels)
    {
      if |input| < 4 {
        return LackOfBytes;
      }
      var l := FromNative16(big, input);
      if |input| < l {
        return LackOfBytes;
      }
      var buf := input[..l];
      if l < 4 {
        return OutOfBounds;
      }
      var typ := FromNative16(big, buf[2..]);
      if typ != MPLS_IPTUNNEL_DST {
        return UnknownType;
      }
      labels := DecodeMPLSStack(buf[4..]);
      return Decoded;
    }
  }

  function AttributeVerdict(big: bool, input: seq<byte>): (r: DecodeResult)
    ensures r == Decoded ==> 4 <= |input| && 4 <= FromNative16(big, input) <= |input|
  {
    if |input| < 4 || |input| < FromNative16(big, input) then LackOfBytes
    else if FromNative16(big, input) < 4 then OutOfBounds
    else if FromNative16(big, input[2..]) != MPLS_IPTUNNEL_DST then UnknownType
    else Decoded
  }

  /** Through the attribute the labels come back, also with more bytes behind it,
      when all are 20-bit and the attribute's length fits its 16-bit field. */
  lemma AttributeRoundTrip(big: bool, labels: seq<int>, rest: seq<byte>)
    requires 4 * |labels| + 4 < 0x1_0000
    ensures var buf := Attribute(big, labels) + rest;
      && AttributeVerdict(big, buf) == Decoded
      && Decode(buf[4..FromNative16(big, buf)]) == Some(Reduced(labels))
      && (InRange(labels) ==> Decode(buf[4..FromNative16(big, buf)]) == Some(labels))
  {
    var buf, len := Attribute(big, labels) + rest, 4 * |labels| + 4;
    assert buf == Native16(big, len) + (Native16(big, MPLS_IPTUNNEL_DST) + Encode(labels) + rest);
    Native16RoundTrip(big, len, Native16(big, MPLS_IPTUNNEL_DST) + Encode(labels) + rest);
    assert buf[2..] == Native16(big, MPLS_IPTUNNEL_DST) + (Encode(labels) + rest);
    Native16RoundTrip(big, MPLS_IPTUNNEL_DST, Encode(labels) + rest);
    assert buf[4..len] == Encode(labels);
    RoundTripExactly(labels);
  }

  lemma {:induction false} EntriesFit(buf: seq<byte>)
    ensures 4 * |Entries(buf)| <= |buf|
    decreases |buf|
  {
    if |buf| >= 4 && !IsBottom(FromBigEndian(buf)) {
      EntriesFit(buf[4..]);
    }
  }

  /** What an attribute states of itself. */
  lemma AttributeStates(big: bool, labels: seq<int>, rest: seq<byte>)
    ensures FromNative16(big, Attribute(big, labels) + rest) == (4 * |labels| + 4) % 0x1_0000
  {
    var len: uint16 := (4 * |labels| + 4) % 0x1_0000;
    var tail := Native16(big, MPLS_IPTUNNEL_DST) + Encode(labels) + rest;
    assert Attribute(big, labels) + rest == Native16(big, len) + tail;
    Native16RoundTrip(big, len, tail);
  }

  /** The round trip through the attribute, for every list: it succeeds exactly when
      the length fits its 16-bit field and all labels have 20 bits. A longer list
      comes back shortened, or not at all. */
  lemma AttributeRoundTripExactly(big: bool, labels: seq<int>, rest: seq<byte>)
    ensures var buf := Attribute(big, labels) + rest;
      (AttributeVerdict(big, buf) == Decoded && Decode(buf[4..FromNative16(big, buf)]) == Some(labels))
      <==> (4 * |labels| + 4 < 0x1_0000 && InRange(labels))
  {
    var buf := Attribute(big, labels) + rest;
    if 4 * |labels| + 4 < 0x1_0000 {
      AttributeRoundTrip(big, labels, rest);
      ReducedExactly(labels);
    } else if AttributeVerdict(big, buf) == Decoded {
      AttributeStates(big, labels, rest);
      EntriesFit(buf[4..FromNative16(big, buf)]);
    }
  }

  /** At the first length that does not fit, 16383 labels, the field wraps to zero
      and decoding what was encoded panics. */
  lemma AttributeTooLong(big: bool, labels: seq<int>)
    requires |labels| == 16383
    ensures AttributeVerdict(big, Attribute(big, labels)) == OutOfBounds
  {
    var tail := Native16(big, MPLS_IPTUNNEL_DST) + Encode(labels);
    assert Attribute(big, labels) == Native16(big, 0) + tail;
    Native16RoundTrip(big, 0, tail);
  }

  // ---------------------------------------------------------------------
  // The bytes on the wire
  // ---------------------------------------------------------------------

  /** The four bytes of an entry: 20 bits of label, three of traffic class, the S bit
      and eight of TTL, in network byte order. */
  predicate Wire(b: seq<byte>, mark: nat, bottom: bool)
    requires |b| == 4
  {
    && b[0] == mark / 4096 % 256 && b[1] == mark / 16 % 256
    && b[2] == 16 * (mark % 16) + (if bottom then 1 else 0) && b[3] == 0
  }

  lemma EntryOnWire(mark: nat, bottom: bool)
    requires mark < 0x10_0000
    ensures Wire(BigEndian(Entry(mark, bottom)), mark, bottom)
  {
    EntryIs(mark, bottom);
    Halved(mark / 16, mark % 16, if bottom then 1 else 0, Entry(mark, bottom));
    HighBytes(mark);
  }

  lemma EntryIs(mark: nat, bottom: bool)
    requires mark < 0x10_0000
    ensures Entry(mark, bottom) == 0x1000 * (16 * (mark / 16) + mark % 16) + 0x100 * if bottom then 1 else 0
  {
    ShiftedLabel(mark);
    assert mark == 16 * (mark / 16) + mark % 16;
  }

  lemma Halved(h: nat, l: nat, k: nat, w: uint32)
    requires h < 0x1_0000 && l < 16 && k <= 1 && w == 0x1000 * (16 * h + l) + 0x100 * k
    ensures BigEndian(w) == [h / 256, h % 256, 16 * l + k, 0]
  {
    WordBytes(h, l, k);
  }

  lemma HighBytes(mark: nat)
    requires mark < 0x10_0000
    ensures mark / 16 / 256 == mark / 4096 % 256
  {
  }

  lemma WordBytes(h: nat, l: nat, k: nat)
    requires h < 0x1_0000 && l < 16 && k <= 1
    ensures var w := 0x1000 * (16 * h + l) + 0x100 * k;
      w / 0x1_0000 == h && w % 0x1_0000 / 256 == 16 * l + k && w % 0x1_0000 % 256 == 0
  {
    var low := 256 * (16 * l + k);
    assert 0x1000 * (16 * h + l) + 0x100 * k == 0x1_0000 * h + low;
    HalvesOfWord(h, low);
    WholeMultiple(16 * l + k);
  }

  /** An encoded stack is its labels' entries in order, the S bit on the last. */
  lemma {:induction false} EncodeOnWire(labels: seq<int>, i: nat)
    requires InRange(labels) && i < |labels|
    ensures Wire(Encode(labels)[4 * i..4 * i + 4], labels[i], i == |labels| - 1)
  {
    var head, rest := BigEndian(Entry(labels[0], |labels| == 1)), Encode(labels[1..]);
    assert Encode(labels) == head + rest;
    if i == 0 {
      EntryOnWire(labels[0], |labels| == 1);
      assert Encode(labels)[0..4] == head;
    } else {
      EncodeOnWire(labels[1..], i - 1);
      assert Encode(labels)[4 * i..4 * i + 4] == rest[4 * (i - 1)..4 * (i - 1) + 4];
    }
  }

  function LabelBytes(b0: nat, b1: nat, b2: nat): nat {
    4096 * b0 + 16 * b1 + b2 / 16
  }

  lemma EntriesOnWire(b: seq<byte>, rest: seq<byte>)
    requires |b| == 4
    ensures Entries(b + rest) == [LabelBytes(b[0], b[1], b[2])] + if b[2] % 2 == 1 then [] else Entries(rest)
  {
    var w := FromBigEndian(b);
    WordFields(b[0], b[1], b[2], b[3]);
    BigEndianOfBytes(b);
    assert b[..4] == b;
    EntriesOfCons(w, rest);
  }

  lemma DecodeOfAligned(buf: seq<byte>)
    requires Aligned(buf)
    ensures Decode(buf) == Some(Entries(buf))
  {
  }

  /** Any four bytes are read as the label of their first 20 bits, and end the stack
      exactly if the lowest bit of the third is set. */
  lemma DecodeOnWire(b: seq<byte>, rest: seq<byte>)
    requires |b| == 4 && Aligned(rest)
    ensures Decode(b + rest).Some? && Decode(rest).Some?
    ensures Decode(b + rest).value == [LabelBytes(b[0], b[1], b[2])] + if b[2] % 2 == 1 then [] else Decode(rest).value
  {
    WholeEntries(1, |rest|);
    assert |b + rest| == 4 * 1 + |rest| && Aligned(b + rest);
    DecodeOfAligned(b + rest);
    DecodeOfAligned(rest);
    EntriesOnWire(b, rest);
  }

  lemma WordFields(b0: byte, b1: byte, b2: byte, b3: byte)
    ensures var w := 0x1_0000 * Half(b0, b1) + Half(b2, b3);
      LabelOf(w) == LabelBytes(b0, b1, b2) && (IsBottom(w) <==> b2 % 2 == 1)
  {
    var w := 0x1_0000 * Half(b0, b1) + Half(b2, b3);
    var high, low := b2 / 16, b2 % 16;
    assert b2 == 16 * high + low;
    SplitWord(4096 * b0 + 16 * b1 + high, 256 * low + b3, 0x1000);
    assert w == 0x1000 * (4096 * b0 + 16 * b1 + high) + (256 * low + b3);
    SplitWord(256 * Half(b0, b1) + b2, b3, 0x100);
    assert w == 0x100 * (256 * Half(b0, b1) + b2) + b3;
    LowestBit(128 * Half(b0, b1), b2);
  }

  lemma SplitWord(high: nat, low: nat, unit: nat)
    requires low < unit && (unit == 0x1000 || unit == 0x100)
    ensures (unit * high + low) / unit == high
  {
  }

  lemma LowestBit(half: nat, x: nat)
    ensures (2 * half + x) % 2 == x % 2
  {
  }

  lemma Native16Is(big: bool, x: uint16)
    ensures Native16(big, x) == if big then [x / 256, x % 256] else [x % 256, x / 256]
  {
  }

  lemma TypeBytes(big: bool)
    ensures Native16(big, MPLS_IPTUNNEL_DST) == if big then [0, 1] else [1, 0]
  {
    Native16Is(big, 1);
    assert 1 / 256 == 0 && 1 % 256 == 1;
  }

  /** The attribute begins with its length, modulo 2^16, and the type 1, in the byte order
      of the machine. */
  lemma AttributeOnWire(big: bool, labels: seq<int>, n: uint16)
    requires n == (4 * |labels| + 4) % 65536
    ensures var b := Attribute(big, labels);
      && |b| == 4 * |labels| + 4 && b[4..] == Encode(labels)
      && b[..2] == (if big then [n / 256, n % 256] else [n % 256, n / 256])
      && b[2..4] == if big then [0, 1] else [1, 0]
  {
    var first, second := Native16(big, n), Native16(big, MPLS_IPTUNNEL_DST);
    Native16Is(big, n);
    TypeBytes(big);
    Pieces(first, second, Encode(labels));
  }

  lemma Pieces(a: seq<byte>, b: seq<byte>, c: seq<byte>)
    requires |a| == |b| == 2
    ensures var s := a + b + c;
      |s| == 4 + |c| && s[..2] == a && s[2..4] == b && s[4..] == c
  {
  }

  function Number(high: nat, low: nat): nat {
    256 * high + low
  }

  /** Which attributes are accepted, byte by byte; on any other the labels are kept. */
  lemma VerdictExactly(big: bool, input: seq<byte>)
    ensures var verdict := AttributeVerdict(big, input);
      if |input| < 4 then verdict == LackOfBytes
      else
        var len := if big then Number(input[0], input[1]) else Number(input[1], input[0]);
        var typ := if big then Number(input[2], input[3]) else Number(input[3], input[2]);
        if |input| < len then verdict == LackOfBytes
        else if len < 4 then verdict == OutOfBounds
        else (verdict == Decoded <==> typ == 1) && (verdict == UnknownType <==> typ != 1)
  {
  }
}
