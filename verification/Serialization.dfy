/** The typed serialisation that feeds the hash (collection/sha256.go). */
module Serialization {
  import opened ByteSlices

  /** The fixed-size types, in the order of the source's type identifiers. */
  datatype Kind = Boolean | Int8 | Int16 | Int32 | Int64 | Uint8 | Uint16 | Uint32 | Uint64

  const KINDS := [Boolean, Int8, Int16, Int32, Int64, Uint8, Uint16, Uint32, Uint64]

  const STRING_ID: Byte := 18
  const ARRAY_ID: Byte := 19

  function Id(k: Kind): (id: Byte)
    ensures id < 9 && KINDS[id] == k
  {
    match k
    case Boolean => 0
    case Int8 => 1
    case Int16 => 2
    case Int32 => 3
    case Int64 => 4
    case Uint8 => 5
    case Uint16 => 6
    case Uint32 => 7
    case Uint64 => 8
  }

  function Width(k: Kind): (w: nat)
    ensures 1 <= w <= 8
  {
    match k
    case Boolean | Int8 | Uint8 => 1
    case Int16 | Uint16 => 2
    case Int32 | Uint32 => 4
    case Int64 | Uint64 => 8
  }

  predicate Signed(k: Kind) {
    k in {Int8, Int16, Int32, Int64}
  }

  /** 256 to the power w. */
  function Radix(w: nat): (r: nat)
    ensures r > 0
  {
    if w == 0 then 1 else 256 * Radix(w - 1)
  }

  predicate InRange(k: Kind, v: int) {
    if k == Boolean then 0 <= v <= 1
    else if Signed(k) then -(Radix(Width(k)) as int) <= 2 * v < Radix(Width(k))
    else 0 <= v < Radix(Width(k))
  }

  /** An argument of `sha256`: a number, a slice of numbers, a string, or a slice of anything else. */
  datatype Item =
    | Scalar(kind: Kind, value: int)
    | Slice(kind: Kind, elements: seq<int>)
    | Text(text: Bytes)
    | Nested(items: seq<Item>)

  /** What Go's types guarantee: numbers in range and lengths that fit 64 bits. */
  predicate Valid(item: Item) {
    match item
    case Scalar(k, v) => InRange(k, v)
    case Slice(k, vs) => |vs| < Radix(8) && forall v | v in vs :: InRange(k, v)
    case Text(s) => |s| < Radix(8)
    case Nested(items) => |items| < Radix(8) && forall i | i in items :: Valid(i)
  }

  // ---------------------------------------------------------------- encoding

  /** The w low-order bytes of v, big endian. */
  function PutBE(v: nat, w: nat): (r: Bytes)
    ensures |r| == w
  {
    if w == 0 then [] else PutBE(v / 256, w - 1) + [v % 256]
  }

  /** Conversion to the unsigned type of the same width. */
  function Unsigned(k: Kind, v: int): nat {
    v % Radix(Width(k))
  }

  function EncodeNumber(k: Kind, v: int): (r: Bytes)
    ensures |r| == Width(k)
  {
    PutBE(Unsigned(k, v), Width(k))
  }

  function EncodeNumbers(k: Kind, vs: seq<int>): Bytes {
    if vs == [] then [] else EncodeNumber(k, vs[0]) + EncodeNumbers(k, vs[1..])
  }

  lemma {:induction false} EncodeNumbersLength(k: Kind, vs: seq<int>)
    ensures |EncodeNumbers(k, vs)| == Width(k) * |vs|
  {
    if vs != [] {
      EncodeNumbersLength(k, vs[1..]);
      assert Width(k) * |vs| == Width(k) + Width(k) * |vs[1..]|;
    }
  }

  function Header(id: Byte, count: nat): (r: Bytes)
    ensures |r| == 9
  {
    [id] + PutBE(count, 8)
  }

  function Encode(item: Item): (r: Bytes)
    ensures r != []
    decreases item, 0
  {
    match item
    case Scalar(k, v) => [Id(k)] + EncodeNumber(k, v)
    case Slice(k, vs) => Header(9 + Id(k), |vs|) + EncodeNumbers(k, vs)
    case Text(s) => Header(STRING_ID, |s|) + s
    case Nested(items) => Header(ARRAY_ID, |items|) + EncodeAll(items)
  }

  function EncodeAll(items: seq<Item>): Bytes
    decreases items
  {
    if items == [] then [] else Encode(items[0]) + EncodeAll(items[1..])
  }

  lemma Associative(a: Bytes, b: Bytes, c: Bytes)
    ensures (a + b) + c == a + (b + c)
  {
  }

  lemma {:induction false} EncodeAllAppend(a: seq<Item>, b: seq<Item>)
    ensures EncodeAll(a + b) == EncodeAll(a) + EncodeAll(b)
  {
    hide Encode;
    if a == [] {
      assert a + b == b;
    } else {
      var first, others := Encode(a[0]), EncodeAll(a[1..]);
      EncodeAllAppend(a[1..], b);
      assert (a + b)[0] == a[0] && (a + b)[1..] == a[1..] + b;
      Associative(first, others, EncodeAll(b));
    }
  }

  lemma {:induction false} EncodeNumbersAppend(k: Kind, a: seq<int>, b: seq<int>)
    ensures EncodeNumbers(k, a + b) == EncodeNumbers(k, a) + EncodeNumbers(k, b)
  {
    hide EncodeNumber;
    if a == [] {
      assert a + b == b;
    } else {
      var first, others := EncodeNumber(k, a[0]), EncodeNumbers(k, a[1..]);
      EncodeNumbersAppend(k, a[1..], b);
      assert (a + b)[0] == a[0] && (a + b)[1..] == a[1..] + b;
      Associative(first, others, EncodeNumbers(k, b));
    }
  }

  // ---------------------------------------------------------------- decoding

  datatype Parsed<T> = Parsed(value: T, rest: Bytes) | Malformed

  function GetBE(b: Bytes): nat {
    if b == [] then 0 else 256 * GetBE(b[..|b| - 1]) + b[|b| - 1]
  }

  function DecodeNumber(k: Kind, b: Bytes): int
    requires |b| == Width(k)
  {
    var raw := GetBE(b);
    if Signed(k) && 2 * raw >= Radix(Width(k)) then raw - Radix(Width(k)) else raw
  }

  function DecodeNumbers(k: Kind, n: nat, b: Bytes): Parsed<seq<int>>
  {
    if n == 0 then Parsed([], b)
    else if |b| < Width(k) then Malformed
    else
      match DecodeNumbers(k, n - 1, b[Width(k)..])
      case Malformed => Malformed
      case Parsed(vs, rest) => Parsed([DecodeNumber(k, b[..Width(k)])] + vs, rest)
  }

  function DecodeItem(b: Bytes): (r: Parsed<Item>)
    ensures r.Parsed? ==> |r.rest| < |b|
    decreases |b|, 0
  {
    if b == [] then Malformed
    else if b[0] < 9 then
      var k := KINDS[b[0]];
      if |b| < 1 + Width(k) then Malformed
      else Parsed(Scalar(k, DecodeNumber(k, b[1..1 + Width(k)])), b[1 + Width(k)..])
    else if |b| < 9 then Malformed
    else
      var count := GetBE(b[1..9]);
      if b[0] < 18 then
        var k := KINDS[b[0] - 9];
        DecodeNumbersShrinks(k, count, b[9..]);
        match DecodeNumbers(k, count, b[9..])
        case Malformed => Malformed
        case Parsed(vs, rest) => Parsed(Slice(k, vs), rest)
      else if b[0] == STRING_ID then
        if |b| < 9 + count then Malformed else Parsed(Text(b[9..9 + count]), b[9 + count..])
      else if b[0] == ARRAY_ID then
        match DecodeItems(count, b[9..])
        case Malformed => Malformed
        case Parsed(items, rest) => Parsed(Nested(items), rest)
      else Malformed
  }

  function DecodeItems(n: nat, b: Bytes): (r: Parsed<seq<Item>>)
    ensures r.Parsed? ==> |r.rest| <= |b|
    decreases |b|, n + 1
  {
    if n == 0 then Parsed([], b)
    else
      match DecodeItem(b)
      case Malformed => Malformed
      case Parsed(item, rest) =>
        match DecodeItems(n - 1, rest)
        case Malformed => Malformed
        case Parsed(items, end) => Parsed([item] + items, end)
  }

  lemma DecodeNumbersShrinks(k: Kind, n: nat, b: Bytes)
    ensures DecodeNumbers(k, n, b).Parsed? ==> |DecodeNumbers(k, n, b).rest| <= |b|
  {
  }

  // -------------------------------------------------------------- round trip

  lemma {:induction false} GetPutBE(v: nat, w: nat)
    requires v < Radix(w)
    ensures GetBE(PutBE(v, w)) == v
  {
    if w > 0 {
      GetPutBE(v / 256, w - 1);
      assert PutBE(v, w)[..w - 1] == PutBE(v / 256, w - 1);
    }
  }

  lemma Radixes()
    ensures Radix(1) == 0x100 && Radix(2) == 0x1_0000 && Radix(4) == 0x1_0000_0000
    ensures Radix(8) == 0x1_0000_0000_0000_0000
  {
    assert Radix(3) == 256 * Radix(2) && Radix(2) == 256 * Radix(1);
    assert Radix(8) == 256 * Radix(7) && Radix(7) == 256 * Radix(6) && Radix(6) == 256 * Radix(5) && Radix(5)
        == 256 * Radix(4);
  }

  lemma ModInRange(k: Kind, v: int)
    requires InRange(k, v)
    ensures Unsigned(k, v) == if v < 0 then v + Radix(Width(k)) else v
  {
    Radixes();
  }

  lemma DecodeEncodeNumber(k: Kind, v: int)
    requires InRange(k, v)
    ensures DecodeNumber(k, EncodeNumber(k, v)) == v
  {
    ModInRange(k, v);
    GetPutBE(Unsigned(k, v), Width(k));
    Radixes();
  }

  lemma DecodeNumbersStep(k: Kind, first: Bytes, tail: Bytes, vs: seq<int>, rest: Bytes)
    requires |vs| > 0 && |first| == Width(k) && DecodeNumber(k, first) == vs[0]
    requires DecodeNumbers(k, |vs| - 1, tail) == Parsed(vs[1..], rest)
    ensures DecodeNumbers(k, |vs|, first + tail) == Parsed(vs, rest)
  {
    hide DecodeNumber;
    assert (first + tail)[..Width(k)] == first && (first + tail)[Width(k)..] == tail;
    assert vs == [vs[0]] + vs[1..];
  }

  lemma {:induction false} DecodeEncodeNumbers(k: Kind, vs: seq<int>, rest: Bytes)
    requires forall v | v in vs :: InRange(k, v)
    ensures DecodeNumbers(k, |vs|, EncodeNumbers(k, vs) + rest) == Parsed(vs, rest)
  {
    hide EncodeNumber, DecodeNumber, InRange;
    if vs == [] {
      assert EncodeNumbers(k, vs) + rest == rest;
    } else {
      hide DecodeNumbers;
      var first, others := EncodeNumber(k, vs[0]), EncodeNumbers(k, vs[1..]);
      DecodeEncodeNumber(k, vs[0]);
      DecodeEncodeNumbers(k, vs[1..], rest);
      DecodeNumbersStep(k, first, others + rest, vs, rest);
      Associative(first, others, rest);
    }
  }

  lemma HeaderReads(id: Byte, count: nat, body: Bytes)
    requires count < Radix(8)
    ensures var b := Header(id, count) + body; b[0] == id && GetBE(b[1..9]) == count && b[9..] == body
  {
    GetPutBE(count, 8);
    assert (Header(id, count) + body)[1..9] == PutBE(count, 8);
  }

  lemma DecodeEncodeScalar(k: Kind, v: int, rest: Bytes)
    requires InRange(k, v)
    ensures DecodeItem(Encode(Scalar(k, v)) + rest) == Parsed(Scalar(k, v), rest)
  {
    var b := Encode(Scalar(k, v)) + rest;
    DecodeEncodeNumber(k, v);
    assert b[1..1 + Width(k)] == EncodeNumber(k, v);
    assert b[1 + Width(k)..] == rest;
  }

  lemma DecodeEncodeSlice(k: Kind, vs: seq<int>, rest: Bytes)
    requires Valid(Slice(k, vs))
    ensures DecodeItem(Encode(Slice(k, vs)) + rest) == Parsed(Slice(k, vs), rest)
  {
    hide EncodeNumbers, DecodeNumbers, DecodeItems, InRange;
    var b := Encode(Slice(k, vs)) + rest;
    var body := EncodeNumbers(k, vs) + rest;
    assert b == Header(9 + Id(k), |vs|) + body;
    HeaderReads(9 + Id(k), |vs|, body);
    DecodeEncodeNumbers(k, vs, rest);
  }

  lemma DecodeEncodeText(s: Bytes, rest: Bytes)
    requires Valid(Text(s))
    ensures DecodeItem(Encode(Text(s)) + rest) == Parsed(Text(s), rest)
  {
    var b := Encode(Text(s)) + rest;
    assert b == Header(STRING_ID, |s|) + (s + rest);
    HeaderReads(STRING_ID, |s|, s + rest);
    assert b[9..9 + |s|] == s;
    assert b[9 + |s|..] == rest;
  }

  lemma DecodeNested(count: nat, body: Bytes, items: seq<Item>, rest: Bytes)
    requires count < Radix(8)
    requires DecodeItems(count, body) == Parsed(items, rest)
    ensures DecodeItem(Header(ARRAY_ID, count) + body) == Parsed(Nested(items), rest)
  {
    var b := Header(ARRAY_ID, count) + body;
    HeaderReads(ARRAY_ID, count, body);
    assert DecodeItems(GetBE(b[1..9]), b[9..]) == Parsed(items, rest);
  }

  /** Decoding what was written returns the item and leaves whatever follows it. */
  lemma {:induction false} DecodeEncode(item: Item, rest: Bytes)
    requires Valid(item)
    ensures DecodeItem(Encode(item) + rest) == Parsed(item, rest)
    decreases item, 0
  {
    match item
    case Scalar(k, v) => DecodeEncodeScalar(k, v, rest);
    case Slice(k, vs) => DecodeEncodeSlice(k, vs, rest);
    case Text(s) => DecodeEncodeText(s, rest);
    case Nested(items) =>
      DecodeEncodeAll(items, rest);
      DecodeNested(|items|, EncodeAll(items) + rest, items, rest);
      assert Encode(item) + rest == Header(ARRAY_ID, |items|) + (EncodeAll(items) + rest);
  }

  lemma DecodeItemsStep(first: Bytes, tail: Bytes, items: seq<Item>, rest: Bytes)
    requires |items| > 0
    requires DecodeItem(first + tail) == Parsed(items[0], tail)
    requires DecodeItems(|items| - 1, tail) == Parsed(items[1..], rest)
    ensures DecodeItems(|items|, first + tail) == Parsed(items, rest)
  {
    hide DecodeItem;
    assert items == [items[0]] + items[1..];
  }

  lemma {:induction false} DecodeEncodeAll(items: seq<Item>, rest: Bytes)
    requires forall i | i in items :: Valid(i)
    ensures DecodeItems(|items|, EncodeAll(items) + rest) == Parsed(items, rest)
    decreases items
  {
    hide Encode, DecodeItem;
    if items == [] {
      assert EncodeAll(items) + rest == rest;
    } else {
      hide DecodeItems;
      var first, others := Encode(items[0]), EncodeAll(items[1..]);
      DecodeEncode(items[0], others + rest);
      DecodeEncodeAll(items[1..], rest);
      DecodeItemsStep(first, others + rest, items, rest);
      Associative(first, others, rest);
    }
  }

  /** The encoding of tuples is injective, also between tuples of different lengths. */
  lemma {:induction false} EncodeInjective(xs: seq<Item>, ys: seq<Item>)
    requires forall i | i in xs :: Valid(i)
    requires forall i | i in ys :: Valid(i)
    requires EncodeAll(xs) == EncodeAll(ys)
    ensures xs == ys
  {
    if xs != [] && ys != [] {
      DecodeEncode(xs[0], EncodeAll(xs[1..]));
      DecodeEncode(ys[0], EncodeAll(ys[1..]));
      EncodeInjective(xs[1..], ys[1..]);
      assert xs == [xs[0]] + xs[1..];
      assert ys == [ys[0]] + ys[1..];
    }
  }

  // ----------------------------------------------------- the buffer algorithm

  lemma {:induction false} LeadingZeros(n: nat, w: nat)
    requires n < 256
    ensures PutBE(n, w + 1) == seq(w, _ => 0) + [n]
    decreases w
  {
    if w > 0 {
      LeadingZeros(0, w - 1);
      assert PutBE(n, w + 1) == PutBE(0, w) + [n];
    } else {
      assert PutBE(n / 256, 0) == [];
    }
  }

  /** The documentation's examples of numbers. */
  lemma DocumentedNumbers()
    ensures Encode(Scalar(Int32, 1244)) == [0x03, 0x00, 0x00, 0x04, 0xdc]
    ensures Encode(Scalar(Uint32, 1244)) == [0x07, 0x00, 0x00, 0x04, 0xdc]
    ensures Encode(Scalar(Uint64, 0)) == [0x08, 0x00, 0x00, 0x00, 0x00, 0x00, 0x00, 0x00, 0x00]
    ensures Encode(Scalar(Boolean, 0)) == [0x00, 0x00] && Encode(Scalar(Boolean, 1)) == [0x00, 0x01]
    ensures Encode(Scalar(Int8, 123)) == [0x01, 0x7b]
  {
    hide EncodeNumber;
    SmallNumber(Boolean, 0);
    SmallNumber(Boolean, 1);
    SmallNumber(Int8, 123);
    SmallNumber(Uint64, 0);
    FourBytes(Int32);
    FourBytes(Uint32);
    assert [0x08] + seq(7, _ => 0) + [0] == [0x08, 0, 0, 0, 0, 0, 0, 0, 0];
  }

  lemma SmallNumber(k: Kind, n: nat)
    requires n < 128
    ensures EncodeNumber(k, n) == seq(Width(k) - 1, _ => 0) + [n]
  {
    hide Radix, PutBE;
    Radixes();
    LeadingZeros(n, Width(k) - 1);
  }

  lemma FourBytes(k: Kind)
    requires Width(k) == 4
    ensures EncodeNumber(k, 1244) == [0x00, 0x00, 0x04, 0xdc]
  {
    hide Radix, PutBE;
    Radixes();
    LeadingZeros(4, 2);
    LastByte(1244, 3);
  }

  lemma LastByte(n: nat, w: nat)
    ensures PutBE(n, w + 1) == PutBE(n / 256, w) + [n % 256]
  {
  }

  /** One byte for each element of a slice of bytes or booleans. */
  lemma {:induction false} ByteNumbers(k: Kind, vs: Bytes)
    requires Width(k) == 1
    ensures EncodeNumbers(k, vs) == vs
    decreases |vs|
  {
    if vs != [] {
      Radixes();
      LeadingZeros(vs[0], 0);
      ByteNumbers(k, vs[1..]);
    }
  }

  /** "Hello World". */
  const HELLO: Bytes := [0x48, 0x65, 0x6c, 0x6c, 0x6f, 0x20, 0x57, 0x6f, 0x72, 0x6c, 0x64]

  /** The documentation's examples of slices and of a string. */
  lemma DocumentedSlices()
    ensures Encode(Slice(Boolean, [1, 0, 1, 1, 0])) == [0x09, 0, 0, 0, 0, 0, 0, 0, 0x05, 0x01, 0x00, 0x01, 0x01, 0x00]
    ensures Encode(Slice(Int16, [1, 2, 3])) == [0x0b, 0, 0, 0, 0, 0, 0, 0, 0x03, 0x00, 0x01, 0x00, 0x02, 0x00, 0x03]
    ensures Encode(Slice(Uint8, HELLO)) == [0x0e, 0, 0, 0, 0, 0, 0, 0, 0x0b] + HELLO
    ensures Encode(Text(HELLO)) == [0x12, 0, 0, 0, 0, 0, 0, 0, 0x0b] + HELLO
  {
    hide Radix, Header, EncodeNumbers;
    ShortHeader(0x09, 5);
    ShortHeader(0x0b, 3);
    ShortHeader(0x0e, 11);
    ShortHeader(0x12, 11);
    ByteNumbers(Boolean, [1, 0, 1, 1, 0]);
    ByteNumbers(Uint8, HELLO);
    ThreeNumbers();
  }

  lemma ShortHeader(id: Byte, n: nat)
    requires n < 256
    ensures Header(id, n) == [id, 0, 0, 0, 0, 0, 0, 0, n]
  {
    LeadingZeros(n, 7);
  }

  lemma ThreeNumbers()
    ensures EncodeNumbers(Int16, [1, 2, 3]) == [0x00, 0x01, 0x00, 0x02, 0x00, 0x03]
  {
    hide Radix, PutBE;
    Radixes();
    LeadingZeros(1, 1);
    LeadingZeros(2, 1);
    LeadingZeros(3, 1);
    assert EncodeNumbers(Int16, [3]) == [0x00, 0x03];
    assert EncodeNumbers(Int16, [2, 3]) == [0x00, 0x02, 0x00, 0x03];
  }

  /** The documentation's example of a slice of slices, and the empty one. */
  lemma DocumentedNested()
    ensures Encode(Nested([])) == [0x13, 0, 0, 0, 0, 0, 0, 0, 0]
    ensures Encode(Nested([
                Nested([Slice(Int8, [1, 2]), Slice(Int8, [3, 4, 5]), Slice(Int8, [6, 7, 8, 9])]),
                Nested([])]))
         == [0x13, 0, 0, 0, 0, 0, 0, 0, 0x02]
            + [0x13, 0, 0, 0, 0, 0, 0, 0, 0x03]
            + [0x0a, 0, 0, 0, 0, 0, 0, 0, 0x02, 0x01, 0x02]
            + [0x0a, 0, 0, 0, 0, 0, 0, 0, 0x03, 0x03, 0x04, 0x05]
            + [0x0a, 0, 0, 0, 0, 0, 0, 0, 0x04, 0x06, 0x07, 0x08, 0x09]
            + [0x13, 0, 0, 0, 0, 0, 0, 0, 0]
  {
    hide Header, EncodeNumbers;
    var a, b, c := Slice(Int8, [1, 2]), Slice(Int8, [3, 4, 5]), Slice(Int8, [6, 7, 8, 9]);
    ShortHeader(0x13, 0);
    ShortHeader(0x13, 2);
    ShortHeader(0x13, 3);
    ShortHeader(0x0a, 2);
    ShortHeader(0x0a, 3);
    ShortHeader(0x0a, 4);
    ByteNumbers(Int8, [1, 2]);
    ByteNumbers(Int8, [3, 4, 5]);
    ByteNumbers(Int8, [6, 7, 8, 9]);
    ThreeItems(a, b, c);
    TwoItems(Nested([a, b, c]), Nested([]));
  }

  lemma TwoItems(a: Item, b: Item)
    ensures EncodeAll([a, b]) == Encode(a) + Encode(b)
  {
    hide Encode;
    assert [a, b][1..] == [b] && [b][1..] == [];
    assert EncodeAll([b]) == Encode(b) + EncodeAll([]);
  }

  lemma ThreeItems(a: Item, b: Item, c: Item)
    ensures EncodeAll([a, b, c]) == Encode(a) + Encode(b) + Encode(c)
  {
    hide Encode;
    assert [a, b, c][1..] == [b, c];
    TwoItems(b, c);
  }

  /** The documentation's tables: the prefix of every type, and the number of bytes that follow it. */
  lemma TypePrefixes(v: int, vs: seq<int>, text: Bytes, items: seq<Item>)
    ensures Encode(Scalar(Boolean, v))[0] == 0 && |Encode(Scalar(Boolean, v))| == 2
    ensures Encode(Scalar(Int8, v))[0] == 1 && |Encode(Scalar(Int8, v))| == 2
    ensures Encode(Scalar(Int16, v))[0] == 2 && |Encode(Scalar(Int16, v))| == 3
    ensures Encode(Scalar(Int32, v))[0] == 3 && |Encode(Scalar(Int32, v))| == 5
    ensures Encode(Scalar(Int64, v))[0] == 4 && |Encode(Scalar(Int64, v))| == 9
    ensures Encode(Scalar(Uint8, v))[0] == 5 && |Encode(Scalar(Uint8, v))| == 2
    ensures Encode(Scalar(Uint16, v))[0] == 6 && |Encode(Scalar(Uint16, v))| == 3
    ensures Encode(Scalar(Uint32, v))[0] == 7 && |Encode(Scalar(Uint32, v))| == 5
    ensures Encode(Scalar(Uint64, v))[0] == 8 && |Encode(Scalar(Uint64, v))| == 9
    ensures Encode(Slice(Boolean, vs))[0] == 9 && |Encode(Slice(Boolean, vs))| == 9 + |vs|
    ensures Encode(Slice(Int8, vs))[0] == 10 && |Encode(Slice(Int8, vs))| == 9 + |vs|
    ensures Encode(Slice(Int16, vs))[0] == 11 && |Encode(Slice(Int16, vs))| == 9 + 2 * |vs|
    ensures Encode(Slice(Int32, vs))[0] == 12 && |Encode(Slice(Int32, vs))| == 9 + 4 * |vs|
    ensures Encode(Slice(Int64, vs))[0] == 13 && |Encode(Slice(Int64, vs))| == 9 + 8 * |vs|
    ensures Encode(Slice(Uint8, vs))[0] == 14 && |Encode(Slice(Uint8, vs))| == 9 + |vs|
    ensures Encode(Slice(Uint16, vs))[0] == 15 && |Encode(Slice(Uint16, vs))| == 9 + 2 * |vs|
    ensures Encode(Slice(Uint32, vs))[0] == 16 && |Encode(Slice(Uint32, vs))| == 9 + 4 * |vs|
    ensures Encode(Slice(Uint64, vs))[0] == 17 && |Encode(Slice(Uint64, vs))| == 9 + 8 * |vs|
    ensures Encode(Text(text))[0] == 18 && |Encode(Text(text))| == 9 + |text|
    ensures Encode(Nested(items))[0] == 19
  {
    hide EncodeNumbers, EncodeNumber, PutBE;
    forall k: Kind
      ensures |EncodeNumbers(k, vs)| == Width(k) * |vs|
    {
      EncodeNumbersLength(k, vs);
    }
  }

  /** The digits of a number to the base 256, the most significant first. */
  lemma {:induction false} BigEndian(n: nat, w: nat, j: nat)
    requires j < w
    ensures PutBE(n, w)[j] == n / Radix(w - 1 - j) % 256
    decreases w
  {
    if j < w - 1 {
      BigEndian(n / 256, w - 1, j);
      DivideTwice(n, 256, Radix(w - 2 - j));
      assert PutBE(n, w)[j] == PutBE(n / 256, w - 1)[j];
    }
  }

  lemma DivideTwice(n: int, a: nat, b: nat)
    requires a > 0 && b > 0
    ensures a * b > 0 && n / a / b == n / (a * b)
  {
    var q, r := n / a, n % a;
    var p, s := q / b, q % b;
    Between(r, s, a, b);
    Regroup(a, b, p, s, r);
    QuotientIs(n, a * b, p, a * s + r);
  }

  lemma Between(r: nat, s: nat, a: nat, b: nat)
    requires r < a && s < b
    ensures 0 <= a * s + r < a * b
  {
    assert a * (s + 1) <= a * b;
  }

  lemma Regroup(a: int, b: int, p: int, s: int, r: int)
    ensures a * (b * p + s) + r == (a * b) * p + (a * s + r)
  {
  }

  lemma QuotientIs(n: int, d: nat, q: int, r: int)
    requires d > 0 && n == d * q + r && 0 <= r < d
    ensures n / d == q
  {
    var e := n / d - q;
    Distributes(d, n / d, q);
    Outgrows(d, e);
  }

  lemma Distributes(d: int, a: int, b: int)
    ensures d * (a - b) == d * a - d * b
  {
  }

  lemma Outgrows(d: nat, e: int)
    ensures e >= 1 ==> d * e >= d
    ensures e <= -1 ==> d + d * e <= 0
  {
    Distributes(d, e, 1);
    Distributes(d, e, -1);
    if e >= 1 { assert d * (e - 1) >= 0; }
    if e <= -1 { assert d * (e + 1) <= 0; }
  }

  /** Negative numbers are written in two's complement: their digits are those of the quotients rounded
      down. */
  lemma NumberDigits(k: Kind, v: int, j: nat)
    requires InRange(k, v) && j < Width(k)
    ensures Encode(Scalar(k, v))[1 + j] == v / Radix(Width(k) - 1 - j) % 256
  {
    hide Width, InRange, Unsigned, PutBE, Radix;
    var w := Width(k);
    ModInRange(k, v);
    NumberBytes(k, v);
    BigEndian(Unsigned(k, v), w, j);
    if v < 0 {
      RadixSplits(w - 1 - j, j + 1);
      RadixNext(j);
      Shifted(v, Radix(w - 1 - j), Radix(j));
    }
  }

  lemma NumberBytes(k: Kind, v: int)
    ensures Encode(Scalar(k, v)) == [Id(k)] + PutBE(Unsigned(k, v), Width(k))
  {
  }

  lemma RadixNext(j: nat)
    ensures Radix(j + 1) == 256 * Radix(j)
  {
  }

  /** Adding a multiple of 256 times the divisor does not change the digit. */
  lemma Shifted(v: int, d: nat, c: nat)
    requires d > 0
    ensures (v + d * (256 * c)) / d % 256 == v / d % 256
  {
    Regroup(d, 1, v / d + 256 * c, 0, v % d);
    assert d * (v / d + 256 * c) == d * (v / d) + d * (256 * c);
    QuotientIs(v + d * (256 * c), d, v / d + 256 * c, v % d);
    MultipleOf256(v / d, c);
  }

  lemma MultipleOf256(a: int, c: int)
    ensures (a + 256 * c) % 256 == a % 256
  {
  }

  lemma {:induction false} RadixSplits(a: nat, b: nat)
    ensures Radix(a + b) == Radix(a) * Radix(b)
    decreases a
  {
    if a > 0 {
      RadixSplits(a - 1, b);
      assert Radix(a) * Radix(b) == 256 * (Radix(a - 1) * Radix(b));
    }
  }

  /** A 64-bit number written out, the most significant byte first. */
  function Eight(n: nat): (r: Bytes)
    requires n < 0x1_0000_0000_0000_0000
  {
    [n / 0x100_0000_0000_0000, n / 0x1_0000_0000_0000 % 256, n / 0x100_0000_0000 % 256, n / 0x1_0000_0000 % 256,
     n / 0x100_0000 % 256, n / 0x1_0000 % 256, n / 0x100 % 256, n % 256]
  }

  lemma EightBytes(n: nat)
    requires n < 0x1_0000_0000_0000_0000
    ensures PutBE(n, 8) == Eight(n)
  {
    hide PutBE;
    OddRadixes();
    forall j: nat | j < 8
      ensures PutBE(n, 8)[j] == Eight(n)[j]
    {
      BigEndian(n, 8, j);
    }
  }

  lemma OddRadixes()
    ensures Radix(0) == 1 && Radix(1) == 0x100 && Radix(2) == 0x1_0000 && Radix(3) == 0x100_0000
    ensures Radix(4) == 0x1_0000_0000 && Radix(5) == 0x100_0000_0000 && Radix(6) == 0x1_0000_0000_0000
    ensures Radix(7) == 0x100_0000_0000_0000
  {
    Radixes();
    assert Radix(3) == 256 * Radix(2);
    assert Radix(5) == 256 * Radix(4);
    assert Radix(6) == 256 * Radix(5);
    assert Radix(7) == 256 * Radix(6);
  }

  /** `size`: the bytes an item will take. */
  method Size(item: Item) returns (size: nat)
    ensures size == |Encode(item)|
    decreases item
  {
    match item
    case Scalar(k, _) =>
      size := 1 + Width(k);
    case Slice(k, vs) =>
      size := 9 + Width(k) * |vs|;
      EncodeNumbersLength(k, vs);
    case Text(s) =>
      size := 9 + |s|;
    case Nested(items) =>
      size := 9;
      for index := 0 to |items|
        invariant size == 9 + |EncodeAll(items[..index])|
      {
        var part := Size(items[index]);
        size := size + part;
        EncodeAllStep(items, index);
      }
      assert items[..|items|] == items;
  }

  lemma EncodeAllStep(items: seq<Item>, index: nat)
    requires index < |items|
    ensures EncodeAll(items[..index + 1]) == EncodeAll(items[..index]) + Encode(items[index])
    ensures |EncodeAll(items[..index + 1])| <= |EncodeAll(items)|
  {
    EncodeAllAppend(items[..index + 1], items[index + 1..]);
    assert items == items[..index + 1] + items[index + 1..];
    EncodeAllAppend(items[..index], [items[index]]);
    assert items[..index + 1] == items[..index] + [items[index]];
    assert EncodeAll([items[index]]) == Encode(items[index]) + EncodeAll([]);
  }

  lemma EncodeNumbersStep(k: Kind, vs: seq<int>, index: nat)
    requires index < |vs|
    ensures EncodeNumbers(k, vs[..index + 1]) == EncodeNumbers(k, vs[..index]) + EncodeNumber(k, vs[index])
    ensures |EncodeNumbers(k, vs[..index + 1])| <= |EncodeNumbers(k, vs)|
  {
    EncodeNumbersAppend(k, vs[..index + 1], vs[index + 1..]);
    assert vs == vs[..index + 1] + vs[index + 1..];
    EncodeNumbersAppend(k, vs[..index], [vs[index]]);
    assert vs[..index + 1] == vs[..index] + [vs[index]];
    assert EncodeNumbers(k, [vs[index]]) == EncodeNumber(k, vs[index]) + EncodeNumbers(k, []);
  }

  /** The buffer after writing `data` at `at`. */
  ghost predicate Wrote(before: Bytes, at: nat, data: Bytes, after: Bytes)
  {
    && at + |data| <= |before|
    && after == before[..at] + data + before[at + |data|..]
  }

  lemma WroteTwice(b0: Bytes, at: nat, d1: Bytes, b1: Bytes, d2: Bytes, b2: Bytes)
    requires Wrote(b0, at, d1, b1) && Wrote(b1, at + |d1|, d2, b2)
    ensures Wrote(b0, at, d1 + d2, b2)
  {
    assert b1[at + |d1| + |d2|..] == b0[at + |d1| + |d2|..];
    assert b1[..at + |d1|] == b0[..at] + d1;
  }

  /** `copy(buffer[at:], data)`; also the byte stores of `binary.BigEndian.PutUint`. */
  method Put(buffer: array<Byte>, at: nat, data: Bytes) returns (next: nat)
    requires at + |data| <= buffer.Length
    modifies buffer
    ensures next == at + |data|
    ensures Wrote(old(buffer[..]), at, data, buffer[..])
  {
    for index := 0 to |data|
      invariant Wrote(old(buffer[..]), at, data[..index], buffer[..])
    {
      buffer[at + index] := data[index];
    }
    assert data[..|data|] == data;
    next := at + |data|;
  }

  /** `write`: stores the item at the cursor and returns the advanced cursor. */
  method Write(buffer: array<Byte>, at: nat, item: Item) returns (next: nat)
    requires at + |Encode(item)| <= buffer.Length
    modifies buffer
    ensures next == at + |Encode(item)|
    ensures Wrote(old(buffer[..]), at, Encode(item), buffer[..])
    decreases item, 1
  {
    ghost var before := buffer[..];
    match item
    case Scalar(k, v) =>
      next := Put(buffer, at, [Id(k)] + EncodeNumber(k, v));
    case Slice(k, vs) =>
      ghost var header, body := Header(9 + Id(k), |vs|), EncodeNumbers(k, vs);
      assert Encode(item) == header + body;
      next := Put(buffer, at, Header(9 + Id(k), |vs|));
      ghost var mid := buffer[..];
      next := WriteNumbers(buffer, next, k, vs);
      WroteTwice(before, at, header, mid, body, buffer[..]);
    case Text(s) =>
      next := Put(buffer, at, Header(STRING_ID, |s|) + s);
    case Nested(items) =>
      ghost var header, body := Header(ARRAY_ID, |items|), EncodeAll(items);
      assert Encode(item) == header + body;
      next := Put(buffer, at, Header(ARRAY_ID, |items|));
      ghost var mid := buffer[..];
      next := WriteItems(buffer, next, items);
      WroteTwice(before, at, header, mid, body, buffer[..]);
  }

  /** The loop over the elements of a slice of numbers. */
  method WriteNumbers(buffer: array<Byte>, at: nat, k: Kind, vs: seq<int>) returns (next: nat)
    requires at + |EncodeNumbers(k, vs)| <= buffer.Length
    modifies buffer
    ensures next == at + |EncodeNumbers(k, vs)|
    ensures Wrote(old(buffer[..]), at, EncodeNumbers(k, vs), buffer[..])
  {
    hide EncodeNumber;
    ghost var before := buffer[..];
    next := at;
    for index := 0 to |vs|
      invariant next == at + |EncodeNumbers(k, vs[..index])|
      invariant Wrote(before, at, EncodeNumbers(k, vs[..index]), buffer[..])
    {
      ghost var mid := buffer[..];
      EncodeNumbersStep(k, vs, index);
      next := Put(buffer, next, EncodeNumber(k, vs[index]));
      WroteTwice(before, at, EncodeNumbers(k, vs[..index]), mid, EncodeNumber(k, vs[index]), buffer[..]);
    }
    assert vs[..|vs|] == vs;
  }

  /** The loop that writes items one after the other. */
  method WriteItems(buffer: array<Byte>, at: nat, items: seq<Item>) returns (next: nat)
    requires at + |EncodeAll(items)| <= buffer.Length
    modifies buffer
    ensures next == at + |EncodeAll(items)|
    ensures Wrote(old(buffer[..]), at, EncodeAll(items), buffer[..])
    decreases items, 0
  {
    hide Encode;
    ghost var before := buffer[..];
    next := at;
    for index := 0 to |items|
      invariant next == at + |EncodeAll(items[..index])|
      invariant Wrote(before, at, EncodeAll(items[..index]), buffer[..])
    {
      ghost var mid := buffer[..];
      EncodeAllStep(items, index);
      next := Write(buffer, next, items[index]);
      WroteTwice(before, at, EncodeAll(items[..index]), mid, Encode(items[index]), buffer[..]);
    }
    assert items[..|items|] == items;
  }

  /** `sha256(items...)`: one buffer of exactly the summed sizes, filled to its end, then hashed. */
  method Sha256(csha256: Bytes -> Digest, items: seq<Item>) returns (digest: Digest)
    ensures digest == csha256(EncodeAll(items))
  {
    var alloc := 0;
    for index := 0 to |items|
      invariant alloc == |EncodeAll(items[..index])|
    {
      var part := Size(items[index]);
      alloc := alloc + part;
      EncodeAllStep(items, index);
    }
    assert items[..|items|] == items;
    var buffer := new Byte[alloc](_ => 0);
    var cursor := WriteItems(buffer, 0, items);
    assert cursor == buffer.Length;
    assert buffer[..] == EncodeAll(items);
    digest := csha256(buffer[..]);
  }
}
