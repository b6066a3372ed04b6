/** Typed fields (collection/field.go) and the hash of a collection, seen as a parameter. */
module Fields {
  import opened ByteSlices
  import opened Serialization

  datatype Option<+T> = None | Some(value: T)

  const U64 := 0x1_0000_0000_0000_0000

  type Uint64 = x: int | 0 <= x < U64

  /** The dynamic values the two fields of the repository accept. */
  datatype Value = Blob(bytes: Bytes) | Stake(amount: Uint64)

  /** Where `Navigate` sends a query, and the query it leaves for the next step. */
  datatype Navigation = Lost | GoLeft | GoRight(query: Bytes)

  function EncodeStake(n: Uint64): (raw: Bytes)
    ensures |raw| == 8
  {
    PutBE(n, 8)
  }

  function DecodeStake(raw: Bytes): Option<Uint64> {
    if |raw| != 8 then None else
      GetBELess(raw);
      Radixes();
      Some(GetBE(raw))
  }

  datatype Field = Data | Stake64 {

    /** The type assertion at the head of `Encode`. */
    predicate Accepts(v: Value) {
      match this case Data => v.Blob? case Stake64 => v.Stake?
    }

    function Encode(v: Value): Bytes
      requires Accepts(v)
    {
      match this case Data => v.bytes case Stake64 => EncodeStake(v.amount)
    }

    function Decode(raw: Bytes): Option<Value> {
      match this
      case Data => Some(Blob(raw))
      case Stake64 => match DecodeStake(raw) case None => None case Some(n) => Some(Stake(n))
    }

    function Placeholder(): Bytes {
      match this case Data => [] case Stake64 => EncodeStake(0)
    }

    /** The value of an inner node; unsigned addition wraps around. */
    function Parent(left: Bytes, right: Bytes): Option<Bytes> {
      match this
      case Data => Some([])
      case Stake64 =>
        match (DecodeStake(left), DecodeStake(right))
        case (Some(l), Some(r)) => Some(EncodeStake((l + r) % U64))
        case _ => None
    }

    function Navigate(query: Bytes, parent: Bytes, left: Bytes, right: Bytes): Navigation {
      match this
      case Data => Lost
      case Stake64 =>
        match (DecodeStake(query), DecodeStake(parent))
        case (Some(q), Some(p)) =>
          if q >= p then Lost
          else
            (match DecodeStake(left)
             case None => Lost
             case Some(l) => if q >= l then GoRight(EncodeStake(q - l)) else GoLeft)
        case _ => Lost
    }

    /** The raw values this field can decode. */
    predicate Fits(raw: Bytes) {
      Decode(raw).Some?
    }
  }

  lemma {:induction false} GetBELess(b: Bytes)
    ensures GetBE(b) < Radix(|b|)
  {
    if b != [] {
      GetBELess(b[..|b| - 1]);
    }
  }

  lemma StakeRoundTrip(n: Uint64)
    ensures DecodeStake(EncodeStake(n)) == Some(n)
  {
    Radixes();
    GetPutBE(n, 8);
  }

  /** Decoding an encoded value gives the value back. */
  lemma FieldRoundTrip(f: Field, v: Value)
    requires f.Accepts(v)
    ensures f.Decode(f.Encode(v)) == Some(v)
  {
    if f.Stake64? {
      StakeRoundTrip(v.amount);
    }
  }

  /** On values it can decode, a field always computes a parent, which it can decode too. */
  lemma ParentFits(f: Field, left: Bytes, right: Bytes)
    requires f.Fits(left) && f.Fits(right)
    ensures f.Parent(left, right).Some? && f.Fits(f.Parent(left, right).value)
  {
    if f.Stake64? {
      StakeRoundTrip((DecodeStake(left).value + DecodeStake(right).value) % U64);
    }
  }

  lemma PlaceholderFits(f: Field)
    ensures f.Fits(f.Placeholder())
  {
    StakeRoundTrip(0);
  }

  // --------------------------------------------------------------- byte by byte

  /** The raw bytes of a value: data as it is, a stake as eight bytes, the most significant first. */
  predicate Raw(v: Value, raw: Bytes) {
    match v case Blob(bytes) => raw == bytes case Stake(n) => raw == Eight(n)
  }

  lemma {:induction false} PutGetBE(b: Bytes)
    ensures GetBE(b) < Radix(|b|) && PutBE(GetBE(b), |b|) == b
  {
    GetBELess(b);
    if b != [] {
      PutGetBE(b[..|b| - 1]);
      assert GetBE(b) / 256 == GetBE(b[..|b| - 1]) && GetBE(b) % 256 == b[|b| - 1];
    }
  }

  lemma StakeBytes(n: Uint64, raw: Bytes)
    ensures EncodeStake(n) == Eight(n)
    ensures DecodeStake(raw) == Some(n) <==> raw == Eight(n)
    ensures DecodeStake(raw) == None <==> |raw| != 8
  {
    EightBytes(n);
    StakeRoundTrip(n);
    PutGetBE(raw);
  }

  /** Which bytes a field stores for a value, and what it makes of any bytes it finds. */
  lemma FieldBytes(f: Field, v: Value, raw: Bytes)
    ensures f.Accepts(v) ==> (f.Encode(v) == raw <==> Raw(v, raw))
    ensures f.Decode(raw) == Some(v) <==> f.Accepts(v) && Raw(v, raw)
  {
    if v.Stake? { StakeBytes(v.amount, raw); }
  }

  /** Placeholders hold no data and no stake. */
  lemma PlaceholderBytes()
    ensures Data.Placeholder() == [] && Stake64.Placeholder() == [0, 0, 0, 0, 0, 0, 0, 0]
  {
    StakeBytes(0, []);
  }

  /** Inner nodes hold no data, and the sum of the stakes below them, modulo 2^64; a stake that is not
      eight bytes long is an error. */
  lemma ParentBytes(left: Bytes, right: Bytes, l: Uint64, r: Uint64)
    ensures Data.Parent(left, right) == Some([])
    ensures left == Eight(l) && right == Eight(r) ==>
              Stake64.Parent(left, right) == Some(Eight((l + r) % 0x1_0000_0000_0000_0000))
    ensures Stake64.Parent(left, right) == None <==> |left| != 8 || |right| != 8
  {
    StakeBytes(l, left);
    StakeBytes(r, right);
    StakeBytes((l + r) % U64, []);
  }

  /** Where a query goes: data cannot be navigated, nor can a query or a value that is not eight bytes long;
      a query below the stake on the left goes left, one below the parent's goes right with what is left
      of it, any other is turned away. */
  lemma NavigateBytes(query: Bytes, parent: Bytes, left: Bytes, right: Bytes, q: Uint64, p: Uint64, l: Uint64)
    ensures Data.Navigate(query, parent, left, right) == Lost
    ensures |query| != 8 || |parent| != 8 ==> Stake64.Navigate(query, parent, left, right) == Lost
    ensures query == Eight(q) && parent == Eight(p) ==>
              && (q >= p || |left| != 8 ==> Stake64.Navigate(query, parent, left, right) == Lost)
              && (left == Eight(l) && q < l && q < p ==> Stake64.Navigate(query, parent, left, right) == GoLeft)
              && (left == Eight(l) && l <= q < p ==>
                    Stake64.Navigate(query, parent, left, right) == GoRight(Eight(q - l)))
  {
    hide Eight, EncodeStake, DecodeStake;
    StakeBytes(q, query);
    StakeBytes(p, parent);
    StakeBytes(l, left);
    if l <= q { StakeBytes(q - l, []); }
  }

  // ------------------------------------------------------------------ hashing

  /** The slice of slices `[][]byte` as an argument of `sha256`. */
  function RawItems(values: seq<Bytes>): seq<Item> {
    seq(|values|, i requires 0 <= i < |values| => Slice(Uint8, values[i]))
  }

  /** The package's variadic `sha256` on typed items, and the fields of the collection. */
  datatype Scheme = Scheme(sha256: seq<Item> -> Digest, fields: seq<Field>) {

    /** The hash of a key: the path its record lies on. */
    function Path(key: Bytes): Digest {
      sha256(PathItems(key))
    }

    function LeafLabel(key: Bytes, values: seq<Bytes>): Digest {
      sha256(LeafItems(key, values))
    }

    function InnerLabel(values: seq<Bytes>, left: Digest, right: Digest): Digest {
      sha256(InnerItems(values, left, right))
    }

    function PlaceholderValues(): (vs: seq<Bytes>)
      ensures |vs| == |fields|
    {
      seq(|fields|, i requires 0 <= i < |fields| => fields[i].Placeholder())
    }

    /** One decodable raw value per field. */
    predicate Fit(values: seq<Bytes>) {
      && |values| == |fields|
      && forall i | 0 <= i < |fields| :: fields[i].Fits(values[i])
    }
  }

  function PathItems(key: Bytes): seq<Item> {
    [Slice(Uint8, key)]
  }

  function LeafItems(key: Bytes, values: seq<Bytes>): seq<Item> {
    [Scalar(Boolean, 1), Slice(Uint8, key), Nested(RawItems(values))]
  }

  function InnerItems(values: seq<Bytes>, left: Digest, right: Digest): seq<Item> {
    [Scalar(Boolean, 0), Nested(RawItems(values)), Slice(Uint8, left), Slice(Uint8, right)]
  }

  lemma RawItemsInjective(a: seq<Bytes>, b: seq<Bytes>)
    requires RawItems(a) == RawItems(b)
    ensures a == b
  {
    forall i | 0 <= i < |a|
      ensures |a| == |RawItems(b)| && a[i] == b[i]
    {
      assert RawItems(a)[i] == RawItems(b)[i];
    }
    assert |a| == |RawItems(a)|;
  }

  lemma LeafItemsInjective(k1: Bytes, v1: seq<Bytes>, k2: Bytes, v2: seq<Bytes>)
    requires LeafItems(k1, v1) == LeafItems(k2, v2)
    ensures k1 == k2 && v1 == v2
  {
    assert LeafItems(k1, v1)[1] == LeafItems(k2, v2)[1];
    assert LeafItems(k1, v1)[2] == LeafItems(k2, v2)[2];
    RawItemsInjective(v1, v2);
  }

  lemma InnerItemsInjective(v1: seq<Bytes>, l1: Digest, r1: Digest, v2: seq<Bytes>, l2: Digest, r2: Digest)
    requires InnerItems(v1, l1, r1) == InnerItems(v2, l2, r2)
    ensures v1 == v2 && l1 == l2 && r1 == r2
  {
    assert InnerItems(v1, l1, r1)[1] == InnerItems(v2, l2, r2)[1];
    assert InnerItems(v1, l1, r1)[2] == InnerItems(v2, l2, r2)[2];
    assert InnerItems(v1, l1, r1)[3] == InnerItems(v2, l2, r2)[3];
    RawItemsInjective(v1, v2);
  }

  // ------------------------------------------------------------ what is hashed

  /** A byte slice as it is hashed: its prefix, its length, its bytes. */
  function SliceBytes(b: Bytes): Bytes
    requires |b| < U64
  {
    [0x0e] + Eight(|b|) + b
  }

  /** The slices of a record, one after the other. */
  function ValueBytes(values: seq<Bytes>): Bytes
    requires forall v | v in values :: |v| < U64
  {
    if values == [] then [] else SliceBytes(values[0]) + ValueBytes(values[1..])
  }

  /** A record's values as they are hashed: prefix, number of values, values. */
  function RecordBytes(values: seq<Bytes>): Bytes
    requires |values| < U64 && forall v | v in values :: |v| < U64
  {
    [0x13] + Eight(|values|) + ValueBytes(values)
  }

  lemma SliceEncodes(b: Bytes)
    requires |b| < U64
    ensures Encode(Slice(Uint8, b)) == SliceBytes(b)
  {
    EightBytes(|b|);
    ByteNumbers(Uint8, b);
  }

  lemma {:induction false} ValuesEncode(values: seq<Bytes>)
    requires forall v | v in values :: |v| < U64
    ensures EncodeAll(RawItems(values)) == ValueBytes(values)
    decreases |values|
  {
    hide Encode, SliceBytes;
    if values != [] {
      SliceEncodes(values[0]);
      ValuesEncode(values[1..]);
      assert RawItems(values)[1..] == RawItems(values[1..]);
    }
  }

  lemma RecordEncodes(values: seq<Bytes>)
    requires |values| < U64 && forall v | v in values :: |v| < U64
    ensures Encode(Nested(RawItems(values))) == RecordBytes(values)
  {
    EightBytes(|values|);
    ValuesEncode(values);
  }

  /** The bytes hashed for a key: its slice. */
  lemma PathBytes(key: Bytes)
    requires |key| < U64
    ensures EncodeAll(PathItems(key)) == SliceBytes(key)
  {
    hide Encode;
    SliceEncodes(key);
    assert PathItems(key)[1..] == [];
  }

  /** The bytes hashed for a leaf: true, the key, the values. */
  lemma LeafBytes(key: Bytes, values: seq<Bytes>)
    requires |key| < U64 && |values| < U64 && forall v | v in values :: |v| < U64
    ensures EncodeAll(LeafItems(key, values)) == [0x00, 0x01] + SliceBytes(key) + RecordBytes(values)
  {
    hide Encode, SliceBytes, RecordBytes;
    DocumentedNumbers();
    SliceEncodes(key);
    RecordEncodes(values);
    ThreeItems(Scalar(Boolean, 1), Slice(Uint8, key), Nested(RawItems(values)));
  }

  /** The bytes hashed for an inner node: false, the values, the label on the left, the label on the right. */
  lemma InnerBytes(values: seq<Bytes>, left: Digest, right: Digest)
    requires |values| < U64 && forall v | v in values :: |v| < U64
    ensures EncodeAll(InnerItems(values, left, right))
         == [0x00, 0x00] + RecordBytes(values) + [0x0e, 0, 0, 0, 0, 0, 0, 0, 32] + left
            + [0x0e, 0, 0, 0, 0, 0, 0, 0, 32] + right
  {
    hide Encode, EncodeAll, RecordBytes, RawItems;
    DocumentedNumbers();
    RecordEncodes(values);
    LabelSlice(left);
    LabelSlice(right);
    var flag, record := Scalar(Boolean, 0), Nested(RawItems(values));
    FourItems(flag, record, Slice(Uint8, left), Slice(Uint8, right));
  }

  lemma LabelSlice(tag: Digest)
    ensures Encode(Slice(Uint8, tag)) == [0x0e, 0, 0, 0, 0, 0, 0, 0, 32] + tag
  {
    SliceEncodes(tag);
    assert Eight(32) == [0, 0, 0, 0, 0, 0, 0, 32];
  }

  lemma FourItems(a: Item, b: Item, c: Item, d: Item)
    ensures EncodeAll([a, b, c, d]) == Encode(a) + Encode(b) + Encode(c) + Encode(d)
  {
    hide Encode;
    assert [a, b, c, d][1..] == [b, c, d];
    ThreeItems(b, c, d);
  }
}
