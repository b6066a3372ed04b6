/** The key/value database of the service: three buckets and a collection that mirrors them
    (service/struct.go). */
module Service {
  import opened ByteSlices
  import opened Serialization
  import opened Fields
  import opened Trees
  import opened Rules
  import opened Refinement
  import opened Canonical
  import opened Pruning
  import opened Scopes
  import opened Updates
  import opened Nodes
  import opened Collections
  import opened Getters
  import opened Proxies

  type Bucket = map<Bytes, Bytes>

  /** Eight bytes, the least significant first. */
  function PutLE(n: nat, width: nat): (raw: Bytes)
    ensures |raw| == width
    decreases width
  {
    if width == 0 then [] else [n % 256] + PutLE(n / 256, width - 1)
  }

  function GetLE(raw: Bytes): nat {
    if raw == [] then 0 else raw[0] + 256 * GetLE(raw[1..])
  }

  lemma {:induction false} LittleEndianRoundTrip(n: nat, width: nat)
    requires n < Radix(width)
    ensures GetLE(PutLE(n, width)) == n
    decreases width
  {
    if width > 0 {
      assert PutLE(n, width)[1..] == PutLE(n / 256, width - 1);
      LittleEndianRoundTrip(n / 256, width - 1);
    }
  }

  const THREE := [Data, Data, Data]

  function Typed3(a: Bytes, b: Bytes, c: Bytes): seq<Value> {
    [Blob(a), Blob(b), Blob(c)]
  }

  lemma ThreeBlobs(a: Bytes, b: Bytes, c: Bytes)
    ensures Typed(THREE, Typed3(a, b, c)) && Encoded(THREE, Typed3(a, b, c)) == [a, b, c]
  {
  }

  // ------------------------------------------------------------------ buckets

  /** The records the three buckets describe. */
  ghost predicate Mirrored(kv: Bucket, idx: Bucket, sig: Bucket, m: map<Bytes, Values>) {
    && kv.Keys == m.Keys && idx.Keys == m.Keys && sig.Keys == m.Keys
    && forall k | k in m :: |idx[k]| == 8 && m[k] == [idx[k], kv[k], sig[k]]
  }

  lemma SameKeys(kv: Bucket, idx: Bucket, sig: Bucket, m: map<Bytes, Values>)
    requires Mirrored(kv, idx, sig, m)
    ensures forall k :: k in kv <==> k in m
  {
    assert forall k :: k in kv <==> k in kv.Keys;
    assert forall k :: k in m <==> k in m.Keys;
  }

  lemma StoredAlike(kv: Bucket, idx: Bucket, sig: Bucket, m: map<Bytes, Values>, k: Bytes, i: Bytes, v: Bytes, s: Bytes)
    requires Mirrored(kv, idx, sig, m) && |i| == 8
    ensures Mirrored(kv[k := v], idx[k := i], sig[k := s], m[k := [i, v, s]])
  {
  }

  /** Every value has a well-formed index and a signature. */
  ghost predicate Complete(kv: Bucket, idx: Bucket, sig: Bucket) {
    forall k | k in kv :: k in idx && |idx[k]| == 8 && k in sig
  }

  /** Distinct keys have distinct digests; the source's `Add` panics on two that do not. */
  ghost predicate NoTwins(s: Scheme, keys: set<Bytes>) {
    forall a, b | a in keys && b in keys && s.Path(a) == s.Path(b) :: a == b
  }

  class CollectionDB {
    const coll: Collection
    var kv: Bucket
    var idx: Bucket
    var sig: Bucket

    /** The buckets as they are found on disk, and an empty collection. */
    constructor (sha256: seq<Item> -> Digest, kv: Bucket, idx: Bucket, sig: Bucket)
      ensures this.kv == kv && this.idx == idx && this.sig == sig
      ensures Live() && fresh(coll) && fresh(Foot(coll.shape)) && coll.scheme == Scheme(sha256, THREE)
              && Map(coll.AsTree()) == map[]
    {
      hide Focus, Abs, WellFormed, Empty;
      coll := new Collection.New(Scheme(sha256, THREE));
      this.kv, this.idx, this.sig := kv, idx, sig;
      EmptyWellFormed(Scheme(sha256, THREE));
    }

    /** The buckets and the live tree describe the same map. */
    ghost predicate Valid()
      reads this, coll, coll.scope, Foot(coll.shape)
    {
      Live() && Mirrored(kv, idx, sig, Map(coll.AsTree()))
    }

    /** The collection is at rest, complete and well formed. */
    ghost predicate Live()
      reads coll, coll.scope, Foot(coll.shape)
    {
      && coll.Valid() && !coll.ongoing && coll.scheme.fields == THREE && coll.scope.Contents() == ALL
      && WellFormed(coll.scheme, coll.AsTree())
    }

    /** One record of the collection. */
    method AddRecord(key: Bytes, raw: Bytes, value: Bytes, signature: Bytes) returns (error: Option<Error>)
      requires Live() && key != [] && !Twin(coll.scheme, Map(coll.AsTree()), key)
      modifies coll`shape, Foot(coll.shape)
      ensures Live() && fresh(Foot(coll.shape) - old(Foot(coll.shape)))
      ensures var m := old(Map(coll.AsTree()));
              if key in m then error == Some(KeyCollision) && Map(coll.AsTree()) == m
              else error == None && Map(coll.AsTree()) == m[key := [raw, value, signature]]
    {
      hide Focus, Abs, CollectTree, Manipulate, WellFormed, Twin, Encoded, Typed;
      ghost var s, t := coll.scheme, coll.AsTree();
      ghost var op := Op.Add(key, [raw, value, signature]);
      ThreeBlobs(raw, value, signature);
      Rested(s, t);
      AddAnswers(s, t, op);
      error := coll.Add(key, Typed3(raw, value, signature));
      if error.None? {
        Rested(s, Manipulate(s, false, op, t).t);
      }
    }

    /** `loadAll`: whatever the order of the cursor, it succeeds exactly when every value has a
        well-formed index and a signature, and the collection then mirrors the buckets. */
    method LoadAll(order: seq<Bytes>) returns (ok: bool)
      requires Live() && Map(coll.AsTree()) == map[] && [] !in kv
      requires Lists(order, kv) && NoTwins(coll.scheme, kv.Keys)
      modifies coll`shape, Foot(coll.shape)
      ensures Live() && fresh(Foot(coll.shape) - old(Foot(coll.shape)))
      ensures ok <==> forall k | k in kv :: k in idx && |idx[k]| == 8 && k in sig
      ensures ok ==> forall k | k in kv :: k in Map(coll.AsTree()) && Map(coll.AsTree())[k] == [idx[k], kv[k], sig[k]]
      ensures ok ==> Loaded(kv, idx, sig, order, Map(coll.AsTree()))
    {
      hide Focus, Abs, WellFormed, Twin, NoTwins, Lists, Loaded;
      LoadedNone(kv, idx, sig);
      assert order[..0] == [];
      ghost var made: set<Node> := {};
      for i := 0 to |order|
        invariant Live() && Foot(coll.shape) <= old(Foot(coll.shape)) + made && fresh(made)
        invariant Loaded(kv, idx, sig, order[..i], Map(coll.AsTree()))
      {
        var k := order[i];
        NewKey(coll.scheme, kv, idx, sig, order, i, Map(coll.AsTree()));
        if k !in idx {
          NotComplete(kv, idx, sig, k);
          return false;
        }
        if |idx[k]| != 8 {
          NotComplete(kv, idx, sig, k);
          return false;
        }
        if k !in sig {
          NotComplete(kv, idx, sig, k);
          return false;
        }
        ghost var m := Map(coll.AsTree());
        ghost var before := Foot(coll.shape);
        label Adding:
        var error := AddRecord(k, idx[k], kv[k], sig[k]);
        forall n | n in Foot(coll.shape) - before ensures fresh(n) {
          assert fresh@Adding(n);
        }
        made := made + (Foot(coll.shape) - before);
        if error.Some? {
          return false;
        }
        LoadedStep(kv, idx, sig, order[..i], k, m);
        assert order[..i + 1] == order[..i] + [k];
      }
      assert order[..|order|] == order;
      LoadedAll(kv, idx, sig, order, Map(coll.AsTree()));
      return true;
    }

    /** `Store`: a new key is written to the three buckets and to the collection; a key that is
        already there is refused and changes nothing, the writes to the buckets being rolled back. */
    method Store(key: Bytes, index: Uint64, value: Bytes, signature: Bytes) returns (error: Option<Error>)
      requires Valid() && key != [] && !Twin(coll.scheme, Map(coll.AsTree()), key)
      modifies this`kv, this`idx, this`sig, coll`shape, Foot(coll.shape)
      ensures Valid() && fresh(Foot(coll.shape) - old(Foot(coll.shape)))
      ensures old(key in kv) ==> error == Some(KeyCollision) && kv == old(kv) && idx == old(idx) && sig == old(sig)
      ensures old(key !in kv) ==>
                && error == None && kv == old(kv)[key := value] && sig == old(sig)[key := signature]
                && idx == old(idx)[key := PutLE(index, 8)]
                && Map(coll.AsTree()) == old(Map(coll.AsTree()))[key := [PutLE(index, 8), value, signature]]
    {
      hide WellFormed, Twin, Mirrored, Live, PutLE, Collection.Valid, Collection.AsTree, Map;
      Allocated(coll.shape);
      ghost var m := Map(coll.AsTree());
      SameKeys(kv, idx, sig, m);
      var before := (kv, idx, sig);
      var rawU64 := PutLE(index, 8);
      idx := idx[key := rawU64];
      kv := kv[key := value];
      sig := sig[key := signature];
      label Adding:
      error := AddRecord(key, rawU64, value, signature);
      forall n | n in Foot(coll.shape) && n !in old(Foot(coll.shape)) ensures fresh(n) {
        assert fresh@Adding(n);
      }
      if error.Some? {
        kv, idx, sig := before.0, before.1, before.2;
        assert Valid();
      } else {
        assert key !in before.0;
        StoredAlike(before.0, before.1, before.2, m, key, rawU64, value, signature);
      }
    }

    /** `GetValue`; None is its error. */
    method GetValue(key: Bytes) returns (found: Option<(nat, Bytes, Bytes)>)
      requires Valid() && key != []
      ensures found == if key in kv then Some((GetLE(idx[key]), kv[key], sig[key])) else None
      ensures Valid() && coll.AsTree() == old(coll.AsTree())
    {
      hide Focus, Abs, RecordFrom, Decoded;
      Allocated(coll.shape);
      ghost var t := coll.AsTree();
      Rested(coll.scheme, t);
      ShallowRecord(t, key, coll.scheme.Path(key), 0);
      FullRecord(coll.scheme, t, key);
      var record := Getter(coll, key).Record();
      if !record.Found? {
        return None;
      }
      ThreeBlobs(idx[key], kv[key], sig[key]);
      DecodedEncoded(THREE, Typed3(idx[key], kv[key], sig[key]));
      var hashes := DecodeValues(coll.scheme.fields, record.values);
      if hashes.None? {
        return None;
      }
      var idxRaw := hashes.value[0].bytes;
      if |idxRaw| != 8 {
        return None;
      }
      return Some((GetLE(idxRaw), hashes.value[1].bytes, hashes.value[2].bytes));
    }
  }

  // ------------------------------------------------------------------ loading

  /** The records of the keys a cursor has passed. */
  ghost predicate Loaded(kv: Bucket, idx: Bucket, sig: Bucket, done: seq<Bytes>, m: map<Bytes, Values>) {
    && (forall k :: k in m <==> k in done)
    && forall k | k in done :: k in kv && k in idx && |idx[k]| == 8 && k in sig && m[k] == [idx[k], kv[k], sig[k]]
  }

  /** An order in which a cursor may present the keys of a bucket. */
  ghost predicate Lists(order: seq<Bytes>, kv: Bucket) {
    && (forall k :: k in kv <==> k in order)
    && forall i, j | 0 <= i < j < |order| :: order[i] != order[j]
  }

  lemma LoadedNone(kv: Bucket, idx: Bucket, sig: Bucket)
    ensures Loaded(kv, idx, sig, [], map[])
  {
  }

  lemma NotComplete(kv: Bucket, idx: Bucket, sig: Bucket, k: Bytes)
    requires k in kv && (k in idx && |idx[k]| == 8 ==> k !in sig)
    ensures !Complete(kv, idx, sig)
  {
  }

  lemma LoadedStep(kv: Bucket, idx: Bucket, sig: Bucket, done: seq<Bytes>, k: Bytes, m: map<Bytes, Values>)
    requires Loaded(kv, idx, sig, done, m) && k in kv && k in idx && |idx[k]| == 8 && k in sig
    ensures Loaded(kv, idx, sig, done + [k], m[k := [idx[k], kv[k], sig[k]]])
  {
  }

  lemma LoadedAll(kv: Bucket, idx: Bucket, sig: Bucket, order: seq<Bytes>, m: map<Bytes, Values>)
    requires Loaded(kv, idx, sig, order, m) && Lists(order, kv)
    ensures Complete(kv, idx, sig) && forall k | k in kv :: k in m && m[k] == [idx[k], kv[k], sig[k]]
  {
  }

  lemma NewKey(s: Scheme, kv: Bucket, idx: Bucket, sig: Bucket, order: seq<Bytes>, i: nat, m: map<Bytes, Values>)
    requires i < |order| && Lists(order, kv) && NoTwins(s, kv.Keys) && Loaded(kv, idx, sig, order[..i], m)
    ensures order[i] in kv && order[i] !in m && !Twin(s, m, order[i])
  {
    forall k | k in m
      ensures k in kv && k != order[i]
    {
      var j :| 0 <= j < i && order[..i][j] == k;
      assert order[j] == k;
    }
    assert order[i] in order;
  }

  /** A full, well-formed tree is sound, and collecting with full scope changes nothing in it. */
  lemma Rested(s: Scheme, t: Tree)
    requires WellFormed(s, t)
    ensures Shallow(t, 0) && CollectTree(ALL, t) == t && Sound(t) && Sized(ALL)
  {
    OkShallow(s, false, t, []);
    CollectAll(t);
  }

  lemma FullRecord(s: Scheme, t: Tree, key: Bytes)
    requires WellFormed(s, t) && key != []
    ensures Lookup(s, t, key) == MapRecord(Map(t), key)
  {
    FullKnown(t, s.Path(key), 0);
    KnownRecord(t, key, s.Path(key), 0);
    RecordIsMap(s, false, t, key, []);
  }

  lemma AddAnswers(s: Scheme, t: Tree, op: Op)
    requires WellFormed(s, t) && s.fields == THREE && op.Add? && op.key != [] && |op.values| == 3
            && !Twin(s, Map(t), op.key)
    ensures var r := Manipulate(s, false, op, t);
            if op.key in Map(t) then r == Failed(KeyCollision)
            else r.Done? && WellFormed(s, r.t) && Map(r.t) == Map(t)[op.key := op.values]
  {
    ManipulateRefinesMap(s, op, t);
  }

  // ---------------------------------------------------------------- agreement

  lemma LoadedIsMirrored(kv: Bucket, idx: Bucket, sig: Bucket, order: seq<Bytes>, m: map<Bytes, Values>)
    requires Loaded(kv, idx, sig, order, m) && Lists(order, kv) && idx.Keys == kv.Keys && sig.Keys == kv.Keys
    ensures Mirrored(kv, idx, sig, m)
  {
    assert forall k :: k in kv.Keys <==> k in m.Keys;
  }

  /** `newCollectionDB` on buckets found on disk; None when they cannot be loaded. */
  method NewCollectionDB(sha256: seq<Item> -> Digest, kv: Bucket, idx: Bucket, sig: Bucket, order: seq<Bytes>)
    returns (db: Option<CollectionDB>)
    requires [] !in kv && Lists(order, kv) && NoTwins(Scheme(sha256, THREE), kv.Keys)
    ensures db.Some? <==> Complete(kv, idx, sig)
    ensures db.Some? ==>
              var c := db.value;
              && c.Live() && c.kv == kv && c.idx == idx && c.sig == sig && c.coll.scheme == Scheme(sha256, THREE)
              && Loaded(kv, idx, sig, order, Map(c.coll.AsTree()))
              && (idx.Keys == kv.Keys == sig.Keys ==> c.Valid())
  {
    hide Focus, Abs, WellFormed, Loaded, Lists, NoTwins, Mirrored;
    var c := new CollectionDB(sha256, kv, idx, sig);
    var ok := c.LoadAll(order);
    if !ok {
      return None;
    }
    if idx.Keys == kv.Keys == sig.Keys {
      LoadedIsMirrored(kv, idx, sig, order, Map(c.coll.AsTree()));
    }
    return Some(c);
  }

  lemma MirroredUnique(kv: Bucket, idx: Bucket, sig: Bucket, m1: map<Bytes, Values>, m2: map<Bytes, Values>)
    requires Mirrored(kv, idx, sig, m1) && Mirrored(kv, idx, sig, m2)
    ensures m1 == m2
  {
    assert m1.Keys == m2.Keys;
    assert forall k :: k in m1 <==> k in m1.Keys;
    assert forall k :: k in m2 <==> k in m2.Keys;
  }

  /** Store/reload agreement: two databases with the same buckets, one that grew call by call and
      one loaded in any order of the keys, say, have the same tree and the same root label. */
  lemma SameBucketsSameRoot(a: CollectionDB, b: CollectionDB)
    requires a.Valid() && b.Valid() && a.coll.scheme == b.coll.scheme
    requires a.kv == b.kv && a.idx == b.idx && a.sig == b.sig
    ensures Strip(a.coll.AsTree()) == Strip(b.coll.AsTree()) && a.coll.root.tag == b.coll.root.tag
  {
    var t1, t2 := a.coll.AsTree(), b.coll.AsTree();
    MirroredUnique(a.kv, a.idx, a.sig, Map(t1), Map(t2));
    SameMapSameTree(a.coll.scheme, t1, t2, []);
    RootFacts(a.coll.shape);
    RootFacts(b.coll.shape);
    assert Strip(t1).c.tag == t1.c.tag && Strip(t2).c.tag == t2.c.tag;
  }

  /** No two associations of an up-to-date tree have the same digest. */
  lemma {:induction false} MapHasNoTwins(s: Scheme, t: Tree, p: seq<bool>)
    requires Full(t) && Merkle(s, t, p)
    ensures NoTwins(s, Map(t).Keys)
    decreases t
  {
    if t.Fork? {
      MapHasNoTwins(s, t.left, p + [false]);
      MapHasNoTwins(s, t.right, p + [true]);
      OkBranches(s, false, t, p);
      forall a, b | a in Map(t).Keys && b in Map(t).Keys && s.Path(a) == s.Path(b)
        ensures a == b
      {
        OtherSide(s, false, t, p, s.Path(a));
        assert a in Map(t.left) <==> b in Map(t.left);
      }
    }
  }

  /** A valid database meets everything that loading its buckets asks for. */
  lemma ValidIsComplete(db: CollectionDB)
    requires db.Valid()
    ensures Complete(db.kv, db.idx, db.sig) && db.idx.Keys == db.kv.Keys && db.sig.Keys == db.kv.Keys
    ensures [] !in db.kv && NoTwins(db.coll.scheme, db.kv.Keys)
  {
    var s, t := db.coll.scheme, db.coll.AsTree();
    var m := Map(t);
    forall k | k in db.kv
      ensures k in db.idx && |db.idx[k]| == 8 && k in db.sig && k != []
    {
      assert k in m.Keys && k in db.idx.Keys && k in db.sig.Keys;
      KeysFollow(s, false, t, []);
    }
    MapHasNoTwins(s, t, []);
  }

  /** A live database can be closed and opened again: whatever the order in which the cursor lists the
      keys, its buckets load, and the new collection has the same root label. */
  method Reload(db: CollectionDB, order: seq<Bytes>) returns (again: Option<CollectionDB>)
    requires db.Valid() && Lists(order, db.kv)
    ensures again.Some? && again.value.Valid() && db.Valid()
    ensures again.value.kv == db.kv && again.value.idx == db.idx && again.value.sig == db.sig
    ensures Strip(again.value.coll.AsTree()) == Strip(db.coll.AsTree()) && again.value.coll.root.tag == db.coll.root.tag
  {
    hide Collection.Valid, Collection.AsTree, WellFormed, Mirrored, Complete, Lists, NoTwins, Loaded;
    Allocated(db.coll.shape);
    ValidIsComplete(db);
    again := NewCollectionDB(db.coll.scheme.sha256, db.kv, db.idx, db.sig, order);
    SameBucketsSameRoot(db, again.value);
  }

  /** The index that was stored is the index that comes back. */
  lemma IndexRoundTrip(index: Uint64)
    ensures GetLE(PutLE(index, 8)) == index
  {
    Radixes();
    LittleEndianRoundTrip(index, 8);
  }

  lemma {:induction false} LittleEndian(n: nat, w: nat, j: nat)
    requires j < w
    ensures PutLE(n, w)[j] == n / Radix(j) % 256
    decreases w
  {
    if j > 0 {
      LittleEndian(n / 256, w - 1, j - 1);
      DivideTwice(n, 256, Radix(j - 1));
    }
  }

  lemma {:induction false} PutGetLE(raw: Bytes)
    ensures PutLE(GetLE(raw), |raw|) == raw
  {
    if raw != [] {
      PutGetLE(raw[1..]);
      assert GetLE(raw) % 256 == raw[0] && GetLE(raw) / 256 == GetLE(raw[1..]);
    }
  }

  /** The bytes of a stored index, those of its big endian form in reverse, and the index that eight bytes
      stand for. */
  lemma IndexBytes(index: Uint64, raw: Bytes)
    ensures forall j | 0 <= j < 8 :: PutLE(index, 8)[j] == Eight(index)[7 - j]
    ensures |raw| == 8 ==> (GetLE(raw) == index <==> raw == PutLE(index, 8))
  {
    hide PutLE, PutBE, Eight, Radix;
    EightBytes(index);
    forall j | 0 <= j < 8
      ensures PutLE(index, 8)[j] == Eight(index)[7 - j]
    {
      LittleEndian(index, 8, j);
      BigEndian(index, 8, 7 - j);
    }
    IndexRoundTrip(index);
    PutGetLE(raw);
  }
}
