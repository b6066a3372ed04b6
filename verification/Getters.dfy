/** Reading a collection on the heap: records, proofs and navigation
    (collection/getters.go, collection/record.go, collection/navigators.go). */
module Getters {
  import opened ByteSlices
  import opened Fields
  import opened Trees
  import opened Pruning
  import opened Proofs
  import opened Scopes
  import opened Navigators
  import opened Nodes
  import opened Collections

  // ------------------------------------------------------------ typed values

  /** Every raw value decoded by its field; None is the error of `Values`. */
  function DecodedFrom(fields: seq<Field>, raw: Values, i: nat): Option<seq<Value>>
    requires i <= |fields| == |raw|
    decreases |fields| - i
  {
    if i == |fields| then Some([])
    else
      match fields[i].Decode(raw[i])
      case None => None
      case Some(v) =>
        match DecodedFrom(fields, raw, i + 1)
        case None => None
        case Some(rest) => Some([v] + rest)
  }

  function Decoded(fields: seq<Field>, raw: Values): Option<seq<Value>> {
    if |raw| != |fields| then None else DecodedFrom(fields, raw, 0)
  }

  lemma {:induction false} DecodedFromEncoded(fields: seq<Field>, values: seq<Value>, i: nat)
    requires Typed(fields, values) && i <= |fields|
    ensures DecodedFrom(fields, Encoded(fields, values), i) == Some(values[i..])
    decreases |fields| - i
  {
    if i == |fields| {
      assert values[i..] == [];
    } else {
      FieldRoundTrip(fields[i], values[i]);
      DecodedFromEncoded(fields, values, i + 1);
      assert values[i..] == [values[i]] + values[i + 1..];
    }
  }

  /** What a caller stores with `Add` comes back from `Values`, of a record and of a proof alike. */
  lemma DecodedEncoded(fields: seq<Field>, values: seq<Value>)
    requires Typed(fields, values)
    ensures Decoded(fields, Encoded(fields, values)) == Some(values)
  {
    DecodedFromEncoded(fields, values, 0);
    assert values[0..] == values;
  }

  /** The loop at the end of both `Values` methods. */
  method DecodeValues(fields: seq<Field>, raw: Values) returns (values: Option<seq<Value>>)
    ensures values == Decoded(fields, raw)
  {
    if |raw| != |fields| {
      return None;
    }
    var out: seq<Value> := [];
    ghost var all := DecodedFrom(fields, raw, 0);
    assert all.Some? ==> [] + all.value == all.value;
    for index := 0 to |raw|
      invariant |out| == index
      invariant Decoded(fields, raw)
             == match DecodedFrom(fields, raw, index) case None => None case Some(rest) => Some(out + rest)
    {
      match fields[index].Decode(raw[index])
      case None => return None;
      case Some(v) =>
        ghost var rest := DecodedFrom(fields, raw, index + 1);
        assert rest.Some? ==> out + ([v] + rest.value) == (out + [v]) + rest.value;
        out := out + [v];
    }
    assert out + [] == out;
    return Some(out);
  }

  // -------------------------------------------------------------------- Get(key)

  /** A cursor somewhere in the tree. */
  ghost predicate Reading(sh: Shape, parent: Node?, cursor: Node)
    reads Foot(sh)
  {
    Distinct(sh) && Linked(sh, parent) && sh.n == cursor
  }

  /** What a reader sees at the cursor, and where its next step leads. */
  lemma Seen(sh: Shape, parent: Node?, cursor: Node)
    requires Reading(sh, parent, cursor)
    ensures var t := Abs(sh);
            && t.c == CellOf(cursor) && (t.Tip? <==> cursor.left == null)
            && (t.Tip? <==> cursor.right == null)
            && (t.Fork? ==>
                  && sh.kids.Kids? && cursor.left == sh.kids.l.n && cursor.right == sh.kids.r.n
                  && Reading(sh.kids.l, cursor, cursor.left) && Reading(sh.kids.r, cursor, cursor.right)
                  && t.left == Abs(sh.kids.l) && t.right == Abs(sh.kids.r)
                  && t.left.c == CellOf(cursor.left) && t.right.c == CellOf(cursor.right)
                  && t.ChildrenKnown() == (cursor.left.known && cursor.right.known))
  {
    Opened(sh, parent);
  }

  /** `dumpnode`. */
  function DumpNode(node: Node): Dump
    requires node.left == null <==> node.right == null
    reads node, node.left, node.right
  {
    if node.left == null || node.right == null then Dump(node.tag, node.key, node.values, Zero(), Zero())
    else Dump(node.tag, [], node.values, node.left.tag, node.right.tag)
  }

  lemma DumpSeen(sh: Shape, parent: Node?, cursor: Node)
    requires Reading(sh, parent, cursor)
    ensures (cursor.left == null <==> cursor.right == null) && DumpNode(cursor) == DumpOf(Abs(sh))
  {
    Seen(sh, parent, cursor);
  }

  lemma WithinDigest(t: Tree, key: Bytes, path: Digest, d: nat)
    requires t.Fork? && t.c.known && RecordFrom(t, key, path, d) != Crashed
    ensures d < BITS
  {
  }

  datatype Getter = Getter(collection: Collection, key: Bytes) {

    /** `Get(key).Record()`; the one excluded case is a bit index past the digest. */
    method Record() returns (record: Pruning.Record)
      requires collection.Valid() && Lookup(collection.scheme, collection.AsTree(), key) != Crashed
      ensures record == old(Lookup(collection.scheme, collection.AsTree(), key))
    {
      hide Distinct, Linked, Abs, Bit;
      var path := collection.scheme.Path(key);
      var depth := 0;
      var cursor: Node := collection.root;
      ghost var sh, parent: Node? := collection.shape, null;
      ghost var goal := Lookup(collection.scheme, collection.AsTree(), key);
      while true
        invariant 0 <= depth && Reading(sh, parent, cursor)
        invariant RecordFrom(Abs(sh), key, path, depth) == goal
        decreases sh
      {
        Seen(sh, parent, cursor);
        if !cursor.known {
          return Hidden;
        }
        if cursor.Leaf() {
          if cursor.key == key {
            return Found(cursor.values);
          } else {
            return Absent;
          }
        } else {
          WithinDigest(Abs(sh), key, path, depth);
          if Bit(path, depth) {
            sh, parent := sh.kids.r, cursor;
            cursor := cursor.right;
          } else {
            sh, parent := sh.kids.l, cursor;
            cursor := cursor.left;
          }
          depth := depth + 1;
        }
      }
    }

    /** `Get(key).Proof()`. */
    method Proof() returns (proof: Option<Proofs.Proof>)
      requires collection.Valid() && Shallow(collection.AsTree(), 0)
      requires var t := collection.AsTree(); t.c.known ==> t.Fork?
      ensures proof == old(Prove(collection.scheme, collection.AsTree(), key))
    {
      hide Distinct, Linked, Abs, Bit, DumpNode, DumpOf;
      var cursor: Node := collection.root;
      ghost var sh, parent: Node? := collection.shape, null;
      Seen(sh, parent, cursor);
      DumpSeen(sh, parent, cursor);
      var root := DumpNode(cursor);
      var path := collection.scheme.Path(key);
      var depth := 0;
      if !cursor.known {
        return None;
      }
      var steps: seq<ProofStep> := [];
      ghost var goal := StepsFrom(Abs(sh), path, 0);
      assert goal.Some? ==> [] + goal.value == goal.value;
      while true
        invariant 0 <= depth <= BITS && Reading(sh, parent, cursor) && cursor.left != null
        invariant Shallow(Abs(sh), depth) && Abs(sh).Fork?
        invariant goal == Prepend(steps, StepsFrom(Abs(sh), path, depth))
        decreases sh
      {
        Seen(sh, parent, cursor);
        if !cursor.left.known || !cursor.right.known {
          return None;
        }
        DumpSeen(sh.kids.l, cursor, cursor.left);
        DumpSeen(sh.kids.r, cursor, cursor.right);
        ghost var t, before := Abs(sh), steps;
        var step := ProofStep(DumpNode(cursor.left), DumpNode(cursor.right));
        steps := steps + [step];
        if Bit(path, depth) {
          sh, parent := sh.kids.r, cursor;
          cursor := cursor.right;
        } else {
          sh, parent := sh.kids.l, cursor;
          cursor := cursor.left;
        }
        PrependStep(before, step, t, path, depth);
        depth := depth + 1;
        Seen(sh, parent, cursor);
        if cursor.Leaf() {
          return Some(Proofs.Proof(key, root, steps));
        }
      }
    }
  }

  ghost function Prepend(steps: seq<ProofStep>, r: Option<seq<ProofStep>>): Option<seq<ProofStep>> {
    match r case None => None case Some(rest) => Some(steps + rest)
  }

  lemma PrependStep(steps: seq<ProofStep>, step: ProofStep, t: Tree, path: Digest, d: nat)
    requires t.Fork? && d < BITS && t.ChildrenKnown() && step == ProofStep(DumpOf(t.left), DumpOf(t.right))
    ensures var next := t.Child(Bit(path, d));
            Prepend(steps, StepsFrom(t, path, d))
            == if next.Tip? then Some(steps + [step]) else Prepend(steps + [step], StepsFrom(next, path, d + 1))
  {
    var next := t.Child(Bit(path, d));
    if next.Fork? && StepsFrom(next, path, d + 1).Some? {
      var rest := StepsFrom(next, path, d + 1).value;
      assert steps + ([step] + rest) == (steps + [step]) + rest;
    }
  }

  // ---------------------------------------------------- Navigate(field, value)

  /** `Stake64.Navigate` and `Data.Navigate`: a step to the right rewrites the query in place. */
  method NavigateField(field: Field, query: array<Byte>, parent: Bytes, left: Bytes, right: Bytes)
    returns (step: Option<bool>)
    modifies query
    ensures match field.Navigate(old(query[..]), parent, left, right)
            case Lost => step == None && query[..] == old(query[..])
            case GoLeft => step == Some(false) && query[..] == old(query[..])
            case GoRight(rest) => step == Some(true) && query[..] == rest
  {
    match field
    case Data => return None;
    case Stake64 =>
      var q, p := DecodeStake(query[..]), DecodeStake(parent);
      if q.None? || p.None? || q.value >= p.value {
        return None;
      }
      var l := DecodeStake(left);
      if l.None? {
        return None;
      }
      if q.value >= l.value {
        var rest := EncodeStake(q.value - l.value);
        for index := 0 to query.Length
          invariant query[..index] == rest[..index]
        {
          query[index] := rest[index];
        }
        assert query[..] == rest;
        return Some(true);
      } else {
        return Some(false);
      }
  }

  datatype Navigator = Navigator(collection: Collection, field: nat, query: array<Byte>) {

    /** `Navigate(field, value).Record()`: the navigator's own query is used up on the way. */
    method Record() returns (landing: Landing)
      requires collection.Valid() && field < |collection.scheme.fields|
      modifies query
      ensures collection.Valid() && collection.AsTree() == old(collection.AsTree())
      ensures landing == NavigateFrom(collection.scheme, field, collection.AsTree(), old(query[..]))
      ensures landing.Arrived? ==> query[..] == landing.query
    {
      hide Distinct, Linked, Abs, Field.Navigate;
      Allocated(collection.shape);
      var cursor: Node := collection.root;
      ghost var sh, parent: Node? := collection.shape, null;
      while true
        invariant collection.Valid() && collection.AsTree() == old(collection.AsTree())
        invariant Reading(sh, parent, cursor)
        invariant NavigateFrom(collection.scheme, field, Abs(sh), query[..])
               == NavigateFrom(collection.scheme, field, collection.AsTree(), old(query[..]))
        decreases sh
      {
        Seen(sh, parent, cursor);
        if !cursor.known {
          return Unseen;
        }
        if cursor.Leaf() {
          return Arrived(CellOf(cursor), query[..]);
        } else {
          if !cursor.left.known || !cursor.right.known {
            return Unseen;
          }
          Allocated(sh.kids.l);
          Allocated(sh.kids.r);
          var step := NavigateField(collection.scheme.fields[field], query, At(cursor.values, field),
                                    At(cursor.left.values, field), At(cursor.right.values, field));
          match step
          case None => return Astray;
          case Some(right) =>
            if right {
              sh, parent := sh.kids.r, cursor;
              cursor := cursor.right;
            } else {
              sh, parent := sh.kids.l, cursor;
              cursor := cursor.left;
            }
        }
      }
    }
  }
}
