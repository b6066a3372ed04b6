/** A pruned copy behaves as the full tree wherever it does not ask for a proof
    (collection/manipulators.go, collection/getters.go). */
module Pruning {
  import opened ByteSlices
  import opened Fields
  import opened Trees
  import opened Rules
  import opened Refinement

  /** The same node, up to the dirty mark. */
  predicate SameCell(a: Cell, b: Cell) {
    a.(dirty := false) == b.(dirty := false)
  }

  /** `small` is `big` with some up-to-date subtrees replaced by unknown nodes of the same label;
      where something is missing right below a node, the full subtree is up to date. */
  ghost predicate Prunes(s: Scheme, small: Tree, big: Tree, p: seq<bool>)
    decreases small
  {
    if !small.c.known then
      small.Tip? && small.c.key == [] && small.c.tag == big.c.tag && Merkle(s, big, p)
    else
      match small
      case Tip(c, _) => big.Tip? && SameCell(c, big.c)
      case Fork(c, _, l, r) =>
        && big.Fork? && SameCell(c, big.c) && (!small.ChildrenKnown() ==> Merkle(s, big, p))
        && Prunes(s, l, big.left, p + [false]) && Prunes(s, r, big.right, p + [true])
  }

  /** The same call on both trees: the pruned one asks for a proof, or both refuse alike, or both
      succeed and the new trees are again a pruning and its full tree. */
  ghost predicate Agree(s: Scheme, small: Outcome, big: Outcome, p: seq<bool>) {
    || small == Failed(ProofNeeded)
    || (small.Failed? && small == big)
    || (small.Done? && big.Done? && small.t.c.known && Prunes(s, small.t, big.t, p))
  }

  ghost predicate PrunedFork(s: Scheme, small: Tree, big: Tree, p: seq<bool>) {
    && small.Fork? && big.Fork? && small.c.known && SameCell(small.c, big.c)
    && Prunes(s, small.left, big.left, p + [false]) && Prunes(s, small.right, big.right, p + [true])
  }

  lemma ClimbPrunes(s: Scheme, og: bool, op: Op, small: Tree, big: Tree, p: seq<bool>)
    requires PrunedFork(s, small, big, p) && small.ChildrenKnown()
    ensures var a, b := Climb(s, og, op, small, |p| == 0), Climb(s, og, op, big, |p| == 0);
            a.c.known && Prunes(s, a, b, p)
  {
  }

  lemma SplitPrunes(s: Scheme, og: bool, small: Tree, big: Tree, step: bool, p: seq<bool>)
    requires small.Tip? && big.Tip? && small.c.known && SameCell(small.c, big.c)
    ensures var a, b := Split(s, og, small, step), Split(s, og, big, step);
            PrunedFork(s, a, b, p) && a.ChildrenKnown()
  {
  }

  lemma {:induction false} ModifyPrunes(s: Scheme, og: bool, op: Op, small: Tree, big: Tree, path: Digest, p: seq<bool>)
    requires |p| <= BITS && PrunedFork(s, small, big, p)
    ensures Agree(s, Modify(s, og, op, small, path, |p|), Modify(s, og, op, big, path, |p|), p)
    decreases BITS - |p|, 0
  {
    hide Climb, Below, Bit;
    if small.ChildrenKnown() && |p| < BITS {
      var step := Bit(path, |p|);
      BelowPrunes(s, og, op, small.Child(step), big.Child(step), path, p + [step]);
      var a := Below(s, og, op, small.Child(step), path, |p| + 1);
      var b := Below(s, og, op, big.Child(step), path, |p| + 1);
      if a.Done? {
        ClimbPrunes(s, og, op, small.WithChild(step, a.t), big.WithChild(step, b.t), p);
      }
    }
  }

  lemma {:induction false} BelowPrunes(s: Scheme, og: bool, op: Op, small: Tree, big: Tree, path: Digest, p: seq<bool>)
    requires |p| <= BITS && small.c.known && Prunes(s, small, big, p)
    ensures Agree(s, Below(s, og, op, small, path, |p|), Below(s, og, op, big, path, |p|), p)
    decreases BITS - |p|, 2
  {
    if small.Fork? {
      ModifyPrunes(s, og, op, small, big, path, p);
    } else if op.Add? && small.c.key != [] && small.c.key != op.key && |p| < BITS {
      var step := Bit(s.Path(small.c.key), |p|);
      SplitPrunes(s, og, small, big, step, p);
      ModifyPrunes(s, og, op, Split(s, og, small, step), Split(s, og, big, step), path, p);
    }
  }

  /** Pruned-copy simulation: a call on a pruned copy asks for a proof, or gives the answer of the
      full tree and leaves a pruned copy of the full tree's new state, root label included. */
  lemma ManipulatePrunes(s: Scheme, og: bool, op: Op, small: Tree, big: Tree)
    requires Prunes(s, small, big, [])
    ensures var a, b := Manipulate(s, og, op, small), Manipulate(s, og, op, big);
            Agree(s, a, b, []) && (a.Done? ==> a.t.c.tag == b.t.c.tag)
  {
    if small.c.known && small.Fork? {
      ModifyPrunes(s, og, op, small, big, s.Path(op.key), []);
    }
  }

  // ------------------------------------------------------------------ records

  /** What `Get(key).Record()` reports; `Crashed` is a bit index past the digest. */
  datatype Record = Hidden | Found(values: Values) | Absent | Crashed

  function RecordFrom(t: Tree, key: Bytes, path: Digest, d: nat): Record
    decreases t
  {
    if !t.c.known then Hidden
    else
      match t
      case Tip(c, _) => if c.key == key then Found(c.values) else Absent
      case Fork(_, _, l, r) =>
        if d >= BITS then Crashed
        else if Bit(path, d) then RecordFrom(r, key, path, d + 1) else RecordFrom(l, key, path, d + 1)
  }

  function Lookup(s: Scheme, t: Tree, key: Bytes): Record {
    RecordFrom(t, key, s.Path(key), 0)
  }

  /** The report a map deserves. */
  function MapRecord(m: map<Bytes, Values>, key: Bytes): Record {
    if key in m then Found(m[key]) else Absent
  }

  lemma {:induction false} RecordIsMap(s: Scheme, lazy: bool, t: Tree, key: Bytes, p: seq<bool>)
    requires key != [] && Ok(s, lazy, t, p) && Follows(s.Path(key), p)
    ensures var r := RecordFrom(t, key, s.Path(key), |p|); r == Hidden || r == MapRecord(Map(t), key)
    decreases t
  {
    hide Bit;
    if t.Fork? {
      var path := s.Path(key);
      var step := Bit(path, |p|);
      var inner := lazy && t.c.dirty && t.ChildrenKnown();
      FollowsStep(path, p, step);
      RecordIsMap(s, inner, t.Child(step), key, p + [step]);
      KeysFollow(s, inner, t.Child(!step), p + [!step]);
      if key in Map(t.Child(!step)) {
        ShorterPrefix(path, p, !step);
      }
    }
  }

  lemma {:induction false} RecordPrunes(s: Scheme, small: Tree, big: Tree, key: Bytes, path: Digest, p: seq<bool>)
    requires Prunes(s, small, big, p)
    ensures var r := RecordFrom(small, key, path, |p|); r == Hidden || r == RecordFrom(big, key, path, |p|)
    decreases small
  {
    hide Bit;
    if small.c.known && small.Fork? && |p| < BITS {
      var step := Bit(path, |p|);
      RecordPrunes(s, small.Child(step), big.Child(step), key, path, p + [step]);
    }
  }

  // -------------------------------------------------------------- known paths

  /** Every node on the path is known, and so are their siblings. */
  ghost predicate KnownPath(t: Tree, path: Digest, d: nat)
    decreases t
  {
    t.c.known && (t.Fork? ==> t.ChildrenKnown() && (d < BITS ==> KnownPath(t.Child(Bit(path, d)), path, d + 1)))
  }

  lemma {:induction false} KnownRecord(t: Tree, key: Bytes, path: Digest, d: nat)
    requires KnownPath(t, path, d)
    ensures RecordFrom(t, key, path, d) != Hidden
    decreases t
  {
    hide Bit;
    if t.Fork? && d < BITS {
      KnownRecord(t.Child(Bit(path, d)), key, path, d + 1);
    }
  }

  /** On a known path no proof is needed, and whatever key a call changes, a known path stays known. */
  lemma {:induction false} ModifyKnown(s: Scheme, og: bool, op: Op, t: Tree, path: Digest, other: Digest, d: nat)
    requires d <= BITS && t.Fork? && KnownPath(t, other, d)
    ensures var r := Modify(s, og, op, t, path, d); r.Done? ==> KnownPath(r.t, other, d)
    ensures path == other ==> Modify(s, og, op, t, path, d) != Failed(ProofNeeded)
    decreases BITS - d, 0
  {
    hide Bit;
    if d < BITS {
      var step := Bit(path, d);
      if step == Bit(other, d) {
        BelowKnown(s, og, op, t.Child(step), path, other, d + 1);
      } else {
        BelowStaysKnown(s, og, op, t.Child(step), path, d + 1);
      }
    }
  }

  lemma {:induction false} BelowKnown(s: Scheme, og: bool, op: Op, t: Tree, path: Digest, other: Digest, d: nat)
    requires d <= BITS && KnownPath(t, other, d)
    ensures var r := Below(s, og, op, t, path, d); r.Done? ==> KnownPath(r.t, other, d)
    ensures path == other ==> Below(s, og, op, t, path, d) != Failed(ProofNeeded)
    decreases BITS - d, 2
  {
    hide Bit;
    if t.Fork? {
      ModifyKnown(s, og, op, t, path, other, d);
    } else if op.Add? && t.c.key != [] && t.c.key != op.key && d < BITS {
      ModifyKnown(s, og, op, Split(s, og, t, Bit(s.Path(t.c.key), d)), path, other, d);
    }
  }

  lemma {:induction false} BelowStaysKnown(s: Scheme, og: bool, op: Op, t: Tree, path: Digest, d: nat)
    requires d <= BITS && t.c.known
    ensures var r := Below(s, og, op, t, path, d); r.Done? ==> r.t.c.known
    decreases BITS - d, 2
  {
    hide Bit;
    if op.Add? && t.Tip? && t.c.key != [] && t.c.key != op.key && d < BITS {
      assert Below(s, og, op, t, path, d) == Modify(s, og, op, Split(s, og, t, Bit(s.Path(t.c.key), d)), path, d);
    }
  }
}
