/** How deep an `Add` digs when it meets another key (collection/manipulators.go). */
module Splitting {
  import opened ByteSlices
  import opened Fields
  import opened Trees
  import opened Rules

  /** The first bit, from d on, in which two paths differ. */
  ghost predicate PartAt(path: Digest, other: Digest, d: nat, c: nat) {
    && d <= c < BITS && Bit(path, c) != Bit(other, c)
    && forall i | d <= i < c :: Bit(path, i) == Bit(other, i)
  }

  /** A chain of inner nodes along a path from depth d to depth c, nothing but placeholders beside it,
      and the two records side by side below its last node. */
  ghost predicate Chained(t: Tree, mine: Cell, theirs: Cell, path: Digest, d: nat, c: nat)
    requires d <= c < BITS
    decreases c - d
  {
    && t.Fork?
    && var step := Bit(path, d);
       if d == c then IsRecord(t.Child(step), mine) && IsRecord(t.Child(!step), theirs)
       else IsEmpty(t.Child(!step)) && Chained(t.Child(step), mine, theirs, path, d + 1, c)
  }

  predicate IsRecord(t: Tree, c: Cell) {
    t.Tip? && t.c.key == c.key && t.c.values == c.values
  }

  predicate IsEmpty(t: Tree) {
    t.Placeholder() && t.c.known
  }

  lemma SplitParts(s: Scheme, og: bool, t: Tree, step: bool)
    requires t.Tip?
    ensures var u := Split(s, og, t, step);
            u.ChildrenKnown() && IsRecord(u.Child(step), t.c) && IsEmpty(u.Child(!step))
  {
  }

  lemma AddClimbs(s: Scheme, og: bool, op: Op, t: Tree, root: bool)
    requires op.Add? && t.Fork?
    ensures var u := Climb(s, og, op, t, root); u.Fork? && u.left == t.left && u.right == t.right
  {
  }

  lemma AddFills(s: Scheme, og: bool, op: Op, t: Tree, path: Digest, d: nat)
    requires op.Add? && IsEmpty(t) && d <= BITS
    ensures var r := AtTip(s, og, op, t, path, d); r.Done? && IsRecord(r.t, t.c.(key := op.key, values := op.values))
  {
  }

  /** The leaf an `Add` runs into is split along the common part of the two paths and no further. */
  lemma {:induction false} SplitsWherePathsPart(s: Scheme, og: bool, op: Op, t: Tree, d: nat, c: nat)
    requires op.Add? && t.Tip? && t.c.key != [] && op.key != [] && t.c.key != op.key
    requires PartAt(s.Path(op.key), s.Path(t.c.key), d, c)
    ensures var r := AtTip(s, og, op, t, s.Path(op.key), d);
            r.Done? && Chained(r.t, t.c.(key := op.key, values := op.values), t.c, s.Path(op.key), d, c)
    decreases c - d
  {
    hide Bit, Update, Scheme.Path, Split, Climb;
    var path := s.Path(op.key);
    var u := Split(s, og, t, Bit(s.Path(t.c.key), d));
    var next := u.Child(Bit(path, d));
    SplitParts(s, og, t, Bit(s.Path(t.c.key), d));
    if d == c { AddFills(s, og, op, next, path, d + 1); }
    var r := Below(s, og, op, next, path, d + 1);
    if r.Done? { AddClimbs(s, og, op, u.WithChild(Bit(path, d), r.t), d == 0); }
    assert AtTip(s, og, op, t, path, d) == Modify(s, og, op, u, path, d);
    assert Below(s, og, op, next, path, d + 1) == AtTip(s, og, op, next, path, d + 1);
    if d < c {
      SplitsWherePathsPart(s, og, op, next, d + 1, c);
      ChainedCells(AtTip(s, og, op, next, path, d + 1).t, next.c.(key := op.key, values := op.values), next.c,
                   t.c.(key := op.key, values := op.values), t.c, path, d + 1, c);
    }
  }

  lemma {:induction false} ChainedCells(t: Tree, a: Cell, b: Cell, a1: Cell, b1: Cell, path: Digest, d: nat, c: nat)
    requires d <= c < BITS && Chained(t, a, b, path, d, c)
    requires a.key == a1.key && a.values == a1.values && b.key == b1.key && b.values == b1.values
    ensures Chained(t, a1, b1, path, d, c)
    decreases c - d
  {
    if d < c {
      ChainedCells(t.Child(Bit(path, d)), a, b, a1, b1, path, d + 1, c);
    }
  }

  lemma {:induction false} FirstDifference(path: Digest, other: Digest, d: nat) returns (c: nat)
    requires d <= BITS && exists i | d <= i < BITS :: Bit(path, i) != Bit(other, i)
    ensures PartAt(path, other, d, c)
    decreases BITS - d
  {
    if d < BITS && Bit(path, d) == Bit(other, d) {
      c := FirstDifference(path, other, d + 1);
    } else {
      c := d;
    }
  }

  /** Two keys with distinct digests part at some bit of the digest, below the node they share; the
      new record ends up right below that bit, whose index never exceeds 255. */
  lemma AddSplits(s: Scheme, og: bool, op: Op, t: Tree, p: seq<bool>) returns (c: nat)
    requires op.Add? && t.Tip? && t.c.key != [] && op.key != [] && s.Path(t.c.key) != s.Path(op.key)
    requires Follows(s.Path(op.key), p) && Follows(s.Path(t.c.key), p)
    ensures PartAt(s.Path(op.key), s.Path(t.c.key), |p|, c)
    ensures var r := AtTip(s, og, op, t, s.Path(op.key), |p|);
            r.Done? && Chained(r.t, t.c.(key := op.key, values := op.values), t.c, s.Path(op.key), |p|, c)
  {
    hide Bit, Chained, AtTip;
    var path, other := s.Path(op.key), s.Path(t.c.key);
    if forall i | |p| <= i < BITS :: Bit(path, i) == Bit(other, i) {
      forall i: nat | i < BITS
        ensures Bit(path, i) == Bit(other, i)
      {
        if i < |p| {
          assert Bit(path, i) == p[i] && Bit(other, i) == p[i];
        }
      }
      DigestFromBits(path, other);
    }
    c := FirstDifference(path, other, |p|);
    SplitsWherePathsPart(s, og, op, t, |p|, c);
  }
}
