/** Scopes and garbage collection (collection/scope.go, collection/transaction.go). */
module Scopes {
  import opened ByteSlices
  import opened Fields
  import opened Trees
  import opened Rules
  import opened Refinement
  import opened Pruning

  datatype Mask = Mask(value: Bytes, bits: int)

  /** The contents of a scope. */
  datatype View = View(masks: seq<Mask>, all: bool)

  function Least(a: int, b: int): int {
    if a < b then a else b
  }

  /** Masks with a bit for every bit they announce; matching a longer one runs off its buffer. */
  predicate Sized(v: View) {
    forall m | m in v.masks :: m.bits <= 8 * |m.value| && m.bits <= BITS
  }

  ghost predicate MaskMatches(m: Mask, path: Digest, bits: int)
    requires m.bits <= 8 * |m.value| && m.bits <= BITS
  {
    SamePrefix(path, m.value, Least(bits, m.bits))
  }

  ghost predicate Matches(v: View, path: Digest, bits: int)
    requires Sized(v)
  {
    if v.masks == [] then v.all else exists i | 0 <= i < |v.masks| :: MaskMatches(v.masks[i], path, bits)
  }

  class Scope {
    var masks: seq<Mask>
    var all: bool

    constructor ()
      ensures Contents() == View([], false)
    {
      masks, all := [], false;
    }

    /** `clone`. */
    constructor Clone(from: Scope)
      ensures Contents() == from.Contents()
    {
      masks, all := from.masks, from.all;
    }

    function Contents(): View
      reads this
    {
      View(masks, all)
    }

    method All()
      modifies this
      ensures Contents() == View([], true)
    {
      all := true;
      masks := [];
    }

    method None()
      modifies this
      ensures Contents() == View([], false)
    {
      all := false;
      masks := [];
    }

    method Add(value: Bytes, bits: int)
      modifies this
      ensures Contents() == View(old(masks) + [Mask(value, bits)], old(all))
    {
      masks := masks + [Mask(value, bits)];
    }

    method MatchPath(path: Digest, bits: int) returns (hit: bool)
      requires Sized(Contents())
      ensures hit <==> Matches(Contents(), path, bits)
    {
      if |masks| == 0 {
        return all;
      }
      for index := 0 to |masks|
        invariant forall i | 0 <= i < index :: !MaskMatches(masks[i], path, bits)
      {
        var m := masks[index];
        assert m in Contents().masks;
        var same := Match(path, m.value, Least(bits, m.bits));
        if same {
          assert MaskMatches(masks[index], path, bits);
          return true;
        }
      }
      return false;
    }
  }

  // -------------------------------------------------------------- the collector

  /** Inner nodes end before the bits of a digest do. */
  predicate Shallow(t: Tree, d: nat) {
    t.Fork? ==> d < BITS && Shallow(t.left, d + 1) && Shallow(t.right, d + 1)
  }

  function Forget(t: Tree): Tree {
    Tip(t.c.(known := false, key := [], values := []), t.saved)
  }

  /** `Collect`'s explorer, at the node that bit `bit` of the path leads to. */
  ghost function CollectBelow(v: View, t: Tree, path: Digest, bit: nat): Tree
    requires Sized(v) && bit < BITS && Shallow(t, bit + 1)
    decreases t
  {
    if !t.c.known then t
    else if bit > 0 && !Matches(v, path, bit - 1) then Forget(t)
    else
      match t
      case Tip(_, _) => t
      case Fork(c, saved, l, r) =>
        var left: Digest := SetBit(path, bit + 1, false);
        var right: Digest := SetBit(left, bit + 1, true);
        Fork(c, saved, CollectBelow(v, l, left, bit + 1), CollectBelow(v, r, right, bit + 1))
  }

  ghost function CollectTree(v: View, t: Tree): Tree
    requires Sized(v) && Shallow(t, 0)
  {
    if !t.c.known || t.Tip? then t
    else
      var left: Digest := SetBit(Zero(), 0, false);
      var right: Digest := SetBit(left, 0, true);
      if !Matches(v, left, 0) && !Matches(v, right, 0) then Forget(t)
      else Fork(t.c, t.saved, CollectBelow(v, t.left, SetBit(right, 0, false), 0),
                              CollectBelow(v, t.right, SetBit(SetBit(right, 0, false), 0, true), 0))
  }

  // ------------------------------------------------ what the collector computes

  /** Some mask of the scope agrees with these steps as far as both go. */
  ghost predicate InScope(v: View, steps: seq<bool>)
    requires Sized(v)
  {
    if v.masks == [] then v.all
    else exists i | 0 <= i < |v.masks| :: MaskAgrees(v.masks[i], steps)
  }

  ghost predicate MaskAgrees(m: Mask, steps: seq<bool>)
    requires m.bits <= 8 * |m.value|
  {
    forall i: nat | i < |steps| && i < m.bits :: Bit(m.value, i) == steps[i]
  }

  /** The tree with every node forgotten that lies two steps or more below the scope. */
  ghost function Keep(v: View, t: Tree, p: seq<bool>): Tree
    requires Sized(v)
    decreases t
  {
    if !t.c.known then t
    else if !InScope(v, p[..if |p| < 2 then 0 else |p| - 2]) then Forget(t)
    else
      match t
      case Tip(_, _) => t
      case Fork(c, saved, l, r) => Fork(c, saved, Keep(v, l, p + [false]), Keep(v, r, p + [true]))
  }

  lemma MatchesIsInScope(v: View, path: Digest, p: seq<bool>, bits: nat)
    requires Sized(v) && Follows(path, p) && bits <= |p|
    ensures Matches(v, path, bits) <==> InScope(v, p[..bits])
  {
    forall i | 0 <= i < |v.masks|
      ensures MaskMatches(v.masks[i], path, bits) <==> MaskAgrees(v.masks[i], p[..bits])
    {
      var m := v.masks[i];
      assert m in v.masks;
      if MaskMatches(m, path, bits) {
        forall j: nat | j < |p[..bits]| && j < m.bits ensures Bit(m.value, j) == p[..bits][j] {
          assert Bit(path, j) == Bit(m.value, j);
        }
      }
      if MaskAgrees(m, p[..bits]) {
        forall j: nat | j < Least(bits, m.bits) ensures Bit(path, j) == Bit(m.value, j) {
          assert Bit(m.value, j) == p[..bits][j];
        }
      }
    }
  }

  lemma FollowsSetBit(path: Digest, p: seq<bool>, step: bool)
    requires Follows(path, p) && |p| < BITS
    ensures Follows(SetBit(path, |p|, step), p + [step])
  {
    hide Bit;
    forall i: nat | i < |p + [step]|
      ensures Bit(SetBit(path, |p|, step), i) == (p + [step])[i]
    {
      SetBitSets(path, |p|, step, i);
    }
  }

  lemma FollowsRewrite(path: Digest, p: seq<bool>, step: bool)
    requires |p| < BITS && Follows(path, p + [!step])
    ensures Follows(SetBit(path, |p|, step), p + [step])
  {
    ShorterPrefix(path, p, !step);
    FollowsSetBit(path, p, step);
  }

  lemma {:induction false} CollectBelowIsKeep(v: View, t: Tree, path: Digest, p: seq<bool>)
    requires Sized(v) && 1 <= |p| <= BITS && Shallow(t, |p|) && Follows(path, p)
    requires InScope(v, [])
    ensures CollectBelow(v, t, path, |p| - 1) == Keep(v, t, p)
    decreases t
  {
    hide Bit, InScope, Matches;
    if |p| >= 2 { MatchesIsInScope(v, path, p, |p| - 2); }
    assert |p| < 2 ==> p[..0] == [];
    if t.Fork? {
      var left: Digest := SetBit(path, |p|, false);
      FollowsSetBit(path, p, false);
      FollowsRewrite(left, p, true);
      CollectBelowIsKeep(v, t.left, left, p + [false]);
      CollectBelowIsKeep(v, t.right, SetBit(left, |p|, true), p + [true]);
    }
  }

  /** The collector keeps exactly the nodes whose path, two steps up, lies in the scope. */
  lemma CollectIsKeep(v: View, t: Tree)
    requires Sized(v) && Shallow(t, 0) && (t.c.known ==> t.Fork?)
    ensures CollectTree(v, t) == Keep(v, t, [])
  {
    hide Bit, Matches, InScope;
    var left: Digest := SetBit(Zero(), 0, false);
    var right: Digest := SetBit(left, 0, true);
    MatchesIsInScope(v, left, [], 0);
    MatchesIsInScope(v, right, [], 0);
    var e: seq<bool> := [];
    assert e[..0] == e;
    if t.c.known && InScope(v, []) {
      var left1: Digest := SetBit(right, 0, false);
      FollowsSetBit(right, [], false);
      FollowsRewrite(left1, [], true);
      assert e + [false] == [false] && e + [true] == [true];
      CollectBelowIsKeep(v, t.left, left1, [false]);
      CollectBelowIsKeep(v, t.right, SetBit(left1, 0, true), [true]);
    }
  }

  lemma {:induction false} KeepPrunes(s: Scheme, v: View, small: Tree, big: Tree, p: seq<bool>)
    requires Sized(v) && Prunes(s, small, big, p) && Merkle(s, big, p)
    ensures Prunes(s, Keep(v, small, p), big, p) && Keep(v, small, p).c.tag == small.c.tag
    decreases small
  {
    hide InScope;
    if small.c.known && small.Fork? {
      KeepPrunes(s, v, small.left, big.left, p + [false]);
      KeepPrunes(s, v, small.right, big.right, p + [true]);
    }
  }

  /** Collecting a pruned copy of an up-to-date tree gives a pruned copy of the same tree, with the
      same root label. */
  lemma CollectPrunes(s: Scheme, v: View, small: Tree, big: Tree)
    requires Sized(v) && Shallow(small, 0) && (small.c.known ==> small.Fork?)
    requires Prunes(s, small, big, []) && Merkle(s, big, [])
    ensures Prunes(s, CollectTree(v, small), big, []) && CollectTree(v, small).c.tag == small.c.tag
  {
    CollectIsKeep(v, small);
    KeepPrunes(s, v, small, big, []);
  }

  /** A full-scope collection forgets nothing. */
  lemma {:induction false} KeepAll(v: View, t: Tree, p: seq<bool>)
    requires v == View([], true)
    ensures Keep(v, t, p) == t
    decreases t
  {
    if t.Fork? {
      KeepAll(v, t.left, p + [false]);
      KeepAll(v, t.right, p + [true]);
    }
  }

  /** An empty scope forgets everything but the root label. */
  lemma KeepNone(t: Tree)
    requires t.c.known
    ensures Keep(View([], false), t, []) == Forget(t)
  {
  }

  /** The key's path agrees with a mask of the scope. */
  ghost predicate Covers(v: View, path: Digest)
    requires Sized(v)
  {
    exists i | 0 <= i < |v.masks| :: SamePrefix(path, v.masks[i].value, v.masks[i].bits)
  }

  lemma CoversSteps(v: View, path: Digest, p: seq<bool>)
    requires Sized(v) && Covers(v, path) && Follows(path, p)
    ensures InScope(v, p)
  {
    var i :| 0 <= i < |v.masks| && SamePrefix(path, v.masks[i].value, v.masks[i].bits);
    var m := v.masks[i];
    forall j: nat | j < |p| && j < m.bits
      ensures Bit(m.value, j) == p[j]
    {
      assert Bit(path, j) == Bit(m.value, j);
    }
    assert MaskAgrees(v.masks[i], p);
  }

  lemma FollowsPrefix(path: Digest, p: seq<bool>, n: nat)
    requires Follows(path, p) && n <= |p|
    ensures Follows(path, p[..n])
  {
  }

  /** A key in scope keeps every known node of its path, and their siblings. */
  lemma {:induction false} KeepCovered(v: View, t: Tree, path: Digest, p: seq<bool>)
    requires Sized(v) && Covers(v, path) && Follows(path, p) && KnownPath(t, path, |p|)
    ensures KnownPath(Keep(v, t, p), path, |p|)
    decreases t
  {
    hide InScope, Covers, Bit;
    FollowsPrefix(path, p, if |p| < 2 then 0 else |p| - 2);
    CoversSteps(v, path, p[..if |p| < 2 then 0 else |p| - 2]);
    if t.Fork? {
      if |p| < BITS {
        var step := Bit(path, |p|);
        FollowsStep(path, p, step);
        KeepCovered(v, t.Child(step), path, p + [step]);
      }
      KeepSibling(v, t, path, p, false);
      KeepSibling(v, t, path, p, true);
    }
  }

  lemma KeepSibling(v: View, t: Tree, path: Digest, p: seq<bool>, step: bool)
    requires Sized(v) && Covers(v, path) && Follows(path, p) && t.Fork? && t.Child(step).c.known
    ensures Keep(v, t.Child(step), p + [step]).c.known
  {
    hide InScope, Covers;
    var q := p + [step];
    var n := if |q| < 2 then 0 else |q| - 2;
    assert q[..n] == p[..n];
    FollowsPrefix(path, p, n);
    CoversSteps(v, path, q[..n]);
  }

  /** Known nodes d >= 2 steps down survive only if their first d - 2 steps are in scope. */
  ghost predicate Scoped(v: View, t: Tree, p: seq<bool>)
    requires Sized(v)
    decreases t
  {
    t.c.known ==>
      && InScope(v, p[..if |p| < 2 then 0 else |p| - 2])
      && (t.Fork? ==> Scoped(v, t.left, p + [false]) && Scoped(v, t.right, p + [true]))
  }

  lemma {:induction false} KeepScoped(v: View, t: Tree, p: seq<bool>)
    requires Sized(v)
    ensures Scoped(v, Keep(v, t, p), p)
    decreases t
  {
    hide InScope;
    if t.c.known && t.Fork? {
      KeepScoped(v, t.left, p + [false]);
      KeepScoped(v, t.right, p + [true]);
    }
  }

  /** The steps lead to a node, and every node on the way is known. */
  ghost predicate Reaches(t: Tree, q: seq<bool>) {
    t.c.known && (q == [] || (t.Fork? && Reaches(t.Child(q[0]), q[1..])))
  }

  lemma {:induction false} ReachesNode(t: Tree, q: seq<bool>)
    requires Reaches(t, q)
    ensures NodeAt(t, q).Some?
  {
    if q != [] {
      ReachesNode(t.Child(q[0]), q[1..]);
    }
  }

  /** What is in scope has its ancestors in scope. */
  lemma InScopeAbove(v: View, steps: seq<bool>, n: nat)
    requires Sized(v) && n <= |steps| && InScope(v, steps)
    ensures InScope(v, steps[..n])
  {
    if v.masks != [] {
      var i :| 0 <= i < |v.masks| && MaskAgrees(v.masks[i], steps);
      assert MaskAgrees(v.masks[i], steps[..n]);
    }
  }

  lemma {:induction false} KeepExactly(v: View, t: Tree, p: seq<bool>, q: seq<bool>)
    requires Sized(v) && Reaches(t, q)
    ensures var all, r := p + q, NodeAt(Keep(v, t, p), q);
            if InScope(v, all[..if |all| < 2 then 0 else |all| - 2])
            then r.Some? && NodeAt(t, q).Some? && r.value.c == NodeAt(t, q).value.c
            else r.None? || (!r.value.c.known && r.value.c.key == [] && r.value.c.values == [])
    decreases q
  {
    hide InScope;
    var all := p + q;
    var n, k := if |all| < 2 then 0 else |all| - 2, if |p| < 2 then 0 else |p| - 2;
    if InScope(v, all[..n]) {
      InScopeAbove(v, all[..n], k);
      assert all[..n][..k] == p[..k];
    }
    if q == [] {
      assert all == p;
    } else {
      assert (p + [q[0]]) + q[1..] == all;
      KeepExactly(v, t.Child(q[0]), p + [q[0]], q[1..]);
    }
  }

  /** The first n steps agree with the mask's bits, as far as both go. */
  ghost predicate AgreesUpTo(m: Mask, q: seq<bool>, n: int)
    requires n <= |q|
  {
    forall j: nat | j < n && j < m.bits && j < 8 * |m.value| :: Bit(m.value, j) == q[j]
  }

  /** What a collection forgets, exactly: a known node, reached through known nodes, survives the collector with
      its contents if and only if the steps to it, without the last two, agree with some mask as far as both
      go; where there is no mask, all survive or none. */
  lemma CollectExactly(v: View, t: Tree, q: seq<bool>)
    requires Sized(v) && Shallow(t, 0) && t.Fork? && Reaches(t, q)
    ensures var r := NodeAt(CollectTree(v, t), q);
            if (if v.masks == [] then v.all else exists i :: 0 <= i < |v.masks| && AgreesUpTo(v.masks[i], q, |q| - 2))
            then r.Some? && NodeAt(t, q).Some? && r.value.c == NodeAt(t, q).value.c
            else r.None? || (!r.value.c.known && r.value.c.key == [] && r.value.c.values == [])
  {
    hide CollectTree, Keep, InScope, Shallow, Bit, NodeAt;
    KnownRoot(t, q);
    CollectIsKeep(v, t);
    KeepExactly(v, t, [], q);
    assert [] + q == q;
    ScopeSpelled(v, q, if |q| < 2 then 0 else |q| - 2);
    assert |q| < 2 ==>
             forall i | 0 <= i < |v.masks| :: AgreesUpTo(v.masks[i], q, |q| - 2) == AgreesUpTo(v.masks[i], q, 0);
  }

  lemma KnownRoot(t: Tree, q: seq<bool>)
    requires Reaches(t, q)
    ensures t.c.known
  {
  }

  lemma ScopeSpelled(v: View, q: seq<bool>, n: nat)
    requires Sized(v) && n <= |q|
    ensures InScope(v, q[..n]) <==>
            if v.masks == [] then v.all else exists i :: 0 <= i < |v.masks| && AgreesUpTo(v.masks[i], q, n)
  {
    forall i | 0 <= i < |v.masks|
      ensures v.masks[i] in v.masks && (MaskAgrees(v.masks[i], q[..n]) <==> AgreesUpTo(v.masks[i], q, n))
    {
      assert v.masks[i] in v.masks;
      assert forall j: nat | j < n :: q[..n][j] == q[j];
    }
  }

  lemma {:induction false} OkShallow(s: Scheme, lazy: bool, t: Tree, p: seq<bool>)
    requires Ok(s, lazy, t, p)
    ensures Shallow(t, |p|)
    decreases t
  {
    if t.Fork? {
      var inner := lazy && t.c.dirty && t.ChildrenKnown();
      OkShallow(s, inner, t.left, p + [false]);
      OkShallow(s, inner, t.right, p + [true]);
    }
  }

  /** A manipulator keeps the depth bound, and the root stays a known inner node. */
  lemma {:induction false} ModifyShallow(s: Scheme, og: bool, op: Op, t: Tree, path: Digest, d: nat)
    requires t.Fork? && d < BITS && Shallow(t.left, d + 1) && Shallow(t.right, d + 1)
    ensures var r := Modify(s, og, op, t, path, d);
            r.Done? ==> Shallow(r.t, d) && (d == 0 ==> r.t.Fork? && r.t.c.known == t.c.known)
    decreases BITS - d, 0
  {
    hide Bit;
    if t.ChildrenKnown() {
      BelowShallow(s, og, op, t.Child(Bit(path, d)), path, d + 1);
    }
  }

  lemma {:induction false} BelowShallow(s: Scheme, og: bool, op: Op, t: Tree, path: Digest, d: nat)
    requires d <= BITS && Shallow(t, d)
    ensures var r := Below(s, og, op, t, path, d); r.Done? ==> Shallow(r.t, d)
    decreases BITS - d, 2
  {
    hide Bit;
    if t.Fork? {
      ModifyShallow(s, og, op, t, path, d);
    } else if op.Add? && t.c.key != [] && t.c.key != op.key && d < BITS {
      ModifyShallow(s, og, op, Split(s, og, t, Bit(s.Path(t.c.key), d)), path, d);
    }
  }

  lemma ManipulateShallow(s: Scheme, og: bool, op: Op, t: Tree)
    requires Shallow(t, 0)
    ensures var r := Manipulate(s, og, op, t);
            r.Done? ==> Shallow(r.t, 0) && r.t.Fork? && r.t.c.known
  {
    hide Bit, Modify, Scheme.Path;
    if t.Fork? {
      ModifyShallow(s, og, op, t, s.Path(op.key), 0);
    }
  }
}
