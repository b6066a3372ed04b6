/** Transactions: lazy relabelling, `End` and `Rollback` (collection/transaction.go). */
module Transactions {
  import opened ByteSlices
  import opened Fields
  import opened Trees
  import opened Rules
  import opened Canonical

  // ------------------------------------------------------- the tree explorers

  predicate Flagged(t: Tree) {
    t.c.dirty || t.saved.Kept?
  }

  /** `restore`: the node as it was backed up, or as it is. */
  function Restore(t: Tree): Tree {
    match t.saved
    case Nothing => t
    case Kept(was) => was.(saved := Nothing)
  }

  /** `Rollback`'s explorer: only flagged nodes are restored and explored. */
  function RollbackTree(t: Tree): Tree
    decreases t
  {
    if !Flagged(t) then t
    else if t.saved.Kept? then
      match t.saved.was
      case Tip(c, _) => Tip(c, Nothing)
      case Fork(c, _, l, r) => Fork(c, Nothing, RollbackTree(l), RollbackTree(r))
    else
      match t
      case Tip(c, _) => t
      case Fork(c, _, l, r) => Fork(c, Nothing, RollbackTree(l), RollbackTree(r))
  }

  /** `confirm`'s explorer. */
  function ConfirmTree(t: Tree): Tree {
    if !Flagged(t) then t
    else
      match t
      case Tip(c, _) => Tip(c, Nothing)
      case Fork(c, _, l, r) => Fork(c, Nothing, ConfirmTree(l), ConfirmTree(r))
  }

  /** `fix`'s explorer: children first, then the node, then its mark. */
  function FixTree(s: Scheme, t: Tree): Tree {
    if !t.c.dirty then t
    else
      var u := match t
        case Tip(_, _) => Update(s, t)
        case Fork(c, saved, l, r) => Update(s, Fork(c, saved, FixTree(s, l), FixTree(s, r)));
      u.(c := u.c.(dirty := false))
  }

  function EndTree(s: Scheme, t: Tree): Tree {
    FixTree(s, ConfirmTree(t))
  }

  // ------------------------------------------------------------ lazy is eager

  /** The tree with every label and every inner value recomputed, bottom up. */
  function Relabel(s: Scheme, t: Tree): Tree {
    match t
    case Tip(c, _) => Tip(c.(dirty := false), Nothing)
    case Fork(c, _, l, r) => Update(s, Fork(c.(dirty := false), Nothing, Relabel(s, l), Relabel(s, r)))
  }

  lemma {:induction false} RelabelShape(s: Scheme, t: Tree)
    ensures var u := Relabel(s, t);
            && u.Fork? == t.Fork? && u.c.known == t.c.known && u.c.key == t.c.key
            && u.saved.Nothing? && !u.c.dirty && (t.Tip? ==> u.c == t.c.(dirty := false))
            && (t.Fork? ==> u.left == Relabel(s, t.left) && u.right == Relabel(s, t.right))
  {
  }

  /** Relabelling an up-to-date tree changes nothing. */
  lemma {:induction false} RelabelMerkle(s: Scheme, t: Tree, p: seq<bool>)
    requires Merkle(s, t, p)
    ensures Relabel(s, t) == Strip(t)
    decreases t
  {
    if t.Fork? {
      RelabelMerkle(s, t.left, p + [false]);
      RelabelMerkle(s, t.right, p + [true]);
    }
  }

  /** Relabelling a tree in the middle of a transaction brings every node up to date. */
  lemma {:induction false} RelabelOk(s: Scheme, t: Tree, p: seq<bool>)
    requires Ok(s, true, t, p)
    ensures Merkle(s, Relabel(s, t), p)
    decreases t
  {
    if t.Fork? {
      RelabelShape(s, t.left);
      RelabelShape(s, t.right);
      if t.c.dirty && t.ChildrenKnown() {
        RelabelOk(s, t.left, p + [false]);
        RelabelOk(s, t.right, p + [true]);
        var u := Fork(t.c.(dirty := false), Nothing, Relabel(s, t.left), Relabel(s, t.right));
        OkFits(s, true, u.left, p + [false]);
        OkFits(s, true, u.right, p + [true]);
        UpdateSettles(s, u);
      } else {
        StripMerkle(s, t, p);
        assert Merkle(s, t, p);
        RelabelMerkle(s, t, p);
      }
    }
  }

  lemma {:induction false} StripMerkle(s: Scheme, t: Tree, p: seq<bool>)
    ensures Merkle(s, Strip(t), p) == Merkle(s, t, p)
    decreases t
  {
    if t.Fork? {
      StripMerkle(s, t.left, p + [false]);
      StripMerkle(s, t.right, p + [true]);
    }
  }

  /** An inner node whose eager twin has the relabelled children, and any label and values. */
  ghost predicate Shadow(s: Scheme, t: Tree, e: Tree) {
    && t.Fork? && e.Fork? && e.saved.Nothing? && !e.c.dirty
    && e.c.known == t.c.known && e.c.key == t.c.key
    && e.left == Relabel(s, t.left) && e.right == Relabel(s, t.right)
  }

  /** The eager answer for a lazy one. */
  function RelabelOutcome(s: Scheme, r: Outcome): Outcome {
    match r
    case Failed(e) => r
    case Done(u) => Done(Relabel(s, u))
  }

  lemma ClimbLazy(s: Scheme, op: Op, t: Tree, e: Tree, p: seq<bool>)
    requires Branches(s, true, t, p) && Shadow(s, t, e)
    ensures Climb(s, false, op, e, |p| == 0) == Relabel(s, Climb(s, true, op, t, |p| == 0))
  {
    RelabelShape(s, t.left);
    RelabelShape(s, t.right);
    if op.Remove? && |p| != 0 && Collapsible(t) {
    } else {
      RelabelOk(s, t.left, p + [false]);
      RelabelOk(s, t.right, p + [true]);
      ParentsFromFit(s, e.left.c.values, e.right.c.values, 0);
    }
  }

  lemma SplitLazy(s: Scheme, t: Tree, step: bool)
    requires t.Tip?
    ensures Shadow(s, Split(s, true, t, step), Split(s, false, Relabel(s, t), step))
  {
  }

  /** One call inside a transaction, relabelled, is the call on the relabelled tree. */
  lemma {:induction false} ModifyLazy(s: Scheme, op: Op, t: Tree, e: Tree, path: Digest, p: seq<bool>)
    requires GoodOp(s, op) && path == s.Path(op.key) && Follows(path, p)
    requires Shadow(s, t, e) && (t.ChildrenKnown() ==> Branches(s, true, t, p))
    ensures Modify(s, false, op, e, path, |p|) == RelabelOutcome(s, Modify(s, true, op, t, path, |p|))
    decreases BITS - |p|, 0
  {
    hide Ok, Climb, Below, Bit;
    RelabelShape(s, t.left);
    RelabelShape(s, t.right);
    if t.ChildrenKnown() {
      var step := Bit(path, |p|);
      FollowsStep(path, p, step);
      BelowOk(s, true, op, t.Child(step), path, p + [step]);
      BelowLazy(s, op, t.Child(step), path, p + [step]);
      var r := Below(s, true, op, t.Child(step), path, |p| + 1);
      if r.Done? {
        ClimbLazy(s, op, t.WithChild(step, r.t), e.WithChild(step, Relabel(s, r.t)), p);
      }
    }
  }

  lemma {:induction false} BelowLazy(s: Scheme, op: Op, t: Tree, path: Digest, p: seq<bool>)
    requires GoodOp(s, op) && path == s.Path(op.key) && Follows(path, p)
    requires t.c.known && Ok(s, true, t, p)
    ensures Below(s, false, op, Relabel(s, t), path, |p|) == RelabelOutcome(s, Below(s, true, op, t, path, |p|))
    decreases BITS - |p|, 2
  {
    hide Bit;
    RelabelShape(s, t);
    if t.Fork? {
      if t.ChildrenKnown() { OkBranches(s, true, t, p); }
      ModifyLazy(s, op, t, Relabel(s, t), path, p);
    } else if op.Add? && t.c.key != [] && t.c.key != op.key && |p| < BITS {
      var step := Bit(s.Path(t.c.key), |p|);
      SplitOk(s, true, t, p);
      SplitLazy(s, t, step);
      ModifyLazy(s, op, Split(s, true, t, step), Split(s, false, Relabel(s, t), step), path, p);
    }
  }

  lemma {:induction false} ConfirmKeeps(s: Scheme, t: Tree, p: seq<bool>, lazy: bool)
    ensures Strip(ConfirmTree(t)) == Strip(t) && ConfirmTree(t).c == t.c
    ensures Ok(s, lazy, t, p) ==> Ok(s, lazy, ConfirmTree(t), p)
    decreases t
  {
    if Flagged(t) && t.Fork? {
      ConfirmKeeps(s, t.left, p + [false], lazy);
      ConfirmKeeps(s, t.right, p + [true], lazy);
      ConfirmKeeps(s, t.left, p + [false], false);
      ConfirmKeeps(s, t.right, p + [true], false);
    }
  }

  /** Relabelling the dirty nodes only is relabelling everything. */
  lemma {:induction false} FixIsRelabel(s: Scheme, t: Tree, p: seq<bool>)
    requires Ok(s, true, t, p)
    ensures Strip(FixTree(s, t)) == Relabel(s, t)
    decreases t
  {
    if t.c.dirty && t.Fork? {
      if !t.ChildrenKnown() {
        OkRelax(s, t.left, p + [false]);
        OkRelax(s, t.right, p + [true]);
      }
      FixIsRelabel(s, t.left, p + [false]);
      FixIsRelabel(s, t.right, p + [true]);
    } else if t.Fork? {
      assert Merkle(s, t, p);
      RelabelMerkle(s, t, p);
    }
  }

  // ----------------------------------------------------------------- rollback

  /** The tree a rollback owes: every node that has a backup replaced by it, all the way down. */
  function Restored(t: Tree): Tree
    decreases t
  {
    match t.saved
    case Kept(was) =>
      (match was
       case Tip(c, _) => Tip(c, Nothing)
       case Fork(c, _, l, r) => Fork(c, Nothing, Restored(l), Restored(r)))
    case Nothing =>
      (match t
       case Tip(c, _) => t
       case Fork(c, _, l, r) => Fork(c, Nothing, Restored(l), Restored(r)))
  }

  /** No backup anywhere; when `strict`, no dirty mark either. */
  ghost predicate Pure(strict: bool, t: Tree) {
    t.saved.Nothing? && (strict ==> !t.c.dirty) && (t.Fork? ==> Pure(strict, t.left) && Pure(strict, t.right))
  }

  /** Below a node that carries no flag, nothing has a backup, in the tree a rollback visits. */
  ghost predicate Covered(t: Tree)
    decreases t
  {
    match t.saved
    case Kept(was) => was.Fork? ==> Covered(was.left) && Covered(was.right)
    case Nothing =>
      t.Fork? ==> if t.c.dirty then Covered(t.left) && Covered(t.right) else Pure(false, t.left) && Pure(false, t.right)
  }

  lemma {:induction false} PureCovered(t: Tree)
    requires Pure(false, t)
    ensures Covered(t) && Restored(t) == t
  {
    if t.Fork? {
      PureCovered(t.left);
      PureCovered(t.right);
    }
  }

  /** Exploring flagged nodes only is enough. */
  lemma {:induction false} RollbackIsRestored(t: Tree)
    requires Covered(t)
    ensures RollbackTree(t) == Restored(t)
    decreases t
  {
    match t.saved
    case Kept(was) =>
      if was.Fork? {
        RollbackIsRestored(was.left);
        RollbackIsRestored(was.right);
      }
    case Nothing =>
      if t.Fork? {
        if t.c.dirty {
          RollbackIsRestored(t.left);
          RollbackIsRestored(t.right);
        } else {
          PureCovered(t.left);
          PureCovered(t.right);
        }
      }
  }

  lemma {:induction false} RestoredPure(t: Tree)
    ensures Pure(false, Restored(t))
    decreases t
  {
    match t.saved
    case Kept(was) =>
      if was.Fork? {
        RestoredPure(was.left);
        RestoredPure(was.right);
      }
    case Nothing =>
      if t.Fork? {
        RestoredPure(t.left);
        RestoredPure(t.right);
      }
  }

  /** None of the nodes above the one these steps lead to has a backup. */
  ghost predicate BareAbove(t: Tree, q: seq<bool>) {
    q != [] ==> t.saved.Nothing? && t.Fork? && BareAbove(t.Child(q[0]), q[1..])
  }

  /** What a rollback makes of a node, mark included: what its first backup says if it has one, else it stays as
      it is; no mark is cleared. */
  lemma {:induction false} RollbackNode(t: Tree, q: seq<bool>)
    requires Covered(t) && BareAbove(t, q)
    ensures NodeAt(t, q).Some? && NodeAt(RollbackTree(t), q).Some?
    ensures var n, r := NodeAt(t, q).value, NodeAt(RollbackTree(t), q).value;
            r.saved.Nothing? && r.c == match n.saved case Kept(was) => was.c case Nothing => n.c
    decreases q
  {
    if q != [] {
      CoveredChildren(t);
      RollbackNode(t.Child(q[0]), q[1..]);
      if !t.c.dirty {
        PureCovered(t.Child(q[0]));
        RollbackIsRestored(t.Child(q[0]));
      }
    } else {
      RollbackIsRestored(t);
    }
  }

  /** What a call leaves unchanged for a later rollback. */
  ghost predicate Undoes(t: Tree, u: Tree) {
    Covered(u) && Strip(Restored(u)) == Strip(Restored(t))
  }

  lemma CoveredChildren(t: Tree)
    requires t.Fork? && t.saved.Nothing? && Covered(t)
    ensures Covered(t.left) && Covered(t.right)
  {
    if !t.c.dirty {
      PureCovered(t.left);
      PureCovered(t.right);
    }
  }

  lemma ClimbUndo(s: Scheme, op: Op, t: Tree, root: bool)
    requires t.Fork? && t.saved.Nothing? && Covered(t.left) && Covered(t.right)
    ensures var u := Climb(s, true, op, t, root);
            Covered(u) && Strip(Restored(u)) == Fork(t.c.(dirty := false), Nothing, Strip(Restored(t.left)),
                Strip(Restored(t.right)))
  {
  }

  /** Whatever a call does inside a transaction, a rollback afterwards finds what it would have
      found before the call. */
  lemma {:induction false} ModifyUndo(s: Scheme, op: Op, t: Tree, path: Digest, d: nat)
    requires t.Fork? && d <= BITS && Covered(t)
    ensures var r := Modify(s, true, op, t, path, d); r.Done? ==> Undoes(t, r.t)
    decreases BITS - d, 0
  {
    hide Bit;
    if t.ChildrenKnown() && d < BITS {
      var step := Bit(path, d);
      var r := Below(s, true, op, t.Child(step), path, d + 1);
      if r.Done? && t.saved.Nothing? {
        CoveredChildren(t);
        BelowUndo(s, op, t.Child(step), path, d + 1);
        hide Climb, Below;
        ClimbUndo(s, op, t.WithChild(step, r.t), d == 0);
      }
    }
  }

  lemma {:induction false} BelowUndo(s: Scheme, op: Op, t: Tree, path: Digest, d: nat)
    requires d <= BITS && Covered(t)
    ensures var r := Below(s, true, op, t, path, d); r.Done? ==> Undoes(t, r.t)
    decreases BITS - d, 2
  {
    hide Bit;
    if t.Fork? {
      ModifyUndo(s, op, t, path, d);
    } else if op.Add? && t.c.key != [] && t.c.key != op.key && d < BITS {
      ModifyUndo(s, op, Split(s, true, t, Bit(s.Path(t.c.key), d)), path, d);
    }
  }

  // -------------------------------------------------------------- after `End`

  /** Below a node that is not dirty everything is pure. */
  ghost predicate Closed(strict: bool, t: Tree) {
    t.Fork? ==>
      if t.c.dirty then Closed(strict, t.left) && Closed(strict, t.right)
      else t.saved.Nothing? && Pure(strict, t.left) && Pure(strict, t.right)
  }

  lemma {:induction false} PureClosed(strict: bool, t: Tree)
    requires Pure(strict, t)
    ensures Closed(strict, t)
  {
    if t.Fork? {
      PureClosed(strict, t.left);
      PureClosed(strict, t.right);
    }
  }

  lemma ClosedChildren(strict: bool, t: Tree)
    requires t.Fork? && Closed(strict, t)
    ensures Closed(strict, t.left) && Closed(strict, t.right)
  {
    if !t.c.dirty {
      PureClosed(strict, t.left);
      PureClosed(strict, t.right);
    }
  }

  lemma {:induction false} ModifyClosed(s: Scheme, strict: bool, op: Op, t: Tree, path: Digest, d: nat)
    requires t.Fork? && d <= BITS && Closed(strict, t.left) && Closed(strict, t.right)
    ensures var r := Modify(s, true, op, t, path, d); r.Done? ==> Closed(strict, r.t)
    decreases BITS - d, 0
  {
    hide Bit;
    if t.ChildrenKnown() && d < BITS {
      BelowClosed(s, strict, op, t.Child(Bit(path, d)), path, d + 1);
    }
  }

  lemma {:induction false} BelowClosed(s: Scheme, strict: bool, op: Op, t: Tree, path: Digest, d: nat)
    requires d <= BITS && Closed(strict, t)
    ensures var r := Below(s, true, op, t, path, d); r.Done? ==> Closed(strict, r.t)
    decreases BITS - d, 2
  {
    hide Bit;
    if t.Fork? {
      ClosedChildren(strict, t);
      ModifyClosed(s, strict, op, t, path, d);
    } else if op.Add? && t.c.key != [] && t.c.key != op.key && d < BITS {
      ModifyClosed(s, strict, op, Split(s, true, t, Bit(s.Path(t.c.key), d)), path, d);
    }
  }

  /** Outside a transaction too. */
  lemma {:induction false} EagerClosed(s: Scheme, strict: bool, op: Op, t: Tree, path: Digest, d: nat)
    requires t.Fork? && d <= BITS && Pure(false, t) && Closed(strict, t)
    ensures var r := Modify(s, false, op, t, path, d); r.Done? ==> Closed(strict, r.t)
    decreases BITS - d, 0
  {
    hide Bit, Below, Parents, Scheme.InnerLabel, Scheme.LeafLabel;
    if t.ChildrenKnown() && d < BITS {
      var child := t.Child(Bit(path, d));
      ClosedChildren(strict, t);
      EagerBelowClosed(s, strict, op, child, path, d + 1);
      if !t.c.dirty { BelowPure(s, strict, op, child, path, d + 1); }
    }
  }

  lemma {:induction false} EagerBelowClosed(s: Scheme, strict: bool, op: Op, t: Tree, path: Digest, d: nat)
    requires d <= BITS && Pure(false, t) && Closed(strict, t)
    ensures var r := Below(s, false, op, t, path, d); r.Done? ==> Closed(strict, r.t)
    decreases BITS - d, 2
  {
    hide Bit;
    if t.Fork? {
      EagerClosed(s, strict, op, t, path, d);
    } else if op.Add? && t.c.key != [] && t.c.key != op.key && d < BITS {
      EagerClosed(s, strict, op, Split(s, false, t, Bit(s.Path(t.c.key), d)), path, d);
    }
  }

  /** A call outside a transaction leaves no backup, nor any mark where there was none. */
  lemma {:induction false} ModifyPure(s: Scheme, strict: bool, op: Op, t: Tree, path: Digest, d: nat)
    requires t.Fork? && d <= BITS && Pure(strict, t)
    ensures var r := Modify(s, false, op, t, path, d); r.Done? ==> Pure(strict, r.t)
    decreases BITS - d, 0
  {
    hide Bit;
    if t.ChildrenKnown() && d < BITS {
      BelowPure(s, strict, op, t.Child(Bit(path, d)), path, d + 1);
    }
  }

  lemma {:induction false} BelowPure(s: Scheme, strict: bool, op: Op, t: Tree, path: Digest, d: nat)
    requires d <= BITS && Pure(strict, t)
    ensures var r := Below(s, false, op, t, path, d); r.Done? ==> Pure(strict, r.t)
    decreases BITS - d, 2
  {
    hide Bit;
    if t.Fork? {
      ModifyPure(s, strict, op, t, path, d);
    } else if op.Add? && t.c.key != [] && t.c.key != op.key && d < BITS {
      ModifyPure(s, strict, op, Split(s, false, t, Bit(s.Path(t.c.key), d)), path, d);
    }
  }

  /** What a rollback would bring back keeps its marks closed upward: a call marks nodes without a
      backup only, and the nodes above them. */
  ghost predicate MarksKept(t: Tree, u: Tree) {
    Closed(true, Restored(u)) && (u.Tip? || u.saved.Kept? ==> Restored(u) == Restored(t))
  }

  lemma {:induction false} ModifyMarks(s: Scheme, op: Op, t: Tree, path: Digest, d: nat)
    requires t.Fork? && d <= BITS && Closed(true, Restored(t))
    ensures var r := Modify(s, true, op, t, path, d); r.Done? ==> MarksKept(t, r.t)
    decreases BITS - d, 0
  {
    hide Bit;
    if t.ChildrenKnown() && d < BITS && t.saved.Nothing? {
      ClosedChildren(true, Restored(t));
      BelowMarks(s, op, t.Child(Bit(path, d)), path, d + 1);
    }
  }

  lemma {:induction false} BelowMarks(s: Scheme, op: Op, t: Tree, path: Digest, d: nat)
    requires d <= BITS && Closed(true, Restored(t))
    ensures var r := Below(s, true, op, t, path, d); r.Done? ==> MarksKept(t, r.t)
    decreases BITS - d, 2
  {
    hide Bit;
    if t.Fork? {
      ModifyMarks(s, op, t, path, d);
    } else if op.Add? && t.c.key != [] && t.c.key != op.key && d < BITS {
      ModifyMarks(s, op, Split(s, true, t, Bit(s.Path(t.c.key), d)), path, d);
    }
  }

  /** `End` leaves no backup on any node, and no dirty mark if there was none at `Begin`. */
  lemma {:induction false} EndPure(s: Scheme, strict: bool, t: Tree)
    requires Closed(strict, t)
    ensures Pure(strict, EndTree(s, t))
    decreases t
  {
    if t.Fork? && t.c.dirty {
      EndPure(s, strict, t.left);
      EndPure(s, strict, t.right);
    }
  }
}
