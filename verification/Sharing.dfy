/** What sharing slices does to `Rollback`: the exact condition under which it brings back the values held
    at `Begin`, and which calls can break it (collection/transaction.go, collection/manipulators.go). */
module Sharing {
  import opened ByteSlices
  import opened Fields
  import opened Trees
  import opened Rules
  import opened Refinement
  import opened Canonical
  import opened Transactions
  import opened Sessions
  import opened Slices

  // ------------------------------------------------------------------ rollback

  /** A `Set` that writes new values to a slice which, with the leaf backed up, is still that of a
      leaf of the rollback target. */
  ghost predicate Offends(s: Scheme, op: Op, p: Placed)
    requires p.k.Inner?
  {
    op.Set? &&
    match Walk(s, true, op, p.k, p.slots, s.Path(op.key), 0)
    case Refused => false
    case Moved(k, sl) =>
      var a := SlotOn(k, s.Path(op.key), 0);
      a in Used(Target(k)) && Merge(Look(sl, a), op.changes) != Look(sl, a)
  }

  /** What `Rollback` would bring back. */
  function Goal(p: Placed): Plain {
    Live(Target(p.k), p.slots)
  }

  /** The keys and the shape alone. */
  function Erased(v: Plain): Plain {
    match v
    case Bud(known, key, _) => Bud(known, key, [])
    case Limb(known, l, r) => Limb(known, Erased(l), Erased(r))
  }

  lemma {:induction false} ErasedLive(k: Knot, slots: Slots, other: Slots)
    ensures Erased(Live(k, slots)) == Erased(Live(k, other))
  {
    if k.Inner? {
      ErasedLive(k.left, slots, other);
      ErasedLive(k.right, slots, other);
    }
  }

  /** One call leaves the rollback target alone exactly when it does not offend; its shape and keys
      stay anyway. */
  lemma StepExactly(s: Scheme, op: Op, p: Placed)
    requires p.k.Inner? && Within(p.k, p.slots)
    ensures var q := Perform(s, true, op, p);
            && Within(q.k, q.slots) && (Goal(q) == Goal(p) <==> !Offends(s, op, p)) && Erased(Goal(q))
               == Erased(Goal(p))
            && (Separate(Target(p.k)) ==> Separate(Target(q.k)))
  {
    hide Bit, Erased;
    WalkSteady(s, op, p.k, p.slots, s.Path(op.key), 0);
    var r := Walk(s, true, op, p.k, p.slots, s.Path(op.key), 0);
    if r.Moved? && op.Set? {
      var a := SlotOn(r.k, s.Path(op.key), 0);
      var v := Merge(Look(r.slots, a), op.changes);
      TargetWithin(r.k, r.slots);
      UsedWithin(Target(r.k), r.slots);
      WithinGrow(r.k, r.slots, Write(r.slots, a, v));
      ErasedLive(Target(r.k), r.slots, Write(r.slots, a, v));
      if Offends(s, op, p) {
        LiveWrite(Target(r.k), r.slots, a, v);
      } else {
        LiveFrame(Target(r.k), r.slots, Write(r.slots, a, v));
      }
    }
  }

  /** The state after a sequence of calls inside a transaction. */
  function After(s: Scheme, p: Placed, ops: seq<Op>): (q: Placed)
    requires p.k.Inner?
    ensures q.k.Inner?
    decreases |ops|
  {
    if ops == [] then p else Perform(s, true, ops[|ops| - 1], After(s, p, ops[..|ops| - 1]))
  }

  ghost predicate NoOffense(s: Scheme, p: Placed, ops: seq<Op>)
    requires p.k.Inner?
    decreases |ops|
  {
    ops == [] || (NoOffense(s, p, ops[..|ops| - 1]) && !Offends(s, ops[|ops| - 1], After(s, p, ops[..|ops| - 1])))
  }

  lemma {:induction false} NoOffenseKeeps(s: Scheme, p: Placed, ops: seq<Op>)
    requires p.k.Inner? && Within(p.k, p.slots)
    ensures Within(After(s, p, ops).k, After(s, p, ops).slots)
    ensures NoOffense(s, p, ops) ==> Goal(After(s, p, ops)) == Goal(p)
    decreases |ops|
  {
    if ops != [] {
      NoOffenseKeeps(s, p, ops[..|ops| - 1]);
      StepExactly(s, ops[|ops| - 1], After(s, p, ops[..|ops| - 1]));
    }
  }

  /** A collection at `Begin`: no backups, and every leaf with a slice of its own. */
  ghost predicate Starts(t: Tree, p: Placed) {
    p.k.Inner? && Unsaved(p.k) && Separate(p.k) && Within(p.k, p.slots) && LiveOf(t) == Live(p.k, p.slots)
  }

  lemma {:induction false} UnsavedTarget(k: Knot)
    requires Unsaved(k)
    ensures Target(k) == k
  {
    if k.Inner? {
      UnsavedTarget(k.left);
      UnsavedTarget(k.right);
    }
  }

  /** Sharing never shows while the transaction lasts: whatever was called, readers see the keys and
      values of the value model, on a full collection and on a pruned copy. */
  lemma {:induction false} ReadsAlike(s: Scheme, t: Tree, p: Placed, ops: seq<Op>)
    requires Starts(t, p)
    ensures var q := After(s, p, ops);
            LiveOf(History(s, true, t, ops)) == Live(q.k, q.slots) && Within(q.k, q.slots) && Separate(q.k)
    decreases |ops|
  {
    hide Bit, Manipulate, Walk, Written, Offends, NoOffense, Target, Live, LiveOf;
    if ops != [] {
      var before, op := ops[..|ops| - 1], ops[|ops| - 1];
      ReadsAlike(s, t, p, before);
      StepAlike(s, true, op, History(s, true, t, before), After(s, p, before));
    }
  }

  lemma RootAlike(t: Tree, k: Knot, slots: Slots)
    requires k.Inner? && LiveOf(t) == Live(k, slots)
    ensures t.Fork? && t.c.known
  {
  }

  /** One call of the value model and of the slice model. */
  lemma StepAlike(s: Scheme, og: bool, op: Op, t: Tree, p: Placed)
    requires p.k.Inner? && LiveOf(t) == Live(p.k, p.slots) && Within(p.k, p.slots) && Separate(p.k)
    ensures var u := match Manipulate(s, og, op, t) case Done(u) => u case Failed(_) => t;
            var q := Perform(s, og, op, p);
            && LiveOf(u) == Live(q.k, q.slots) && Within(q.k, q.slots) && Separate(q.k)
            && (!og && Unsaved(p.k) ==> Unsaved(q.k))
  {
    hide Bit, Modify, Walk, Target, Live, LiveOf;
    RootAlike(t, p.k, p.slots);
    var path := s.Path(op.key);
    WalkAlike(s, og, op, t, p.k, p.slots, path, 0);
    WalkApart(s, og, op, p.k, p.slots, path, 0);
    WalkGrows(s, og, op, p.k, p.slots, path, 0);
    var r := Walk(s, og, op, p.k, p.slots, path, 0);
    if r.Moved? {
      WithinGrow(r.k, r.slots, Written(op, r.k, r.slots, path, 0));
    }
    if !og && Unsaved(p.k) {
      WalkUnsaved(s, op, p.k, p.slots, path, 0);
    }
  }

  lemma {:induction false} StripLive(t: Tree)
    ensures LiveOf(Strip(t)) == LiveOf(t)
  {
    if t.Fork? {
      StripLive(t.left);
      StripLive(t.right);
    }
  }

  /** A tree whose leaves' values are read from slices; labels, flags and inner values are its own. */
  function Overlay(t: Tree, k: Knot, slots: Slots): Tree {
    match t
    case Tip(c, _) => if k.Leaf? then t.(c := c.(values := Look(slots, k.at))) else t
    case Fork(_, _, l, r) =>
      if k.Inner? then t.(left := Overlay(l, k.left, slots), right := Overlay(r, k.right, slots)) else t
  }

  lemma {:induction false} OverlaySame(t: Tree, k: Knot, slots: Slots)
    requires Erased(LiveOf(t)) == Erased(Live(k, slots))
    ensures Overlay(t, k, slots) == t <==> LiveOf(t) == Live(k, slots)
  {
    if t.Fork? {
      OverlaySame(t.left, k.left, slots);
      OverlaySame(t.right, k.right, slots);
    }
  }

  lemma {:induction false} OverlayStrip(t: Tree, k: Knot, slots: Slots)
    ensures Strip(Overlay(t, k, slots)) == Overlay(Strip(t), k, slots)
  {
    if t.Fork? && k.Inner? {
      OverlayStrip(t.left, k.left, slots);
      OverlayStrip(t.right, k.right, slots);
    }
  }

  /** The tree after `Rollback`: labels, flags and inner values as the backups have them, the values of
      the leaves read from the slices. */
  function RolledBack(s: Scheme, t: Tree, p: Placed, ops: seq<Op>): Tree
    requires p.k.Inner?
  {
    var q := After(s, p, ops);
    Overlay(RollbackTree(History(s, true, t, ops)), Target(q.k), q.slots)
  }

  /** Exactly when `Rollback` keeps its promise: after calls none of which offends, one more call
      leaves `Rollback` able to bring back the tree held at `Begin`, labels, known flags and inner values
      included, if and only if it does not offend. Pruned copies are covered. */
  lemma RollbackExactly(s: Scheme, t: Tree, p: Placed, ops: seq<Op>, op: Op)
    requires Pure(false, t) && Starts(t, p) && NoOffense(s, p, ops)
    ensures Strip(RolledBack(s, t, p, ops + [op])) == Strip(t) <==> !Offends(s, op, After(s, p, ops))
  {
    hide Offends, Target, NoOffense, History, RollbackTree, Overlay, Erased;
    NoOffenseKeeps(s, p, ops);
    StepExactly(s, op, After(s, p, ops));
    assert (ops + [op])[..|ops|] == ops;
    UnsavedTarget(p.k);
    RollbackIsUndo(s, t, ops + [op]);
    StripLive(t);
    var q := After(s, p, ops + [op]);
    OverlayStrip(RollbackTree(History(s, true, t, ops + [op])), Target(q.k), q.slots);
    OverlaySame(Strip(t), Target(q.k), q.slots);
  }

  // ------------------------------------------- only a lifted record lends its slice

  /** The slices that backups hold on to. */
  function Held(k: Knot): set<nat> {
    if k.spare.Spare? then Used(Frozen(k.spare.was)) else if k.Leaf? then {} else Held(k.left) + Held(k.right)
  }

  /** The slices of the leaves that would stay where they are. */
  function InPlace(k: Knot): set<nat> {
    if k.spare.Spare? then {} else if k.Leaf? then {k.at} else InPlace(k.left) + InPlace(k.right)
  }

  lemma {:induction false} TargetParts(k: Knot)
    ensures Used(Target(k)) == Held(k) + InPlace(k) && InPlace(k) <= Used(k)
  {
    if k.spare.NoSpare? && k.Inner? {
      TargetParts(k.left);
      TargetParts(k.right);
    }
  }

  lemma HeldWithin(k: Knot, slots: Slots)
    requires Within(k, slots)
    ensures forall a | a in Held(k) :: a < |slots|
  {
    TargetParts(k);
    TargetWithin(k, slots);
    UsedWithin(Target(k), slots);
  }

  /** The leaves: their keys and their slices. */
  function Pairs(k: Knot): set<(Bytes, nat)> {
    if k.Leaf? then {(k.key, k.at)} else Pairs(k.left) + Pairs(k.right)
  }

  lemma {:induction false} PairsUsed(k: Knot)
    ensures forall x | x in Pairs(k) :: x.1 in Used(k)
  {
    if k.Inner? {
      PairsUsed(k.left);
      PairsUsed(k.right);
    }
  }

  /** The record an ancestor of a removed one takes over. */
  function TakenUp(op: Op, k: Knot, root: bool): set<Bytes>
    requires k.Inner?
  {
    if op.Remove? && !root && ((k.left.Hole() && k.right.Leaf?) || (k.right.Hole() && k.left.Leaf?))
    then {(if k.left.Hole() then k.right else k.left).key} else {}
  }

  /** The keys of the records a call lifts to another node, at most one: the neighbour of a removed record. */
  function Lifts(s: Scheme, op: Op, k: Knot, slots: Slots, path: Digest, d: nat): set<Bytes>
    requires d <= BITS
    decreases BITS - d
  {
    if k.Leaf? || !k.ChildrenKnown() || d == BITS then {}
    else
      var step := Bit(path, d);
      match Visit(s, true, op, k.Child(step), slots, path, d + 1)
      case Refused => {}
      case Moved(c, _) =>
        Lifts(s, op, k.Child(step), slots, path, d + 1) + TakenUp(op, k.WithChild(step, c), d == 0)
  }

  /** What becomes of the leaves whose slices backups hold on to: only lifted records join them, and a
      leaf about to be written does not stay in place. */
  ghost predicate Lends(op: Op, k: Knot, slots: Slots, r: Move, path: Digest, d: nat, lifted: set<Bytes>) {
    r.Moved? ==>
      && (forall x | x in Pairs(r.k) :: x in Pairs(k) || |slots| <= x.1)
      && (forall a | a in Held(r.k) :: a in Held(k) || a in InPlace(k) || |slots| <= a)
      && InPlace(r.k) <= InPlace(k)
      && (forall x | x in Pairs(r.k) && x.1 in Held(r.k) :: (x in Pairs(k) && x.1 in Held(k)) || x.0 in lifted)
      && (op.Set? ==> (op.key, SlotOn(r.k, path, d)) in Pairs(r.k) && SlotOn(r.k, path, d) !in InPlace(r.k))
  }

  lemma SetAsideHeld(k: Knot, slots: Slots)
    requires k.Leaf? && Within(k, slots)
    ensures var b := SetAside(true, k, slots);
            && b.k.spare.Spare? && b.k == Leaf(k.known, k.key, k.at, b.k.spare)
            && (forall u: Knot | u.spare == b.k.spare :: Held(u) == Held(b.k) && InPlace(u) == {})
            && (k.spare.NoSpare? ==> Held(b.k) == {|slots|} && |b.slots| == |slots| + 1 && InPlace(k) == {k.at})
            && (k.spare.Spare? ==> Held(b.k) == Held(k) && b.slots == slots)
            && (forall a | a in Held(k) :: a < |slots|)
  {
    HeldWithin(k, slots);
  }

  lemma {:induction false} WalkLends(s: Scheme, op: Op, k: Knot, slots: Slots, path: Digest, d: nat)
    requires k.Inner? && d <= BITS && Within(k, slots) && Separate(k)
    ensures Lends(op, k, slots, Walk(s, true, op, k, slots, path, d), path, d, Lifts(s, op, k, slots, path, d))
    decreases BITS - d, 0
  {
    hide Bit, Visit, Lends, StaysApart, TakeUp, TakenUp;
    if k.ChildrenKnown() && d < BITS {
      var step := Bit(path, d);
      var c := k.Child(step);
      VisitLends(s, op, c, slots, path, d + 1);
      VisitApart(s, true, op, c, slots, path, d + 1);
      var r := Visit(s, true, op, c, slots, path, d + 1);
      if r.Moved? {
        var lifted := Lifts(s, op, c, slots, path, d + 1);
        ChildLends(op, k, slots, step, r.k, r.slots, path, d, lifted);
        TakeUpLends(op, k, slots, k.WithChild(step, r.k), r.slots, path, d, lifted);
      } else {
        assert Walk(s, true, op, k, slots, path, d) == Refused;
        RefusedLends(op, k, slots, path, d, Lifts(s, op, k, slots, path, d));
      }
    } else {
      RefusedLends(op, k, slots, path, d, Lifts(s, op, k, slots, path, d));
    }
  }

  lemma RefusedLends(op: Op, k: Knot, slots: Slots, path: Digest, d: nat, lifted: set<Bytes>)
    ensures Lends(op, k, slots, Refused, path, d, lifted)
  {
  }

  lemma ChildLends(op: Op, k: Knot, slots: Slots, step: bool, c: Knot, more: Slots, path: Digest, d: nat,
      lifted: set<Bytes>)
    requires k.Inner? && Within(k, slots) && Separate(k) && d < BITS && step == Bit(path, d)
    requires Lends(op, k.Child(step), slots, Moved(c, more), path, d + 1, lifted)
    requires StaysApart(k.Child(step), slots, Moved(c, more))
    ensures Lends(op, k, slots, Moved(k.WithChild(step, c), more), path, d, lifted)
  {
    hide Bit, Pairs, Held, InPlace, Target, Used;
    var child, sib, u := k.Child(step), k.Child(!step), k.WithChild(step, c);
    UsedWithin(sib, slots);
    PairsUsed(sib);
    PairsUsed(c);
    HeldWithin(sib, slots);
    HeldWithin(k, slots);
    TargetParts(sib);
    TargetParts(child);
    InnerParts(k, step);
    InnerParts(u, step);
    assert SlotOn(u, path, d) == SlotOn(c, path, d + 1);
    forall x | x in Pairs(u) && x.1 in Held(u)
      ensures (x in Pairs(k) && x.1 in Held(k)) || x.0 in lifted
    {
      if k.spare.NoSpare? && x in Pairs(sib) && x.1 !in Held(sib) {
        assert x.1 in Held(c) && x.1 in Used(sib);
      }
    }
  }

  /** An inner node's leaves and slices are those of its children. */
  lemma InnerParts(k: Knot, step: bool)
    requires k.Inner?
    ensures var c, sib := k.Child(step), k.Child(!step);
            && Pairs(k) == Pairs(c) + Pairs(sib) && Used(k) == Used(c) + Used(sib)
               && (Separate(k) ==> Used(c) !! Used(sib))
            && (k.spare.NoSpare? ==> Held(k) == Held(c) + Held(sib) && InPlace(k) == InPlace(c) + InPlace(sib))
            && (k.spare.Spare? ==> Held(k) == Used(Frozen(k.spare.was)) && InPlace(k) == {})
  {
  }

  lemma TakeUpLends(op: Op, k: Knot, slots: Slots, u: Knot, more: Slots, path: Digest, d: nat, lifted: set<Bytes>)
    requires u.Inner? && Lends(op, k, slots, Moved(u, more), path, d, lifted)
    ensures Lends(op, k, slots, Moved(TakeUp(true, op, u, d == 0), more), path, d, lifted + TakenUp(op, u, d == 0))
  {
    hide Bit;
    var w := TakeUp(true, op, u, d == 0);
    if w != u {
      TargetParts(u);
      assert w.Leaf? && Pairs(w) == {(w.key, w.at)} && (w.key, w.at) in Pairs(u) && w.key in TakenUp(op, u, d == 0);
      assert u.spare.NoSpare? ==> Held(w) == Used(Target(u));
      assert u.spare.Spare? ==> Held(w) == Held(u);
    }
  }

  lemma {:induction false} VisitLends(s: Scheme, op: Op, k: Knot, slots: Slots, path: Digest, d: nat)
    requires d <= BITS && Within(k, slots) && Separate(k)
    ensures Lends(op, k, slots, Visit(s, true, op, k, slots, path, d), path, d, Lifts(s, op, k, slots, path, d))
    decreases BITS - d, 2
  {
    hide Bit, Lends;
    if k.Inner? {
      WalkLends(s, op, k, slots, path, d);
    } else {
      if op.Add? && k.key != [] && k.key != op.key && d < BITS {
        var u := HalveReady(s, true, k, slots, Bit(s.Path(k.key), d));
        WalkLends(s, op, u.k, u.slots, path, d);
        OnlyRemoveLifts(s, op, u.k, u.slots, path, d);
        HalveLends(s, op, k, slots, u, Walk(s, true, op, u.k, u.slots, path, d), path, d);
      } else {
        LeafLends(s, op, k, slots, path, d);
      }
    }
  }

  lemma LeafLends(s: Scheme, op: Op, k: Knot, slots: Slots, path: Digest, d: nat)
    requires k.Leaf? && d <= BITS && Within(k, slots)
    requires !(op.Add? && k.key != [] && k.key != op.key && d < BITS)
    ensures Lends(op, k, slots, Visit(s, true, op, k, slots, path, d), path, d, {})
  {
    hide Bit;
    SetAsideHeld(k, slots);
  }

  lemma HalveLends(s: Scheme, op: Op, k: Knot, slots: Slots, u: Placed, r: Move, path: Digest, d: nat)
    requires op.Add? && k.Leaf? && Within(k, slots) && d < BITS && u == Halve(s, true, k, slots, Bit(s.Path(k.key), d))
    requires Lends(op, u.k, u.slots, r, path, d, {})
    ensures Lends(op, k, slots, r, path, d, {})
  {
    hide Bit, Scheme.Path;
    SetAsideHeld(k, slots);
    var b := SetAside(true, k, slots);
    assert u.k.spare == b.k.spare && |u.slots| == |b.slots| + 1;
    assert Pairs(u.k) == {(k.key, k.at), ([], |b.slots|)};
  }

  lemma {:induction false} OnlyRemoveLifts(s: Scheme, op: Op, k: Knot, slots: Slots, path: Digest, d: nat)
    requires d <= BITS && !op.Remove?
    ensures Lifts(s, op, k, slots, path, d) == {}
    decreases BITS - d
  {
    hide Bit, Visit;
    if k.Inner? && d < BITS {
      OnlyRemoveLifts(s, op, k.Child(Bit(path, d)), slots, path, d + 1);
    }
  }

  /** The keys whose record has been lifted in the transaction by the removal of its neighbour, and has
      not been removed since. */
  function LiftedIn(s: Scheme, p: Placed, ops: seq<Op>): set<Bytes>
    requires p.k.Inner?
    decreases |ops|
  {
    if ops == [] then {}
    else
      var before, op := ops[..|ops| - 1], ops[|ops| - 1];
      var q, path := After(s, p, before), s.Path(op.key);
      var lifted := LiftedIn(s, p, before) + Lifts(s, op, q.k, q.slots, path, 0);
      if op.Remove? && Walk(s, true, op, q.k, q.slots, path, 0).Moved? then lifted - {op.key} else lifted
  }

  lemma {:induction false} PairsAreKeys(t: Tree, k: Knot, slots: Slots)
    requires LiveOf(t) == Live(k, slots)
    ensures forall x | x in Pairs(k) && x.0 != [] :: x.0 in Map(t)
  {
    if k.Inner? {
      PairsAreKeys(t.left, k.left, slots);
      PairsAreKeys(t.right, k.right, slots);
    }
  }

  ghost predicate LentWithin(k: Knot, lifted: set<Bytes>) {
    forall x | x in Pairs(k) && x.1 in Held(k) :: x.0 in lifted
  }

  /** A slice that a backup holds on to and a leaf still uses belongs to a lifted record. */
  lemma {:induction false} LentAreLifted(s: Scheme, t: Tree, p: Placed, ops: seq<Op>)
    requires Merkle(s, t, []) && Starts(t, p) && forall op | op in ops :: GoodOp(s, op)
    ensures LentWithin(After(s, p, ops).k, LiftedIn(s, p, ops))
    decreases |ops|
  {
    hide Bit, Ok, Manipulate, Walk, Live, Lends, Lifts, Perform, History, Pairs, Held;
    ReadsAlike(s, t, p, ops);
    if ops == [] {
      StartsHeld(t, p);
    } else {
      var before, op := ops[..|ops| - 1], ops[|ops| - 1];
      var q, u := After(s, p, before), History(s, true, t, before);
      LentAreLifted(s, t, p, before);
      ReadsAlike(s, t, p, before);
      LentStep(s, op, u, q, LiftedIn(s, p, before));
      if op.Remove? && Walk(s, true, op, q.k, q.slots, s.Path(op.key), 0).Moved? {
        RootAlike(u, q.k, q.slots);
        assert GoodOp(s, op);
        HistoryOk(s, t, before);
        RemovedIsGone(s, op, u);
        PairsAreKeys(History(s, true, t, ops), After(s, p, ops).k, After(s, p, ops).slots);
        HistoryStep(s, t, ops);
      }
    }
  }

  lemma StartsHeld(t: Tree, p: Placed)
    requires Starts(t, p)
    ensures Held(p.k) == {}
  {
    UnsavedHeld(p.k);
  }

  /** The rules hold throughout a transaction, on pruned copies too. */
  lemma {:induction false} HistoryOk(s: Scheme, t: Tree, ops: seq<Op>)
    requires Merkle(s, t, []) && forall op | op in ops :: GoodOp(s, op)
    ensures Ok(s, true, History(s, true, t, ops), [])
    decreases |ops|
  {
    hide Bit, Modify;
    if ops == [] {
      OkRelax(s, t, []);
    } else {
      var op, u := ops[|ops| - 1], History(s, true, t, ops[..|ops| - 1]);
      HistoryOk(s, t, ops[..|ops| - 1]);
      if u.Fork? {
        if u.ChildrenKnown() { OkBranches(s, true, u, []); }
        ModifyOk(s, true, op, u, s.Path(op.key), []);
      }
    }
  }

  /** A removed record is nowhere to be seen. */
  lemma RemovedIsGone(s: Scheme, op: Op, t: Tree)
    requires op.Remove? && op.key != [] && t.Fork? && t.c.known && Ok(s, true, t, [])
    ensures var r := Manipulate(s, true, op, t); r.Done? ==> op.key !in Map(r.t)
  {
    hide Bit, Modify, Ok;
    if t.ChildrenKnown() { OkBranches(s, true, t, []); }
    ModifyMap(s, true, op, t, s.Path(op.key), []);
  }

  lemma HistoryStep(s: Scheme, t: Tree, ops: seq<Op>)
    requires ops != []
    ensures var before := History(s, true, t, ops[..|ops| - 1]);
            History(s, true, t, ops)
            == match Manipulate(s, true, ops[|ops| - 1], before) case Done(u) => u case Failed(_) => before
  {
  }

  /** One call: what is lent was lent before, or has just been lifted; and the call moves exactly when
      the value model's does. */
  lemma LentStep(s: Scheme, op: Op, t: Tree, p: Placed, lifted: set<Bytes>)
    requires p.k.Inner? && LiveOf(t) == Live(p.k, p.slots) && Within(p.k, p.slots) && Separate(p.k)
    requires LentWithin(p.k, lifted)
    ensures var path := s.Path(op.key);
            && LentWithin(Perform(s, true, op, p).k, lifted + Lifts(s, op, p.k, p.slots, path, 0))
            && (Walk(s, true, op, p.k, p.slots, path, 0).Moved? <==> Manipulate(s, true, op, t).Done?)
  {
    hide Bit, Walk, Modify, Held, Pairs, Lifts, Live, LiveOf;
    RootAlike(t, p.k, p.slots);
    var path := s.Path(op.key);
    WalkLends(s, op, p.k, p.slots, path, 0);
    WalkAlike(s, true, op, t, p.k, p.slots, path, 0);
  }

  lemma {:induction false} UnsavedHeld(k: Knot)
    requires Unsaved(k)
    ensures Held(k) == {}
  {
    if k.Inner? {
      UnsavedHeld(k.left);
      UnsavedHeld(k.right);
    }
  }

  /** A `Set` can offend only if its record has been lifted by an earlier `Remove` of the same
      transaction, and has not been removed since. */
  lemma OnlyLiftedOffends(s: Scheme, t: Tree, p: Placed, ops: seq<Op>, op: Op)
    requires Merkle(s, t, []) && Starts(t, p) && forall o | o in ops :: GoodOp(s, o)
    requires op.key !in LiftedIn(s, p, ops)
    ensures !Offends(s, op, After(s, p, ops))
  {
    hide Ok, LiftedIn, After, Bit, Walk;
    LentAreLifted(s, t, p, ops);
    ReadsAlike(s, t, p, ops);
    NotLentNoOffense(s, op, After(s, p, ops), LiftedIn(s, p, ops));
  }

  lemma NotLentNoOffense(s: Scheme, op: Op, q: Placed, lifted: set<Bytes>)
    requires q.k.Inner? && Within(q.k, q.slots) && Separate(q.k) && LentWithin(q.k, lifted) && op.key !in lifted
    ensures !Offends(s, op, q)
  {
    hide Bit, Walk, Held, Pairs, InPlace, Target;
    if op.Set? {
      var path := s.Path(op.key);
      WalkLends(s, op, q.k, q.slots, path, 0);
      OnlyRemoveLifts(s, op, q.k, q.slots, path, 0);
      var r := Walk(s, true, op, q.k, q.slots, path, 0);
      if r.Moved? { TargetParts(r.k); }
    }
  }

  /** No `Set` of the sequence meets a lifted record. */
  ghost predicate SparesLifted(s: Scheme, p: Placed, ops: seq<Op>)
    requires p.k.Inner?
    decreases |ops|
  {
    ops == [] ||
      var before, op := ops[..|ops| - 1], ops[|ops| - 1];
      SparesLifted(s, p, before) && (op.Set? ==> op.key !in LiftedIn(s, p, before))
  }

  /** A transaction none of whose `Set`s meets a lifted record can be rolled back, whatever else it
      does: labels, keys, values and known flags come back. */
  lemma {:induction false} SafeToRollBack(s: Scheme, t: Tree, p: Placed, ops: seq<Op>)
    requires Merkle(s, t, []) && Pure(false, t) && Starts(t, p) && forall op | op in ops :: GoodOp(s, op)
    requires SparesLifted(s, p, ops)
    ensures NoOffense(s, p, ops) && Strip(RolledBack(s, t, p, ops)) == Strip(t)
    decreases |ops|
  {
    hide Ok, Offends, LiftedIn, After, RolledBack;
    if ops == [] {
      NothingToRollBack(s, t, p);
    } else {
      var before, op := ops[..|ops| - 1], ops[|ops| - 1];
      SafeToRollBack(s, t, p, before);
      if op.Set? {
        OnlyLiftedOffends(s, t, p, before, op);
      } else {
        OnlySetOffends(s, op, After(s, p, before));
      }
      assert before + [op] == ops;
      RollbackExactly(s, t, p, before, op);
    }
  }

  lemma OnlySetOffends(s: Scheme, op: Op, q: Placed)
    requires q.k.Inner? && !op.Set?
    ensures !Offends(s, op, q)
  {
  }

  lemma NothingToRollBack(s: Scheme, t: Tree, p: Placed)
    requires Pure(false, t) && Starts(t, p)
    ensures Strip(RolledBack(s, t, p, [])) == Strip(t)
  {
    PureCovered(t);
    RollbackIsRestored(t);
    UnsavedTarget(p.k);
    OverlaySame(t, p.k, p.slots);
  }

  /** In particular no call offends in a transaction without a `Remove`. */
  lemma {:induction false} OnlyRemoveLends(s: Scheme, t: Tree, p: Placed, ops: seq<Op>)
    requires Starts(t, p) && forall op | op in ops :: !op.Remove?
    ensures NoOffense(s, p, ops)
    ensures var q := After(s, p, ops); Within(q.k, q.slots) && Separate(q.k) && LentWithin(q.k, {})
    decreases |ops|
  {
    hide Bit, Walk, Target, Held, Pairs, Lifts, Separate;
    if ops == [] {
      UnsavedHeld(p.k);
    } else {
      var before, op := ops[..|ops| - 1], ops[|ops| - 1];
      OnlyRemoveLends(s, t, p, before);
      var q := After(s, p, before);
      var path := s.Path(op.key);
      NotLentNoOffense(s, op, q, {});
      StepExactly(s, op, q);
      WalkLends(s, op, q.k, q.slots, path, 0);
      WalkApart(s, true, op, q.k, q.slots, path, 0);
      OnlyRemoveLifts(s, op, q.k, q.slots, path, 0);
    }
  }
}
