/** Slices of values inside a transaction. A node refers to its values through a slice: `Remove` hands a
    leaf's slice on to the ancestor that takes its record over, splitting hands it down, `backup` copies
    it, and `Set` writes it in place (collection/manipulators.go, collection/node.go). The other modules
    treat values as immutable; here the slices are explicit, which shows where that matters. */
module Slices {
  import opened ByteSlices
  import opened Fields
  import opened Trees
  import opened Canonical

  /** The contents of the slices allocated so far. */
  type Slots = seq<Values>

  /** A tree whose leaves refer to slices; a leaf that is not known stands for an unknown subtree. Inner
      nodes need none: a transaction leaves their values stale until they are computed anew or restored
      from a copy. */
  datatype Knot =
    | Leaf(known: bool, key: Bytes, at: nat, spare: Spare)
    | Inner(spare: Spare, left: Knot, right: Knot)
  {
    predicate Hole() {
      Leaf? && key == []
    }

    function Child(right: bool): Knot
      requires Inner?
    {
      if right then this.right else left
    }

    function WithChild(right: bool, child: Knot): Knot
      requires Inner?
    {
      if right then this.(right := child) else this.(left := child)
    }

    predicate ChildrenKnown()
      requires Inner?
    {
      (left.Leaf? ==> left.known) && (right.Leaf? ==> right.known)
    }
  }

  /** The backup of a node. */
  datatype Spare = NoSpare | Spare(was: Knot)

  function Look(slots: Slots, a: nat): Values {
    if a < |slots| then slots[a] else []
  }

  function Write(slots: Slots, a: nat, v: Values): Slots {
    if a < |slots| then slots[a := v] else slots
  }

  /** The fields of an element in place. */
  datatype Placed = Placed(k: Knot, slots: Slots)

  /** `backup`, which a transaction calls for: a leaf's values are copied to a new slice, an inner node
      keeps its children. */
  function SetAside(og: bool, k: Knot, slots: Slots): Placed {
    if !og || k.spare.Spare? then Placed(k, slots)
    else if k.Leaf? then
      var copy := Leaf(k.known, k.key, |slots|, NoSpare);
      Placed(Leaf(k.known, k.key, k.at, Spare(copy)), slots + [Look(slots, k.at)])
    else Placed(Inner(Spare(k), k.left, k.right), slots)
  }

  /** Splitting: the new leaf shares the slice of the old one. */
  function Halve(s: Scheme, og: bool, k: Knot, slots: Slots, step: bool): (u: Placed)
    requires k.Leaf?
    ensures u.k.Inner?
  {
    var b := SetAside(og, k, slots);
    var record := Leaf(true, k.key, k.at, NoSpare);
    var hole := Leaf(true, [], |b.slots|, NoSpare);
    Placed(Inner(b.k.spare, if step then hole else record, if step then record else hole),
           b.slots + [s.PlaceholderValues()])
  }

  datatype Move = Refused | Moved(k: Knot, slots: Slots)

  /** The manipulators at a leaf; the slots `Set` writes are written by `Perform`. */
  function AtLeaf(s: Scheme, og: bool, op: Op, k: Knot, slots: Slots, path: Digest, d: nat): Move
    requires k.Leaf? && d <= BITS
    decreases BITS - d, 1
  {
    match op
    case Add(key, values) =>
      if k.key == [] then
        var b := SetAside(og, k, slots);
        Moved(Leaf(k.known, key, |b.slots|, b.k.spare), b.slots + [values])
      else if k.key == key || d == BITS then Refused
      else
        var u := Halve(s, og, k, slots, Bit(s.Path(k.key), d));
        Walk(s, og, op, u.k, u.slots, path, d)
    case Set(key, _) =>
      if k.key != key then Refused
      else
        var b := SetAside(og, k, slots);
        Moved(b.k, b.slots)
    case Remove(key) =>
      if k.key != key then Refused
      else
        var b := SetAside(og, k, slots);
        Moved(Leaf(true, [], |b.slots|, b.k.spare), b.slots + [s.PlaceholderValues()])
  }

  /** An ancestor of a removed record takes over the slice of the one record left. */
  function TakeUp(og: bool, op: Op, k: Knot, root: bool): Knot
    requires k.Inner?
  {
    if op.Remove? && !root && ((k.left.Hole() && k.right.Leaf?) || (k.right.Hole() && k.left.Leaf?)) then
      var from := if k.left.Hole() then k.right else k.left;
      Leaf(true, from.key, from.at, SetAside(og, k, []).k.spare)
    else k
  }

  function Walk(s: Scheme, og: bool, op: Op, k: Knot, slots: Slots, path: Digest, d: nat): Move
    requires k.Inner? && d <= BITS
    decreases BITS - d, 0
  {
    if !k.ChildrenKnown() || d == BITS then Refused
    else
      var step := Bit(path, d);
      match Visit(s, og, op, k.Child(step), slots, path, d + 1)
      case Refused => Refused
      case Moved(c, sl) => Moved(TakeUp(og, op, k.WithChild(step, c), d == 0), sl)
  }

  function Visit(s: Scheme, og: bool, op: Op, k: Knot, slots: Slots, path: Digest, d: nat): Move
    requires d <= BITS
    decreases BITS - d, 2
  {
    if k.Leaf? then AtLeaf(s, og, op, k, slots, path, d) else Walk(s, og, op, k, slots, path, d)
  }

  /** The slice of the leaf on a path. */
  function SlotOn(k: Knot, path: Digest, d: nat): nat {
    if k.Leaf? then k.at else if d >= BITS then 0 else SlotOn(k.Child(Bit(path, d)), path, d + 1)
  }

  /** The slots after the leaf has been found and backed up: `Set` writes them in place. */
  function Written(op: Op, k: Knot, slots: Slots, path: Digest, d: nat): Slots {
    if op.Set? then
      var a := SlotOn(k, path, d);
      Write(slots, a, Merge(Look(slots, a), op.changes))
    else slots
  }

  /** A whole call, inside a transaction or outside. */
  function Perform(s: Scheme, og: bool, op: Op, p: Placed): (q: Placed)
    requires p.k.Inner?
    ensures q.k.Inner?
  {
    match Walk(s, og, op, p.k, p.slots, s.Path(op.key), 0)
    case Refused => p
    case Moved(k, sl) => Placed(k, Written(op, k, sl, s.Path(op.key), 0))
  }

  // -------------------------------------------------------------- what is seen

  /** Known flags, keys and values, as a reader sees them. */
  datatype Plain = Bud(known: bool, key: Bytes, values: Values) | Limb(known: bool, left: Plain, right: Plain)

  function Live(k: Knot, slots: Slots): Plain {
    if k.Leaf? then Bud(k.known, k.key, Look(slots, k.at)) else Limb(true, Live(k.left, slots), Live(k.right, slots))
  }

  function LiveOf(t: Tree): Plain {
    match t
    case Tip(c, _) => Bud(c.known, c.key, c.values)
    case Fork(c, _, l, r) => Limb(c.known, LiveOf(l), LiveOf(r))
  }

  /** The tree `Rollback` goes back to: backups where there are some. */
  function Target(k: Knot): Knot {
    if k.spare.Spare? then Frozen(k.spare.was)
    else if k.Leaf? then k
    else Inner(NoSpare, Target(k.left), Target(k.right))
  }

  function Frozen(was: Knot): Knot {
    if was.Leaf? then Leaf(was.known, was.key, was.at, NoSpare)
    else Inner(NoSpare, Target(was.left), Target(was.right))
  }

  function Used(k: Knot): set<nat> {
    if k.Leaf? then {k.at} else Used(k.left) + Used(k.right)
  }

  predicate Unsaved(k: Knot) {
    k.spare.NoSpare? && (k.Inner? ==> Unsaved(k.left) && Unsaved(k.right))
  }

  /** Every slice of the tree, and of what its backups hold on to, exists. */
  predicate Within(k: Knot, slots: Slots) {
    && (if k.Leaf? then k.at < |slots| else Within(k.left, slots) && Within(k.right, slots))
    && (k.spare.Spare? ==> Within(k.spare.was, slots))
  }

  lemma {:induction false} WithinGrow(k: Knot, slots: Slots, more: Slots)
    requires Within(k, slots) && |slots| <= |more|
    ensures Within(k, more)
  {
    if k.Inner? {
      WithinGrow(k.left, slots, more);
      WithinGrow(k.right, slots, more);
    }
    if k.spare.Spare? {
      WithinGrow(k.spare.was, slots, more);
    }
  }

  lemma {:induction false} UsedWithin(k: Knot, slots: Slots)
    requires Within(k, slots)
    ensures forall a | a in Used(k) :: a < |slots|
  {
    if k.Inner? {
      UsedWithin(k.left, slots);
      UsedWithin(k.right, slots);
    }
  }

  lemma {:induction false} TargetWithin(k: Knot, slots: Slots)
    requires Within(k, slots)
    ensures Within(Target(k), slots)
    decreases k, 1
  {
    if k.spare.Spare? {
      FrozenWithin(k.spare.was, slots);
    } else if k.Inner? {
      TargetWithin(k.left, slots);
      TargetWithin(k.right, slots);
    }
  }

  lemma {:induction false} FrozenWithin(was: Knot, slots: Slots)
    requires Within(was, slots)
    ensures Within(Frozen(was), slots)
    decreases was, 0
  {
    if was.Inner? {
      TargetWithin(was.left, slots);
      TargetWithin(was.right, slots);
    }
  }

  /** No two leaves of the tree share a slice. */
  predicate Separate(k: Knot) {
    k.Inner? ==> Used(k.left) !! Used(k.right) && Separate(k.left) && Separate(k.right)
  }

  lemma {:induction false} LiveFrame(k: Knot, slots: Slots, other: Slots)
    requires forall a | a in Used(k) :: Look(slots, a) == Look(other, a)
    ensures Live(k, slots) == Live(k, other)
  {
    if k.Inner? {
      LiveFrame(k.left, slots, other);
      LiveFrame(k.right, slots, other);
    }
  }

  /** Whoever uses a slice sees what is written to it. */
  lemma {:induction false} LiveWrite(k: Knot, slots: Slots, a: nat, v: Values)
    requires a in Used(k) && a < |slots| && v != slots[a]
    ensures Live(k, Write(slots, a, v)) != Live(k, slots)
  {
    if k.Inner? {
      if a in Used(k.left) { LiveWrite(k.left, slots, a, v); } else { LiveWrite(k.right, slots, a, v); }
    }
  }

  lemma LiveGrow(k: Knot, slots: Slots, more: Slots)
    requires slots <= more && forall a | a in Used(k) :: a < |slots|
    ensures Live(k, slots) == Live(k, more)
  {
    LiveFrame(k, slots, more);
  }

  // --------------------------------------------------------- slices stay in range

  /** Slices are only added, and every slice in use exists. */
  ghost predicate Grows(slots: Slots, r: Move) {
    r.Moved? ==> slots <= r.slots && Within(r.k, r.slots)
  }

  lemma SetAsideGrows(og: bool, k: Knot, slots: Slots)
    requires Within(k, slots)
    ensures var b := SetAside(og, k, slots);
            Grows(slots, Moved(b.k, b.slots)) && (k.Leaf? ==> b.k == Leaf(k.known, k.key, k.at, b.k.spare))
  {
  }

  /** A leaf in the place of another, or a new inner node there. */
  lemma HalveReady(s: Scheme, og: bool, k: Knot, slots: Slots, step: bool) returns (u: Placed)
    requires k.Leaf? && Within(k, slots)
    ensures u == Halve(s, og, k, slots, step) && u.k.spare == SetAside(og, k, slots).k.spare
    ensures slots < u.slots && |u.slots| == |SetAside(og, k, slots).slots| + 1 && Within(u.k, u.slots)
    ensures Separate(u.k) && Used(u.k) == {k.at, |u.slots| - 1}
  {
    u := Halve(s, og, k, slots, step);
    SetAsideGrows(og, k, slots);
    var b := SetAside(og, k, slots);
    WithinGrow(b.k, b.slots, u.slots);
  }

  lemma {:induction false} WalkGrows(s: Scheme, og: bool, op: Op, k: Knot, slots: Slots, path: Digest, d: nat)
    requires k.Inner? && d <= BITS && Within(k, slots)
    ensures Grows(slots, Walk(s, og, op, k, slots, path, d))
    decreases BITS - d, 0
  {
    hide Bit, Visit;
    if d < BITS {
      var step := Bit(path, d);
      VisitGrows(s, og, op, k.Child(step), slots, path, d + 1);
      var r := Visit(s, og, op, k.Child(step), slots, path, d + 1);
      if r.Moved? {
        WithinGrow(k, slots, r.slots);
        TakeUpWithin(og, op, k.WithChild(step, r.k), d == 0, r.slots);
      }
    }
  }

  lemma TakeUpWithin(og: bool, op: Op, k: Knot, root: bool, slots: Slots)
    requires k.Inner? && Within(k, slots)
    ensures Within(TakeUp(og, op, k, root), slots)
  {
  }

  lemma {:induction false} VisitGrows(s: Scheme, og: bool, op: Op, k: Knot, slots: Slots, path: Digest, d: nat)
    requires d <= BITS && Within(k, slots)
    ensures Grows(slots, Visit(s, og, op, k, slots, path, d))
    decreases BITS - d, 2
  {
    hide Bit;
    if k.Inner? {
      WalkGrows(s, og, op, k, slots, path, d);
    } else {
      SetAsideGrows(og, k, slots);
      var b := SetAside(og, k, slots);
      WithinGrow(b.k, b.slots, b.slots + [s.PlaceholderValues()]);
      if op.Add? {
        WithinGrow(b.k, b.slots, b.slots + [op.values]);
        if k.key != [] && k.key != op.key && d < BITS {
          var u := HalveReady(s, og, k, slots, Bit(s.Path(k.key), d));
          WalkGrows(s, og, op, u.k, u.slots, path, d);
        }
      }
    }
  }

  /** Outside a transaction no backup is made. */
  lemma {:induction false} WalkUnsaved(s: Scheme, op: Op, k: Knot, slots: Slots, path: Digest, d: nat)
    requires k.Inner? && d <= BITS && Unsaved(k)
    ensures var r := Walk(s, false, op, k, slots, path, d); r.Moved? ==> Unsaved(r.k)
    decreases BITS - d, 0
  {
    hide Bit;
    if d < BITS {
      VisitUnsaved(s, op, k.Child(Bit(path, d)), slots, path, d + 1);
    }
  }

  lemma {:induction false} VisitUnsaved(s: Scheme, op: Op, k: Knot, slots: Slots, path: Digest, d: nat)
    requires d <= BITS && Unsaved(k)
    ensures var r := Visit(s, false, op, k, slots, path, d); r.Moved? ==> Unsaved(r.k)
    decreases BITS - d, 2
  {
    hide Bit;
    if k.Inner? {
      WalkUnsaved(s, op, k, slots, path, d);
    } else if op.Add? && k.key != [] && k.key != op.key && d < BITS {
      var u := Halve(s, false, k, slots, Bit(s.Path(k.key), d));
      WalkUnsaved(s, op, u.k, u.slots, path, d);
    }
  }

  // ------------------------------------------- the rollback target, step by step

  /** The slices of one tree are those of another, or new ones, shared no more than there. */
  ghost predicate DrawnFrom(k: Knot, from: Knot, n: nat) {
    && (forall a | a in Used(k) :: a in Used(from) || n <= a)
    && (Separate(from) ==> Separate(k))
  }

  /** Inside a transaction the rollback target shows the same keys and values as before. */
  ghost predicate Steady(k: Knot, slots: Slots, r: Move) {
    r.Moved? ==>
      && slots <= r.slots && Within(r.k, r.slots)
      && Live(Target(r.k), r.slots) == Live(Target(k), slots) && DrawnFrom(Target(r.k), Target(k), |slots|)
  }

  lemma TargetGrow(k: Knot, slots: Slots, more: Slots)
    requires slots <= more && Within(k, slots)
    ensures Live(Target(k), slots) == Live(Target(k), more)
  {
    TargetWithin(k, slots);
    UsedWithin(Target(k), slots);
    LiveGrow(Target(k), slots, more);
  }

  lemma SetAsideSteady(k: Knot, slots: Slots)
    requires Within(k, slots)
    ensures var b := SetAside(true, k, slots);
            && Steady(k, slots, Moved(b.k, b.slots)) && b.k.spare.Spare?
            && (k.Leaf? ==> b.k == Leaf(k.known, k.key, k.at, b.k.spare))
  {
    var b := SetAside(true, k, slots);
    if k.spare.NoSpare? {
      if k.Inner? {
        assert Target(b.k) == Frozen(k);
      } else {
        assert Target(b.k) == Leaf(k.known, k.key, |slots|, NoSpare);
      }
    }
  }

  /** With its backup taken, a node may change in any way. */
  lemma SteadyOver(k: Knot, slots: Slots, b: Placed, u: Knot, more: Slots)
    requires Within(k, slots) && Steady(k, slots, Moved(b.k, b.slots)) && b.k.spare.Spare?
    requires u.spare == b.k.spare && b.slots <= more && Within(u, more)
    ensures Steady(k, slots, Moved(u, more)) && Target(u) == Target(b.k)
  {
    TargetGrow(b.k, b.slots, more);
  }

  lemma {:induction false} WalkSteady(s: Scheme, op: Op, k: Knot, slots: Slots, path: Digest, d: nat)
    requires k.Inner? && d <= BITS && Within(k, slots)
    ensures Steady(k, slots, Walk(s, true, op, k, slots, path, d))
    decreases BITS - d, 0
  {
    hide Bit, Visit, TakeUp, Live, DrawnFrom;
    if d < BITS {
      var step := Bit(path, d);
      VisitSteady(s, op, k.Child(step), slots, path, d + 1);
      var r := Visit(s, true, op, k.Child(step), slots, path, d + 1);
      if r.Moved? {
        ChildSteady(k, step, slots, r.k, r.slots);
        TakeUpSteady(op, k.WithChild(step, r.k), d == 0);
        TakeUpWithin(true, op, k.WithChild(step, r.k), d == 0, r.slots);
      }
    }
  }

  lemma ChildSteady(k: Knot, step: bool, slots: Slots, c: Knot, more: Slots)
    requires k.Inner? && Within(k, slots) && Steady(k.Child(step), slots, Moved(c, more))
    ensures Steady(k, slots, Moved(k.WithChild(step, c), more))
  {
    var sib := k.Child(!step);
    TargetGrow(sib, slots, more);
    WithinGrow(sib, slots, more);
    TargetWithin(sib, slots);
    UsedWithin(Target(sib), slots);
    if k.spare.Spare? {
      WithinGrow(k.spare.was, slots, more);
      TargetGrow(k, slots, more);
    }
  }

  lemma TakeUpSteady(op: Op, k: Knot, root: bool)
    requires k.Inner?
    ensures Target(TakeUp(true, op, k, root)) == Target(k)
  {
  }

  lemma {:induction false} VisitSteady(s: Scheme, op: Op, k: Knot, slots: Slots, path: Digest, d: nat)
    requires d <= BITS && Within(k, slots)
    ensures Steady(k, slots, Visit(s, true, op, k, slots, path, d))
    decreases BITS - d, 2
  {
    hide Bit, DrawnFrom;
    if k.Inner? {
      WalkSteady(s, op, k, slots, path, d);
    } else {
      SetAsideSteady(k, slots);
      var b := SetAside(true, k, slots);
      WithinGrow(b.k, b.slots, b.slots + [s.PlaceholderValues()]);
      match op
      case Add(key, values) =>
        if k.key == [] {
          WithinGrow(b.k, b.slots, b.slots + [values]);
          SteadyOver(k, slots, b, Leaf(k.known, key, |b.slots|, b.k.spare), b.slots + [values]);
        } else if k.key != key && d < BITS {
          var u := HalveReady(s, true, k, slots, Bit(s.Path(k.key), d));
          SteadyOver(k, slots, b, u.k, u.slots);
          WalkSteady(s, op, u.k, u.slots, path, d);
          SteadyOn(k, slots, u, Walk(s, true, op, u.k, u.slots, path, d));
        }
      case Set(_, _) =>
      case Remove(_) =>
        SteadyOver(k, slots, b, Leaf(true, [], |b.slots|, b.k.spare), b.slots + [s.PlaceholderValues()]);
    }
  }

  lemma SteadyOn(k: Knot, slots: Slots, u: Placed, r: Move)
    requires Steady(k, slots, Moved(u.k, u.slots)) && Steady(u.k, u.slots, r)
    ensures Steady(k, slots, r)
  {
  }

  // --------------------------------------------------- readers see no difference

  /** The slices of the new tree are old ones of this tree, or new; no two leaves share one. */
  ghost predicate StaysApart(k: Knot, slots: Slots, r: Move) {
    r.Moved? ==> Separate(r.k) && forall a | a in Used(r.k) :: a in Used(k) || |slots| <= a
  }

  lemma {:induction false} WalkApart(s: Scheme, og: bool, op: Op, k: Knot, slots: Slots, path: Digest, d: nat)
    requires k.Inner? && d <= BITS && Within(k, slots) && Separate(k)
    ensures StaysApart(k, slots, Walk(s, og, op, k, slots, path, d))
    decreases BITS - d, 0
  {
    hide Bit, Visit;
    if d < BITS {
      var step := Bit(path, d);
      VisitApart(s, og, op, k.Child(step), slots, path, d + 1);
      UsedWithin(k.Child(!step), slots);
    }
  }

  lemma {:induction false} VisitApart(s: Scheme, og: bool, op: Op, k: Knot, slots: Slots, path: Digest, d: nat)
    requires d <= BITS && Within(k, slots) && Separate(k)
    ensures StaysApart(k, slots, Visit(s, og, op, k, slots, path, d))
    decreases BITS - d, 2
  {
    hide Bit;
    if k.Inner? {
      WalkApart(s, og, op, k, slots, path, d);
    } else if op.Add? && k.key != [] && k.key != op.key && d < BITS {
      var u := HalveReady(s, og, k, slots, Bit(s.Path(k.key), d));
      WalkApart(s, og, op, u.k, u.slots, path, d);
    }
  }

  /** The value model and the slice model take the same turn, and show the same keys and values. */
  ghost predicate Alike(op: Op, t: Outcome, r: Move, path: Digest, d: nat) {
    match t
    case Failed(_) => r == Refused
    case Done(u) =>
      && r.Moved? && LiveOf(u) == Live(r.k, Written(op, r.k, r.slots, path, d))
      && (op.Set? ==> SlotOn(r.k, path, d) in Used(r.k))
  }

  lemma {:induction false} WalkAlike(s: Scheme, og: bool, op: Op, t: Tree, k: Knot, slots: Slots, path: Digest, d: nat)
    requires k.Inner? && t.Fork? && d <= BITS
    requires LiveOf(t) == Live(k, slots) && Within(k, slots) && Separate(k)
    ensures Alike(op, Modify(s, og, op, t, path, d), Walk(s, og, op, k, slots, path, d), path, d)
    decreases BITS - d, 0
  {
    hide Bit, Visit, Below, Climb, TakeUp, Written;
    SameForm(t.left, k.left, slots);
    SameForm(t.right, k.right, slots);
    if t.ChildrenKnown() && d < BITS {
      var step := Bit(path, d);
      VisitAlike(s, og, op, t.Child(step), k.Child(step), slots, path, d + 1);
      VisitApart(s, og, op, k.Child(step), slots, path, d + 1);
      VisitGrows(s, og, op, k.Child(step), slots, path, d + 1);
      var a := Below(s, og, op, t.Child(step), path, d + 1);
      var b := Visit(s, og, op, k.Child(step), slots, path, d + 1);
      if a.Done? {
        SiblingAlike(op, t, k, slots, step, a.t, b.k, b.slots, path, d);
        ClimbAlike(s, og, op, t.WithChild(step, a.t), k.WithChild(step, b.k), b.slots, path, d);
      }
    }
  }

  /** The child has changed, its sibling has not. */
  lemma SiblingAlike(op: Op, t: Tree, k: Knot, slots: Slots, step: bool, t1: Tree, c: Knot, more: Slots,
        path: Digest, d: nat)
    requires k.Inner? && t.Fork? && LiveOf(t) == Live(k, slots) && Within(k, slots) && Separate(k)
    requires d < BITS && step == Bit(path, d) && slots <= more && Within(c, more)
    requires StaysApart(k.Child(step), slots, Moved(c, more)) && Alike(op, Done(t1), Moved(c, more), path, d + 1)
    ensures Alike(op, Done(t.WithChild(step, t1)), Moved(k.WithChild(step, c), more), path, d)
  {
    hide Bit;
    var sib := k.Child(!step);
    UsedWithin(sib, slots);
    LiveGrow(sib, slots, more);
    LiveFrame(sib, more, Written(op, c, more, path, d + 1));
  }

  lemma ClimbAlike(s: Scheme, og: bool, op: Op, t: Tree, k: Knot, slots: Slots, path: Digest, d: nat)
    requires t.Fork? && k.Inner? && Alike(op, Done(t), Moved(k, slots), path, d)
    ensures Alike(op, Done(Climb(s, og, op, t, d == 0)), Moved(TakeUp(og, op, k, d == 0), slots), path, d)
  {
    hide Bit;
    if op.Remove? {
      SameForm(t.left, k.left, slots);
      SameForm(t.right, k.right, slots);
    } else {
      assert TakeUp(og, op, k, d == 0) == k && LiveOf(Climb(s, og, op, t, d == 0)) == LiveOf(t);
    }
  }

  lemma SameForm(t: Tree, k: Knot, slots: Slots)
    requires LiveOf(t) == Live(k, slots)
    ensures t.Tip? == k.Leaf? && t.Placeholder() == k.Hole() && t.c.known == (k.Leaf? ==> k.known)
    ensures t.Tip? ==> t.c.key == k.key && t.c.values == Look(slots, k.at)
  {
  }

  lemma {:induction false} VisitAlike(s: Scheme, og: bool, op: Op, t: Tree, k: Knot, slots: Slots, path: Digest, d: nat)
    requires d <= BITS && t.c.known && LiveOf(t) == Live(k, slots) && Within(k, slots) && Separate(k)
    ensures Alike(op, Below(s, og, op, t, path, d), Visit(s, og, op, k, slots, path, d), path, d)
    decreases BITS - d, 2
  {
    hide Bit;
    if k.Inner? {
      WalkAlike(s, og, op, t, k, slots, path, d);
    } else if op.Add? && k.key != [] && k.key != op.key && d < BITS {
      var step := Bit(s.Path(k.key), d);
      var u := HalveReady(s, og, k, slots, step);
      var v := Split(s, og, t, step);
      assert LiveOf(v) == Live(u.k, u.slots);
      WalkAlike(s, og, op, v, u.k, u.slots, path, d);
    }
  }
}
