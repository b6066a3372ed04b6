/** The collection object: manipulators, transactions and garbage collection on the heap
    (collection/collection.go, singlenode.go, manipulators.go, transaction.go). */
module Collections {
  import opened ByteSlices
  import opened Fields
  import opened Trees
  import opened Canonical
  import opened Transactions
  import opened Scopes
  import opened Nodes

  // -------------------------------------------------- the way up, as a value

  /** Climbing all the way up from a changed node. */
  ghost function Lift(s: Scheme, og: bool, op: Op, path: Path, t: Tree): Tree {
    match path
    case Whole => t
    case Step(c, saved, right, sib, up) =>
      Lift(s, og, op, up, Climb(s, og, op, Join(c, saved, right, sib, t), up.Whole?))
  }

  lemma WholeTop(ctx: Ctx)
    ensures CAbs(ctx).Whole? <==> ctx.Top?
  {
  }

  lemma LiftStep(s: Scheme, og: bool, op: Op, path: Path, t: Tree)
    requires path.Step?
    ensures Lift(s, og, op, path, t)
            == Lift(s, og, op, path.up, Climb(s, og, op, Join(path.c, path.saved, path.right, path.sib, t),
                path.up.Whole?))
  {
  }

  lemma LiftWhole(s: Scheme, og: bool, op: Op, t: Tree)
    ensures Lift(s, og, op, Whole, t) == t
  {
  }

  /** What `Add` and `Set` do to an ancestor. */
  ghost function Touched(s: Scheme, og: bool, t: Tree): Tree {
    if og then t.(c := t.c.(dirty := true)) else Update(s, t)
  }

  lemma TouchedIsClimb(s: Scheme, og: bool, op: Op, t: Tree, root: bool)
    ensures !op.Remove? && t.Fork? ==> Climb(s, og, op, t, root) == Touched(s, og, t)
  {
  }

  ghost function Resume(s: Scheme, og: bool, op: Op, path: Path, r: Outcome): Outcome {
    match r case Failed(_) => r case Done(u) => Done(Lift(s, og, op, path, u))
  }

  /** One step of the descent, as a value. */
  lemma ResumeStep(s: Scheme, og: bool, op: Op, path: Path, t: Tree, key: Digest)
    requires t.Fork? && Depth(path) <= BITS
    ensures !t.ChildrenKnown() ==> Below(s, og, op, t, key, Depth(path)) == Failed(ProofNeeded)
    ensures t.ChildrenKnown() && Depth(path) == BITS ==> Below(s, og, op, t, key, Depth(path)) == Failed(Panic)
    ensures t.ChildrenKnown() && Depth(path) < BITS ==>
              var step := Bit(key, Depth(path));
              Resume(s, og, op, path, Below(s, og, op, t, key, Depth(path)))
              == Resume(s, og, op, Step(t.c, t.saved, step, t.Child(!step), path),
                  Below(s, og, op, t.Child(step), key, Depth(path) + 1))
  {
    hide Bit, Climb, AtTip;
    if t.ChildrenKnown() && Depth(path) < BITS {
      var step := Bit(key, Depth(path));
      var r := Below(s, og, op, t.Child(step), key, Depth(path) + 1);
      if r.Done? {
        assert Join(t.c, t.saved, step, t.Child(!step), r.t) == t.WithChild(step, r.t);
      }
    }
  }

  /** The state of a descent: the node in focus, its depth, and what remains to be done there. */
  ghost predicate Descending(s: Scheme, og: bool, op: Op, ctx: Ctx, sh: Shape, path: Digest, d: int, goal: Outcome)
    reads CFoot(ctx), Foot(sh)
  {
    && Focus(ctx, sh) && 0 <= d <= BITS && d == Depth(CAbs(ctx))
    && Resume(s, og, op, CAbs(ctx), Below(s, og, op, Abs(sh), path, d)) == goal
  }

  lemma Starting(s: Scheme, og: bool, op: Op, sh: Shape)
    requires Focus(Top, sh) && Abs(sh).c.known && Abs(sh).Fork?
    ensures Descending(s, og, op, Top, sh, s.Path(op.key), 0, Manipulate(s, og, op, Abs(sh)))
  {
  }

  /** One step of the descent, on the heap. */
  lemma Descend(s: Scheme, og: bool, op: Op, ctx: Ctx, sh: Shape, path: Digest, d: int, goal: Outcome)
    requires Descending(s, og, op, ctx, sh, path, d, goal) && sh.kids.Kids? && goal != Failed(Panic)
    ensures sh.n.left != null && sh.n.right != null
    ensures !(sh.n.left.known && sh.n.right.known) ==> goal == Failed(ProofNeeded)
    ensures sh.n.left.known && sh.n.right.known ==>
              && d < BITS
              && var step := Bit(path, d);
              && Kid(sh, step).n == (if step then sh.n.right else sh.n.left)
              && Descending(s, og, op, Enter(ctx, sh, step), Kid(sh, step), path, d + 1, goal)
              && Plug(Enter(ctx, sh, step), Kid(sh, step)) == Plug(ctx, sh)
  {
    hide Bit, Below;
    Opened(sh, Owner(ctx));
    ResumeStep(s, og, op, CAbs(ctx), Abs(sh), path);
    FocusDown(ctx, sh, false);
    FocusDown(ctx, sh, true);
  }

  lemma Grown(s: Scheme, og: bool, op: Op, ctx: Ctx, sh: Shape, path: Digest, d: int, goal: Outcome)
    requires Descending(s, og, op, ctx, sh, path, d, goal)
    ensures sh.n.left != null <==> sh.kids.Kids?
    ensures Abs(sh).c == CellOf(sh.n)
  {
    Opened(sh, Owner(ctx));
  }

  /** Once an `Add` has split a leaf it cannot fail any more. */
  lemma {:induction false} SplitSucceeds(s: Scheme, og: bool, op: Op, t: Tree, path: Digest, d: nat)
    requires op.Add? && t.Tip? && t.c.key != [] && t.c.key != op.key && d < BITS
    ensures var r := AtTip(s, og, op, t, path, d); r.Done? || r == Failed(Panic)
    decreases BITS - d
  {
    hide Bit;
    var u := Split(s, og, t, Bit(s.Path(t.c.key), d));
    var next := u.Child(Bit(path, d));
    assert AtTip(s, og, op, t, path, d) == Modify(s, og, op, u, path, d);
    assert Below(s, og, op, next, path, d + 1) == AtTip(s, og, op, next, path, d + 1);
    if next.c.key != [] && d + 1 < BITS {
      SplitSucceeds(s, og, op, next, path, d + 1);
    }
  }

  /** Where the descent of `Add` meets a node without children. */
  lemma Reached(s: Scheme, og: bool, op: Op, ctx: Ctx, sh: Shape, path: Digest, d: int, goal: Outcome)
    requires Descending(s, og, op, ctx, sh, path, d, goal) && op.Add? && sh.n.left == null && goal != Failed(Panic)
    ensures sh.kids.NoKids? && Abs(sh).Tip? && Abs(sh).c == CellOf(sh.n) && 0 <= d <= BITS
    ensures sh.n.key == op.key && sh.n.key != [] ==> goal == Failed(KeyCollision)
    ensures sh.n.key == [] ==>
              var r := AtTip(s, og, op, Abs(sh), path, d);
              r.Done? && goal == Done(Lift(s, og, op, CAbs(ctx), r.t))
    ensures sh.n.key != op.key && sh.n.key != [] ==>
              && d < BITS && goal.Done?
              && goal == Resume(s, og, op, CAbs(ctx), Below(s, og, op, Split(s, og, Abs(sh), Bit(s.Path(sh.n.key), d)),
                 path, d))
  {
    hide Bit;
    Opened(sh, Owner(ctx));
    var t := Abs(sh);
    assert Below(s, og, op, t, path, d) == AtTip(s, og, op, t, path, d);
    if t.c.key != op.key && t.c.key != [] && d < BITS {
      SplitSucceeds(s, og, op, t, path, d);
    }
  }

  lemma Focused(s: Scheme, og: bool, op: Op, ctx: Ctx, sh: Shape, path: Digest, d: int, goal: Outcome)
    requires Descending(s, og, op, ctx, sh, path, d, goal)
    ensures Focus(ctx, sh) && 0 <= d <= BITS && d == Depth(CAbs(ctx))
  {
  }

  lemma Resumed(s: Scheme, og: bool, op: Op, ctx: Ctx, sh: Shape, path: Digest, d: int, goal: Outcome)
    requires Focus(ctx, sh) && 0 <= d <= BITS && d == Depth(CAbs(ctx))
    requires goal == Resume(s, og, op, CAbs(ctx), Below(s, og, op, Abs(sh), path, d))
    ensures Descending(s, og, op, ctx, sh, path, d, goal)
  {
  }

  lemma Footing(ctx: Ctx, sh: Shape)
    ensures ctx == Top ==> CFoot(ctx) + Foot(sh) == Foot(sh)
  {
  }

  lemma Deeper(ctx: Ctx, sh: Shape, step: bool)
    requires Focus(ctx, sh) && sh.kids.Kids?
    ensures CFoot(Enter(ctx, sh, step)) + Foot(Kid(sh, step)) == CFoot(ctx) + Foot(sh)
  {
    FocusDown(ctx, sh, step);
  }

  /** One turn of `Add`'s loop up to the child it moves to: the descent goes on, over the same nodes. */
  lemma Turned(s: Scheme, og: bool, op: Op, ctx: Ctx, sh: Shape, path: Digest, d: int, goal: Outcome)
    requires Descending(s, og, op, ctx, sh, path, d, goal) && sh.kids.Kids? && goal != Failed(Panic)
    ensures sh.n.left != null && sh.n.right != null
    ensures !(sh.n.left.known && sh.n.right.known) ==> goal == Failed(ProofNeeded)
    ensures sh.n.left.known && sh.n.right.known ==>
              && 0 <= d < BITS
              && var step := Bit(path, d); var down, kid := Enter(ctx, sh, step), Kid(sh, step);
              && kid.n == (if step then sh.n.right else sh.n.left)
              && Descending(s, og, op, down, kid, path, d + 1, goal)
              && Plug(down, kid) == Plug(ctx, sh) && CFoot(down) + Foot(kid) == CFoot(ctx) + Foot(sh)
              && (kid.n.left != null <==> kid.kids.Kids?)
  {
    hide Bit, Descending, Focus;
    Focused(s, og, op, ctx, sh, path, d, goal);
    Descend(s, og, op, ctx, sh, path, d, goal);
    if sh.n.left.known && sh.n.right.known {
      var step := Bit(path, d);
      Deeper(ctx, sh, step);
      Grown(s, og, op, Enter(ctx, sh, step), Kid(sh, step), path, d + 1, goal);
    }
  }

  lemma Unknown(s: Scheme, og: bool, op: Op, sh: Shape)
    requires Focus(Top, sh)
    ensures !sh.n.known ==> Manipulate(s, og, op, Abs(sh)) == Failed(ProofNeeded)
    ensures sh.n.known && Manipulate(s, og, op, Abs(sh)) != Failed(Panic) ==>
              Abs(sh).c.known && Abs(sh).Fork? && sh.kids.Kids?
  {
    Opened(sh, null);
  }

  lemma RootFacts(sh: Shape)
    requires Focus(Top, sh)
    ensures Abs(sh).c == CellOf(sh.n) && (Abs(sh).Fork? <==> sh.n.left != null)
  {
    Opened(sh, null);
  }

  lemma PlugRoot(ctx: Ctx, sh: Shape, out: Shape)
    requires sh.n == out.n
    ensures Plug(ctx, sh).n == Plug(ctx, out).n
  {
  }

  /** Where the descent of `Set` and `Remove` stops. */
  lemma Landed(s: Scheme, og: bool, op: Op, ctx: Ctx, sh: Shape, path: Digest, d: int, goal: Outcome)
    requires Descending(s, og, op, ctx, sh, path, d, goal) && !op.Add? && sh.n.left == null
    ensures sh.kids.NoKids? && Abs(sh).Tip?
    ensures sh.n.key != op.key ==> goal == Failed(KeyNotFound)
    ensures sh.n.key == op.key ==>
              var r := AtTip(s, og, op, Abs(sh), path, d);
              r.Done? && goal == Done(Lift(s, og, op, CAbs(ctx), r.t))
  {
    Opened(sh, Owner(ctx));
    assert Abs(sh).Tip? && Abs(sh).c.key == sh.n.key;
    assert Below(s, og, op, Abs(sh), path, d) == AtTip(s, og, op, Abs(sh), path, d);
  }

  /** `update` looks at the node and at the cells of its children only. */
  ghost function Local(n: Node): Tree
    reads n, n.left, n.right
  {
    if n.left == null || n.right == null then Tip(CellOf(n), Nothing)
    else Fork(CellOf(n), Nothing, Tip(CellOf(n.left), Nothing), Tip(CellOf(n.right), Nothing))
  }

  lemma UpdateLocal(s: Scheme, t: Tree, l: Tree)
    requires l.c == t.c && l.Fork? == t.Fork? && (t.Fork? ==> l.left.c == t.left.c && l.right.c == t.right.c)
    ensures Update(s, t) == t.(c := Update(s, l).c)
  {
  }

  lemma EmptiedCell(s: Scheme, t: Tree)
    ensures Emptied(s, t) == Tip(Emptied(s, Tip(t.c, Nothing)).c, t.saved)
  {
  }

  lemma EmptiedTip(s: Scheme)
    ensures Emptied(s, Blank()) == Tip(Emptied(s, Blank()).c, Nothing)
  {
  }

  /** A leaf split in two, its backup taken before. */
  ghost function Divided(s: Scheme, b: Tree, step: bool): Tree {
    var record := Tip(Cell(b.c.tag, true, false, b.c.key, b.c.values), Nothing);
    var hole := Emptied(s, Blank());
    Fork(b.c.(key := []), b.saved, if step then hole else record, if step then record else hole)
  }

  lemma SplitIsDivided(s: Scheme, ongoing: bool, t: Tree, step: bool)
    ensures Trees.Split(s, ongoing, t, step) == Divided(s, Trees.Backup(ongoing, t), step)
  {
  }

  lemma EmptyIs(s: Scheme, c: Cell, hole: Cell)
    requires hole == Emptied(s, Blank()).c
    requires c == Update(s, Fork(Cell(Zero(), true, false, [], []), Nothing, Tip(hole, Nothing), Tip(hole, Nothing))).c
    ensures Fork(c, Nothing, Tip(hole, Nothing), Tip(hole, Nothing)) == Empty(s)
  {
  }

  lemma StripUnfold(t: Tree)
    ensures Strip(t) == if t.Tip? then Tip(t.c.(dirty := false), Nothing)
                        else Fork(t.c.(dirty := false), Nothing, Strip(t.left), Strip(t.right))
  {
  }

  lemma ConfirmUnfold(t: Tree)
    ensures ConfirmTree(t) == if !Flagged(t) then t
                              else if t.Tip? then Tip(t.c, Nothing)
                              else Fork(t.c, Nothing, ConfirmTree(t.left), ConfirmTree(t.right))
  {
  }

  lemma RollbackUnfold(t: Tree)
    ensures RollbackTree(t) ==
            if !Flagged(t) then t
            else match Restore(t)
              case Tip(c, saved) => Tip(c, saved)
              case Fork(c, saved, l, r) => Fork(c, saved, RollbackTree(l), RollbackTree(r))
  {
  }

  /** The node its backup describes, before the restoration. */
  lemma RestoreFacts(sh: Shape, parent: Node?)
    requires Distinct(sh) && Linked(sh, parent) && sh.bak.Bak?
    ensures var b, k := sh.bak.b, sh.bak.frozen;
            && sh.n.saved == b && b.saved == null && b.parent == parent && KLinked(k, b.left, b.right, sh.n)
            && sh.n !in KFoot(k) && KDistinct(k) && b != sh.n && KFoot(k) <= Foot(sh)
            && Restore(Abs(sh)) == Grow(CellOf(b), Nothing, k)
            && Distinct(Shape(sh.n, k, NoBak)) && Foot(Shape(sh.n, k, NoBak)) <= Foot(sh)
  {
  }

  class Collection {
    const scheme: Scheme
    const scope: Scope
    const root: Node
    var autoCollect: bool
    var ongoing: bool
    var id: Uint64
    ghost var shape: Shape

    /** `New`: a full-scope collection holding nothing. */
    constructor New(s: Scheme)
      ensures Valid() && fresh(Foot(shape)) && fresh(scope) && scheme == s
      ensures AsTree() == Empty(s) && scope.Contents() == View([], true)
      ensures autoCollect && !ongoing && id == 0
    {
      hide Linked, Distinct, Abs, Empty;
      var top := new Node();
      scheme := s;
      scope := new Scope();
      root := top;
      autoCollect, ongoing, id := true, false, 0;
      shape := Shape(top, NoKids, NoBak);
      new;
      scope.All();
      label Planting:
      Plant();
      forall n | n in Foot(shape) ensures fresh(n) {
        assert n == root || n in Foot(shape) - {root};
        assert n == root || fresh@Planting(n);
      }
    }

    /** `NewVerifier`: it knows the label of an empty collection, and nothing else. */
    constructor NewVerifier(s: Scheme)
      ensures Valid() && fresh(Foot(shape)) && fresh(scope) && scheme == s
      ensures AsTree() == Tip(Cell(Empty(s).c.tag, false, false, [], []), Nothing) && scope.Contents()
              == View([], false)
      ensures autoCollect && !ongoing && id == 0
    {
      hide Distinct, Linked, Abs, Trees.Update, Emptied;
      var empty := new Collection.New(s);
      RootFacts(empty.shape);
      var emptyLabel := empty.root.tag;
      var top := new Node();
      top.tag := emptyLabel;
      scheme := s;
      scope := new Scope();
      root := top;
      autoCollect, ongoing, id := true, false, 0;
      shape := Shape(top, NoKids, NoBak);
      new;
      scope.None();
      Bare(root, NoBak, null);
      NoBackup();
    }

    /** `Clone`: new nodes for every node of the other collection. */
    constructor Clone(from: Collection)
      requires from.Valid() && !from.ongoing
      ensures Valid() && fresh(Foot(shape)) && fresh(scope) && scheme == from.scheme
      ensures AsTree() == old(Strip(from.AsTree())) && scope.Contents() == from.scope.Contents()
      ensures autoCollect == from.autoCollect && !ongoing && id == 0
    {
      hide Distinct, Linked, Abs, Strip;
      Allocated(from.shape);
      var top := new Node();
      scheme := from.scheme;
      scope := new Scope.Clone(from.scope);
      root := top;
      autoCollect, ongoing, id := from.autoCollect, false, 0;
      shape := Shape(top, NoKids, NoBak);
      new;
      label Copying:
      shape := CloneNode(root, from.root, from.shape, null, null);
      forall n | n in Foot(shape) ensures fresh(n) {
        assert n == root || fresh@Copying(n);
      }
    }

    method CopyFields(dst: Node, src: Node)
      modifies dst`tag, dst`known, dst`inconsistent, dst`saved, dst`key, dst`values
      ensures CellOf(dst) == old(CellOf(src)).(dirty := false) && dst.saved == null
    {
      dst.tag := src.tag;
      dst.known := src.known;
      dst.inconsistent := false;
      dst.saved := null;
      dst.key := src.key;
      dst.values := src.values;
    }

    /** The explorer of `Clone`. */
    method CloneNode(dst: Node, src: Node, ghost sh: Shape, ghost above: Node?, ghost parent: Node?)
      returns (ghost out: Shape)
      requires Distinct(sh) && Linked(sh, above) && sh.n == src && dst !in Foot(sh)
      requires dst.left == null && dst.right == null && dst.saved == null && dst.parent == parent
      modifies dst
      ensures Distinct(out) && Linked(out, parent) && out.n == dst && forall n | n in Foot(out) :: n == dst || fresh(n)
      ensures Abs(out) == old(Strip(Abs(sh)))
      decreases sh, 2
    {
      hide Distinct, BDistinct, Linked, BLinked, Abs, AbsSaved, Strip;
      Allocated(sh);
      Opened(sh, above);
      StripUnfold(Abs(sh));
      CopyFields(dst, src);
      if !src.Leaf() {
        out := CloneFork(dst, src, sh, above, parent);
      } else {
        NoBackup();
        Unsaved(dst, parent);
        Bare(dst, NoBak, parent);
        out := Shape(dst, NoKids, NoBak);
      }
    }

    /** The children of a clone. */
    method CloneFork(dst: Node, src: Node, ghost sh: Shape, ghost above: Node?, ghost parent: Node?)
      returns (ghost out: Shape)
      requires Distinct(sh) && Linked(sh, above) && sh.n == src && sh.kids.Kids? && dst !in Foot(sh)
      requires dst.saved == null && dst.parent == parent
      modifies dst`left, dst`right
      ensures Distinct(out) && Linked(out, parent) && out.n == dst && forall n | n in Foot(out) :: n == dst || fresh(n)
      ensures Abs(out) == old(Fork(CellOf(dst), Nothing, Strip(Abs(sh.kids.l)), Strip(Abs(sh.kids.r))))
      decreases sh, 1
    {
      hide Distinct, BDistinct, KDistinct, Linked, BLinked, KLinked, Abs, AbsSaved, Grow, Strip;
      Allocated(sh);
      dst.Branch();
      label Copying:
      ghost var l, r := CloneKids(dst, src, sh, above);
      NoBackup();
      Unsaved(dst, parent);
      Assembled(dst, l, r, NoBak, parent);
      out := Shape(dst, Kids(l, r), NoBak);
      forall n | n in Foot(out) ensures n == dst || fresh(n) {
        assert n == dst || n in Foot(l) + Foot(r);
        assert n == dst || n == dst.left || n == dst.right || fresh@Copying(n);
      }
    }

    /** The two recursive calls of the explorer. */
    method CloneKids(dst: Node, src: Node, ghost sh: Shape, ghost above: Node?) returns (ghost l: Shape, ghost r: Shape)
      requires Distinct(sh) && Linked(sh, above) && sh.n == src && sh.kids.Kids? && dst !in Foot(sh)
      requires dst.left != null && dst.right != null && dst.left != dst.right && dst.left != dst && dst.right != dst
      requires dst.left !in Foot(sh) && dst.left.left == null && dst.left.right == null && dst.left.saved == null
              && dst.left.parent == dst
      requires dst.right !in Foot(sh) && dst.right.left == null && dst.right.right == null && dst.right.saved == null
              && dst.right.parent == dst
      modifies dst.left, dst.right
      ensures Distinct(l) && Linked(l, dst) && l.n == dst.left && Distinct(r) && Linked(r, dst) && r.n == dst.right
      ensures Foot(l) !! Foot(r) && dst !in Foot(l) + Foot(r)
      ensures forall n | n in Foot(l) + Foot(r) :: n == dst.left || n == dst.right || fresh(n)
      ensures Abs(l) == old(Strip(Abs(sh.kids.l))) && Abs(r) == old(Strip(Abs(sh.kids.r)))
      decreases sh, 0
    {
      hide Distinct, BDistinct, KDistinct, Linked, BLinked, KLinked, Abs, AbsSaved, Grow, Strip;
      Allocated(sh);
      Opened(sh, above);
      l := CloneNode(dst.left, src.left, sh.kids.l, src, dst);
      Allocated(l);
      label Right:
      r := CloneNode(dst.right, src.right, sh.kids.r, src, dst);
      forall n | n in Foot(r) ensures (n == dst.right || fresh(n)) && n !in Foot(l) {
        assert n == dst.right || fresh@Right(n);
      }
    }

    /** The tree of a new collection: a known root above two placeholders. */
    method Plant()
      requires CellOf(root) == Cell(Zero(), false, false, [], []) && root.saved == null && root.parent == null
      modifies this`shape, root
      ensures Valid() && AsTree() == Empty(scheme) && fresh(Foot(shape) - {root})
    {
      hide Linked, Distinct, Abs, Foot, Trees.Update, Emptied, Empty, KLinked, KFoot, BDistinct;
      root.known := true;
      root.Branch();
      Placeholder(root.left);
      Placeholder(root.right);
      Update(root);
      NoBackup();
      Unsaved(root, null);
      Sprouted(root, NoBak, null);
      shape := Shape(root, Kids(Shape(root.left, NoKids, NoBak), Shape(root.right, NoKids, NoBak)), NoBak);
      EmptyIs(scheme, CellOf(root), CellOf(root.left));
    }

    ghost predicate Valid()
      reads this, Foot(shape)
    {
      shape.n == root && Focus(Top, shape)
    }

    ghost function AsTree(): Tree
      reads this, Foot(shape)
    {
      Abs(shape)
    }

    /** `update`. */
    method Update(node: Node)
      requires node.left != null <==> node.right != null
      requires node.left != node && node.right != node
      modifies node`values, node`tag
      ensures CellOf(node) == old(Trees.Update(scheme, Local(node))).c
    {
      hide Scheme.LeafLabel, Scheme.InnerLabel, ParentsFrom;
      if !node.known {
        return;
      }
      if node.Leaf() {
        node.tag := scheme.LeafLabel(node.key, node.values);
      } else {
        var l, r := node.left, node.right;
        if !l.known || !r.known {
          return;
        }
        ghost var vs := Parents(scheme.fields, l.values, r.values);
        node.values := Nils(|scheme.fields|);
        for index := 0 to |scheme.fields|
          invariant index <= |vs| && node.values == vs[..index] + Nils(|scheme.fields| - index)
          invariant node.tag == old(node.tag)
        {
          ParentsAt(scheme.fields, l.values, r.values, 0, index);
          match scheme.fields[index].Parent(At(l.values, index), At(r.values, index))
          case None =>
            assert vs[..index] == vs;
            return;
          case Some(v) =>
            node.values := node.values[index := v];
            assert node.values == vs[..index + 1] + Nils(|scheme.fields| - (index + 1));
        }
        assert node.values == vs;
        node.tag := scheme.InnerLabel(node.values, l.tag, r.tag);
      }
    }

    /** `placeholder`. */
    method Placeholder(node: Node)
      modifies node`known, node`key, node`values, node`tag, node`left, node`right
      ensures node.left == null && node.right == null
      ensures CellOf(node) == old(Emptied(scheme, Tip(CellOf(node), Nothing))).c
    {
      node.known := true;
      node.key := [];
      node.values := Nils(|scheme.fields|);
      for index := 0 to |scheme.fields|
        invariant |node.values| == |scheme.fields|
        invariant forall i | 0 <= i < index :: node.values[i] == scheme.fields[i].Placeholder()
        invariant CellOf(node) == old(CellOf(node)).(known := true, key := [], values := node.values)
      {
        node.values := node.values[index := scheme.fields[index].Placeholder()];
      }
      assert node.values == scheme.PlaceholderValues();
      node.left := null;
      node.right := null;
      Update(node);
    }

    /** An ancestor of a changed node is marked, or relabelled. */
    method Touch(node: Node, ghost ctx: Ctx, ghost sh: Shape)
      requires Focus(ctx, sh) && node == sh.n && sh.kids.Kids?
      modifies node`inconsistent, node`values, node`tag
      ensures Focus(ctx, sh) && CAbs(ctx) == old(CAbs(ctx))
      ensures Abs(sh) == old(Touched(scheme, ongoing, Abs(sh)))
    {
      hide Distinct, BDistinct, CDistinct, Linked, BLinked, CLinked, Abs, AbsSaved, CAbs, Trees.Update;
      CAllocated(ctx);
      Allocated(sh);
      Opened(sh, Owner(ctx));
      ghost var t := Abs(sh);
      UpdateLocal(scheme, t, Local(node));
      if ongoing {
        node.inconsistent := true;
      } else {
        Update(node);
      }
      Assembled(node, sh.kids.l, sh.kids.r, sh.bak, Owner(ctx));
      assert Abs(sh).left == t.left && Abs(sh).right == t.right && Abs(sh).saved == t.saved;
    }

    /** The second loop of `Add` and `Set`: every ancestor is marked or relabelled. */
    method Ascend(from: Node, ghost ctx: Ctx, ghost sh: Shape, ghost op: Op)
      requires Focus(ctx, sh) && from == sh.n && !op.Remove?
      modifies CFoot(ctx)
      ensures Focus(Top, Plug(ctx, sh)) && Foot(Plug(ctx, sh)) == CFoot(ctx) + Foot(sh)
      ensures Abs(Plug(ctx, sh)) == old(Lift(scheme, ongoing, op, CAbs(ctx), Abs(sh)))
    {
      hide Distinct, BDistinct, CDistinct, Trees.Update, Touched, Climb, Lift, Abs, CAbs, Linked, CLinked,
           BLinked, KFoot, BFoot;
      var cursor := from;
      ghost var k, cur := ctx, sh;
      ghost var goal := Lift(scheme, ongoing, op, CAbs(ctx), Abs(sh));
      ParentOf(k, cur);
      WholeTop(k);
      while cursor.parent != null
        invariant CAbs(k).Whole? <==> k.Top?
        invariant Focus(k, cur) && cur.n == cursor && cursor.parent == Owner(k) && Plug(k, cur) == Plug(ctx, sh)
        invariant CFoot(k) <= CFoot(ctx)
        invariant Lift(scheme, ongoing, op, CAbs(k), Abs(cur)) == goal
        decreases k
      {
        LiftStep(scheme, ongoing, op, CAbs(k), Abs(cur));
        cursor := cursor.parent;
        FocusUp(k, cur);
        k, cur := k.up, Leave(k, cur);
        TouchedIsClimb(scheme, ongoing, op, Abs(cur), CAbs(k).Whole?);
        Touch(cursor, k, cur);
        ParentOf(k, cur);
        WholeTop(k);
      }
      LiftWhole(scheme, ongoing, op, Abs(cur));
      PlugFoot(ctx, sh);
    }

    // ------------------------------------------------------ garbage collection

    /** A node keeps its label only. */
    method ForgetNode(node: Node, ghost sh: Shape, ghost parent: Node?) returns (ghost out: Shape)
      requires Distinct(sh) && Linked(sh, parent) && sh.n == node
      modifies node
      ensures out == Shape(node, NoKids, sh.bak) && Distinct(out) && Linked(out, parent) && Foot(out) <= Foot(sh)
      ensures Abs(out) == old(Forget(Abs(sh)))
    {
      hide Distinct, BDistinct, Linked, BLinked, Abs, AbsSaved;
      Allocated(sh);
      Opened(sh, parent);
      node.known := false;
      node.key := [];
      node.values := [];
      node.Prune();
      Bare(node, sh.bak, parent);
      out := Shape(node, NoKids, sh.bak);
    }

    /** The explorer of `Collect`. */
    method CollectNode(node: Node, path: Digest, bit: nat, ghost sh: Shape, ghost parent: Node?)
      returns (ghost out: Shape)
      requires Distinct(sh) && Linked(sh, parent) && sh.n == node
      requires bit < BITS && Sized(scope.Contents()) && Shallow(Abs(sh), bit + 1)
      modifies Foot(sh)
      ensures Distinct(out) && Linked(out, parent) && out.n == node && Foot(out) <= Foot(sh)
      ensures Abs(out) == old(CollectBelow(scope.Contents(), Abs(sh), path, bit))
      decreases sh, 1
    {
      hide Distinct, BDistinct, Linked, BLinked, Abs, AbsSaved, Matches;
      Allocated(sh);
      Opened(sh, parent);
      out := sh;
      if node.known {
        var hit := true;
        if bit > 0 {
          hit := scope.MatchPath(path, bit - 1);
        }
        if !hit {
          out := ForgetNode(node, sh, parent);
        } else if !node.Leaf() {
          var left: Digest := SetBit(path, bit + 1, false);
          var right: Digest := SetBit(left, bit + 1, true);
          out := CollectKids(node, left, right, bit + 1, sh, parent);
        }
      }
    }

    /** The two recursive calls of the explorer. */
    method CollectKids(node: Node, left: Digest, right: Digest, bit: nat, ghost sh: Shape, ghost parent: Node?)
      returns (ghost out: Shape)
      requires Distinct(sh) && Linked(sh, parent) && sh.n == node && sh.kids.Kids?
      requires bit < BITS && Sized(scope.Contents()) && Shallow(Abs(sh.kids.l), bit + 1)
              && Shallow(Abs(sh.kids.r), bit + 1)
      modifies Foot(sh.kids.l) + Foot(sh.kids.r)
      ensures Distinct(out) && Linked(out, parent) && out.n == node && Foot(out) <= Foot(sh)
      ensures Abs(out) == old(var t := Abs(sh); var v := scope.Contents();
                              Fork(t.c, t.saved, CollectBelow(v, Abs(sh.kids.l), left, bit),
                                  CollectBelow(v, Abs(sh.kids.r), right, bit)))
      decreases sh, 0
    {
      hide Distinct, BDistinct, Linked, BLinked, Abs, AbsSaved, CollectBelow, Shallow;
      Allocated(sh);
      Opened(sh, parent);
      ghost var l := CollectNode(node.left, left, bit, sh.kids.l, node);
      ghost var r := CollectNode(node.right, right, bit, sh.kids.r, node);
      Assembled(node, l, r, sh.bak, parent);
      out := Shape(node, Kids(l, r), sh.bak);
    }

    /** Whether neither child of the root is in scope; the path buffer is left as the source leaves it. */
    method NothingInScope() returns (none: bool, path: Digest)
      requires Sized(scope.Contents())
      ensures var left: Digest := SetBit(Zero(), 0, false);
              && path == SetBit(left, 0, true)
              && (none <==> !Matches(scope.Contents(), left, 0) && !Matches(scope.Contents(), path, 0))
    {
      path := SetBit(Zero(), 0, false);
      none := true;
      var hit := scope.MatchPath(path, 0);
      if hit {
        none := false;
      }
      path := SetBit(path, 0, true);
      hit := scope.MatchPath(path, 0);
      if hit {
        none := false;
      }
    }

    /** `Collect`: everything out of scope is forgotten. */
    method Collect()
      requires Valid() && Sized(scope.Contents()) && Shallow(AsTree(), 0) && (root.known ==> root.left != null)
      modifies this`shape, Foot(shape)
      ensures Valid() && Foot(shape) <= old(Foot(shape))
      ensures AsTree() == old(CollectTree(scope.Contents(), AsTree()))
    {
      hide Distinct, BDistinct, Linked, BLinked, Abs, AbsSaved, Matches, CollectBelow, SetBit, KDistinct,
           KLinked, KFoot, BFoot, Grow;
      Allocated(shape);
      Opened(shape, null);
      if root.known {
        var none, path := NothingInScope();
        if none {
          shape := ForgetNode(root, shape, null);
        } else {
          var left: Digest := SetBit(path, 0, false);
          var right: Digest := SetBit(left, 0, true);
          shape := CollectKids(root, left, right, 0, shape, null);
        }
      }
    }

    // ------------------------------------------------------------ manipulators

    /** The first loop of `Set` and `Remove`: down the path of the key to the leaf that holds it. */
    method Locate(key: Bytes, ghost op: Op)
      returns (error: Option<Error>, cursor: Node, ghost ctx: Ctx, ghost sh: Shape, ghost d: int)
      requires Valid() && !op.Add? && op.key == key
      requires Manipulate(scheme, ongoing, op, AsTree()) != Failed(Panic)
      ensures error.Some? ==> Manipulate(scheme, ongoing, op, AsTree()) == Failed(error.value)
      ensures error.None? ==>
                && sh.n == cursor && Plug(ctx, sh) == shape && cursor.left == null && cursor.key == key
                && Descending(scheme, ongoing, op, ctx, sh, scheme.Path(key), d,
                   Manipulate(scheme, ongoing, op, AsTree()))
    {
      hide Distinct, BDistinct, CDistinct, Bit, Descending, Climb, AtTip, Lift;
      ghost var goal := Manipulate(scheme, ongoing, op, AsTree());
      Allocated(shape);
      cursor := root;
      ctx, sh, d := Top, shape, 0;
      Opened(sh, null);
      if !cursor.known {
        return Some(ProofNeeded), cursor, ctx, sh, d;
      }
      var path := scheme.Path(key);
      var depth := 0;
      Starting(scheme, ongoing, op, sh);
      while true
        invariant sh.n == cursor && Plug(ctx, sh) == shape && sh.kids.Kids? && 0 <= depth
        invariant Descending(scheme, ongoing, op, ctx, sh, path, depth, goal)
        decreases BITS - depth
      {
        Descend(scheme, ongoing, op, ctx, sh, path, depth, goal);
        if !cursor.left.known || !cursor.right.known {
          return Some(ProofNeeded), cursor, ctx, sh, d;
        }
        var step := Bit(path, depth);
        ctx, sh := Enter(ctx, sh, step), Kid(sh, step);
        depth := depth + 1;
        cursor := if step then cursor.right else cursor.left;
        if cursor.Leaf() {
          Landed(scheme, ongoing, op, ctx, sh, path, depth, goal);
          if cursor.key != key {
            return Some(KeyNotFound), cursor, ctx, sh, d;
          }
          return None, cursor, ctx, sh, depth;
        }
        Grown(scheme, ongoing, op, ctx, sh, path, depth, goal);
      }
    }

    /** `if this.transaction.ongoing { cursor.backup() }` at a node without children. */
    method BackupTip(node: Node, ghost ctx: Ctx, ghost sh: Shape) returns (ghost out: Shape)
      requires Focus(ctx, sh) && sh.n == node && node.left == null
      modifies node`saved
      ensures Focus(ctx, out) && out.n == node && out.kids == NoKids && node.right == null
      ensures CAbs(ctx) == old(CAbs(ctx)) && Foot(sh) <= Foot(out) && fresh(Foot(out) - Foot(sh))
      ensures Abs(out) == old(Trees.Backup(ongoing, Abs(sh))) && Abs(out).Tip?
    {
      hide Distinct, CDistinct, Linked, CLinked, Abs;
      CAllocated(ctx);
      Allocated(sh);
      Opened(sh, Owner(ctx));
      out := sh;
      if ongoing {
        node.Backup();
        if sh.bak.NoBak? {
          out := Shape(node, NoKids, Bak(node.saved, NoKids));
        }
      }
      Bare(node, out.bak, Owner(ctx));
    }

    /** New raw values for a leaf. */
    method StoreValues(node: Node, args: seq<Argument>)
      requires TypedArguments(scheme.fields, args)
      modifies node`values
      ensures node.values == Merge(old(node.values), Changes(scheme.fields, args))
    {
      ghost var was, changes := node.values, Changes(scheme.fields, args);
      for index := 0 to |scheme.fields|
        invariant |node.values| == |was|
        invariant forall i | 0 <= i < |was| ::
                    node.values[i] == if i < index && changes[i].To? then changes[i].raw else was[i]
      {
        if args[index].Put? && index < |node.values| {
          node.values := node.values[index := scheme.fields[index].Encode(args[index].v)];
        }
      }
    }

    /** The end of a manipulator. */
    ghost function Finished(u: Tree): Tree
      requires Sized(scope.Contents()) && Shallow(u, 0)
      reads this, scope
    {
      if ongoing then u else CollectTree(scope.Contents(), u)
    }

    /** A leaf receives new values. */
    method RestoreTip(node: Node, args: seq<Argument>, ghost bare: Shape, ghost parent: Node?)
      requires Linked(bare, parent) && Distinct(bare) && bare.n == node && node.left == null
      requires TypedArguments(scheme.fields, args)
      modifies node`values, node`tag
      ensures Linked(bare, parent)
      ensures Abs(bare) == old(var t := Abs(bare); Trees.Update(scheme,
              t.(c := t.c.(values := Merge(t.c.values, Changes(scheme.fields, args))))))
    {
      hide Distinct, BDistinct, Linked, BLinked, Abs, AbsSaved;
      Allocated(bare);
      Opened(bare, parent);
      StoreValues(node, args);
      Update(node);
      Bare(node, bare.bak, parent);
    }

    /** What `Set` does to the leaf it found. */
    method SetTip(node: Node, args: seq<Argument>, ghost op: Op, ghost ctx: Ctx, ghost sh: Shape, ghost d: nat)
      returns (ghost out: Shape)
      requires Focus(ctx, sh) && sh.n == node && node.left == null && Abs(sh).Tip? && node.key == op.key && d <= BITS
      requires TypedArguments(scheme.fields, args) && op == Op.Set(node.key, Changes(scheme.fields, args))
      modifies node
      ensures Focus(ctx, out) && out.n == node && CAbs(ctx) == old(CAbs(ctx))
      ensures Foot(sh) <= Foot(out) && fresh(Foot(out) - Foot(sh))
      ensures var r := old(AtTip(scheme, ongoing, op, Abs(sh), scheme.Path(op.key), d)); r.Done? && Abs(out) == r.t
    {
      hide Distinct, CDistinct, Linked, CLinked, CAbs, Abs, Trees.Update, Merge, Changes;
      CAllocated(ctx);
      Opened(sh, Owner(ctx));
      out := BackupTip(node, ctx, sh);
      Allocated(out);
      RestoreTip(node, args, out, Owner(ctx));
    }

    /** The end of the three manipulators: the way up, and the garbage collection outside a transaction. */
    method Finish(from: Node, ghost op: Op, ghost ctx: Ctx, ghost sh: Shape)
      requires Focus(ctx, sh) && from == sh.n && !op.Remove? && Plug(ctx, sh).n == root && Sized(scope.Contents())
      requires var u := Lift(scheme, ongoing, op, CAbs(ctx), Abs(sh)); Shallow(u, 0) && u.Fork? && u.c.known
      modifies this`shape, CFoot(ctx), Foot(sh)
      ensures Valid() && Foot(shape) <= CFoot(ctx) + Foot(sh)
      ensures AsTree() == old(Finished(Lift(scheme, ongoing, op, CAbs(ctx), Abs(sh))))
    {
      hide Distinct, CDistinct, BDistinct, Linked, CLinked, BLinked, CAbs, Abs, CollectTree, Lift;
      Ascend(from, ctx, sh, op);
      shape := Plug(ctx, sh);
      Opened(shape, null);
      if !ongoing {
        Collect();
      }
    }

    /** `Set`. */
    method Set(key: Bytes, args: seq<Argument>) returns (error: Option<Error>)
      requires Valid() && Sized(scope.Contents()) && Shallow(AsTree(), 0) && TypedArguments(scheme.fields, args)
      requires Manipulate(scheme, ongoing, Op.Set(key, Changes(scheme.fields, args)), AsTree()) != Failed(Panic)
      modifies this`shape, Foot(shape)
      ensures Valid() && fresh(Foot(shape) - old(Foot(shape)))
      ensures match old(Manipulate(scheme, ongoing, Op.Set(key, Changes(scheme.fields, args)), AsTree()))
              case Failed(e) => error == Some(e) && AsTree() == old(AsTree())
              case Done(u) =>
                && error == None && Shallow(u, 0)
                && AsTree() == if ongoing then u else CollectTree(scope.Contents(), u)
    {
      hide Distinct, BDistinct, CDistinct, Linked, BLinked, CLinked, Abs, CAbs, AtTip, Lift, Manipulate,
           CollectTree, Descending;
      ghost var op := Op.Set(key, Changes(scheme.fields, args));
      ghost var goal := Manipulate(scheme, ongoing, op, AsTree());
      Allocated(shape);
      ManipulateShallow(scheme, ongoing, op, AsTree());
      var cursor;
      ghost var ctx, sh, d;
      error, cursor, ctx, sh, d := Locate(key, op);
      if error.Some? {
        return;
      }
      Landed(scheme, ongoing, op, ctx, sh, scheme.Path(key), d, goal);
      Focused(scheme, ongoing, op, ctx, sh, scheme.Path(key), d, goal);
      PlugFoot(ctx, sh);
      label Storing:
      ghost var out := SetTip(cursor, args, op, ctx, sh, d);
      PlugRoot(ctx, sh, out);
      Finish(cursor, op, ctx, out);
      forall n | n in Foot(shape) && n !in old(Foot(shape)) ensures fresh(n) {
        assert n in Foot(out) - Foot(sh);
        assert fresh@Storing(n);
      }
    }

    /** A placeholder receives a record. */
    method RefillTip(node: Node, key: Bytes, raw: Values, ghost bare: Shape, ghost parent: Node?)
      requires Linked(bare, parent) && Distinct(bare) && bare.n == node && node.left == null
      modifies node`key, node`values, node`tag
      ensures Linked(bare, parent) && Abs(bare) == old(var t := Abs(bare); Trees.Update(scheme,
              t.(c := t.c.(key := key, values := raw))))
    {
      hide Distinct, BDistinct, Linked, BLinked, Abs, AbsSaved;
      Allocated(bare);
      Opened(bare, parent);
      node.key := key;
      node.values := raw;
      Update(node);
      Bare(node, bare.bak, parent);
    }

    /** What `Add` does to the placeholder it found. */
    method FillTip(node: Node, key: Bytes, raw: Values, ghost op: Op, ghost ctx: Ctx, ghost sh: Shape, ghost d: nat)
      returns (ghost out: Shape)
      requires Focus(ctx, sh) && sh.n == node && node.left == null && Abs(sh).Tip? && node.key == [] && d <= BITS
      requires op == Op.Add(key, raw)
      modifies node
      ensures Focus(ctx, out) && out.n == node && CAbs(ctx) == old(CAbs(ctx))
      ensures Foot(sh) <= Foot(out) && fresh(Foot(out) - Foot(sh))
      ensures var r := old(AtTip(scheme, ongoing, op, Abs(sh), scheme.Path(op.key), d)); r.Done? && Abs(out) == r.t
    {
      hide Distinct, CDistinct, Linked, CLinked, CAbs, Abs, Trees.Update;
      CAllocated(ctx);
      Opened(sh, Owner(ctx));
      out := BackupTip(node, ctx, sh);
      Allocated(out);
      RefillTip(node, key, raw, out, Owner(ctx));
    }

    /** The placeholder the descent met is filled, then the way up. */
    method FillAndFinish(node: Node, key: Bytes, raw: Values, ghost op: Op, ghost ctx: Ctx, ghost sh: Shape,
          ghost d: nat, ghost goal: Outcome)
      requires Descending(scheme, ongoing, op, ctx, sh, scheme.Path(key), d, goal) && goal != Failed(Panic)
      requires sh.n == node && node.left == null && node.key == []
      requires op == Op.Add(key, raw) && Plug(ctx, sh).n == root && Sized(scope.Contents())
      requires goal.Done? ==> Shallow(goal.t, 0) && goal.t.Fork? && goal.t.c.known
      modifies this`shape, CFoot(ctx), Foot(sh)
      ensures Valid() && (forall n | n in Foot(shape) :: n in CFoot(ctx) + Foot(sh) || fresh(n))
      ensures goal.Done? && AsTree() == old(Finished(goal.t))
    {
      hide Distinct, CDistinct, BDistinct, Linked, CLinked, BLinked, CAbs, Abs, CollectTree, Lift, AtTip, Below,
           Shallow;
      CAllocated(ctx);
      Allocated(sh);
      Reached(scheme, ongoing, op, ctx, sh, scheme.Path(key), d, goal);
      Focused(scheme, ongoing, op, ctx, sh, scheme.Path(key), d, goal);
      ghost var out := FillTip(node, key, raw, op, ctx, sh, d);
      PlugRoot(ctx, sh, out);
      forall n | n in Foot(out) ensures n in Foot(sh) || fresh(n) {
        assert n in Foot(sh) || n in Foot(out) - Foot(sh);
      }
      Finish(node, op, ctx, out);
    }

    /** Two new children, one holding the record, the other empty. */
    method Divide(node: Node, step: bool, tag: Digest, values: Values)
      modifies node`key, node`left, node`right
      ensures node.left != null && node.right != null && fresh(node.left) && fresh(node.right)
              && node.left != node.right
      ensures node.left.parent == node && node.left.left == null && node.left.right == null && node.left.saved == null
      ensures node.right.parent == node && node.right.left == null && node.right.right == null && node.right.saved
              == null
      ensures node.key == []
      ensures var record, hole := Cell(tag, true, false, old(node.key), values), Emptied(scheme, Blank()).c;
              && CellOf(node.left) == (if step then hole else record)
              && CellOf(node.right) == (if step then record else hole)
    {
      hide Trees.Update;
      var key := node.key;
      node.key := [];
      node.Branch();
      var child, other := node.left, node.right;
      if step {
        child, other := node.right, node.left;
      }
      child.known := true;
      child.tag := tag;
      child.key := key;
      child.values := values;
      Placeholder(other);
    }

    /** The leaf, already backed up, gets its two children. */
    method DivideTip(node: Node, step: bool, ghost bare: Shape, ghost parent: Node?) returns (ghost out: Shape)
      requires Distinct(bare) && Linked(bare, parent) && bare.n == node && node.left == null
      modifies node`key, node`left, node`right
      ensures Distinct(out) && Linked(out, parent) && out.n == node && out.kids.Kids?
      ensures Foot(bare) <= Foot(out) && forall n | n in Foot(out) :: n in Foot(bare) || fresh(n)
      ensures Abs(out) == old(Divided(scheme, Abs(bare), step))
    {
      hide Distinct, BDistinct, Linked, BLinked, Abs, AbsSaved, Emptied;
      Allocated(bare);
      Opened(bare, parent);
      Divide(node, step, node.tag, node.values);
      Sprouted(node, bare.bak, parent);
      out := Shape(node, Kids(Shape(node.left, NoKids, NoBak), Shape(node.right, NoKids, NoBak)), bare.bak);
      EmptiedTip(scheme);
    }

    /** `Add` turns the leaf it met into an inner node, its record one step further down. */
    method SplitTip(node: Node, step: bool, ghost ctx: Ctx, ghost sh: Shape) returns (ghost out: Shape)
      requires Focus(ctx, sh) && sh.n == node && node.left == null
      modifies node
      ensures Focus(ctx, out) && out.n == node && CAbs(ctx) == old(CAbs(ctx)) && out.kids.Kids?
      ensures Foot(sh) <= Foot(out) && fresh(Foot(out) - Foot(sh))
      ensures Abs(out) == old(Trees.Split(scheme, ongoing, Abs(sh), step))
    {
      hide Distinct, CDistinct, BDistinct, Linked, CLinked, BLinked, CAbs, Abs, AbsSaved, Emptied, Divided, Trees.Split;
      CAllocated(ctx);
      SplitIsDivided(scheme, ongoing, Abs(sh), step);
      ghost var bare := BackupTip(node, ctx, sh);
      label Dividing:
      out := DivideTip(node, step, bare, Owner(ctx));
      forall n | n in Foot(out)
        ensures n !in CFoot(ctx) && (n in Foot(sh) || fresh(n))
      {
        assert n in Foot(bare) || fresh@Dividing(n);
        assert n in Foot(bare) && n !in Foot(sh) ==> n in Foot(bare) - Foot(sh);
      }
    }

    /** The leaf the descent met holds another key: it is split, and the descent goes on from it. */
    method SplitHere(node: Node, key: Bytes, depth: int, ghost op: Op, ghost ctx: Ctx, ghost sh: Shape,
           ghost goal: Outcome)
      returns (ghost out: Shape)
      requires Descending(scheme, ongoing, op, ctx, sh, scheme.Path(key), depth, goal) && goal != Failed(Panic)
      requires op.Add? && op.key == key && sh.n == node && node.left == null && node.key != [] && node.key != key
      modifies node
      ensures Descending(scheme, ongoing, op, ctx, out, scheme.Path(key), depth, goal) && goal.Done?
      ensures out.n == node && out.kids.Kids? && Plug(ctx, out).n == Plug(ctx, sh).n
      ensures forall n | n in Foot(out) :: n in Foot(sh) || fresh(n)
    {
      hide Distinct, CDistinct, BDistinct, Linked, CLinked, BLinked, CAbs, Abs, Below, Trees.Split, Bit,
           Descending, AtTip, Lift, Resume;
      Reached(scheme, ongoing, op, ctx, sh, scheme.Path(key), depth, goal);
      Focused(scheme, ongoing, op, ctx, sh, scheme.Path(key), depth, goal);
      var collisionStep := Bit(scheme.Path(node.key), depth);
      out := SplitTip(node, collisionStep, ctx, sh);
      PlugRoot(ctx, sh, out);
      Resumed(scheme, ongoing, op, ctx, out, scheme.Path(key), depth, goal);
      forall n | n in Foot(out) ensures n in Foot(sh) || fresh(n) {
        assert n in Foot(sh) || n in Foot(out) - Foot(sh);
      }
    }

    /** `Add`. */
    method Add(key: Bytes, values: seq<Value>) returns (error: Option<Error>)
      requires Valid() && Sized(scope.Contents()) && Shallow(AsTree(), 0)
      requires Typed(scheme.fields, values)
      requires Manipulate(scheme, ongoing, Op.Add(key, Encoded(scheme.fields, values)), AsTree()) != Failed(Panic)
      modifies this`shape, Foot(shape)
      ensures Valid() && fresh(Foot(shape) - old(Foot(shape)))
      ensures match old(Manipulate(scheme, ongoing, Op.Add(key, Encoded(scheme.fields, values)), AsTree()))
              case Failed(e) => error == Some(e) && AsTree() == old(AsTree())
              case Done(u) =>
                && error == None && Shallow(u, 0)
                && AsTree() == if ongoing then u else CollectTree(scope.Contents(), u)
    {
      hide Distinct, BDistinct, CDistinct, Linked, BLinked, CLinked, Abs, CAbs, AtTip, Below, Lift, Manipulate,
           CollectTree, Descending, Trees.Split, Bit, KFoot, BFoot, KDistinct, KLinked, Grow, AbsSaved, Shallow;
      var raw := Encoded(scheme.fields, values);
      ghost var op := Op.Add(key, raw);
      ghost var goal := Manipulate(scheme, ongoing, op, AsTree());
      ghost var before := Foot(shape);
      Allocated(shape);
      ManipulateShallow(scheme, ongoing, op, AsTree());
      Unknown(scheme, ongoing, op, shape);
      var cursor := root;
      if !cursor.known {
        return Some(ProofNeeded);
      }
      var path := scheme.Path(key);
      var depth := 0;
      ghost var ctx, sh := Top, shape;
      ghost var divided := false;
      ghost var made: set<Node> := {};
      Starting(scheme, ongoing, op, sh);
      Footing(ctx, sh);
      while true
        invariant sh.n == cursor && sh.kids.Kids? && Plug(ctx, sh).n == root && 0 <= depth
        invariant Descending(scheme, ongoing, op, ctx, sh, path, depth, goal)
        invariant CFoot(ctx) + Foot(sh) <= before + made && fresh(made)
        invariant divided ==> goal.Done?
        invariant shape == old(shape) && (!divided ==> Valid() && AsTree() == old(AsTree()))
        decreases BITS - depth
      {
        Turned(scheme, ongoing, op, ctx, sh, path, depth, goal);
        if !cursor.left.known || !cursor.right.known {
          return Some(ProofNeeded);
        }
        var step := Bit(path, depth);
        ctx, sh := Enter(ctx, sh, step), Kid(sh, step);
        depth := depth + 1;
        cursor := if step then cursor.right else cursor.left;
        if cursor.Leaf() {
          if cursor.Placeholder() {
            label Filling:
            FillAndFinish(cursor, key, raw, op, ctx, sh, depth, goal);
            forall n | n in Foot(shape) && n !in old(Foot(shape)) ensures fresh(n) {
              assert n in made || fresh@Filling(n);
            }
            return None;
          } else {
            Reached(scheme, ongoing, op, ctx, sh, path, depth, goal);
            if key == cursor.key {
              return Some(KeyCollision);
            }
            label Splitting:
            ghost var out := SplitHere(cursor, key, depth, op, ctx, sh, goal);
            forall n | n in Foot(out) - Foot(sh) ensures fresh(n) {
              assert fresh@Splitting(n);
            }
            made := made + (Foot(out) - Foot(sh));
            sh := out;
            divided := true;
          }
        }
      }
    }

    /** A leaf becomes a placeholder. */
    method ClearTip(node: Node, ghost bare: Shape, ghost parent: Node?)
      requires Linked(bare, parent) && Distinct(bare) && bare.n == node && node.left == null
      modifies node`known, node`key, node`values, node`tag, node`left, node`right
      ensures Linked(bare, parent) && Abs(bare) == old(Emptied(scheme, Abs(bare)))
    {
      hide Distinct, BDistinct, Linked, BLinked, Abs, AbsSaved, Emptied;
      Allocated(bare);
      Opened(bare, parent);
      EmptiedCell(scheme, Abs(bare));
      Placeholder(node);
      Bare(node, bare.bak, parent);
    }

    /** What `Remove` does to the leaf it found. */
    method EmptyTip(node: Node, ghost op: Op, ghost ctx: Ctx, ghost sh: Shape, ghost d: nat) returns (ghost out: Shape)
      requires Focus(ctx, sh) && sh.n == node && node.left == null && Abs(sh).Tip? && node.key == op.key && d <= BITS
      requires op.Remove?
      modifies node
      ensures Focus(ctx, out) && out.n == node && CAbs(ctx) == old(CAbs(ctx))
      ensures Foot(sh) <= Foot(out) && fresh(Foot(out) - Foot(sh))
      ensures var r := old(AtTip(scheme, ongoing, op, Abs(sh), scheme.Path(op.key), d)); r.Done? && Abs(out) == r.t
    {
      hide Distinct, CDistinct, Linked, CLinked, CAbs, Abs, Emptied;
      CAllocated(ctx);
      Opened(sh, Owner(ctx));
      out := BackupTip(node, ctx, sh);
      Allocated(out);
      ClearTip(node, out, Owner(ctx));
    }

    /** `if this.transaction.ongoing { cursor.backup() }` at an inner node about to lose its children. */
    method BackupFork(node: Node, ghost ctx: Ctx, ghost sh: Shape) returns (ghost bak: Bak)
      requires Focus(ctx, sh) && sh.n == node && sh.kids.Kids?
      modifies node`saved
      ensures BLinked(bak, node.saved, node, node.parent) && BDistinct(bak) && node !in BFoot(bak)
      ensures BFoot(bak) !! CFoot(ctx) && fresh(BFoot(bak) - Foot(sh))
      ensures AbsSaved(bak) == old(Trees.Backup(ongoing, Abs(sh)).saved)
      ensures Abs(sh.kids.l) == old(Abs(sh.kids.l)) && Abs(sh.kids.r) == old(Abs(sh.kids.r))
    {
      hide Distinct, CDistinct, Linked, CLinked, CAbs, Abs;
      CAllocated(ctx);
      Allocated(sh);
      Opened(sh, Owner(ctx));
      bak := sh.bak;
      ghost var l, r := sh.kids.l, sh.kids.r;
      ghost var t := Abs(sh);
      if ongoing {
        node.Backup();
        if sh.bak.NoBak? {
          bak := Bak(node.saved, Kids(l, r));
          assert t == Fork(CellOf(node.saved), Nothing, Abs(l), Abs(r));
        }
      }
    }

    /** The label, key and values of the child that is not a placeholder; the children are dropped. */
    method TakeOver(node: Node)
      requires node.left != null && node.right != null && node.left != node && node.right != node
      modifies node`tag, node`key, node`values, node`left, node`right
      ensures node.left == null && node.right == null
      ensures CellOf(node) == old(var from := CellOf(if node.left.Placeholder() then node.right else node.left);
                                  CellOf(node).(tag := from.tag, key := from.key, values := from.values))
    {
      var from := if node.left.Placeholder() then node.right else node.left;
      node.tag := from.tag;
      node.key := from.key;
      node.values := from.values;
      node.Prune();
    }

    /** An ancestor of a removed record takes over the one record left below it. */
    method CollapseNode(node: Node, ghost ctx: Ctx, ghost sh: Shape) returns (ghost out: Shape)
      requires Focus(ctx, sh) && sh.n == node && sh.kids.Kids? && Collapsible(Abs(sh))
      modifies node
      ensures Focus(ctx, out) && out.n == node && CAbs(ctx) == old(CAbs(ctx)) && fresh(Foot(out) - Foot(sh))
      ensures Abs(out) == old(Collapse(ongoing, Abs(sh)))
    {
      hide Distinct, CDistinct, BDistinct, Linked, CLinked, BLinked, CAbs, Abs, AbsSaved, KFoot, BFoot,
           KDistinct, KLinked, Grow;
      CAllocated(ctx);
      Allocated(sh);
      Opened(sh, Owner(ctx));
      Opened(sh.kids.l, node);
      Opened(sh.kids.r, node);
      ghost var t := Abs(sh);
      assert node.left.Placeholder() == t.left.Placeholder();
      ghost var bak := BackupFork(node, ctx, sh);
      BAllocated(bak);
      TakeOver(node);
      Bare(node, bak, Owner(ctx));
      out := Shape(node, NoKids, bak);
    }

    /** One ancestor of a removed record: collapsed, marked or relabelled. */
    method ClimbNode(node: Node, ghost op: Op, ghost ctx: Ctx, ghost sh: Shape) returns (ghost out: Shape)
      requires Focus(ctx, sh) && sh.n == node && sh.kids.Kids? && Abs(sh).Fork? && op.Remove?
      modifies node
      ensures Focus(ctx, out) && out.n == node && CAbs(ctx) == old(CAbs(ctx)) && fresh(Foot(out) - Foot(sh))
      ensures node.parent == old(node.parent)
      ensures Abs(out) == old(Climb(scheme, ongoing, op, Abs(sh), ctx.Top?))
    {
      hide Distinct, CDistinct, BDistinct, Linked, CLinked, BLinked, CAbs, Abs, AbsSaved, KFoot, BFoot,
           KDistinct, KLinked, Grow, Collapse, Trees.Update;
      Opened(sh, Owner(ctx));
      Opened(sh.kids.l, node);
      Opened(sh.kids.r, node);
      ParentOf(ctx, sh);
      if node.parent != null
         && ((node.left.Placeholder() && node.right.Leaf()) || (node.right.Placeholder() && node.left.Leaf())) {
        out := CollapseNode(node, ctx, sh);
      } else {
        Touch(node, ctx, sh);
        out := sh;
      }
      ParentOf(ctx, out);
    }

    /** The second loop of `Remove`. */
    method Retreat(from: Node, ghost op: Op, ghost ctx: Ctx, ghost sh: Shape) returns (ghost out: Shape)
      requires Focus(ctx, sh) && from == sh.n && op.Remove?
      modifies CFoot(ctx)
      ensures Focus(Top, out) && out.n == Plug(ctx, sh).n && fresh(Foot(out) - (CFoot(ctx) + Foot(sh)))
      ensures Abs(out) == old(Lift(scheme, ongoing, op, CAbs(ctx), Abs(sh)))
    {
      hide Distinct, BDistinct, CDistinct, Lift, Climb, Abs, CAbs, Linked, CLinked, BLinked, KFoot, BFoot;
      var cursor := from;
      ghost var k := ctx;
      out := sh;
      ghost var goal := Lift(scheme, ongoing, op, CAbs(ctx), Abs(sh));
      ghost var made: set<Node> := {};
      ParentOf(k, out);
      WholeTop(k);
      while cursor.parent != null
        invariant CAbs(k).Whole? <==> k.Top?
        invariant Focus(k, out) && out.n == cursor && cursor.parent == Owner(k) && Plug(k, out).n == Plug(ctx, sh).n
        invariant CFoot(k) <= CFoot(ctx) && CFoot(k) + Foot(out) <= CFoot(ctx) + Foot(sh) + made && fresh(made)
        invariant Lift(scheme, ongoing, op, CAbs(k), Abs(out)) == goal
        decreases k
      {
        LiftStep(scheme, ongoing, op, CAbs(k), Abs(out));
        cursor := cursor.parent;
        FocusUp(k, out);
        k, out := k.up, Leave(k, out);
        ghost var was := out;
        label Climbing:
        out := ClimbNode(cursor, op, k, was);
        forall n | n in Foot(out) - Foot(was) ensures fresh(n) {
          assert fresh@Climbing(n);
        }
        made := made + (Foot(out) - Foot(was));
        PlugRoot(k, was, out);
        ParentOf(k, out);
        WholeTop(k);
      }
      LiftWhole(scheme, ongoing, op, Abs(out));
    }

    /** `Remove`. */
    method Remove(key: Bytes) returns (error: Option<Error>)
      requires Valid() && Sized(scope.Contents()) && Shallow(AsTree(), 0)
      requires Manipulate(scheme, ongoing, Op.Remove(key), AsTree()) != Failed(Panic)
      modifies this`shape, Foot(shape)
      ensures Valid() && fresh(Foot(shape) - old(Foot(shape)))
      ensures match old(Manipulate(scheme, ongoing, Op.Remove(key), AsTree()))
              case Failed(e) => error == Some(e) && AsTree() == old(AsTree())
              case Done(u) =>
                && error == None && Shallow(u, 0)
                && AsTree() == if ongoing then u else CollectTree(scope.Contents(), u)
    {
      hide Distinct, BDistinct, CDistinct, Linked, BLinked, CLinked, Abs, CAbs, AtTip, Lift, Manipulate,
           CollectTree, Descending;
      ghost var op := Op.Remove(key);
      ghost var goal := Manipulate(scheme, ongoing, op, AsTree());
      Allocated(shape);
      ManipulateShallow(scheme, ongoing, op, AsTree());
      var cursor;
      ghost var ctx, sh, d;
      error, cursor, ctx, sh, d := Locate(key, op);
      if error.Some? {
        return;
      }
      Landed(scheme, ongoing, op, ctx, sh, scheme.Path(key), d, goal);
      Focused(scheme, ongoing, op, ctx, sh, scheme.Path(key), d, goal);
      PlugFoot(ctx, sh);
      label Emptying:
      EmptyAndFinish(cursor, op, ctx, sh, d);
      forall n | n in Foot(shape) && n !in old(Foot(shape)) ensures fresh(n) {
        assert fresh@Emptying(n);
      }
    }

    /** The leaf is emptied, then the way up. */
    method EmptyAndFinish(node: Node, ghost op: Op, ghost ctx: Ctx, ghost sh: Shape, ghost d: nat)
      requires Focus(ctx, sh) && sh.n == node && node.left == null && Abs(sh).Tip? && node.key == op.key && d <= BITS
      requires op.Remove? && Plug(ctx, sh).n == root && Sized(scope.Contents())
      requires var r := AtTip(scheme, ongoing, op, Abs(sh), scheme.Path(op.key), d);
               r.Done? ==> var u := Lift(scheme, ongoing, op, CAbs(ctx), r.t); Shallow(u, 0) && u.Fork? && u.c.known
      modifies this`shape, CFoot(ctx), Foot(sh)
      ensures Valid() && fresh(Foot(shape) - (CFoot(ctx) + Foot(sh)))
      ensures var r := old(AtTip(scheme, ongoing, op, Abs(sh), scheme.Path(op.key), d));
              r.Done? && AsTree() == old(Finished(Lift(scheme, ongoing, op, CAbs(ctx), r.t)))
    {
      hide Distinct, CDistinct, BDistinct, Linked, CLinked, BLinked, CAbs, Abs, CollectTree, Lift, AtTip, KFoot, BFoot;
      CAllocated(ctx);
      Allocated(sh);
      ghost var out := EmptyTip(node, op, ctx, sh, d);
      PlugRoot(ctx, sh, out);
      label Retreating:
      shape := Retreat(node, op, ctx, out);
      forall n | n in Foot(shape) && n !in CFoot(ctx) + Foot(sh) ensures fresh(n) {
        assert n in Foot(out) || fresh@Retreating(n);
      }
      Opened(shape, null);
      if !ongoing {
        Collect();
      }
    }

    // ------------------------------------------------------------ transactions

    /** `Begin`. */
    method Begin()
      requires Valid() && !ongoing
      modifies this`ongoing
      ensures Valid() && ongoing && AsTree() == old(AsTree())
    {
      Allocated(shape);
      ongoing := true;
    }

    /** The explorer of `Rollback`. */
    method RollbackNode(node: Node, ghost sh: Shape, ghost parent: Node?) returns (ghost out: Shape)
      requires Distinct(sh) && Linked(sh, parent) && sh.n == node
      modifies Foot(sh)
      ensures Distinct(out) && Linked(out, parent) && out.n == node && Foot(out) <= Foot(sh)
      ensures Abs(out) == old(RollbackTree(Abs(sh)))
      decreases sh, 2
    {
      hide Distinct, BDistinct, Linked, BLinked, Abs, AbsSaved, RollbackTree;
      Allocated(sh);
      Opened(sh, parent);
      RollbackUnfold(Abs(sh));
      out := sh;
      if node.inconsistent || node.saved != null {
        ghost var mid := RestoreNode(node, sh, parent);
        Opened(mid, parent);
        out := mid;
        if !node.Leaf() {
          ghost var t := Abs(mid);
          out := RollbackKids(node, mid, parent);
          assert Abs(out) == Fork(t.c, t.saved, RollbackTree(t.left), RollbackTree(t.right));
        }
      }
    }

    method RestoreNode(node: Node, ghost sh: Shape, ghost parent: Node?) returns (ghost out: Shape)
      requires Distinct(sh) && Linked(sh, parent) && sh.n == node
      modifies node
      ensures Distinct(out) && Linked(out, parent) && out.n == node && Foot(out) <= Foot(sh)
      ensures out.kids == (if sh.bak.Bak? then sh.bak.frozen else sh.kids)
      ensures Abs(out) == old(Restore(Abs(sh)))
    {
      hide Distinct;
      Allocated(sh);
      Opened(sh, parent);
      if sh.bak.Bak? { RestoreFacts(sh, parent); }
      out := sh;
      if sh.bak.Bak? {
        out := Shape(node, sh.bak.frozen, NoBak);
      }
      node.Restore();
    }

    method RollbackKids(node: Node, ghost sh: Shape, ghost parent: Node?) returns (ghost out: Shape)
      requires Distinct(sh) && Linked(sh, parent) && sh.n == node && sh.kids.Kids?
      modifies Foot(sh.kids.l) + Foot(sh.kids.r)
      ensures Distinct(out) && Linked(out, parent) && out.n == node && Foot(out) <= Foot(sh)
      ensures Abs(out) == old(var t := Abs(sh); Fork(t.c, t.saved, RollbackTree(Abs(sh.kids.l)),
              RollbackTree(Abs(sh.kids.r))))
      decreases sh.kids, 1
    {
      hide Distinct, BDistinct, Linked, BLinked, Abs, AbsSaved, RollbackTree;
      Allocated(sh);
      Opened(sh, parent);
      ghost var l := RollbackNode(node.left, sh.kids.l, node);
      ghost var r := RollbackNode(node.right, sh.kids.r, node);
      Assembled(node, l, r, sh.bak, parent);
      out := Shape(node, Kids(l, r), sh.bak);
    }

    /** The end of a transaction: its id is used up. */
    method Close()
      requires Valid()
      modifies this`ongoing, this`id
      ensures Valid() && !ongoing && id == (old(id) + 1) % U64 && AsTree() == old(AsTree())
    {
      Allocated(shape);
      id := (id + 1) % U64;
      ongoing := false;
    }

    /** `Rollback`. */
    method Rollback()
      requires Valid() && ongoing
      modifies this`shape, this`ongoing, this`id, Foot(shape)
      ensures Valid() && !ongoing && id == (old(id) + 1) % U64 && Foot(shape) <= old(Foot(shape))
      ensures AsTree() == old(RollbackTree(AsTree()))
    {
      hide Distinct, Linked, Abs, RollbackTree;
      Allocated(shape);
      shape := RollbackNode(root, shape, null);
      Close();
    }

    /** `node.transaction.backup = nil`. */
    method DropBackup(node: Node, ghost sh: Shape, ghost parent: Node?) returns (ghost out: Shape)
      requires Distinct(sh) && Linked(sh, parent) && sh.n == node
      modifies node`saved
      ensures out == Shape(node, sh.kids, NoBak) && Distinct(out) && Linked(out, parent) && Foot(out) <= Foot(sh)
      ensures Abs(out) == old(Abs(sh)).(saved := Nothing)
    {
      hide Distinct, BDistinct, Linked, BLinked, Abs, AbsSaved, KDistinct, KLinked, Grow;
      Allocated(sh);
      Opened(sh, parent);
      NoBackup();
      node.saved := null;
      Unsaved(node, parent);
      if sh.kids.Kids? {
        Assembled(node, sh.kids.l, sh.kids.r, NoBak, parent);
      } else {
        Bare(node, NoBak, parent);
      }
      out := Shape(node, sh.kids, NoBak);
    }

    /** The explorer of `confirm`: backups are dropped. */
    method ConfirmNode(node: Node, ghost sh: Shape, ghost parent: Node?) returns (ghost out: Shape)
      requires Distinct(sh) && Linked(sh, parent) && sh.n == node
      modifies Foot(sh)
      ensures Distinct(out) && Linked(out, parent) && out.n == node && Foot(out) <= Foot(sh)
      ensures Abs(out) == old(ConfirmTree(Abs(sh)))
      decreases sh, 2
    {
      hide Distinct, BDistinct, Linked, BLinked, Abs, AbsSaved, ConfirmTree;
      Allocated(sh);
      Opened(sh, parent);
      ConfirmUnfold(Abs(sh));
      out := sh;
      if node.inconsistent || node.saved != null {
        out := DropBackup(node, sh, parent);
        if !node.Leaf() {
          Opened(out, parent);
          out := ConfirmKids(node, out, parent);
        }
      }
    }

    method ConfirmKids(node: Node, ghost sh: Shape, ghost parent: Node?) returns (ghost out: Shape)
      requires Distinct(sh) && Linked(sh, parent) && sh.n == node && sh.kids.Kids?
      modifies Foot(sh.kids.l) + Foot(sh.kids.r)
      ensures Distinct(out) && Linked(out, parent) && out.n == node && Foot(out) <= Foot(sh)
      ensures Abs(out) == old(var t := Abs(sh); Fork(t.c, t.saved, ConfirmTree(Abs(sh.kids.l)),
              ConfirmTree(Abs(sh.kids.r))))
      decreases sh.kids, 1
    {
      hide Distinct, BDistinct, Linked, BLinked, Abs, AbsSaved, ConfirmTree;
      Allocated(sh);
      Opened(sh, parent);
      ghost var l := ConfirmNode(node.left, sh.kids.l, node);
      ghost var r := ConfirmNode(node.right, sh.kids.r, node);
      Assembled(node, l, r, sh.bak, parent);
      out := Shape(node, Kids(l, r), sh.bak);
    }

    /** `this.update(node)`, then the mark is cleared. */
    method Refresh(node: Node, ghost sh: Shape, ghost parent: Node?)
      requires Distinct(sh) && Linked(sh, parent) && sh.n == node
      modifies node`values, node`tag, node`inconsistent
      ensures Linked(sh, parent)
      ensures Abs(sh) == old(var u := Trees.Update(scheme, Abs(sh)); u.(c := u.c.(dirty := false)))
    {
      hide Distinct, BDistinct, Linked, BLinked, Abs, AbsSaved, Trees.Update, KDistinct, KLinked, KFoot, BFoot, Grow;
      Allocated(sh);
      Opened(sh, parent);
      UpdateLocal(scheme, Abs(sh), Local(node));
      Update(node);
      node.inconsistent := false;
      if !node.Leaf() {
        Assembled(node, sh.kids.l, sh.kids.r, sh.bak, parent);
      } else {
        Bare(node, sh.bak, parent);
      }
    }

    /** The explorer of `fix`: dirty nodes are relabelled, children first. */
    method FixNode(node: Node, ghost sh: Shape, ghost parent: Node?)
      requires Distinct(sh) && Linked(sh, parent) && sh.n == node
      modifies Foot(sh)
      ensures Linked(sh, parent) && Abs(sh) == old(FixTree(scheme, Abs(sh)))
      decreases sh
    {
      hide Distinct, BDistinct, Linked, BLinked, Abs, AbsSaved, Trees.Update;
      Allocated(sh);
      Opened(sh, parent);
      if node.inconsistent {
        if !node.Leaf() {
          FixNode(node.left, sh.kids.l, node);
          FixNode(node.right, sh.kids.r, node);
          Assembled(node, sh.kids.l, sh.kids.r, sh.bak, parent);
        }
        Refresh(node, sh, parent);
      }
    }

    /** `confirm`. */
    method Confirm()
      requires Valid()
      modifies this`shape, Foot(shape)
      ensures Valid() && Foot(shape) <= old(Foot(shape)) && AsTree() == old(ConfirmTree(AsTree()))
    {
      hide Distinct, Linked, Abs, ConfirmTree;
      Allocated(shape);
      shape := ConfirmNode(root, shape, null);
    }

    /** `fix`. */
    method Fix()
      requires Valid()
      modifies Foot(shape)
      ensures Valid() && AsTree() == old(FixTree(scheme, AsTree()))
    {
      hide Distinct, Linked, Abs, FixTree;
      Allocated(shape);
      FixNode(root, shape, null);
    }

    /** `End`. */
    method End()
      requires Valid() && ongoing && Sized(scope.Contents())
      requires autoCollect ==> var u := EndTree(scheme, AsTree()); Shallow(u, 0) && (u.c.known ==> u.Fork?)
      modifies this`shape, this`ongoing, this`id, Foot(shape)
      ensures Valid() && !ongoing && id == (old(id) + 1) % U64 && Foot(shape) <= old(Foot(shape))
      ensures AsTree() == old(var u := EndTree(scheme, AsTree()); if autoCollect then CollectTree(scope.Contents(),
              u) else u)
    {
      hide Focus, Abs, CollectTree, ConfirmTree, FixTree, Shallow;
      Allocated(shape);
      Confirm();
      Fix();
      RootFacts(shape);
      if autoCollect {
        Collect();
      }
      Close();
    }

    /** `SetField`: every other field keeps its value. */
    method SetField(key: Bytes, field: nat, value: Value) returns (error: Option<Error>)
      requires Valid() && Sized(scope.Contents()) && Shallow(AsTree(), 0)
      requires field < |scheme.fields| && scheme.fields[field].Accepts(value)
      requires Manipulate(scheme, ongoing, Op.Set(key, Changes(scheme.fields, OneField(scheme.fields, field, value))),
              AsTree()) != Failed(Panic)
      modifies this`shape, Foot(shape)
      ensures Valid() && fresh(Foot(shape) - old(Foot(shape)))
      ensures match old(Manipulate(scheme, ongoing, Op.Set(key,
              Changes(scheme.fields, OneField(scheme.fields, field, value))), AsTree()))
              case Failed(e) => error == Some(e) && AsTree() == old(AsTree())
              case Done(u) =>
                && error == None && Shallow(u, 0)
                && AsTree() == if ongoing then u else CollectTree(scope.Contents(), u)
    {
      var values: seq<Argument> := [];
      for index := 0 to |scheme.fields|
        invariant values == OneField(scheme.fields, field, value)[..index]
      {
        if index == field {
          values := values + [Put(value)];
        } else {
          values := values + [Keep];
        }
      }
      assert values == OneField(scheme.fields, field, value);
      error := Set(key, values);
    }
  }
}
