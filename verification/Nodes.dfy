/** The pointer structure of a collection: nodes, and the trees they form on the heap
    (collection/node.go, collection/singlenode.go). */
module Nodes {
  import opened ByteSlices
  import opened Trees

  class Node {
    var tag: Digest
    var known: bool
    var inconsistent: bool
    var saved: Node?
    var key: Bytes
    var values: Values
    var parent: Node?
    var left: Node?
    var right: Node?

    /** `new(node)`. */
    constructor ()
      ensures CellOf(this) == Cell(Zero(), false, false, [], [])
      ensures saved == null && parent == null && left == null && right == null
    {
      tag, known, inconsistent, saved := Zero(), false, false, null;
      key, values := [], [];
      parent, left, right := null, null, null;
    }

    predicate Leaf()
      reads this
    {
      left == null
    }

    predicate Placeholder()
      reads this
    {
      Leaf() && |key| == 0
    }

    /** `backup`: the first state of the transaction is kept, a second call changes nothing. */
    method Backup()
      modifies this`saved
      ensures old(saved) != null ==> saved == old(saved)
      ensures old(saved) == null ==>
                && saved != null && fresh(saved) && CellOf(saved) == CellOf(this)
                && saved.saved == null && saved.parent == parent && saved.left == left && saved.right == right
    {
      if saved == null {
        var copy := new Node();
        copy.tag, copy.known, copy.inconsistent := tag, known, inconsistent;
        copy.key, copy.values := key, values;
        copy.parent, copy.left, copy.right := parent, left, right;
        saved := copy;
      }
    }

    /** `restore`. */
    method Restore()
      modifies this
      ensures old(saved) == null ==> unchanged(this)
      ensures old(saved) != null ==>
                && CellOf(this) == old(CellOf(saved)) && saved == null
                && parent == old(saved.parent) && left == old(saved.left) && right == old(saved.right)
    {
      if saved != null {
        var backup := saved;
        tag, known, inconsistent := backup.tag, backup.known, backup.inconsistent;
        key, values := backup.key, backup.values;
        parent, left, right := backup.parent, backup.left, backup.right;
        saved := null;
      }
    }

    /** `branch`: two new children, unknown and empty. */
    method Branch()
      modifies this`left, this`right
      ensures left != null && right != null && fresh(left) && fresh(right) && left != right
      ensures left.parent == this && left.left == null && left.right == null && left.saved == null
      ensures right.parent == this && right.left == null && right.right == null && right.saved == null
      ensures CellOf(left) == Cell(Zero(), false, false, [], [])
      ensures CellOf(right) == Cell(Zero(), false, false, [], [])
    {
      left := new Node();
      right := new Node();
      left.parent := this;
      right.parent := this;
    }

    method Prune()
      modifies this`left, this`right
      ensures left == null && right == null
    {
      left := null;
      right := null;
    }
  }

  function CellOf(n: Node): Cell
    reads n
  {
    Cell(n.tag, n.known, n.inconsistent, n.key, n.values)
  }

  // ------------------------------------------------------------------- shapes

  /** The nodes of a tree, with the backups and the detached children they hold on to. */
  datatype Shape = Shape(n: Node, kids: Kids, bak: Bak)
  datatype Kids = NoKids | Kids(l: Shape, r: Shape)
  datatype Bak = NoBak | Bak(b: Node, frozen: Kids)

  ghost function Foot(sh: Shape): set<Node> {
    {sh.n} + KFoot(sh.kids) + BFoot(sh.bak)
  }

  ghost function KFoot(k: Kids): set<Node> {
    match k case NoKids => {} case Kids(l, r) => Foot(l) + Foot(r)
  }

  ghost function BFoot(bak: Bak): set<Node> {
    match bak case NoBak => {} case Bak(b, frozen) => {b} + KFoot(frozen)
  }

  /** No node occurs twice. */
  ghost predicate Distinct(sh: Shape) {
    && sh.n !in KFoot(sh.kids) && sh.n !in BFoot(sh.bak) && KFoot(sh.kids) !! BFoot(sh.bak)
    && KDistinct(sh.kids) && BDistinct(sh.bak)
  }

  ghost predicate KDistinct(k: Kids) {
    match k case NoKids => true case Kids(l, r) => Distinct(l) && Distinct(r) && Foot(l) !! Foot(r)
  }

  ghost predicate BDistinct(bak: Bak) {
    match bak case NoBak => true case Bak(b, frozen) => b !in KFoot(frozen) && KDistinct(frozen)
  }

  /** The pointers on the heap have this shape. */
  ghost predicate Linked(sh: Shape, parent: Node?)
    reads Foot(sh)
  {
    && sh.n.parent == parent
    && KLinked(sh.kids, sh.n.left, sh.n.right, sh.n)
    && BLinked(sh.bak, sh.n.saved, sh.n, parent)
  }

  ghost predicate KLinked(k: Kids, left: Node?, right: Node?, parent: Node)
    reads KFoot(k)
  {
    match k
    case NoKids => left == null && right == null
    case Kids(l, r) => left == l.n && right == r.n && Linked(l, parent) && Linked(r, parent)
  }

  ghost predicate BLinked(bak: Bak, saved: Node?, n: Node, parent: Node?)
    reads BFoot(bak)
  {
    match bak
    case NoBak => saved == null
    case Bak(b, frozen) =>
      saved == b && b.saved == null && b.parent == parent && KLinked(frozen, b.left, b.right, n)
  }

  /** The tree a shape stands for. */
  ghost function Abs(sh: Shape): Tree
    reads Foot(sh)
    decreases sh, 0
  {
    Grow(CellOf(sh.n), AbsSaved(sh.bak), sh.kids)
  }

  ghost function Grow(c: Cell, saved: Saved, k: Kids): Tree
    reads KFoot(k)
    decreases k, 0
  {
    match k case NoKids => Tip(c, saved) case Kids(l, r) => Fork(c, saved, Abs(l), Abs(r))
  }

  ghost function AbsSaved(bak: Bak): Saved
    reads BFoot(bak)
    decreases bak, 0
  {
    match bak case NoBak => Nothing case Bak(b, frozen) => Kept(Grow(CellOf(b), Nothing, frozen))
  }

  lemma NoBackup()
    ensures AbsSaved(NoBak) == Nothing && BDistinct(NoBak)
  {
  }

  lemma Unsaved(n: Node, parent: Node?)
    requires n.saved == null
    ensures BLinked(NoBak, n.saved, n, parent) && BFoot(NoBak) == {}
  {
  }

  /** A shape seen from its root node. */
  lemma Opened(sh: Shape, parent: Node?)
    requires Distinct(sh) && Linked(sh, parent)
    ensures sh.n.left != sh.n && sh.n.right != sh.n && sh.n.parent == parent
    ensures (sh.n.left == null <==> sh.kids.NoKids?) && (sh.n.right == null <==> sh.kids.NoKids?)
    ensures Abs(sh).c == CellOf(sh.n) && Abs(sh).Fork? == sh.kids.Kids? && Abs(sh).saved == AbsSaved(sh.bak)
    ensures Abs(sh).saved.Kept? <==> sh.n.saved != null
    ensures BLinked(sh.bak, sh.n.saved, sh.n, parent) && BDistinct(sh.bak) && sh.n !in BFoot(sh.bak) && sh.n in Foot(sh)
    ensures sh.kids.Kids? ==>
              var l, r := sh.kids.l, sh.kids.r;
              && sh.n.left == l.n && sh.n.right == r.n && Linked(l, sh.n) && Linked(r, sh.n)
              && Distinct(l) && Distinct(r) && Foot(l) !! Foot(r) && sh.n !in Foot(l) + Foot(r)
              && Foot(l) + Foot(r) !! BFoot(sh.bak) && Foot(sh) == {sh.n} + Foot(l) + Foot(r) + BFoot(sh.bak)
              && l.n in Foot(l) && r.n in Foot(r)
              && Abs(sh).left == Abs(l) && Abs(sh).right == Abs(r)
              && Abs(l).c == CellOf(l.n) && Abs(r).c == CellOf(r.n)
  {
    assert KLinked(sh.kids, sh.n.left, sh.n.right, sh.n);
    if sh.kids.Kids? {
      assert KDistinct(sh.kids);
    }
  }

  /** A shape put together from its root node and two children. */
  lemma Assembled(n: Node, l: Shape, r: Shape, bak: Bak, parent: Node?)
    requires n.parent == parent && n.left == l.n && n.right == r.n && BLinked(bak, n.saved, n, parent)
    requires Linked(l, n) && Linked(r, n) && Distinct(l) && Distinct(r) && BDistinct(bak)
    requires Foot(l) !! Foot(r) && n !in Foot(l) + Foot(r) + BFoot(bak) && Foot(l) + Foot(r) !! BFoot(bak)
    ensures var sh := Shape(n, Kids(l, r), bak);
            && Distinct(sh) && Linked(sh, parent) && Foot(sh) == {n} + Foot(l) + Foot(r) + BFoot(bak)
            && Abs(sh) == Fork(CellOf(n), AbsSaved(bak), Abs(l), Abs(r))
  {
    var k := Kids(l, r);
    assert KDistinct(k) && KFoot(k) == Foot(l) + Foot(r) && KLinked(k, n.left, n.right, n);
    hide KDistinct, KFoot, KLinked, BDistinct, BFoot, BLinked, AbsSaved;
  }

  /** A node without children. */
  lemma Bare(n: Node, bak: Bak, parent: Node?)
    requires n.parent == parent && n.left == null && n.right == null && BLinked(bak, n.saved, n, parent)
    requires n !in BFoot(bak) && BDistinct(bak)
    ensures var sh := Shape(n, NoKids, bak);
            && Distinct(sh) && Linked(sh, parent) && Foot(sh) == {n} + BFoot(bak)
            && Abs(sh) == Tip(CellOf(n), AbsSaved(bak))
  {
  }

  /** A node with two children that have no children and no backup. */
  lemma Sprouted(n: Node, bak: Bak, parent: Node?)
    requires n.left != null && n.right != null && n.left != n.right && n.left != n && n.right != n
    requires n.left.left == null && n.left.right == null && n.left.saved == null && n.left.parent == n
    requires n.right.left == null && n.right.right == null && n.right.saved == null && n.right.parent == n
    requires n.parent == parent && BLinked(bak, n.saved, n, parent) && BDistinct(bak)
    requires n !in BFoot(bak) && n.left !in BFoot(bak) && n.right !in BFoot(bak)
    ensures var sh := Shape(n, Kids(Shape(n.left, NoKids, NoBak), Shape(n.right, NoKids, NoBak)), bak);
            && Distinct(sh) && Linked(sh, parent) && Foot(sh) == {n, n.left, n.right} + BFoot(bak)
            && Abs(sh) == Fork(CellOf(n), AbsSaved(bak), Tip(CellOf(n.left), Nothing), Tip(CellOf(n.right), Nothing))
  {
    Unsaved(n.left, n);
    Unsaved(n.right, n);
    Bare(n.left, NoBak, n);
    Bare(n.right, NoBak, n);
    NoBackup();
    Assembled(n, Shape(n.left, NoKids, NoBak), Shape(n.right, NoKids, NoBak), bak, parent);
  }

  // ------------------------------------------------------------------ zippers

  /** The rest of a tree around one of its nodes: the way up from a hole. */
  datatype Ctx = Top | In(n: Node, bak: Bak, right: bool, sib: Shape, up: Ctx)

  ghost function CFoot(ctx: Ctx): set<Node> {
    match ctx
    case Top => {}
    case In(n, bak, _, sib, up) => {n} + BFoot(bak) + Foot(sib) + CFoot(up)
  }

  ghost function Owner(ctx: Ctx): Node? {
    match ctx case Top => null case In(n, _, _, _, _) => n
  }

  /** The kids of a context's node once its hole is filled. */
  ghost function Fill(right: bool, sib: Shape, sh: Shape): Kids {
    if right then Kids(sib, sh) else Kids(sh, sib)
  }

  ghost function Plug(ctx: Ctx, sh: Shape): Shape {
    match ctx
    case Top => sh
    case In(n, bak, right, sib, up) => Plug(up, Shape(n, Fill(right, sib, sh), bak))
  }

  ghost predicate CDistinct(ctx: Ctx) {
    match ctx
    case Top => true
    case In(n, bak, _, sib, up) =>
      && n !in BFoot(bak) && n !in Foot(sib) && n !in CFoot(up)
      && BFoot(bak) !! Foot(sib) && BFoot(bak) !! CFoot(up) && Foot(sib) !! CFoot(up)
      && BDistinct(bak) && Distinct(sib) && CDistinct(up)
  }

  ghost predicate CLinked(ctx: Ctx, hole: Node)
    reads CFoot(ctx)
  {
    match ctx
    case Top => true
    case In(n, bak, right, sib, up) =>
      && n.left == (if right then sib.n else hole) && n.right == (if right then hole else sib.n)
      && n.parent == Owner(up) && Linked(sib, n) && BLinked(bak, n.saved, n, Owner(up))
      && CLinked(up, n)
  }

  /** The context as a value. */
  datatype Path = Whole | Step(c: Cell, saved: Saved, right: bool, sib: Tree, up: Path)

  ghost function CAbs(ctx: Ctx): Path
    reads CFoot(ctx)
  {
    match ctx
    case Top => Whole
    case In(n, bak, right, sib, up) => Step(CellOf(n), AbsSaved(bak), right, Abs(sib), CAbs(up))
  }

  ghost function Join(c: Cell, saved: Saved, right: bool, sib: Tree, t: Tree): Tree {
    if right then Fork(c, saved, sib, t) else Fork(c, saved, t, sib)
  }

  ghost function Depth(path: Path): nat {
    match path case Whole => 0 case Step(_, _, _, _, up) => Depth(up) + 1
  }

  /** A node of the heap tree together with its context. */
  ghost predicate Focus(ctx: Ctx, sh: Shape)
    reads CFoot(ctx), Foot(sh)
  {
    && Distinct(sh) && CDistinct(ctx) && Foot(sh) !! CFoot(ctx)
    && Linked(sh, Owner(ctx)) && CLinked(ctx, sh.n)
  }

  ghost function Kid(sh: Shape, right: bool): Shape
    requires sh.kids.Kids?
  {
    if right then sh.kids.r else sh.kids.l
  }

  ghost function Enter(ctx: Ctx, sh: Shape, right: bool): Ctx
    requires sh.kids.Kids?
  {
    In(sh.n, sh.bak, right, Kid(sh, !right), ctx)
  }

  ghost function Leave(ctx: Ctx, sh: Shape): Shape
    requires ctx.In?
  {
    Shape(ctx.n, Fill(ctx.right, ctx.sib, sh), ctx.bak)
  }

  lemma ParentOf(ctx: Ctx, sh: Shape)
    requires Focus(ctx, sh)
    ensures sh.n.parent == Owner(ctx)
  {
  }

  lemma {:induction false} PlugFoot(ctx: Ctx, sh: Shape)
    ensures Foot(Plug(ctx, sh)) == CFoot(ctx) + Foot(sh)
    decreases ctx
  {
    if ctx.In? {
      PlugFoot(ctx.up, Leave(ctx, sh));
      assert KFoot(Fill(ctx.right, ctx.sib, sh)) == Foot(sh) + Foot(ctx.sib);
    }
  }

  /** Moving the focus to a child. */
  lemma FocusDown(ctx: Ctx, sh: Shape, right: bool)
    requires Focus(ctx, sh) && sh.kids.Kids?
    ensures Focus(Enter(ctx, sh, right), Kid(sh, right))
    ensures Plug(Enter(ctx, sh, right), Kid(sh, right)) == Plug(ctx, sh)
    ensures CFoot(Enter(ctx, sh, right)) + Foot(Kid(sh, right)) == CFoot(ctx) + Foot(sh)
    ensures var t := Abs(sh);
            && t.Fork? && Abs(Kid(sh, right)) == t.Child(right)
            && CAbs(Enter(ctx, sh, right)) == Step(t.c, t.saved, right, t.Child(!right), CAbs(ctx))
  {
    Opened(sh, Owner(ctx));
    var up := Enter(ctx, sh, right);
    assert Fill(right, Kid(sh, !right), Kid(sh, right)) == sh.kids;
    assert Plug(up, Kid(sh, right)) == Plug(ctx, Shape(sh.n, sh.kids, sh.bak));
    assert CFoot(up) == {sh.n} + BFoot(sh.bak) + Foot(Kid(sh, !right)) + CFoot(ctx);
    hide Foot, Linked, KLinked, BLinked, KDistinct, BDistinct, BFoot, KFoot, Abs, Plug;
  }

  /** Moving the focus to the parent. */
  lemma FocusUp(ctx: Ctx, sh: Shape)
    requires ctx.In? && Focus(ctx, sh)
    ensures var whole := Leave(ctx, sh);
            && Focus(ctx.up, whole)
            && CFoot(ctx.up) + Foot(whole) == CFoot(ctx) + Foot(sh)
            && Plug(ctx.up, whole) == Plug(ctx, sh)
            && var p := CAbs(ctx);
               p.Step? && Abs(whole) == Join(p.c, p.saved, p.right, p.sib, Abs(sh)) && CAbs(ctx.up) == p.up
  {
    var l := if ctx.right then ctx.sib else sh;
    var r := if ctx.right then sh else ctx.sib;
    assert CFoot(ctx) == {ctx.n} + BFoot(ctx.bak) + Foot(ctx.sib) + CFoot(ctx.up);
    hide Foot, Linked, KLinked, BLinked, KDistinct, BDistinct, BFoot, KFoot, Abs;
    Assembled(ctx.n, l, r, ctx.bak, Owner(ctx.up));
  }

  // --------------------------------------------------------------- allocation

  lemma {:induction false} Allocated(sh: Shape)
    ensures forall n | n in Foot(sh) :: allocated(n)
    decreases sh
  {
    KAllocated(sh.kids);
    BAllocated(sh.bak);
  }

  lemma {:induction false} KAllocated(k: Kids)
    ensures forall n | n in KFoot(k) :: allocated(n)
    decreases k
  {
    if k.Kids? {
      Allocated(k.l);
      Allocated(k.r);
    }
  }

  lemma {:induction false} BAllocated(bak: Bak)
    ensures forall n | n in BFoot(bak) :: allocated(n)
    decreases bak
  {
    if bak.Bak? {
      KAllocated(bak.frozen);
    }
  }

  lemma {:induction false} CAllocated(ctx: Ctx)
    ensures forall n | n in CFoot(ctx) :: allocated(n)
    decreases ctx
  {
    if ctx.In? {
      BAllocated(ctx.bak);
      Allocated(ctx.sib);
      CAllocated(ctx.up);
    }
  }
}
