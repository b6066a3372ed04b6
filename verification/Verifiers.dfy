/** Checking a proof, and learning from it, on the heap (collection/proof.go, collection/verifiers.go). */
module Verifiers {
  import opened ByteSlices
  import opened Fields
  import opened Trees
  import opened Proofs
  import opened Nodes
  import opened Collections
  import opened Getters

  // ------------------------------------------------------- methods of a proof

  /** `consistent`. */
  method CheckConsistent(s: Scheme, proof: Proof) returns (ok: bool)
    requires |proof.steps| <= BITS
    ensures ok == Consistent(s, proof)
  {
    if |proof.steps| == 0 {
      return false;
    }
    if !proof.root.Consistent(s) {
      return false;
    }
    var cursor := proof.root;
    var path := s.Path(proof.key);
    for depth := 0 to |proof.steps|
      invariant Chain(s, cursor, proof.steps, path, depth) == Chain(s, proof.root, proof.steps, path, 0)
    {
      if cursor.left != proof.steps[depth].left.tag || cursor.right != proof.steps[depth].right.tag {
        return false;
      }
      if !proof.steps[depth].left.Consistent(s) || !proof.steps[depth].right.Consistent(s) {
        return false;
      }
      if Bit(path, depth) {
        cursor := proof.steps[depth].right;
      } else {
        cursor := proof.steps[depth].left;
      }
    }
    return cursor.Leaf();
  }

  /** What `Values` of a proof returns; None is one of its errors. */
  function ProofValues(s: Scheme, proof: Proof): Option<seq<Value>>
    requires |proof.steps| <= BITS
  {
    if MatchProof(s, proof) then Decoded(s.fields, Last(s, proof).values) else None
  }

  /** `Values`. */
  method ReadValues(s: Scheme, proof: Proof) returns (values: Option<seq<Value>>)
    requires |proof.steps| <= BITS
    ensures values == ProofValues(s, proof)
  {
    if |proof.steps| == 0 {
      return None;
    }
    var path := s.Path(proof.key);
    var depth := |proof.steps| - 1;
    var matched := false;
    var raw: Values := [];
    if Bit(path, depth) {
      if proof.key == proof.steps[depth].right.key {
        matched := true;
        raw := proof.steps[depth].right.values;
      }
    } else {
      if proof.key == proof.steps[depth].left.key {
        matched := true;
        raw := proof.steps[depth].left.values;
      }
    }
    if !matched {
      return None;
    }
    values := DecodeValues(s.fields, raw);
  }

  // ------------------------------------------------------------- dump.to

  /** `branch`, then the labels of the two unknown children. */
  method BranchUnknown(node: Node, left: Digest, right: Digest)
    modifies node`left, node`right
    ensures node.left != null && node.right != null && fresh(node.left) && fresh(node.right) && node.left != node.right
    ensures node.left.left == null && node.left.right == null && node.left.saved == null && node.left.parent == node
    ensures node.right.left == null && node.right.right == null && node.right.saved == null && node.right.parent == node
    ensures CellOf(node.left) == Cell(left, false, false, [], []) && CellOf(node.right)
            == Cell(right, false, false, [], [])
  {
    node.Branch();
    node.left.known := false;
    node.right.known := false;
    node.left.tag := left;
    node.right.tag := right;
  }

  /** An unknown node becomes an inner node with two unknown children. */
  method LearnFork(d: Dump, node: Node, ghost sh: Shape, ghost parent: Node?) returns (ghost out: Shape)
    requires Distinct(sh) && Linked(sh, parent) && sh.n == node
    modifies node
    ensures Distinct(out) && Linked(out, parent) && out.n == node
    ensures forall n | n in Foot(out) :: n in Foot(sh) || fresh(n)
    ensures Abs(out) == old(var t := Abs(sh);
                            Fork(t.c.(known := true, values := d.values), t.saved,
                                 Tip(Cell(d.left, false, false, [], []), Nothing),
                                     Tip(Cell(d.right, false, false, [], []), Nothing)))
  {
    hide Distinct, BDistinct, KDistinct, Linked, BLinked, KLinked, Abs, AbsSaved, KFoot, BFoot, Grow;
    Allocated(sh);
    Opened(sh, parent);
    node.known := true;
    node.values := d.values;
    BranchUnknown(node, d.left, d.right);
    Sprouted(node, sh.bak, parent);
    out := Shape(node, Kids(Shape(node.left, NoKids, NoBak), Shape(node.right, NoKids, NoBak)), sh.bak);
  }

  /** An unknown node becomes a leaf. */
  method LearnLeaf(d: Dump, node: Node, ghost sh: Shape, ghost parent: Node?)
    requires Distinct(sh) && Linked(sh, parent) && sh.n == node
    modifies node`known, node`values, node`key
    ensures Linked(sh, parent)
    ensures Abs(sh) == old(var t := Abs(sh); t.(c := t.c.(known := true, values := d.values, key := d.key)))
  {
    hide Distinct, BDistinct, KDistinct, Linked, BLinked, KLinked, Abs, AbsSaved, KFoot, BFoot, Grow;
    Allocated(sh);
    Opened(sh, parent);
    node.known := true;
    node.values := d.values;
    node.key := d.key;
    if sh.kids.Kids? {
      Assembled(node, sh.kids.l, sh.kids.r, sh.bak, parent);
    } else {
      Bare(node, sh.bak, parent);
    }
  }

  /** `to`. */
  method LearnNode(d: Dump, node: Node, ghost sh: Shape, ghost parent: Node?) returns (ghost out: Shape)
    requires Distinct(sh) && Linked(sh, parent) && sh.n == node
    modifies node
    ensures Distinct(out) && Linked(out, parent) && out.n == node
    ensures forall n | n in Foot(out) :: n in Foot(sh) || fresh(n)
    ensures Abs(out) == old(Learn(d, Abs(sh)))
  {
    hide Distinct, BDistinct, Linked, BLinked, Abs, AbsSaved, Zero;
    Seen(sh, parent, node);
    out := sh;
    if !node.known && node.tag == d.tag {
      if d.Leaf() {
        LearnLeaf(d, node, sh, parent);
      } else {
        out := LearnFork(d, node, sh, parent);
      }
    }
  }

  /** Both children of the cursor learn from a step of the proof. */
  method LearnKids(step: ProofStep, node: Node, ghost sh: Shape, ghost parent: Node?) returns (ghost out: Shape)
    requires Distinct(sh) && Linked(sh, parent) && sh.n == node && sh.kids.Kids?
    modifies Foot(sh.kids.l) + Foot(sh.kids.r)
    ensures Distinct(out) && Linked(out, parent) && out.n == node
    ensures forall n | n in Foot(out) :: n in Foot(sh) || fresh(n)
    ensures out.kids.Kids?
    ensures Abs(out) == old(var t := Abs(sh); Fork(t.c, t.saved, Learn(step.left, Abs(sh.kids.l)),
            Learn(step.right, Abs(sh.kids.r))))
  {
    hide Distinct, BDistinct, Linked, BLinked, Abs, AbsSaved, KFoot, BFoot, KDistinct, KLinked, Grow, Learn;
    Allocated(sh);
    Opened(sh, parent);
    ghost var l, r := sh.kids.l, sh.kids.r;
    if !node.left.known {
      l := LearnNode(step.left, node.left, sh.kids.l, node);
    } else {
      LearnKnown(step.left, Abs(sh.kids.l));
    }
    Allocated(l);
    label Right:
    if !node.right.known {
      r := LearnNode(step.right, node.right, sh.kids.r, node);
    } else {
      LearnKnown(step.right, Abs(sh.kids.r));
    }
    forall n | n in Foot(r) ensures (n in Foot(sh.kids.r) || fresh(n)) && n !in Foot(l) && n != node
        && n !in BFoot(sh.bak) {
      assert n in Foot(sh.kids.r) || fresh@Right(n);
    }
    Assembled(node, l, r, sh.bak, parent);
    out := Shape(node, Kids(l, r), sh.bak);
  }

  lemma LearnKnown(d: Dump, t: Tree)
    ensures t.c.known ==> Learn(d, t) == t
  {
  }

  // ------------------------------------------------------------------- Verify

  /** The tree around a subtree. */
  ghost function Refill(path: Path, t: Tree): Tree {
    match path case Whole => t case Step(c, saved, right, sib, up) => Refill(up, Join(c, saved, right, sib, t))
  }

  lemma {:induction false} PlugAbs(ctx: Ctx, sh: Shape)
    requires Focus(ctx, sh)
    ensures Focus(Top, Plug(ctx, sh)) && Abs(Plug(ctx, sh)) == Refill(CAbs(ctx), Abs(sh))
    decreases ctx
  {
    hide Focus, Abs;
    if ctx.In? {
      FocusUp(ctx, sh);
      PlugAbs(ctx.up, Leave(ctx, sh));
    }
  }

  /** What remains of the loop of `Verify` at the cursor. */
  ghost predicate Grafting(ctx: Ctx, sh: Shape, steps: seq<ProofStep>, path: Digest, d: int, goal: Tree)
    reads CFoot(ctx), Foot(sh)
  {
    && Focus(ctx, sh) && 0 <= d <= |steps| <= BITS
    && var r := Graft(Abs(sh), steps, path, d); r.Some? && Refill(CAbs(ctx), r.value) == goal
  }

  /** One step of the loop: the children learn, then the cursor moves. */
  method GraftStep(node: Node, steps: seq<ProofStep>, path: Digest, depth: nat, ghost ctx: Ctx, ghost sh: Shape,
        ghost goal: Tree)
    returns (next: Node, ghost up: Ctx, ghost out: Shape)
    requires Grafting(ctx, sh, steps, path, depth, goal) && depth < |steps| && sh.n == node
    modifies Foot(sh)
    ensures Grafting(up, out, steps, path, depth + 1, goal) && out.n == next && Plug(up, out).n == Plug(ctx, sh).n
    ensures forall n | n in CFoot(up) + Foot(out) :: n in CFoot(ctx) + Foot(sh) || fresh(n)
  {
    hide Distinct, CDistinct, Linked, CLinked, Abs, CAbs, Learn, Bit;
    CAllocated(ctx);
    Allocated(sh);
    Opened(sh, Owner(ctx));
    GraftSplits(CAbs(ctx), Abs(sh), steps, path, depth);
    ghost var whole := LearnKids(steps[depth], node, sh, Owner(ctx));
    forall n | n in Foot(whole) ensures n !in CFoot(ctx) && (n in Foot(sh) || fresh(n)) {
    }
    PlugRoot(ctx, sh, whole);
    var step := Bit(path, depth);
    FocusDown(ctx, whole, step);
    Opened(whole, Owner(ctx));
    up, out := Enter(ctx, whole, step), Kid(whole, step);
    next := if step then node.right else node.left;
  }

  lemma GraftSplits(p: Path, t: Tree, steps: seq<ProofStep>, path: Digest, d: nat)
    requires d < |steps| <= BITS && Graft(t, steps, path, d).Some?
    ensures t.Fork?
    ensures var grown := Fork(t.c, t.saved, Learn(steps[d].left, t.left), Learn(steps[d].right, t.right));
            var step := Bit(path, d);
            var r := Graft(grown.Child(step), steps, path, d + 1);
            r.Some? && Refill(p, Graft(t, steps, path, d).value)
                == Refill(Step(t.c, t.saved, step, grown.Child(!step), p), r.value)
  {
    hide Bit, Learn;
    var grown := Fork(t.c, t.saved, Learn(steps[d].left, t.left), Learn(steps[d].right, t.right));
    var step := Bit(path, d);
    var r := Graft(grown.Child(step), steps, path, d + 1).value;
    assert grown.WithChild(step, r) == Join(t.c, t.saved, step, grown.Child(!step), r);
  }

  lemma GraftEnds(ctx: Ctx, sh: Shape, steps: seq<ProofStep>, path: Digest, goal: Tree)
    requires Grafting(ctx, sh, steps, path, |steps|, goal)
    ensures Focus(Top, Plug(ctx, sh)) && Abs(Plug(ctx, sh)) == goal && Foot(Plug(ctx, sh)) == CFoot(ctx) + Foot(sh)
  {
    PlugAbs(ctx, sh);
    PlugFoot(ctx, sh);
  }

  /** The loop of `Verify`. */
  method GraftAll(c: Collection, steps: seq<ProofStep>, path: Digest, ghost goal: Tree)
    requires c.Valid() && Grafting(Top, c.shape, steps, path, 0, goal)
    modifies c`shape, Foot(c.shape)
    ensures c.Valid() && c.AsTree() == goal
    ensures forall n | n in Foot(c.shape) :: n in old(Foot(c.shape)) || fresh(n)
  {
    hide Focus, Abs, CAbs, Grafting;
    var cursor: Node := c.root;
    ghost var ctx, sh, made: set<Node> := Top, c.shape, {};
    Footing(ctx, sh);
    for depth := 0 to |steps|
      invariant Grafting(ctx, sh, steps, path, depth, goal) && sh.n == cursor && Plug(ctx, sh).n == c.root
      invariant CFoot(ctx) + Foot(sh) <= old(Foot(c.shape)) + made && fresh(made)
      invariant c.shape == old(c.shape)
    {
      label Stepping:
      ghost var up, out;
      cursor, up, out := GraftStep(cursor, steps, path, depth, ctx, sh, goal);
      ghost var more := (CFoot(up) + Foot(out)) - (CFoot(ctx) + Foot(sh));
      forall n | n in more ensures fresh(n) {
        assert fresh@Stepping(n);
      }
      made := made + more;
      ctx, sh := up, out;
    }
    GraftEnds(ctx, sh, steps, path, goal);
    c.shape := Plug(ctx, sh);
  }

  /** `Verify`, on a collection whose root is not marked dirty (the source panics on one that is). */
  method Verify(c: Collection, proof: Proof) returns (ok: bool)
    requires c.Valid() && |proof.steps| <= BITS && !c.root.inconsistent
    requires Proofs.Verify(c.scheme, c.AsTree(), proof) != NilDereference
    modifies c`shape, Foot(c.shape)
    ensures c.Valid() && forall n | n in Foot(c.shape) :: n in old(Foot(c.shape)) || fresh(n)
    ensures match old(Proofs.Verify(c.scheme, c.AsTree(), proof))
            case Rejected => !ok && c.AsTree() == old(c.AsTree())
            case Accepted(u) => ok && c.AsTree() == u
            case NilDereference => false
  {
    hide Distinct, Linked, Abs, Learn, Graft, Consistent;
    Allocated(c.shape);
    RootFacts(c.shape);
    if proof.root.tag != c.root.tag {
      return false;
    }
    var consistent := CheckConsistent(c.scheme, proof);
    if !consistent {
      return false;
    }
    var path := c.scheme.Path(proof.key);
    LearnKnown(proof.root, c.AsTree());
    label Learning:
    if !c.root.known {
      c.shape := LearnNode(proof.root, c.root, c.shape, null);
    }
    ghost var goal := Graft(c.AsTree(), proof.steps, path, 0).value;
    label Learnt:
    GraftAll(c, proof.steps, path, goal);
    forall n | n in Foot(c.shape) ensures n in old(Foot(c.shape)) || fresh(n) {
      assert n in old@Learnt(Foot(c.shape)) || fresh@Learnt(n);
    }
    return true;
  }
}
