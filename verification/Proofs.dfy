/** Merkle proofs: dumps, consistency, soundness, completeness, and what `Verify` grafts into a tree
    (collection/proof.go, collection/getters.go, collection/verifiers.go). */
module Proofs {
  import opened ByteSlices
  import opened Serialization
  import opened Fields
  import opened Trees
  import opened Rules
  import opened Refinement
  import opened Canonical
  import opened Pruning

  /** A node as a proof carries it. */
  datatype Dump = Dump(tag: Digest, key: Bytes, values: Values, left: Digest, right: Digest) {

    /** Inner nodes are recognised by their children's labels. */
    predicate Leaf() {
      left == Zero() && right == Zero()
    }

    /** What the dump claims to be the hash of. */
    function Preimage(): seq<Item> {
      if Leaf() then LeafItems(key, values) else InnerItems(values, left, right)
    }

    predicate Consistent(s: Scheme) {
      tag == s.sha256(Preimage())
    }
  }

  function DumpOf(t: Tree): Dump {
    match t
    case Tip(c, _) => Dump(c.tag, c.key, c.values, Zero(), Zero())
    case Fork(c, _, l, r) => Dump(c.tag, [], c.values, l.c.tag, r.c.tag)
  }

  datatype ProofStep = ProofStep(left: Dump, right: Dump) {
    function Side(right: bool): Dump {
      if right then this.right else left
    }
  }

  datatype Proof = Proof(key: Bytes, root: Dump, steps: seq<ProofStep>)

  // ------------------------------------------------------- producing a proof

  function StepsFrom(t: Tree, path: Digest, d: nat): Option<seq<ProofStep>>
    requires t.Fork? && d <= BITS
    decreases t
  {
    if !t.ChildrenKnown() || d == BITS then None
    else
      var step := ProofStep(DumpOf(t.left), DumpOf(t.right));
      var next := t.Child(Bit(path, d));
      if next.Tip? then Some([step])
      else
        match StepsFrom(next, path, d + 1)
        case None => None
        case Some(steps) => Some([step] + steps)
  }

  /** `Get(key).Proof()`; None stands for its error. */
  function Prove(s: Scheme, t: Tree, key: Bytes): Option<Proof>
    requires t.c.known ==> t.Fork?
  {
    if !t.c.known then None
    else
      match StepsFrom(t, s.Path(key), 0)
      case None => None
      case Some(steps) => Some(Proof(key, DumpOf(t), steps))
  }

  // --------------------------------------------------------- checking a proof

  /** The loop of `consistent` from step i on. */
  predicate Chain(s: Scheme, cursor: Dump, steps: seq<ProofStep>, path: Digest, i: nat)
    requires i <= |steps| <= BITS
    decreases |steps| - i
  {
    if i == |steps| then cursor.Leaf()
    else
      && cursor.left == steps[i].left.tag && cursor.right == steps[i].right.tag
      && steps[i].left.Consistent(s) && steps[i].right.Consistent(s)
      && Chain(s, steps[i].Side(Bit(path, i)), steps, path, i + 1)
  }

  predicate Consistent(s: Scheme, proof: Proof)
    requires |proof.steps| <= BITS
  {
    |proof.steps| > 0 && proof.root.Consistent(s) && Chain(s, proof.root, proof.steps, s.Path(proof.key), 0)
  }

  /** The dump the proof ends in. */
  function Last(s: Scheme, proof: Proof): Dump
    requires 0 < |proof.steps| <= BITS
  {
    proof.steps[|proof.steps| - 1].Side(Bit(s.Path(proof.key), |proof.steps| - 1))
  }

  predicate MatchProof(s: Scheme, proof: Proof)
    requires |proof.steps| <= BITS
  {
    |proof.steps| > 0 && proof.key == Last(s, proof).key
  }

  // ---------------------------------------------------------------- collisions

  /** The tuples hashed for the known nodes of a tree. */
  ghost function TreePreimages(t: Tree): set<seq<Item>> {
    if !t.c.known then {}
    else
      match t
      case Tip(c, _) => {LeafItems(c.key, c.values)}
      case Fork(c, _, l, r) => {InnerItems(c.values, l.c.tag, r.c.tag)} + TreePreimages(l) + TreePreimages(r)
  }

  /** The tuples hashed when a proof is checked. */
  ghost function ProofPreimages(proof: Proof): set<seq<Item>> {
    {proof.root.Preimage()}
    + (set i | 0 <= i < |proof.steps| :: proof.steps[i].left.Preimage())
    + (set i | 0 <= i < |proof.steps| :: proof.steps[i].right.Preimage())
  }

  /** No two of these tuples collide, and none of them hashes to the all-zero digest. */
  ghost predicate CollisionFree(s: Scheme, tuples: set<seq<Item>>) {
    && (forall x, y | x in tuples && y in tuples && s.sha256(x) == s.sha256(y) :: x == y)
    && (forall x | x in tuples :: s.sha256(x) != Zero())
  }

  /** The tuple a known node is the hash of. */
  function Items(t: Tree): seq<Item> {
    if t.Tip? then LeafItems(t.c.key, t.c.values) else InnerItems(t.c.values, t.left.c.tag, t.right.c.tag)
  }

  lemma ItemsHash(s: Scheme, t: Tree, p: seq<bool>)
    requires t.c.known && Merkle(s, t, p)
    ensures t.c.tag == s.sha256(Items(t)) && Items(t) in TreePreimages(t)
  {
  }

  /** The dump tells the truth about a node: its label, and what is below it if the node is known. */
  ghost predicate Tells(d: Dump, t: Tree) {
    && d.tag == t.c.tag
    && (t.c.known && t.Tip? ==> d.Leaf() && d.key == t.c.key && d.values == t.c.values)
    && (t.c.known && t.Fork? ==>
          !d.Leaf() && d.values == t.c.values && d.left == t.left.c.tag && d.right == t.right.c.tag)
  }

  /** A dump with the label of a known node tells the truth about it, unless two tuples collide. */
  lemma DumpTells(s: Scheme, d: Dump, t: Tree, p: seq<bool>, tuples: set<seq<Item>>)
    requires t.c.known && Merkle(s, t, p) && TreePreimages(t) <= tuples && CollisionFree(s, tuples)
    requires d.Consistent(s) && d.Preimage() in tuples && d.tag == t.c.tag
    ensures Tells(d, t)
  {
    ItemsHash(s, t, p);
    assert d.Preimage() == Items(t);
    assert d.Preimage()[0] == Items(t)[0];
    if t.Tip? {
      LeafItemsInjective(d.key, d.values, t.c.key, t.c.values);
    } else {
      InnerItemsInjective(d.values, d.left, d.right, t.c.values, t.left.c.tag, t.right.c.tag);
    }
  }

  lemma NeverZero(s: Scheme, d: Dump, tuples: set<seq<Item>>)
    requires d.Consistent(s) && d.Preimage() in tuples && CollisionFree(s, tuples)
    ensures d.tag != Zero()
  {
  }

  // ----------------------------------------------------------------- soundness

  /** From depth i on, the steps tell the truth about the path and its siblings, and end at its leaf. */
  ghost predicate Truthful(t: Tree, steps: seq<ProofStep>, path: Digest, i: nat)
    requires i <= |steps| <= BITS
    decreases t
  {
    if t.Tip? then i == |steps|
    else
      && i < |steps| && Tells(steps[i].left, t.left) && Tells(steps[i].right, t.right)
      && Truthful(t.Child(Bit(path, i)), steps, path, i + 1)
  }

  lemma {:induction false} ChainTruthful(s: Scheme, t: Tree, cursor: Dump, steps: seq<ProofStep>, path: Digest,
        p: seq<bool>, tuples: set<seq<Item>>)
    requires |p| <= |steps| <= BITS && Merkle(s, t, p) && KnownPath(t, path, |p|) && Tells(cursor, t)
    requires Chain(s, cursor, steps, path, |p|)
    requires TreePreimages(t) <= tuples && CollisionFree(s, tuples)
    requires forall i | 0 <= i < |steps| :: steps[i].left.Preimage() in tuples && steps[i].right.Preimage() in tuples
    ensures Truthful(t, steps, path, |p|)
    decreases t
  {
    hide Bit, LeafItems, InnerItems, RawItems, Settled, LeafOk, CollisionFree, Zero;
    var i := |p|;
    if t.Tip? {
      if i < |steps| {
        NeverZero(s, steps[i].left, tuples);
      }
    } else if i < |steps| {
      DumpTells(s, steps[i].left, t.left, p + [false], tuples);
      DumpTells(s, steps[i].right, t.right, p + [true], tuples);
      var step := Bit(path, i);
      ChainTruthful(s, t.Child(step), steps[i].Side(step), steps, path, p + [step], tuples);
    }
  }

  /** The node without children the path leads to. */
  function LeafOn(t: Tree, path: Digest, d: nat): Tree
    decreases t
  {
    if t.Tip? || d >= BITS then t else LeafOn(t.Child(Bit(path, d)), path, d + 1)
  }

  lemma {:induction false} TruthfulEnd(t: Tree, steps: seq<ProofStep>, path: Digest, i: nat)
    requires i < |steps| <= BITS && Truthful(t, steps, path, i) && KnownPath(t, path, i)
    ensures var last, leaf := steps[|steps| - 1].Side(Bit(path, |steps| - 1)), LeafOn(t, path, i);
            leaf.Tip? && last.key == leaf.c.key && last.values == leaf.c.values
    decreases t
  {
    hide Bit;
    var next := t.Child(Bit(path, i));
    if next.Fork? {
      TruthfulEnd(next, steps, path, i + 1);
    }
  }

  lemma {:induction false} LeafIsRecord(t: Tree, key: Bytes, path: Digest, d: nat)
    requires KnownPath(t, path, d) && LeafOn(t, path, d).Tip?
    ensures var leaf := LeafOn(t, path, d);
            RecordFrom(t, key, path, d) == if leaf.c.key == key then Found(leaf.c.values) else Absent
    decreases t
  {
    hide Bit;
    if t.Fork? && d < BITS {
      LeafIsRecord(t.Child(Bit(path, d)), key, path, d + 1);
    }
  }

  /** The proof answers for the key as the map does, and carries its values. */
  ghost predicate Faithful(s: Scheme, t: Tree, proof: Proof)
    requires 0 < |proof.steps| <= BITS
  {
    && (MatchProof(s, proof) <==> proof.key in Map(t))
    && (proof.key in Map(t) ==> Last(s, proof).values == Map(t)[proof.key])
  }

  lemma TruthfulIsFaithful(s: Scheme, lazy: bool, t: Tree, proof: Proof)
    requires proof.key != [] && 0 < |proof.steps| <= BITS && Ok(s, lazy, t, [])
    requires Truthful(t, proof.steps, s.Path(proof.key), 0) && KnownPath(t, s.Path(proof.key), 0)
    ensures Faithful(s, t, proof)
  {
    var path := s.Path(proof.key);
    TruthfulEnd(t, proof.steps, path, 0);
    LeafIsRecord(t, proof.key, path, 0);
    RecordIsMap(s, lazy, t, proof.key, []);
  }

  /** Soundness, by reduction: whatever proof is consistent with the root label of an up-to-date tree
      that holds the key's path tells the truth about presence, absence and values, unless two
      of the finitely many tuples hashed in the tree and in the proof collide or one hashes to zero. */
  lemma ProofSound(s: Scheme, t: Tree, proof: Proof)
    requires proof.key != [] && |proof.steps| <= BITS && Consistent(s, proof) && proof.root.tag == t.c.tag
    requires Merkle(s, t, []) && t.Fork? && KnownPath(t, s.Path(proof.key), 0)
    requires CollisionFree(s, TreePreimages(t) + ProofPreimages(proof))
    ensures Truthful(t, proof.steps, s.Path(proof.key), 0) && Faithful(s, t, proof)
  {
    var tuples := TreePreimages(t) + ProofPreimages(proof);
    forall i | 0 <= i < |proof.steps|
      ensures proof.steps[i].left.Preimage() in tuples && proof.steps[i].right.Preimage() in tuples
    {
      assert proof.steps[i].left.Preimage() in ProofPreimages(proof);
      assert proof.steps[i].right.Preimage() in ProofPreimages(proof);
    }
    assert proof.root.Preimage() in ProofPreimages(proof);
    DumpTells(s, proof.root, t, [], tuples);
    ChainTruthful(s, t, proof.root, proof.steps, s.Path(proof.key), [], tuples);
    TruthfulIsFaithful(s, false, t, proof);
  }

  // -------------------------------------------------------------- completeness

  /** No inner node can be mistaken for a leaf: its children's labels are not both zero. */
  ghost predicate Unmistakable(t: Tree) {
    t.Fork? ==>
      && !(t.left.c.tag == Zero() && t.right.c.tag == Zero())
      && Unmistakable(t.left) && Unmistakable(t.right)
  }

  /** The label of an inner node is the hash of its values and of its children's labels. */
  predicate Labelled(s: Scheme, t: Tree) {
    t.Fork? ==> t.c.tag == s.InnerLabel(t.c.values, t.left.c.tag, t.right.c.tag)
  }

  /** The nodes a proof dumps, from a node on the path on: the node, and both children at each step. */
  ghost function Dumped(t: Tree, path: Digest, d: nat): set<Tree>
    decreases t
  {
    {t} + if t.Tip? || d >= BITS then {} else {t.left, t.right} + Dumped(t.Child(Bit(path, d)), path, d + 1)
  }

  ghost predicate AllLabelled(s: Scheme, t: Tree, path: Digest, d: nat) {
    forall n | n in Dumped(t, path, d) :: Labelled(s, n)
  }

  lemma DumpedStep(s: Scheme, t: Tree, path: Digest, d: nat)
    requires t.Fork? && d < BITS
    ensures AllLabelled(s, t, path, d) <==>
            && Labelled(s, t) && Labelled(s, t.left) && Labelled(s, t.right)
            && AllLabelled(s, t.Child(Bit(path, d)), path, d + 1)
  {
    hide Bit, Labelled;
  }

  /** A dumped node tells the truth about itself, and is consistent unless its label is out of date. */
  lemma DumpOfConsistent(s: Scheme, t: Tree, p: seq<bool>)
    requires t.c.known && Ok(s, true, t, p) && Unmistakable(t)
    ensures Tells(DumpOf(t), t) && (DumpOf(t).Consistent(s) <==> Labelled(s, t))
  {
  }

  lemma DumpShape(t: Tree)
    ensures DumpOf(t).tag == t.c.tag
    ensures t.Tip? ==> DumpOf(t).Leaf()
    ensures t.Fork? ==> DumpOf(t).left == t.left.c.tag && DumpOf(t).right == t.right.c.tag
  {
  }

  lemma TipLabelled(s: Scheme, t: Tree, path: Digest, d: nat)
    requires t.Tip?
    ensures AllLabelled(s, t, path, d)
  {
  }

  /** The rules two levels down, in the middle of a transaction. */
  lemma OkChildren(s: Scheme, t: Tree, p: seq<bool>)
    requires t.Fork? && Ok(s, true, t, p)
    ensures Ok(s, true, t.left, p + [false]) && Ok(s, true, t.right, p + [true])
  {
    if !(t.c.dirty && t.ChildrenKnown()) {
      OkRelax(s, t.left, p + [false]);
      OkRelax(s, t.right, p + [true]);
    }
  }

  /** The proof's steps, from depth |p| on, below a prefix of steps. */
  lemma {:induction false} StepsConsistent(s: Scheme, t: Tree, before: seq<ProofStep>, path: Digest, p: seq<bool>)
    requires t.Fork? && |p| == |before| <= BITS && t.c.known && Ok(s, true, t, p) && Unmistakable(t)
    requires StepsFrom(t, path, |p|).Some?
    ensures var steps := before + StepsFrom(t, path, |p|).value;
            && |before| < |steps| <= BITS && Truthful(t, steps, path, |p|) && KnownPath(t, path, |p|)
            && (Labelled(s, t) && Chain(s, DumpOf(t), steps, path, |p|)
                <==> AllLabelled(s, t, path, |p|))
    decreases t
  {
    hide Bit, Ok, Labelled, AllLabelled, DumpOf, Dump.Consistent, Tells, Dump.Leaf;
    var i := |p|;
    DumpShape(t);
    DumpedStep(s, t, path, i);
    var steps := before + StepsFrom(t, path, i).value;
    var step := ProofStep(DumpOf(t.left), DumpOf(t.right));
    var next := t.Child(Bit(path, i));
    OkChildren(s, t, p);
    DumpOfConsistent(s, t.left, p + [false]);
    DumpOfConsistent(s, t.right, p + [true]);
    DumpShape(t.left);
    DumpShape(t.right);
    if next.Tip? {
      assert steps[i] == step && |steps| == i + 1;
      TipLabelled(s, next, path, i + 1);
    } else {
      StepsConsistent(s, next, before + [step], path, p + [Bit(path, i)]);
      assert steps == (before + [step]) + StepsFrom(next, path, i + 1).value;
    }
  }

  /** A proof produced by any collection, in the middle of a transaction too, carries the root label and
      answers as the map does; it is consistent exactly when no inner node it dumps has a label that is
      out of date. */
  lemma ProofExactly(s: Scheme, t: Tree, key: Bytes)
    requires key != [] && Ok(s, true, t, []) && Unmistakable(t) && (t.c.known ==> t.Fork?)
    requires Prove(s, t, key).Some?
    ensures var proof := Prove(s, t, key).value;
            && 0 < |proof.steps| <= BITS && proof.root.tag == t.c.tag && proof.key == key
            && Truthful(t, proof.steps, s.Path(key), 0) && Faithful(s, t, proof)
            && (Consistent(s, proof) <==> AllLabelled(s, t, s.Path(key), 0))
  {
    hide Ok, AllLabelled, DumpOf, Chain, Labelled, Truthful, Faithful, Unmistakable, KnownPath, Dump.Consistent;
    var proof := Prove(s, t, key).value;
    DumpOfConsistent(s, t, []);
    DumpShape(t);
    StepsConsistent(s, t, [], s.Path(key), []);
    assert [] + proof.steps == proof.steps;
    TruthfulIsFaithful(s, true, t, proof);
  }

  /** A label can only be out of date on a node that is marked. */
  lemma {:induction false} UnmarkedLabelled(s: Scheme, t: Tree, path: Digest, p: seq<bool>)
    requires Ok(s, true, t, p)
    ensures forall n | n in Dumped(t, path, |p|) && !n.c.dirty :: Labelled(s, n)
    decreases t
  {
    if t.Fork? {
      OkChildren(s, t, p);
      UnmarkedLabelled(s, t.Child(Bit(path, |p|)), path, p + [Bit(path, |p|)]);
    }
  }

  /** So a proof that dumps no marked inner node is consistent. */
  lemma UnmarkedProof(s: Scheme, t: Tree, key: Bytes)
    requires key != [] && Ok(s, true, t, []) && Unmistakable(t) && (t.c.known ==> t.Fork?)
    requires Prove(s, t, key).Some?
    requires forall n | n in Dumped(t, s.Path(key), 0) && n.Fork? :: !n.c.dirty
    ensures var proof := Prove(s, t, key).value; |proof.steps| <= BITS && Consistent(s, proof)
  {
    ProofExactly(s, t, key);
    UnmarkedLabelled(s, t, s.Path(key), []);
  }

  lemma MerkleLabel(s: Scheme, t: Tree, p: seq<bool>)
    requires Merkle(s, t, p)
    ensures Labelled(s, t)
  {
  }

  lemma {:induction false} MerkleLabelled(s: Scheme, t: Tree, path: Digest, p: seq<bool>)
    requires Merkle(s, t, p)
    ensures AllLabelled(s, t, path, |p|)
    decreases t
  {
    hide Bit, Labelled, Settled, LeafOk;
    MerkleLabel(s, t, p);
    if t.Fork? {
      MerkleLabel(s, t.left, p + [false]);
      MerkleLabel(s, t.right, p + [true]);
      MerkleLabelled(s, t.Child(Bit(path, |p|)), path, p + [Bit(path, |p|)]);
    }
  }

  /** Completeness: a proof produced by an up-to-date collection is consistent, carries the root
      label, and answers as the map does. */
  lemma ProofComplete(s: Scheme, t: Tree, key: Bytes)
    requires key != [] && Merkle(s, t, []) && Unmistakable(t) && (t.c.known ==> t.Fork?)
    requires Prove(s, t, key).Some?
    ensures var proof := Prove(s, t, key).value;
            && 0 < |proof.steps| <= BITS && Consistent(s, proof) && proof.root.tag == t.c.tag && proof.key == key
            && Truthful(t, proof.steps, s.Path(key), 0) && Faithful(s, t, proof)
  {
    OkRelax(s, t, []);
    MerkleLabelled(s, t, s.Path(key), []);
    ProofExactly(s, t, key);
  }

  /** The tree that one `Add` to an empty collection leaves inside a transaction: the root keeps its label. */
  lemma EmptyAdd(s: Scheme, key: Bytes, values: Values)
    requires key != []
    ensures var e, r, step := Empty(s), Manipulate(s, true, Op.Add(key, values), Empty(s)), Bit(s.Path(key), 0);
            && Merkle(s, e, []) && e.Fork? && e.c.known && e.left == e.right && e.left.c.known && e.left.Placeholder()
            && r.Done? && r.t.Fork? && r.t.c == e.c.(dirty := true) && r.t.Child(!step) == e.Child(!step)
            && var leaf := r.t.Child(step);
               leaf.Tip? && leaf.c.known && leaf.c.key == key && leaf.c.tag == s.LeafLabel(key, leaf.c.values)
  {
    hide Bit, Scheme.Path, Scheme.LeafLabel, Merkle, Parents, Zero;
    EmptyWellFormed(s);
    var path, e := s.Path(key), Empty(s);
    var hole := e.Child(Bit(path, 0));
    assert Below(s, true, Op.Add(key, values), hole, path, 1) == AtTip(s, true, Op.Add(key, values), hole, path, 1);
  }

  lemma LeafIsNotInner(key: Bytes, values: Values, inner: Values, left: Digest, right: Digest)
    ensures LeafItems(key, values) != InnerItems(inner, left, right)
  {
    assert LeafItems(key, values)[0] != InnerItems(inner, left, right)[0];
  }

  /** Putting another leaf in the place of a placeholder changes what the root should be the hash of. */
  lemma StaleRoot(s: Scheme, e: Tree, t: Tree, step: bool, proof: Proof)
    requires Merkle(s, e, []) && e.Fork? && e.left == e.right && e.left.c.known && e.left.Placeholder()
    requires t.Fork? && t.c == e.c.(dirty := true) && t.Child(!step) == e.Child(!step)
    requires var leaf := t.Child(step);
             leaf.Tip? && leaf.c.key != [] && leaf.c.tag == s.LeafLabel(leaf.c.key, leaf.c.values)
    requires proof.root == DumpOf(t) && proof.steps == [ProofStep(DumpOf(t.left), DumpOf(t.right))]
    requires CollisionFree(s, TreePreimages(e) + ProofPreimages(proof))
    ensures !proof.root.Consistent(s)
  {
    hide LeafItems, InnerItems, LeafOk, Zero;
    var tuples := TreePreimages(e) + ProofPreimages(proof);
    var leaf := t.Child(step);
    OkBranches(s, false, e, []);
    ItemsHash(s, e, []);
    ItemsHash(s, e.left, [] + [false]);
    assert proof.root.Preimage() in tuples;
    assert proof.steps[0].Side(step) == DumpOf(leaf) && DumpOf(leaf).Preimage() in tuples;
    if proof.root.Consistent(s) {
      LeafIsNotInner(leaf.c.key, leaf.c.values, e.c.values, e.left.c.tag, e.right.c.tag);
      LeafIsNotInner([], t.c.values, e.c.values, e.left.c.tag, e.right.c.tag);
      InnerItemsInjective(t.c.values, t.left.c.tag, t.right.c.tag, e.c.values, e.left.c.tag, e.right.c.tag);
      LeafItemsInjective(leaf.c.key, leaf.c.values, e.left.c.key, e.left.c.values);
    }
  }

  /** `Begin`, one `Add` to an empty collection, and a proof for the key that was added: it names the key and
      carries the root label of the empty collection, and is not consistent unless two of the hashed
      tuples collide or one hashes to zero. */
  lemma ProofInTransaction(s: Scheme, key: Bytes, values: Values)
    requires key != []
    ensures var r := Manipulate(s, true, Op.Add(key, values), Empty(s));
            && r.Done? && r.t.c.known && r.t.Fork? && Prove(s, r.t, key).Some?
            && var proof := Prove(s, r.t, key).value;
            && |proof.steps| == 1 && MatchProof(s, proof) && proof.root.tag == Empty(s).c.tag
            && (CollisionFree(s, TreePreimages(Empty(s)) + ProofPreimages(proof)) ==> !Consistent(s, proof))
  {
    hide Bit, Scheme.Path, Scheme.LeafLabel, Merkle, Manipulate, Empty, CollisionFree, TreePreimages, ProofPreimages;
    EmptyAdd(s, key, values);
    var e, t, step := Empty(s), Manipulate(s, true, Op.Add(key, values), Empty(s)).t, Bit(s.Path(key), 0);
    assert t.ChildrenKnown();
    var proof := Prove(s, t, key).value;
    if CollisionFree(s, TreePreimages(e) + ProofPreimages(proof)) {
      StaleRoot(s, e, t, step, proof);
    }
  }

  /** Without a tuple that hashes to zero no inner node of a full collection at rest can be mistaken. */
  lemma {:induction false} FullUnmistakable(s: Scheme, t: Tree, p: seq<bool>)
    requires Full(t) && Merkle(s, t, p) && forall x | x in TreePreimages(t) :: s.sha256(x) != Zero()
    ensures Unmistakable(t)
    decreases t
  {
    hide LeafItems, InnerItems, Zero;
    if t.Fork? {
      ItemsHash(s, t.left, p + [false]);
      FullUnmistakable(s, t.left, p + [false]);
      FullUnmistakable(s, t.right, p + [true]);
    }
  }

  /** A proof can be produced exactly when the key's path and its siblings are known. */
  lemma {:induction false} StepsWhenKnown(s: Scheme, t: Tree, path: Digest, p: seq<bool>)
    requires t.Fork? && t.c.known && Merkle(s, t, p) && |p| <= BITS
    ensures StepsFrom(t, path, |p|).Some? <==> KnownPath(t, path, |p|)
    decreases t
  {
    hide Bit;
    var next := t.Child(Bit(path, |p|));
    if next.Fork? && next.c.known {
      StepsWhenKnown(s, next, path, p + [Bit(path, |p|)]);
    }
  }

  // ------------------------------------------------------------------- Verify

  /** `dump.to`: an unknown node with the dump's label learns its contents. */
  function Learn(d: Dump, t: Tree): Tree {
    if t.c.known || t.c.tag != d.tag then t
    else if d.Leaf() then t.(c := t.c.(known := true, values := d.values, key := d.key))
    else
      Fork(t.c.(known := true, values := d.values), t.saved,
           Tip(Cell(d.left, false, false, [], []), Nothing), Tip(Cell(d.right, false, false, [], []), Nothing))
  }

  /** The loop of `Verify` from step i on; None is a nil dereference. */
  function Graft(t: Tree, steps: seq<ProofStep>, path: Digest, i: nat): Option<Tree>
    requires i <= |steps| <= BITS
    decreases |steps| - i
  {
    if i == |steps| then Some(t)
    else if t.Tip? then None
    else
      var grown := t.(left := Learn(steps[i].left, t.left), right := Learn(steps[i].right, t.right));
      var step := Bit(path, i);
      match Graft(grown.Child(step), steps, path, i + 1)
      case None => None
      case Some(u) => Some(grown.WithChild(step, u))
  }

  datatype Verdict = Rejected | NilDereference | Accepted(t: Tree)

  /** `Verify`, on a collection whose root is not marked dirty. */
  function Verify(s: Scheme, t: Tree, proof: Proof): Verdict
    requires |proof.steps| <= BITS
  {
    if proof.root.tag != t.c.tag || !Consistent(s, proof) then Rejected
    else
      match Graft(Learn(proof.root, t), proof.steps, s.Path(proof.key), 0)
      case None => NilDereference
      case Some(u) => Accepted(u)
  }

  lemma LearnPrunes(s: Scheme, d: Dump, small: Tree, big: Tree, p: seq<bool>)
    requires Prunes(s, small, big, p) && big.c.known && Tells(d, big)
    ensures var u := Learn(d, small); Prunes(s, u, big, p) && u.c.known && u.c.tag == small.c.tag
  {
    if !small.c.known && big.Fork? {
      assert Merkle(s, big.left, p + [false]) && Merkle(s, big.right, p + [true]);
    }
  }

  lemma {:induction false} GraftPrunes(s: Scheme, small: Tree, big: Tree, steps: seq<ProofStep>, path: Digest,
        p: seq<bool>)
    requires |p| <= |steps| <= BITS && small.c.known && Prunes(s, small, big, p)
    requires KnownPath(big, path, |p|) && Truthful(big, steps, path, |p|)
    ensures var r := Graft(small, steps, path, |p|);
            && r.Some? && Prunes(s, r.value, big, p) && r.value.c == small.c && r.value.Fork? == small.Fork?
            && KnownPath(r.value, path, |p|)
    decreases big
  {
    hide Bit, Merkle, Learn;
    var i := |p|;
    if i < |steps| {
      LearnPrunes(s, steps[i].left, small.left, big.left, p + [false]);
      LearnPrunes(s, steps[i].right, small.right, big.right, p + [true]);
      var step := Bit(path, i);
      var grown := small.(left := Learn(steps[i].left, small.left), right := Learn(steps[i].right, small.right));
      GraftPrunes(s, grown.Child(step), big.Child(step), steps, path, p + [step]);
    }
  }

  /** Whatever proof `Verify` accepts on a pruned copy, the result is again a pruned copy of the same
      tree, with the same root label, and it now knows the path of the proof's key; `Verify`
      never runs into a missing child. */
  lemma VerifyPrunes(s: Scheme, small: Tree, big: Tree, proof: Proof)
    requires proof.key != [] && |proof.steps| <= BITS
    requires Prunes(s, small, big, []) && Merkle(s, big, []) && big.Fork? && KnownPath(big, s.Path(proof.key), 0)
    requires CollisionFree(s, TreePreimages(big) + ProofPreimages(proof))
    ensures match Verify(s, small, proof)
            case Rejected => proof.root.tag != big.c.tag || !Consistent(s, proof)
            case NilDereference => false
            case Accepted(u) =>
              && Prunes(s, u, big, []) && u.c.tag == small.c.tag && u.Fork? && KnownPath(u, s.Path(proof.key), 0)
              && Faithful(s, big, proof)
  {
    if proof.root.tag == small.c.tag && Consistent(s, proof) {
      ProofSound(s, big, proof);
      assert proof.root.Preimage() in TreePreimages(big) + ProofPreimages(proof);
      DumpTells(s, proof.root, big, [], TreePreimages(big) + ProofPreimages(proof));
      LearnPrunes(s, proof.root, small, big, []);
      GraftPrunes(s, Learn(proof.root, small), big, proof.steps, s.Path(proof.key), []);
    }
  }

  /** What was known stays as it was. */
  ghost predicate Extends(t: Tree, u: Tree) {
    && t.c.tag == u.c.tag
    && (t.c.known ==>
          && t.c == u.c && t.Fork? == u.Fork?
          && (t.Fork? ==> Extends(t.left, u.left) && Extends(t.right, u.right)))
  }

  lemma {:induction false} ExtendsSelf(t: Tree)
    ensures Extends(t, t)
  {
    if t.Fork? {
      ExtendsSelf(t.left);
      ExtendsSelf(t.right);
    }
  }

  lemma {:induction false} GraftExtends(t: Tree, steps: seq<ProofStep>, path: Digest, i: nat)
    requires i <= |steps| <= BITS
    ensures var r := Graft(t, steps, path, i); r.Some? ==> Extends(t, r.value)
    decreases |steps| - i
  {
    hide Bit;
    ExtendsSelf(t);
    if i < |steps| && t.Fork? {
      ExtendsSelf(t.left);
      ExtendsSelf(t.right);
      var step := Bit(path, i);
      GraftExtends(Learn(if step then steps[i].right else steps[i].left, t.Child(step)), steps, path, i + 1);
    }
  }

  /** `Verify` changes no label and no known node, whatever the proof. */
  lemma VerifyExtends(s: Scheme, t: Tree, proof: Proof)
    requires |proof.steps| <= BITS
    ensures var r := Verify(s, t, proof); r.Accepted? ==> Extends(t, r.t)
  {
    GraftExtends(Learn(proof.root, t), proof.steps, s.Path(proof.key), 0);
  }

  /** What a pruned copy dumps is what the full tree dumps. */
  lemma DumpPrunes(s: Scheme, small: Tree, big: Tree, p: seq<bool>)
    requires small.c.known && Prunes(s, small, big, p)
    ensures DumpOf(small) == DumpOf(big) && small.Fork? == big.Fork?
  {
  }

  lemma {:induction false} StepsPrune(s: Scheme, small: Tree, big: Tree, path: Digest, p: seq<bool>)
    requires |p| <= BITS && small.Fork? && small.c.known && Prunes(s, small, big, p)
    requires StepsFrom(small, path, |p|).Some?
    ensures StepsFrom(big, path, |p|) == StepsFrom(small, path, |p|)
    decreases small
  {
    hide Bit, Merkle, DumpOf;
    var step := Bit(path, |p|);
    DumpPrunes(s, small.left, big.left, p + [false]);
    DumpPrunes(s, small.right, big.right, p + [true]);
    if small.Child(step).Fork? {
      StepsPrune(s, small.Child(step), big.Child(step), path, p + [step]);
    }
  }

  /** Whatever proof a pruned copy produces, the full tree would have produced the same one. */
  lemma ProvePrunes(s: Scheme, small: Tree, big: Tree, key: Bytes)
    requires Prunes(s, small, big, []) && big.Fork? && (small.c.known ==> small.Fork?)
    requires Prove(s, small, key).Some?
    ensures big.c.known && Prove(s, big, key) == Prove(s, small, key)
  {
    hide Bit, Merkle, DumpOf;
    DumpPrunes(s, small, big, []);
    StepsPrune(s, small, big, s.Path(key), []);
  }

  /** An up-to-date tree is a pruned copy of itself, with nothing pruned beyond what it lacks. */
  lemma {:induction false} PrunesItself(s: Scheme, t: Tree, p: seq<bool>)
    requires Merkle(s, t, p)
    ensures Prunes(s, t, t, p)
    decreases t
  {
    if t.Fork? {
      PrunesItself(s, t.left, p + [false]);
      PrunesItself(s, t.right, p + [true]);
    }
  }

  /** Completeness, second half: a proof that the full collection or any pruned copy of it produces is
      accepted by `Verify` on every pruned copy, which meets no missing child, keeps its labels and all it
      knew, and learns the key's path. No assumption on collisions: the proof is honest. */
  lemma HonestProofAccepted(s: Scheme, maker: Tree, small: Tree, big: Tree, key: Bytes)
    requires key != [] && Merkle(s, big, []) && Unmistakable(big) && big.Fork?
    requires Prunes(s, maker, big, []) && Prunes(s, small, big, [])
    requires maker.Fork? && Prove(s, maker, key).Some?
    ensures var proof := Prove(s, maker, key).value;
            && |proof.steps| <= BITS
            && var r := Verify(s, small, proof);
            && r.Accepted? && Prunes(s, r.t, big, []) && Extends(small, r.t)
            && r.t.c.tag == small.c.tag && r.t.Fork? && KnownPath(r.t, s.Path(key), 0)
  {
    hide Bit, Graft, Consistent, Truthful, Learn, StepsFrom;
    ProvePrunes(s, maker, big, key);
    var proof := Prove(s, big, key).value;
    ProofComplete(s, big, key);
    StepsWhenKnown(s, big, s.Path(key), []);
    OkRelax(s, big, []);
    DumpOfConsistent(s, big, []);
    LearnPrunes(s, proof.root, small, big, []);
    GraftPrunes(s, Learn(proof.root, small), big, proof.steps, s.Path(key), []);
    VerifyExtends(s, small, proof);
  }

  // ------------------------------------------------------ down to byte strings

  /** The collection's `sha256` on top of a hash of byte strings. */
  function Hashing(csha256: Bytes -> Digest, fields: seq<Field>): Scheme {
    Scheme(items => csha256(EncodeAll(items)), fields)
  }

  /** What the path of a key, the label of a leaf and the label of an inner node are the hash of, byte by byte. */
  lemma LabelBytes(csha256: Bytes -> Digest, fields: seq<Field>, key: Bytes, values: Values, left: Digest,
        right: Digest)
    requires |key| < U64 && |values| < U64 && forall v | v in values :: |v| < U64
    ensures var s := Hashing(csha256, fields);
            && s.Path(key) == csha256([0x0e] + Eight(|key|) + key)
            && s.LeafLabel(key, values) == csha256([0x00, 0x01] + ([0x0e] + Eight(|key|) + key) + RecordBytes(values))
            && s.InnerLabel(values, left, right)
               == csha256([0x00, 0x00] + RecordBytes(values) + [0x0e, 0, 0, 0, 0, 0, 0, 0, 32] + left
                          + [0x0e, 0, 0, 0, 0, 0, 0, 0, 32] + right)
  {
    hide EncodeAll, RecordBytes, Eight;
    PathBytes(key);
    LeafBytes(key, values);
    InnerBytes(values, left, right);
  }

  /** A collision of tuples is a collision of the byte strings they are serialised to. */
  lemma TupleCollision(csha256: Bytes -> Digest, fields: seq<Field>, x: seq<Item>, y: seq<Item>)
    requires forall i | i in x :: Valid(i)
    requires forall i | i in y :: Valid(i)
    requires x != y && Hashing(csha256, fields).sha256(x) == Hashing(csha256, fields).sha256(y)
    ensures EncodeAll(x) != EncodeAll(y) && csha256(EncodeAll(x)) == csha256(EncodeAll(y))
  {
    if EncodeAll(x) == EncodeAll(y) {
      EncodeInjective(x, y);
    }
  }

  /** No leaf is ever hashed from the bytes of an inner node, whatever the two hold. */
  lemma LeafNeverInner(key: Bytes, values: Values, inner: Values, left: Digest, right: Digest)
    ensures EncodeAll(LeafItems(key, values)) != EncodeAll(InnerItems(inner, left, right))
  {
    assert PutBE(1, 1) == [1] && PutBE(0, 1) == [0] by {
      assert PutBE(0, 0) == [];
    }
    assert Encode(LeafItems(key, values)[0])[1] == 1;
    assert Encode(InnerItems(inner, left, right)[0])[1] == 0;
    assert EncodeAll(LeafItems(key, values))[1] == 1;
    assert EncodeAll(InnerItems(inner, left, right))[1] == 0;
  }
}
