/** Compactness, and the bijection between maps and well-formed trees
    (collection/README.md, "Rules of a collection tree"). */
module Canonical {
  import opened ByteSlices
  import opened Fields
  import opened Trees
  import opened Rules
  import opened Refinement

  /** Nothing is hidden. */
  ghost predicate Full(t: Tree) {
    t.c.known && (t.Fork? ==> Full(t.left) && Full(t.right))
  }

  /** Every inner node except the root has at least two associations below it. */
  ghost predicate Compact(t: Tree, root: bool) {
    t.Fork? ==> (root || |Map(t)| >= 2) && Compact(t.left, false) && Compact(t.right, false)
  }

  /** A full, well-formed collection tree. */
  ghost predicate WellFormed(s: Scheme, t: Tree) {
    t.Fork? && Full(t) && Compact(t, true) && Merkle(s, t, [])
  }

  /** The tree without transaction bookkeeping. */
  function Strip(t: Tree): Tree {
    match t
    case Tip(c, _) => Tip(c.(dirty := false), Nothing)
    case Fork(c, _, l, r) => Fork(c.(dirty := false), Nothing, Strip(l), Strip(r))
  }

  lemma UnionSize(l: map<Bytes, Values>, r: map<Bytes, Values>)
    requires forall k | k in l :: k !in r
    ensures |l + r| == |l| + |r|
  {
    assert (l + r).Keys == l.Keys + r.Keys;
    assert |l.Keys + r.Keys| == |l.Keys| + |r.Keys|;
    assert |l.Keys| == |l| && |r.Keys| == |r| && |(l + r).Keys| == |l + r|;
  }

  lemma ForkSize(s: Scheme, og: bool, t: Tree, p: seq<bool>)
    requires Branches(s, og, t, p)
    ensures |Map(t)| == |Map(t.left)| + |Map(t.right)|
  {
    OtherSide(s, og, t, p, Zero());
    UnionSize(Map(t.left), Map(t.right));
  }

  lemma EffectSize(op: Op, m: map<Bytes, Values>)
    ensures op.Set? ==> |Effect(op, m)| == |m|
    ensures op.Add? && op.key !in m ==> |Effect(op, m)| == |m| + 1
  {
    if op.Add? && op.key !in m {
      assert Effect(op, m).Keys == m.Keys + {op.key};
      assert |Effect(op, m).Keys| == |m.Keys| + 1;
      assert |m.Keys| == |m| && |Effect(op, m).Keys| == |Effect(op, m)|;
    }
    if op.Set? {
      assert Effect(op, m).Keys == m.Keys;
      assert |m.Keys| == |m| && |Effect(op, m).Keys| == |Effect(op, m)|;
    }
  }

  /** The fewest associations an inner node may have before the call, to be compact after it. */
  function Needed(op: Op): nat {
    match op case Add(_, _) => 1 case Set(_, _) => 2 case Remove(_) => 0
  }

  lemma ClimbCompact(s: Scheme, og: bool, op: Op, t: Tree, p: seq<bool>)
    requires Branches(s, og, t, p)
    requires Compact(t.left, false) && Compact(t.right, false)
    requires !op.Remove? && |p| > 0 ==> |Map(t)| >= 2
    ensures Compact(Climb(s, og, op, t, |p| == 0), |p| == 0)
  {
    hide Bit, Ok, LeafOk, Settled, Parents, LeafItems, InnerItems;
    ClimbMap(s, og, op, t, |p| == 0);
    ForkSize(s, og, t, p);
  }

  /** A call that succeeds below an inner node leaves it two associations, if it had enough before. */
  lemma EnoughLeft(s: Scheme, og: bool, op: Op, t: Tree, p: seq<bool>, u: Tree)
    requires Branches(s, og, t, p) && !op.Remove? && |Map(t)| >= Needed(op)
    requires Answers(s, op, Map(t.Child(Bit(s.Path(op.key), |p|))), Done(u))
    ensures |Map(t.WithChild(Bit(s.Path(op.key), |p|), u))| >= 2
  {
    hide Bit, Branches, Map, Scheme.Path;
    RefusalBelow(s, og, op, t, p);
    EffectBelow(s, og, op, t, p, u);
    EffectSize(op, Map(t));
  }

  lemma {:induction false} ModifyCompact(s: Scheme, og: bool, op: Op, t: Tree, path: Digest, p: seq<bool>)
    requires GoodOp(s, op) && path == s.Path(op.key) && Follows(path, p)
    requires t.Fork? && (t.ChildrenKnown() ==> Branches(s, og, t, p))
    requires Compact(t.left, false) && Compact(t.right, false) && (|p| > 0 ==> |Map(t)| >= Needed(op))
    ensures var r := Modify(s, og, op, t, path, |p|); r.Done? ==> Compact(r.t, |p| == 0)
    decreases BITS - |p|, 0
  {
    hide Ok, Climb, Below, Bit, Map, Answers, Needed, Compact;
    if t.ChildrenKnown() {
      var step := Bit(path, |p|);
      FollowsStep(path, p, step);
      BelowCompact(s, og, op, t.Child(step), path, p + [step]);
      BelowOk(s, og, op, t.Child(step), path, p + [step]);
      BelowMap(s, og, op, t.Child(step), path, p + [step]);
      var r := Below(s, og, op, t.Child(step), path, |p| + 1);
      if r.Done? {
        if !op.Remove? && |p| > 0 { EnoughLeft(s, og, op, t, p, r.t); }
        ClimbCompact(s, og, op, t.WithChild(step, r.t), p);
      }
    }
  }

  lemma {:induction false} BelowCompact(s: Scheme, og: bool, op: Op, t: Tree, path: Digest, p: seq<bool>)
    requires GoodOp(s, op) && path == s.Path(op.key) && Follows(path, p) && |p| > 0
    requires t.c.known && Ok(s, og, t, p) && Compact(t, false)
    ensures var r := Below(s, og, op, t, path, |p|); r.Done? ==> Compact(r.t, false)
    decreases BITS - |p|, 2
  {
    if t.Fork? {
      if t.ChildrenKnown() { OkBranches(s, og, t, p); }
      ModifyCompact(s, og, op, t, path, p);
    } else if op.Add? && t.c.key != [] && t.c.key != op.key && |p| < BITS {
      var step := Bit(s.Path(t.c.key), |p|);
      var u := Split(s, og, t, step);
      SplitOk(s, og, t, p);
      SplitMap(s, og, t, step);
      ModifyCompact(s, og, op, u, path, p);
    }
  }

  lemma {:induction false} ModifyFull(s: Scheme, og: bool, op: Op, t: Tree, path: Digest, d: nat)
    requires t.Fork? && d <= BITS && t.c.known && Full(t.left) && Full(t.right)
    ensures var r := Modify(s, og, op, t, path, d);
            r != Failed(ProofNeeded) && (r.Done? ==> Full(r.t))
    decreases BITS - d, 0
  {
    hide Bit;
    if d < BITS {
      BelowFull(s, og, op, t.Child(Bit(path, d)), path, d + 1);
    }
  }

  lemma {:induction false} BelowFull(s: Scheme, og: bool, op: Op, t: Tree, path: Digest, d: nat)
    requires d <= BITS && Full(t)
    ensures var r := Below(s, og, op, t, path, d);
            r != Failed(ProofNeeded) && (r.Done? ==> Full(r.t))
    decreases BITS - d, 2
  {
    hide Bit;
    if t.Fork? {
      ModifyFull(s, og, op, t, path, d);
    } else if op.Add? && t.c.key != [] && t.c.key != op.key && d < BITS {
      ModifyFull(s, og, op, Split(s, og, t, Bit(s.Path(t.c.key), d)), path, d);
    }
  }

  /** Map refinement: on a full well-formed tree, each manipulator answers exactly as the map
      demands and leaves a full well-formed tree. */
  lemma ManipulateRefinesMap(s: Scheme, op: Op, t: Tree)
    requires WellFormed(s, t) && GoodOp(s, op)
    ensures var r := Manipulate(s, false, op, t);
            Answers(s, op, Map(t), r) && (r.Done? ==> WellFormed(s, r.t))
  {
    var path := s.Path(op.key);
    assert Full(t.left) && Full(t.right);
    OkBranches(s, false, t, []);
    ModifyOk(s, false, op, t, path, []);
    ModifyMap(s, false, op, t, path, []);
    ModifyCompact(s, false, op, t, path, []);
    ModifyFull(s, false, op, t, path, 0);
    ModifyKeepsFork(s, false, op, t, path);
  }

  lemma ModifyKeepsFork(s: Scheme, og: bool, op: Op, t: Tree, path: Digest)
    requires t.Fork?
    ensures var r := Modify(s, og, op, t, path, 0); r.Done? ==> r.t.Fork?
  {
  }

  lemma EmptyWellFormed(s: Scheme)
    ensures WellFormed(s, Empty(s)) && Map(Empty(s)) == map[]
  {
    EmptiedOk(s, Blank(), [false], false);
    EmptiedOk(s, Blank(), [true], false);
    var hole := Emptied(s, Blank());
    UpdateSettles(s, Fork(Cell(Zero(), true, false, [], []), Nothing, hole, hole));
    assert [] + [false] == [false] && [] + [true] == [true];
  }

  lemma SameSide(s: Scheme, t1: Tree, t2: Tree, p: seq<bool>)
    requires Branches(s, false, t1, p) && Branches(s, false, t2, p) && Map(t1) == Map(t2)
    ensures Map(t1.left) == Map(t2.left) && Map(t1.right) == Map(t2.right)
  {
    hide Ok, Bit;
    forall k
      ensures k in Map(t1.left) <==> k in Map(t2.left)
      ensures k in Map(t1.right) <==> k in Map(t2.right)
    {
      OtherSide(s, false, t1, p, s.Path(k));
      OtherSide(s, false, t2, p, s.Path(k));
    }
    OtherSide(s, false, t1, p, Zero());
    OtherSide(s, false, t2, p, Zero());
    forall k | k in Map(t1.left)
      ensures Map(t1.left)[k] == Map(t2.left)[k]
    {
      assert Map(t1)[k] == Map(t2)[k];
    }
    forall k | k in Map(t1.right)
      ensures Map(t1.right)[k] == Map(t2.right)[k]
    {
      assert Map(t1)[k] == Map(t2)[k];
    }
  }

  /** Two well-formed trees below the same steps that hold the same map are the same tree. */
  lemma {:induction false} SameMapSameTree(s: Scheme, t1: Tree, t2: Tree, p: seq<bool>)
    requires Merkle(s, t1, p) && Full(t1) && Compact(t1, |p| == 0)
    requires Merkle(s, t2, p) && Full(t2) && Compact(t2, |p| == 0)
    requires |p| == 0 ==> t1.Fork? && t2.Fork?
    requires Map(t1) == Map(t2)
    ensures Strip(t1) == Strip(t2)
    decreases t1
  {
    if t1.Fork? && t2.Fork? {
      OkBranches(s, false, t1, p);
      OkBranches(s, false, t2, p);
      SameSide(s, t1, t2, p);
      SameMapSameTree(s, t1.left, t2.left, p + [false]);
      SameMapSameTree(s, t1.right, t2.right, p + [true]);
    } else if t1.Tip? && t2.Tip? {
      assert t1.c.key != [] ==> t1.c.key in Map(t2) && Map(t1)[t1.c.key] == Map(t2)[t1.c.key];
      assert t2.c.key != [] ==> t2.c.key in Map(t1);
    } else {
      assert false;
    }
  }

  // ------------------------------------------------------- the documented rules

  /** Rule 4 as documented: no inner node but the root has a leaf and a placeholder as children. */
  ghost predicate RuleFour(t: Tree, root: bool) {
    t.Fork? ==>
      && (root || !(t.left.Tip? && t.right.Tip? && t.left.Placeholder() != t.right.Placeholder()))
      && RuleFour(t.left, false) && RuleFour(t.right, false)
  }

  /** No inner node but the root has two placeholders as children. */
  ghost predicate NoEmptyPair(t: Tree, root: bool) {
    t.Fork? ==>
      && (root || !(t.left.Placeholder() && t.right.Placeholder()))
      && NoEmptyPair(t.left, false) && NoEmptyPair(t.right, false)
  }

  /** The documented rule 4 makes a tree compact, and so the bijection hold, if and only if the tree
      has no pair of placeholders below a node other than the root. */
  lemma {:induction false} CompactExactly(s: Scheme, t: Tree, p: seq<bool>, root: bool)
    requires Merkle(s, t, p) && Full(t)
    ensures Compact(t, root) <==> RuleFour(t, root) && NoEmptyPair(t, root)
    decreases t
  {
    hide Ok;
    if t.Fork? {
      OkBranches(s, false, t, p);
      ForkSize(s, false, t, p);
      CompactExactly(s, t.left, p + [false], false);
      CompactExactly(s, t.right, p + [true], false);
    }
  }

  /** A tree that obeys the documented rules and holds what an empty collection holds. */
  function Bloated(s: Scheme): Tree {
    var hole := Emptied(s, Blank());
    var blank := Cell(Zero(), true, false, [], []);
    Update(s, Fork(blank, Nothing, Update(s, Fork(blank, Nothing, hole, hole)), hole))
  }

  /** The documented rules alone do not give a bijection. */
  lemma DocumentedRulesTooWeak(s: Scheme)
    ensures var t := Bloated(s);
            && t.Fork? && Full(t) && Merkle(s, t, []) && RuleFour(t, true)
            && Map(t) == Map(Empty(s)) && Strip(t) != Strip(Empty(s)) && !NoEmptyPair(t, true)
  {
    hide Update, Emptied, Settled, Scheme.PlaceholderValues;
    var hole := Emptied(s, Blank());
    var blank := Cell(Zero(), true, false, [], []);
    EmptiedOk(s, Blank(), [false] + [false], false);
    EmptiedOk(s, Blank(), [false] + [true], false);
    EmptiedOk(s, Blank(), [] + [true], false);
    OkFits(s, false, hole, [] + [true]);
    var pair := Update(s, Fork(blank, Nothing, hole, hole));
    UpdateSettles(s, Fork(blank, Nothing, hole, hole));
    assert [] + [false] == [false] && Merkle(s, pair, [false]);
    assert RuleFour(hole, false) && RuleFour(pair, false);
    SettledFits(s, pair);
    UpdateSettles(s, Fork(blank, Nothing, pair, hole));
    EmptyWellFormed(s);
    UpdateSettles(s, Fork(blank, Nothing, hole, hole));
    assert Strip(Empty(s)).left.Tip? && Strip(Bloated(s)).left.Fork?;
  }

  lemma SettledFits(s: Scheme, t: Tree)
    requires t.Fork? && Settled(s, t)
    ensures s.Fit(t.c.values)
  {
  }

  // ---------------------------------------------------------------- histories

  /** The tree after a sequence of calls, each followed by the next whatever it answered. */
  function History(s: Scheme, ongoing: bool, t: Tree, ops: seq<Op>): Tree
    decreases |ops|
  {
    if ops == [] then t
    else
      var before := History(s, ongoing, t, ops[..|ops| - 1]);
      match Manipulate(s, ongoing, ops[|ops| - 1], before)
      case Done(u) => u
      case Failed(_) => before
  }

  /** The map the same history describes. */
  ghost function MapHistory(s: Scheme, m: map<Bytes, Values>, ops: seq<Op>): map<Bytes, Values>
    decreases |ops|
  {
    if ops == [] then m
    else
      var before := MapHistory(s, m, ops[..|ops| - 1]);
      var op := ops[|ops| - 1];
      if Refusal(s, op, before).Some? then before else Effect(op, before)
  }

  lemma {:induction false} HistoryRefinesMap(s: Scheme, t: Tree, ops: seq<Op>)
    requires WellFormed(s, t) && forall op | op in ops :: GoodOp(s, op)
    ensures var u := History(s, false, t, ops); WellFormed(s, u) && Map(u) == MapHistory(s, Map(t), ops)
    decreases |ops|
  {
    if ops != [] {
      HistoryRefinesMap(s, t, ops[..|ops| - 1]);
      ManipulateRefinesMap(s, ops[|ops| - 1], History(s, false, t, ops[..|ops| - 1]));
    }
  }

  /** The state of a collection depends on its map alone: two histories of an empty collection
      that end in the same map end in the same tree, hence with the same root label. */
  lemma SameMapSameState(s: Scheme, ops1: seq<Op>, ops2: seq<Op>)
    requires forall op | op in ops1 + ops2 :: GoodOp(s, op)
    ensures MapHistory(s, map[], ops1) == MapHistory(s, map[], ops2) ==>
              var t1, t2 := History(s, false, Empty(s), ops1), History(s, false, Empty(s), ops2);
              Strip(t1) == Strip(t2) && t1.c.tag == t2.c.tag
  {
    EmptyWellFormed(s);
    assert forall op | op in ops1 :: op in ops1 + ops2;
    assert forall op | op in ops2 :: op in ops1 + ops2;
    HistoryRefinesMap(s, Empty(s), ops1);
    HistoryRefinesMap(s, Empty(s), ops2);
    if MapHistory(s, map[], ops1) == MapHistory(s, map[], ops2) {
      SameMapSameTree(s, History(s, false, Empty(s), ops1), History(s, false, Empty(s), ops2), []);
    }
  }
}
