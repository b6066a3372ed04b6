/** The tree refines a finite map from keys to values: `Add`, `Set`, `Remove` and `Get`
    (collection/manipulators.go, collection/getters.go). */
module Refinement {
  import opened ByteSlices
  import opened Fields
  import opened Trees
  import opened Rules

  /** The associations stored in the known part of a tree. */
  function Map(t: Tree): map<Bytes, Values> {
    match t
    case Tip(c, _) => if c.key == [] then map[] else map[c.key := c.values]
    case Fork(_, _, l, r) => Map(l) + Map(r)
  }

  /** Another key of the map has the digest of this one. */
  ghost predicate Twin(s: Scheme, m: map<Bytes, Values>, key: Bytes) {
    exists k | k in m :: k != key && s.Path(k) == s.Path(key)
  }

  /** The error a manipulator owes its caller, if any. */
  ghost function Refusal(s: Scheme, op: Op, m: map<Bytes, Values>): Option<Error> {
    match op
    case Add(key, _) =>
      if key in m then Some(KeyCollision) else if Twin(s, m, key) then Some(Panic) else None
    case Set(key, _) => if key in m then None else Some(KeyNotFound)
    case Remove(key) => if key in m then None else Some(KeyNotFound)
  }

  /** The map after an accepted manipulator. */
  ghost function Effect(op: Op, m: map<Bytes, Values>): map<Bytes, Values> {
    match op
    case Add(key, values) => m[key := values]
    case Set(key, changes) => if key in m then m[key := Merge(m[key], changes)] else m
    case Remove(key) => m - {key}
  }

  /** The call answers as the map demands: the right error, or success with the right new map. */
  ghost predicate Answers(s: Scheme, op: Op, m: map<Bytes, Values>, r: Outcome) {
    match Refusal(s, op, m)
    case Some(e) => r == Failed(e)
    case None => r.Done? && Map(r.t) == Effect(op, m)
  }

  lemma {:induction false} KeysFollow(s: Scheme, lazy: bool, t: Tree, p: seq<bool>)
    requires Ok(s, lazy, t, p)
    ensures forall k | k in Map(t) :: k != [] && Follows(s.Path(k), p)
    decreases t
  {
    if t.Fork? {
      var inner := lazy && t.c.dirty && t.ChildrenKnown();
      KeysFollow(s, inner, t.left, p + [false]);
      KeysFollow(s, inner, t.right, p + [true]);
      forall k | k in Map(t)
        ensures k != [] && Follows(s.Path(k), p)
      {
        ShorterPrefix(s.Path(k), p, k in Map(t.right));
      }
    }
  }

  lemma ShorterPrefix(path: Digest, p: seq<bool>, step: bool)
    requires Follows(path, p + [step])
    ensures Follows(path, p) && |p| < BITS && Bit(path, |p|) == step
  {
    forall i: nat | i < |p|
      ensures Bit(path, i) == p[i]
    {
      assert (p + [step])[i] == p[i];
    }
    assert (p + [step])[|p|] == step;
  }

  /** A key whose path takes one step is not on the other side. */
  lemma OtherSide(s: Scheme, og: bool, t: Tree, p: seq<bool>, path: Digest)
    requires Branches(s, og, t, p)
    ensures var step := Bit(path, |p|);
            forall k | k in Map(t.Child(!step)) :: s.Path(k) != path
    ensures forall k | k in Map(t.left) :: k !in Map(t.right)
  {
    hide Ok;
    KeysFollow(s, og, t.left, p + [false]);
    KeysFollow(s, og, t.right, p + [true]);
    forall k | k in Map(t.left)
      ensures !Bit(s.Path(k), |p|)
    {
      ShorterPrefix(s.Path(k), p, false);
    }
    forall k | k in Map(t.right)
      ensures Bit(s.Path(k), |p|)
    {
      ShorterPrefix(s.Path(k), p, true);
    }
  }

  /** The map demands of the whole node what it demands of the child on the key's path. */
  lemma RefusalBelow(s: Scheme, og: bool, op: Op, t: Tree, p: seq<bool>)
    requires Branches(s, og, t, p)
    ensures Refusal(s, op, Map(t)) == Refusal(s, op, Map(t.Child(Bit(s.Path(op.key), |p|))))
  {
    hide Ok, Bit;
    var path := s.Path(op.key);
    var m, below := Map(t), Map(t.Child(Bit(path, |p|)));
    OtherSide(s, og, t, p, path);
    forall k | s.Path(k) == path
      ensures k in m <==> k in below
    {
    }
  }

  lemma EffectUnion(op: Op, l: map<Bytes, Values>, r: map<Bytes, Values>)
    requires forall k | k in l :: k !in r
    ensures op.key !in r ==> Effect(op, l) + r == Effect(op, l + r)
    ensures op.key !in l ==> l + Effect(op, r) == Effect(op, l + r)
  {
  }

  lemma EffectBelow(s: Scheme, og: bool, op: Op, t: Tree, p: seq<bool>, u: Tree)
    requires Branches(s, og, t, p)
    requires Map(u) == Effect(op, Map(t.Child(Bit(s.Path(op.key), |p|))))
    ensures Map(t.WithChild(Bit(s.Path(op.key), |p|), u)) == Effect(op, Map(t))
  {
    hide Ok, Bit;
    OtherSide(s, og, t, p, s.Path(op.key));
    EffectUnion(op, Map(t.left), Map(t.right));
  }

  lemma ClimbMap(s: Scheme, og: bool, op: Op, t: Tree, root: bool)
    requires t.Fork?
    ensures Map(Climb(s, og, op, t, root)) == Map(t)
  {
  }

  lemma SplitMap(s: Scheme, og: bool, t: Tree, step: bool)
    requires t.Tip? && t.c.key != []
    ensures Map(Split(s, og, t, step)) == Map(t)
  {
  }

  /** What a manipulator does to the map, for every tree that obeys the rules. */
  lemma {:induction false} ModifyMap(s: Scheme, og: bool, op: Op, t: Tree, path: Digest, p: seq<bool>)
    requires op.key != [] && path == s.Path(op.key) && Follows(path, p)
    requires t.Fork? && (t.ChildrenKnown() ==> Branches(s, og, t, p))
    ensures var r := Modify(s, og, op, t, path, |p|);
            r == Failed(ProofNeeded) || Answers(s, op, Map(t), r)
    decreases BITS - |p|, 0
  {
    hide Ok, Climb, Below, Bit;
    if t.ChildrenKnown() {
      var step := Bit(path, |p|);
      FollowsStep(path, p, step);
      BelowMap(s, og, op, t.Child(step), path, p + [step]);
      RefusalBelow(s, og, op, t, p);
      var r := Below(s, og, op, t.Child(step), path, |p| + 1);
      if r.Done? {
        ClimbMap(s, og, op, t.WithChild(step, r.t), |p| == 0);
        EffectBelow(s, og, op, t, p, r.t);
      }
    }
  }

  lemma {:induction false} BelowMap(s: Scheme, og: bool, op: Op, t: Tree, path: Digest, p: seq<bool>)
    requires op.key != [] && path == s.Path(op.key) && Follows(path, p)
    requires t.c.known && Ok(s, og, t, p)
    ensures var r := Below(s, og, op, t, path, |p|);
            r == Failed(ProofNeeded) || Answers(s, op, Map(t), r)
    decreases BITS - |p|, 2
  {
    if t.Fork? {
      if t.ChildrenKnown() { OkBranches(s, og, t, p); }
      ModifyMap(s, og, op, t, path, p);
    } else {
      AtTipMap(s, og, op, t, path, p);
    }
  }

  lemma {:induction false} AtTipMap(s: Scheme, og: bool, op: Op, t: Tree, path: Digest, p: seq<bool>)
    requires op.key != [] && path == s.Path(op.key) && Follows(path, p)
    requires t.Tip? && t.c.known && Ok(s, og, t, p)
    ensures var r := AtTip(s, og, op, t, path, |p|);
            r == Failed(ProofNeeded) || Answers(s, op, Map(t), r)
    decreases BITS - |p|, 1
  {
    hide Bit;
    match op
    case Add(key, values) =>
      if t.c.key != [] && t.c.key != key {
        if |p| == BITS {
          DigestFromBits(s.Path(t.c.key), path);
        } else {
          var step := Bit(s.Path(t.c.key), |p|);
          SplitOk(s, og, t, p);
          SplitMap(s, og, t, step);
          ModifyMap(s, og, op, Split(s, og, t, step), path, p);
        }
      }
    case Set(key, changes) =>
    case Remove(key) =>
  }
}
