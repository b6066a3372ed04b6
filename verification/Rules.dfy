/** The rules of a collection tree (collection/README.md, collection/testctx.go) and their
    preservation by every manipulator, inside and outside a transaction. */
module Rules {
  import opened ByteSlices
  import opened Fields
  import opened Trees

  // ------------------------------------------------------------ Merkle shape

  /** The path starts with the steps p. */
  ghost predicate Follows(path: Digest, p: seq<bool>) {
    |p| <= BITS && forall i: nat | i < |p| :: Bit(path, i) == p[i]
  }

  /** A known leaf: right label, decodable values, and its record on its own path. */
  ghost predicate LeafOk(s: Scheme, c: Cell, p: seq<bool>) {
    && c.tag == s.LeafLabel(c.key, c.values)
    && s.Fit(c.values)
    && if c.key == [] then c.values == s.PlaceholderValues() else Follows(s.Path(c.key), p)
  }

  /** An inner node whose label matches its values and children, and, as far as the children
      are known, whose values are computed from theirs. */
  ghost predicate Settled(s: Scheme, t: Tree)
    requires t.Fork?
  {
    && s.Fit(t.c.values)
    && t.c.tag == s.InnerLabel(t.c.values, t.left.c.tag, t.right.c.tag)
    && (t.ChildrenKnown() ==> t.c.values == Parents(s.fields, t.left.c.values, t.right.c.values))
  }

  /** The tree below the steps p obeys the rules. When `lazy` is set, inner nodes that are marked
      dirty and have known children may carry a stale label and stale values. */
  ghost predicate Ok(s: Scheme, lazy: bool, t: Tree, p: seq<bool>)
    decreases t
  {
    match t
    case Tip(c, _) => if c.known then LeafOk(s, c, p) else c.key == []
    case Fork(c, _, l, r) =>
      && c.known && c.key == [] && |p| < BITS
      && if lazy && c.dirty && t.ChildrenKnown()
         then Ok(s, true, l, p + [false]) && Ok(s, true, r, p + [true])
         else Settled(s, t) && Ok(s, false, l, p + [false]) && Ok(s, false, r, p + [true])
  }

  /** Every label and every inner value is up to date. */
  ghost predicate Merkle(s: Scheme, t: Tree, p: seq<bool>) {
    Ok(s, false, t, p)
  }

  lemma {:induction false} OkRelax(s: Scheme, t: Tree, p: seq<bool>)
    requires Merkle(s, t, p)
    ensures Ok(s, true, t, p)
    decreases t
  {
    if t.Fork? {
      OkRelax(s, t.left, p + [false]);
      OkRelax(s, t.right, p + [true]);
    }
  }

  lemma {:induction false} ParentsFromFit(s: Scheme, l: Values, r: Values, i: nat)
    requires s.Fit(l) && s.Fit(r) && i <= |s.fields|
    ensures var vs := ParentsFrom(s.fields, l, r, i);
            |vs| == |s.fields| - i && forall j | 0 <= j < |vs| :: s.fields[i + j].Fits(vs[j])
    decreases |s.fields| - i
  {
    if i < |s.fields| {
      ParentFits(s.fields[i], l[i], r[i]);
      ParentsFromFit(s, l, r, i + 1);
      var rest := ParentsFrom(s.fields, l, r, i + 1);
      var vs := ParentsFrom(s.fields, l, r, i);
      assert vs == [s.fields[i].Parent(l[i], r[i]).value] + rest;
      forall j | 0 <= j < |vs|
        ensures s.fields[i + j].Fits(vs[j])
      {
        if j > 0 {
          assert s.fields[i + 1 + (j - 1)].Fits(rest[j - 1]);
        }
      }
    }
  }

  /** Relabelling an inner node with known, decodable children brings it up to date. */
  lemma UpdateSettles(s: Scheme, t: Tree)
    requires t.Fork? && t.c.known && t.ChildrenKnown()
    requires s.Fit(t.left.c.values) && s.Fit(t.right.c.values)
    ensures var u := Update(s, t);
            && u.Fork? && Settled(s, u) && u.left == t.left && u.right == t.right && u.saved == t.saved
            && u.c == t.c.(values := u.c.values, tag := u.c.tag)
  {
    ParentsFromFit(s, t.left.c.values, t.right.c.values, 0);
  }

  /** Relabelling stops at the first field that reports an error: the fields before it are computed, the
      others are nil, and the label stays as it was. */
  lemma UpdateStops(s: Scheme, t: Tree, i: nat)
    requires t.Fork? && t.c.known && t.ChildrenKnown() && i < |s.fields|
    requires forall j | 0 <= j < i :: s.fields[j].Parent(At(t.left.c.values, j), At(t.right.c.values, j)).Some?
    requires s.fields[i].Parent(At(t.left.c.values, i), At(t.right.c.values, i)) == None
    ensures var u := Update(s, t);
            && u == t.(c := t.c.(values := u.c.values)) && |u.c.values| == |s.fields|
            && (forall j | 0 <= j < i ::
                  s.fields[j].Parent(At(t.left.c.values, j), At(t.right.c.values, j)) == Some(u.c.values[j]))
            && (forall j | i <= j < |s.fields| :: u.c.values[j] == [])
  {
    var l, r := t.left.c.values, t.right.c.values;
    var vs := Parents(s.fields, l, r);
    ParentsLength(s.fields, l, r, 0, i);
    forall j | 0 <= j < i
      ensures s.fields[j].Parent(At(l, j), At(r, j)) == Some(vs[j])
    {
      ParentsAt(s.fields, l, r, 0, j);
    }
  }

  lemma {:induction false} ParentsLength(fields: seq<Field>, l: Values, r: Values, i: nat, n: nat)
    requires i <= n < |fields| && fields[n].Parent(At(l, n), At(r, n)) == None
    requires forall j | i <= j < n :: fields[j].Parent(At(l, j), At(r, j)).Some?
    ensures |ParentsFrom(fields, l, r, i)| == n - i
    decreases n - i
  {
    if i < n {
      ParentsLength(fields, l, r, i + 1, n);
    }
  }

  /** An up-to-date inner node holds no data. */
  lemma NoDataInside(s: Scheme, t: Tree, f: nat)
    requires t.Fork? && Settled(s, t) && t.ChildrenKnown() && f < |s.fields| && s.fields[f] == Data
    ensures t.c.values[f] == []
  {
    ParentsAt(s.fields, t.left.c.values, t.right.c.values, 0, f);
  }

  lemma EmptiedOk(s: Scheme, t: Tree, p: seq<bool>, lazy: bool)
    ensures var u := Emptied(s, t); u.Tip? && u.c.known && u.Placeholder() && Ok(s, lazy, u, p)
  {
    forall i | 0 <= i < |s.fields|
      ensures s.fields[i].Fits(s.PlaceholderValues()[i])
    {
      PlaceholderFits(s.fields[i]);
    }
  }

  /** Arguments as the source's callers build them: a non-empty key and one encoded value per field. */
  ghost predicate GoodOp(s: Scheme, op: Op) {
    && op.key != []
    && match op
       case Add(_, values) => s.Fit(values)
       case Set(_, changes) =>
         && |changes| == |s.fields|
         && forall i | 0 <= i < |changes| && changes[i].To? :: s.fields[i].Fits(changes[i].raw)
       case Remove(_) => true
  }

  lemma FollowsStep(path: Digest, p: seq<bool>, step: bool)
    requires Follows(path, p) && |p| < BITS && Bit(path, |p|) == step
    ensures Follows(path, p + [step])
  {
  }

  lemma SplitOk(s: Scheme, og: bool, t: Tree, p: seq<bool>)
    requires t.Tip? && t.c.known && t.c.key != [] && LeafOk(s, t.c, p) && |p| < BITS
    ensures var u := Split(s, og, t, Bit(s.Path(t.c.key), |p|));
            && u.c.known && u.c.key == [] && u.ChildrenKnown()
            && (forall lazy :: Ok(s, lazy, u.left, p + [false]) && Ok(s, lazy, u.right, p + [true]))
  {
    forall lazy: bool
      ensures var u := Split(s, og, t, Bit(s.Path(t.c.key), |p|));
              Ok(s, lazy, u.left, p + [false]) && Ok(s, lazy, u.right, p + [true])
    {
      EmptiedOk(s, Blank(), p + [false], lazy);
      EmptiedOk(s, Blank(), p + [true], lazy);
      FollowsStep(s.Path(t.c.key), p, Bit(s.Path(t.c.key), |p|));
    }
  }

  /** The parts of an inner node a manipulator relies on while the node itself is out of date. */
  ghost predicate Branches(s: Scheme, og: bool, t: Tree, p: seq<bool>) {
    && t.Fork? && t.c.known && t.c.key == [] && |p| < BITS && t.ChildrenKnown()
    && Ok(s, og, t.left, p + [false]) && Ok(s, og, t.right, p + [true])
  }

  lemma OkBranches(s: Scheme, og: bool, t: Tree, p: seq<bool>)
    requires t.Fork? && t.ChildrenKnown() && Ok(s, og, t, p)
    ensures Branches(s, og, t, p)
  {
    if og && !t.c.dirty {
      OkRelax(s, t.left, p + [false]);
      OkRelax(s, t.right, p + [true]);
    }
  }

  lemma OkFits(s: Scheme, og: bool, t: Tree, p: seq<bool>)
    requires Merkle(s, t, p) && t.c.known
    ensures s.Fit(t.c.values)
  {
  }

  /** One step of the way back up restores the rules at the ancestor. */
  lemma ClimbOk(s: Scheme, og: bool, op: Op, t: Tree, p: seq<bool>)
    requires Branches(s, og, t, p)
    ensures var u := Climb(s, og, op, t, |p| == 0); Ok(s, og, u, p) && u.c.known
  {
    if op.Remove? && |p| != 0 && Collapsible(t) {
      var from := if t.left.Placeholder() then t.right.c else t.left.c;
      if from.key != [] {
        forall i: nat | i < |p|
          ensures Bit(s.Path(from.key), i) == p[i]
        {
          assert (p + [true])[i] == p[i] && (p + [false])[i] == p[i];
        }
      }
    } else if !og {
      UpdateSettles(s, t);
    }
  }

  /** Every manipulator keeps the rules: outside a transaction at every known node, inside one
      at every node that is not marked dirty. */
  lemma {:induction false} ModifyOk(s: Scheme, og: bool, op: Op, t: Tree, path: Digest, p: seq<bool>)
    requires GoodOp(s, op) && path == s.Path(op.key) && Follows(path, p)
    requires t.Fork? && (t.ChildrenKnown() ==> Branches(s, og, t, p))
    ensures var r := Modify(s, og, op, t, path, |p|);
            r.Done? ==> Ok(s, og, r.t, p) && r.t.c.known
    decreases BITS - |p|, 0
  {
    hide Ok, Climb, Below, Bit;
    if t.ChildrenKnown() {
      var step := Bit(path, |p|);
      FollowsStep(path, p, step);
      BelowOk(s, og, op, t.Child(step), path, p + [step]);
      var r := Below(s, og, op, t.Child(step), path, |p| + 1);
      if r.Done? {
        ClimbOk(s, og, op, t.WithChild(step, r.t), p);
      }
    }
  }

  lemma {:induction false} BelowOk(s: Scheme, og: bool, op: Op, t: Tree, path: Digest, p: seq<bool>)
    requires GoodOp(s, op) && path == s.Path(op.key) && Follows(path, p)
    requires t.c.known && Ok(s, og, t, p)
    ensures var r := Below(s, og, op, t, path, |p|);
            r.Done? ==> Ok(s, og, r.t, p) && r.t.c.known
    decreases BITS - |p|, 2
  {
    if t.Fork? {
      if t.ChildrenKnown() { OkBranches(s, og, t, p); }
      ModifyOk(s, og, op, t, path, p);
    } else {
      AtTipOk(s, og, op, t, path, p);
    }
  }

  lemma {:induction false} AtTipOk(s: Scheme, og: bool, op: Op, t: Tree, path: Digest, p: seq<bool>)
    requires GoodOp(s, op) && path == s.Path(op.key) && Follows(path, p)
    requires t.Tip? && t.c.known && Ok(s, og, t, p)
    ensures var r := AtTip(s, og, op, t, path, |p|);
            r.Done? ==> Ok(s, og, r.t, p) && r.t.c.known
    decreases BITS - |p|, 1
  {
    match op
    case Add(key, values) =>
      if t.c.key != [] && t.c.key != key && |p| < BITS {
        SplitOk(s, og, t, p);
        ModifyOk(s, og, op, Split(s, og, t, Bit(s.Path(t.c.key), |p|)), path, p);
      }
    case Set(key, changes) =>
    case Remove(key) =>
      EmptiedOk(s, Backup(og, t), p, og);
  }
}
