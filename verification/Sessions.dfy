/** Whole transactions, and a collection as a transactional key/value store
    (collection/transaction.go, collection/manipulators.go). */
module Sessions {
  import opened ByteSlices
  import opened Fields
  import opened Trees
  import opened Rules
  import opened Refinement
  import opened Canonical
  import opened Transactions

  /** A full tree in the middle of a transaction that holds the map m. */
  ghost predicate InSession(s: Scheme, t: Tree, m: map<Bytes, Values>) {
    && t.Fork? && Full(t) && Compact(t, true) && Ok(s, true, t, [])
    && Map(t) == m
  }

  lemma InSessionBranches(s: Scheme, t: Tree, m: map<Bytes, Values>)
    requires InSession(s, t, m)
    ensures t.ChildrenKnown() && Branches(s, true, t, [])
    ensures Compact(t.left, false) && Compact(t.right, false) && Full(t.left) && Full(t.right)
  {
    assert Full(t.left) && Full(t.right);
    OkBranches(s, true, t, []);
  }

  lemma CallAnswers(s: Scheme, op: Op, t: Tree, m: map<Bytes, Values>)
    requires InSession(s, t, m) && GoodOp(s, op)
    ensures var r := Manipulate(s, true, op, t);
            Answers(s, op, m, r) && (r.Done? ==> InSession(s, r.t, Effect(op, m)))
  {
    hide Bit, Modify, Answers, Effect;
    var path := s.Path(op.key);
    InSessionBranches(s, t, m);
    ModifyOk(s, true, op, t, path, []);
    ModifyMap(s, true, op, t, path, []);
    ModifyCompact(s, true, op, t, path, []);
    ModifyFull(s, true, op, t, path, 0);
    ModifyKeepsFork(s, true, op, t, path);
    AnswersMap(s, op, m, Modify(s, true, op, t, path, 0));
  }

  lemma AnswersMap(s: Scheme, op: Op, m: map<Bytes, Values>, r: Outcome)
    requires Answers(s, op, m, r)
    ensures r.Done? ==> Map(r.t) == Effect(op, m)
  {
  }

  /** A call that succeeds inside a transaction marks the root, which keeps the backup it has or lacks. */
  lemma CallMarks(s: Scheme, op: Op, t: Tree)
    ensures var r := Manipulate(s, true, op, t);
            r.Done? ==> r.t.Fork? && r.t.c.dirty && r.t.saved == t.saved
  {
  }

  /** A call inside a transaction: it answers as the map demands, and as the same call on the
      relabelled tree outside a transaction; the transaction can still be ended or undone. */
  lemma CallInSession(s: Scheme, op: Op, t: Tree, m: map<Bytes, Values>)
    requires InSession(s, t, m) && GoodOp(s, op)
    ensures var r := Manipulate(s, true, op, t);
            && Answers(s, op, m, r)
            && Manipulate(s, false, op, Relabel(s, t)) == RelabelOutcome(s, r)
            && (r.Done? ==> InSession(s, r.t, Effect(op, m)) && r.t.c.dirty && r.t.saved == t.saved)
            && (r.Done? && Covered(t) ==> Undoes(t, r.t))
            && (r.Done? ==> forall strict | Closed(strict, t) :: Closed(strict, r.t))
  {
    hide Bit, Modify, Answers, Effect, Undoes, Covered, Closed, Relabel, Ok, Compact, RelabelOutcome;
    var path := s.Path(op.key);
    CallAnswers(s, op, t, m);
    CallMarks(s, op, t);
    InSessionBranches(s, t, m);
    RelabelShape(s, t);
    ModifyLazy(s, op, t, Relabel(s, t), path, []);
    if Covered(t) { ModifyUndo(s, op, t, path, 0); }
    forall strict | Closed(strict, t) && Modify(s, true, op, t, path, 0).Done?
      ensures Closed(strict, Modify(s, true, op, t, path, 0).t)
    {
      ClosedChildren(strict, t);
      ModifyClosed(s, strict, op, t, path, 0);
    }
  }

  lemma BeginSession(s: Scheme, t: Tree)
    requires WellFormed(s, t)
    ensures InSession(s, t, Map(t)) && Relabel(s, t) == Strip(t)
  {
    OkRelax(s, t, []);
    RelabelMerkle(s, t, []);
  }

  /** Everything a transaction keeps, after any sequence of calls. */
  lemma {:induction false} SessionKeeps(s: Scheme, t0: Tree, ops: seq<Op>)
    requires WellFormed(s, t0) && Pure(false, t0) && forall op | op in ops :: GoodOp(s, op)
    ensures var t := History(s, true, t0, ops);
            && InSession(s, t, MapHistory(s, Map(t0), ops))
            && Relabel(s, t) == History(s, false, Strip(t0), ops)
            && Covered(t) && Strip(Restored(t)) == Strip(t0)
            && (forall strict | Closed(strict, t0) :: Closed(strict, t))
    decreases |ops|
  {
    if ops == [] {
      BeginSession(s, t0);
      PureCovered(t0);
    } else {
      var before := ops[..|ops| - 1];
      SessionKeeps(s, t0, before);
      CallInSession(s, ops[|ops| - 1], History(s, true, t0, before), MapHistory(s, Map(t0), before));
    }
  }

  lemma {:induction false} StripKeeps(s: Scheme, t: Tree, u: Tree, p: seq<bool>)
    requires Strip(t) == Strip(u)
    ensures Map(t) == Map(u) && Full(t) == Full(u) && Merkle(s, t, p) == Merkle(s, u, p)
    ensures forall root :: Compact(t, root) == Compact(u, root)
    decreases t
  {
    assert t.c.(dirty := false) == Strip(t).c && u.c.(dirty := false) == Strip(u).c;
    if t.Fork? {
      StripKeeps(s, t.left, u.left, p + [false]);
      StripKeeps(s, t.right, u.right, p + [true]);
    }
  }

  /** Lazy relabelling is sound: `Begin`, any calls, `End` give the tree, labels and values of the
      same calls made outside a transaction; no backup is left on any node, nor any dirty mark if the
      marks were closed upward at `Begin`. */
  lemma EndIsEager(s: Scheme, t0: Tree, ops: seq<Op>)
    requires WellFormed(s, t0) && Pure(false, t0) && forall op | op in ops :: GoodOp(s, op)
    ensures var u := EndTree(s, History(s, true, t0, ops));
            && Strip(u) == History(s, false, Strip(t0), ops)
            && WellFormed(s, u) && Map(u) == MapHistory(s, Map(t0), ops)
            && Pure(false, u) && (Closed(true, t0) ==> Pure(true, u))
  {
    var t := History(s, true, t0, ops);
    SessionKeeps(s, t0, ops);
    EndInSession(s, t, MapHistory(s, Map(t0), ops));
    PureClosed(false, t0);
    EndPure(s, false, t);
    if Closed(true, t0) { EndPure(s, true, t); }
  }

  lemma EndInSession(s: Scheme, t: Tree, m: map<Bytes, Values>)
    requires InSession(s, t, m)
    ensures var u := EndTree(s, t); WellFormed(s, u) && Map(u) == m && Strip(u) == Relabel(s, t)
  {
    var confirmed := ConfirmTree(t);
    ConfirmKeeps(s, t, [], true);
    RelabelStrip(s, confirmed, t);
    FixIsRelabel(s, confirmed, []);
    var u := EndTree(s, t);
    RelabelOk(s, t, []);
    RelabelKeeps(s, t);
    StripTwice(u);
    StripKeeps(s, u, Strip(u), []);
  }

  lemma {:induction false} StripTwice(t: Tree)
    ensures Strip(Strip(t)) == Strip(t) && Strip(t).Fork? == t.Fork?
  {
    if t.Fork? {
      StripTwice(t.left);
      StripTwice(t.right);
    }
  }

  lemma {:induction false} RelabelStrip(s: Scheme, t: Tree, u: Tree)
    requires Strip(t) == Strip(u)
    ensures Relabel(s, t) == Relabel(s, u)
    decreases t
  {
    assert t.c.(dirty := false) == Strip(t).c && u.c.(dirty := false) == Strip(u).c;
    if t.Fork? {
      RelabelStrip(s, t.left, u.left);
      RelabelStrip(s, t.right, u.right);
    }
  }

  lemma {:induction false} RelabelKeeps(s: Scheme, t: Tree)
    ensures var u := Relabel(s, t);
            && Map(u) == Map(t) && Full(u) == Full(t) && u.Fork? == t.Fork?
            && forall root :: Compact(u, root) == Compact(t, root)
  {
    RelabelShape(s, t);
    if t.Fork? {
      RelabelKeeps(s, t.left);
      RelabelKeeps(s, t.right);
    }
  }

  /** After any calls, refused ones included, the backups still lead back to the tree at `Begin`. */
  lemma {:induction false} HistoryUndoes(s: Scheme, t0: Tree, ops: seq<Op>)
    requires Pure(false, t0)
    ensures Undoes(t0, History(s, true, t0, ops))
    decreases |ops|
  {
    if ops == [] {
      PureCovered(t0);
    } else {
      var t := History(s, true, t0, ops[..|ops| - 1]);
      var op := ops[|ops| - 1];
      HistoryUndoes(s, t0, ops[..|ops| - 1]);
      if t.c.known && t.Fork? {
        ModifyUndo(s, op, t, s.Path(op.key), 0);
      }
    }
  }

  /** The tree a rollback would bring back keeps its marks closed upward. */
  lemma {:induction false} HistoryMarks(s: Scheme, t0: Tree, ops: seq<Op>)
    requires Pure(false, t0) && Closed(true, t0)
    ensures Closed(true, Restored(History(s, true, t0, ops)))
    decreases |ops|
  {
    if ops == [] {
      PureCovered(t0);
    } else {
      var t := History(s, true, t0, ops[..|ops| - 1]);
      var op := ops[|ops| - 1];
      HistoryMarks(s, t0, ops[..|ops| - 1]);
      if t.c.known && t.Fork? {
        ModifyMarks(s, op, t, s.Path(op.key), 0);
      }
    }
  }

  /** A rollback leaves marks, but never a marked node below an unmarked one, on any tree. */
  lemma RollbackClosed(s: Scheme, t0: Tree, ops: seq<Op>)
    requires Pure(false, t0) && Closed(true, t0)
    ensures Closed(true, RollbackTree(History(s, true, t0, ops)))
  {
    HistoryUndoes(s, t0, ops);
    HistoryMarks(s, t0, ops);
    RollbackIsRestored(History(s, true, t0, ops));
  }

  /** Rollback, on any tree, pruned copies included: after `Begin` and any calls, `Rollback` gives back
      the structure, labels, keys, values and known flags of the tree at `Begin`, and leaves no backup;
      so it also gives back the map and whatever rules the tree obeyed. */
  lemma RollbackIsUndo(s: Scheme, t0: Tree, ops: seq<Op>)
    requires Pure(false, t0)
    ensures var u := RollbackTree(History(s, true, t0, ops));
            && Strip(u) == Strip(t0) && Pure(false, u)
            && Map(u) == Map(t0) && (Merkle(s, u, []) <==> Merkle(s, t0, []))
               && (WellFormed(s, t0) ==> WellFormed(s, u))
  {
    var t := History(s, true, t0, ops);
    HistoryUndoes(s, t0, ops);
    PureCovered(t0);
    RollbackIsRestored(t);
    RestoredPure(t);
    StripTwice(t0);
    StripTwice(Restored(t));
    StripKeeps(s, Restored(t), t0, []);
  }
}
