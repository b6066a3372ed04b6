/** Any run of a full collection: `Begin`, `End`, `Rollback` and manipulators in any order
    (collection/collection.go, collection/transaction.go, collection/manipulators.go). */
module Machines {
  import opened ByteSlices
  import opened Fields
  import opened Trees
  import opened Rules
  import opened Refinement
  import opened Canonical
  import opened Transactions
  import opened Sessions

  /** A collection: its tree, `transaction.ongoing` and `transaction.id`. */
  datatype Machine = Machine(t: Tree, ongoing: bool, id: Uint64)

  /** What it stands for: a map, and the map a transaction is working on. */
  datatype Store = Store(committed: map<Bytes, Values>, working: map<Bytes, Values>, ongoing: bool)

  datatype Action = Begin | End | Rollback | Call(op: Op)

  /** Calls in the wrong state panic in the source, and so does an `Add` next to a key with the
      same digest; such steps are not part of a run. */
  ghost predicate Enabled(s: Scheme, m: Machine, a: Action) {
    match a
    case Begin => !m.ongoing
    case End => m.ongoing
    case Rollback => m.ongoing
    case Call(op) => GoodOp(s, op) && Manipulate(s, m.ongoing, op, m.t) != Failed(Panic)
  }

  function Next(s: Scheme, m: Machine, a: Action): Machine {
    match a
    case Begin => m.(ongoing := true)
    case End => Machine(EndTree(s, m.t), false, (m.id + 1) % U64)
    case Rollback => Machine(RollbackTree(m.t), false, (m.id + 1) % U64)
    case Call(op) => match Manipulate(s, m.ongoing, op, m.t) case Done(u) => m.(t := u) case Failed(_) => m
  }

  ghost function StoreNext(s: Scheme, x: Store, a: Action): Store {
    match a
    case Begin => x.(working := x.committed, ongoing := true)
    case End => x.(committed := x.working, ongoing := false)
    case Rollback => x.(working := x.committed, ongoing := false)
    case Call(op) =>
      if Refusal(s, op, x.working).Some? then x
      else
        var m := Effect(op, x.working);
        Store(if x.ongoing then x.committed else m, m, x.ongoing)
  }

  /** The tree t can be rolled back to the well-formed tree t0. */
  ghost predicate UndoneBy(s: Scheme, t: Tree, t0: Tree) {
    WellFormed(s, t0) && Covered(t) && Strip(Restored(t)) == Strip(t0)
  }

  /** The collection represents the store. */
  ghost predicate Represents(s: Scheme, m: Machine, x: Store) {
    && m.ongoing == x.ongoing
    && if m.ongoing then
         && InSession(s, m.t, x.working) && Closed(true, m.t) && Closed(true, Restored(m.t))
         && exists t0 :: UndoneBy(s, m.t, t0) && Map(t0) == x.committed
       else
         && WellFormed(s, m.t) && Pure(false, m.t) && Closed(true, m.t)
         && Map(m.t) == x.committed && Map(m.t) == x.working
  }

  // ------------------------------------------------------------------- the steps

  lemma BeginKeeps(s: Scheme, m: Machine, x: Store)
    requires Represents(s, m, x) && !m.ongoing
    ensures Represents(s, Next(s, m, Begin), StoreNext(s, x, Begin))
  {
    BeginSession(s, m.t);
    PureCovered(m.t);
    assert UndoneBy(s, m.t, m.t);
  }

  lemma EndKeeps(s: Scheme, m: Machine, x: Store)
    requires Represents(s, m, x) && m.ongoing
    ensures Represents(s, Next(s, m, End), StoreNext(s, x, End))
  {
    EndInSession(s, m.t, x.working);
    EndPure(s, true, m.t);
    PureWeaker(EndTree(s, m.t));
    PureClosed(true, EndTree(s, m.t));
  }

  lemma RollbackKeeps(s: Scheme, m: Machine, x: Store)
    requires Represents(s, m, x) && m.ongoing
    ensures Represents(s, Next(s, m, Rollback), StoreNext(s, x, Rollback))
  {
    var t0 :| UndoneBy(s, m.t, t0) && Map(t0) == x.committed;
    RollbackIsRestored(m.t);
    RestoredPure(m.t);
    StripKeeps(s, Restored(m.t), t0, []);
    StripTwice(t0);
    StripTwice(Restored(m.t));
  }

  lemma CallKeeps(s: Scheme, m: Machine, x: Store, op: Op)
    requires Represents(s, m, x) && Enabled(s, m, Call(op))
    ensures Answers(s, op, x.working, Manipulate(s, m.ongoing, op, m.t))
    ensures Represents(s, Next(s, m, Call(op)), StoreNext(s, x, Call(op)))
  {
    if m.ongoing {
      CallInSession(s, op, m.t, x.working);
      var r := Manipulate(s, true, op, m.t);
      if r.Done? {
        var t0 :| UndoneBy(s, m.t, t0) && Map(t0) == x.committed;
        assert UndoneBy(s, r.t, t0);
        ModifyMarks(s, op, m.t, s.Path(op.key), 0);
      }
    } else {
      ManipulateRefinesMap(s, op, m.t);
      EagerClosed(s, true, op, m.t, s.Path(op.key), 0);
      ModifyPure(s, false, op, m.t, s.Path(op.key), 0);
    }
  }

  /** One step of the collection is one step of the transactional map it represents. */
  lemma StepKeeps(s: Scheme, m: Machine, x: Store, a: Action)
    requires Represents(s, m, x) && Enabled(s, m, a)
    ensures Represents(s, Next(s, m, a), StoreNext(s, x, a))
  {
    match a
    case Begin => BeginKeeps(s, m, x);
    case End => EndKeeps(s, m, x);
    case Rollback => RollbackKeeps(s, m, x);
    case Call(op) => CallKeeps(s, m, x, op);
  }

  // -------------------------------------------------------------------- the runs

  function Run(s: Scheme, m: Machine, actions: seq<Action>): Machine
    decreases |actions|
  {
    if actions == [] then m
    else Next(s, Run(s, m, actions[..|actions| - 1]), actions[|actions| - 1])
  }

  ghost function StoreRun(s: Scheme, x: Store, actions: seq<Action>): Store
    decreases |actions|
  {
    if actions == [] then x
    else StoreNext(s, StoreRun(s, x, actions[..|actions| - 1]), actions[|actions| - 1])
  }

  ghost predicate Runs(s: Scheme, m: Machine, actions: seq<Action>)
    decreases |actions|
  {
    actions == []
    || (Runs(s, m, actions[..|actions| - 1])
        && Enabled(s, Run(s, m, actions[..|actions| - 1]), actions[|actions| - 1]))
  }

  function New(s: Scheme): Machine {
    Machine(Empty(s), false, 0)
  }

  const EMPTY_STORE := Store(map[], map[], false)

  lemma EmptyPure(s: Scheme, strict: bool)
    ensures Pure(strict, Empty(s))
  {
  }

  /** A collection is a transactional map: after any run, its tree holds the working map, a
      rollback would restore the committed one, and outside a transaction it is well formed. */
  lemma {:induction false} RunRefinesStore(s: Scheme, actions: seq<Action>)
    requires Runs(s, New(s), actions)
    ensures Represents(s, Run(s, New(s), actions), StoreRun(s, EMPTY_STORE, actions))
    decreases |actions|
  {
    if actions == [] {
      EmptyWellFormed(s);
      EmptyPure(s, false);
      EmptyPure(s, true);
      PureClosed(true, Empty(s));
    } else {
      var before := actions[..|actions| - 1];
      RunRefinesStore(s, before);
      StepKeeps(s, Run(s, New(s), before), StoreRun(s, EMPTY_STORE, before), actions[|actions| - 1]);
    }
  }

  /** However many transactions were rolled back before, and whatever marks they left, `End` leaves no
      mark and no backup on any node. */
  lemma RunEndsClean(s: Scheme, actions: seq<Action>)
    requires Runs(s, New(s), actions) && Run(s, New(s), actions).ongoing
    ensures Pure(true, Next(s, Run(s, New(s), actions), End).t)
  {
    RunRefinesStore(s, actions);
    EndPure(s, true, Run(s, New(s), actions).t);
  }

  /** At rest, the root label is a function of the committed map, whatever mixture of plain calls,
      ended and rolled-back transactions led there. */
  lemma RunsWithSameMapSameState(s: Scheme, a1: seq<Action>, a2: seq<Action>)
    requires Runs(s, New(s), a1) && Runs(s, New(s), a2)
    requires !Run(s, New(s), a1).ongoing && !Run(s, New(s), a2).ongoing
    requires StoreRun(s, EMPTY_STORE, a1).committed == StoreRun(s, EMPTY_STORE, a2).committed
    ensures Run(s, New(s), a1).t.c.tag == Run(s, New(s), a2).t.c.tag
  {
    RunRefinesStore(s, a1);
    RunRefinesStore(s, a2);
    SameMapSameTree(s, Run(s, New(s), a1).t, Run(s, New(s), a2).t, []);
  }

  // ------------------------------------------------------- marks after a rollback

  /** Some call of the transaction succeeds. */
  predicate SomeDone(s: Scheme, t: Tree, ops: seq<Op>)
    decreases |ops|
  {
    ops != []
    && (SomeDone(s, t, ops[..|ops| - 1])
        || Manipulate(s, true, ops[|ops| - 1], History(s, true, t, ops[..|ops| - 1])).Done?)
  }

  lemma {:induction false} TransactionMarks(s: Scheme, t0: Tree, ops: seq<Op>)
    requires t0.saved.Nothing? && !t0.c.dirty
    ensures var t := History(s, true, t0, ops); t.saved.Nothing? && (t.c.dirty <==> SomeDone(s, t0, ops))
    decreases |ops|
  {
    hide Manipulate;
    if ops != [] {
      var before := ops[..|ops| - 1];
      TransactionMarks(s, t0, before);
      CallMarks(s, ops[|ops| - 1], History(s, true, t0, before));
    }
  }

  /** The source does not clear dirty marks on a rollback, and `Verify` and `Prepare` panic on a marked
      root: on any tree whose root carries no mark and no backup, pruned copies included, they do so after
      `Begin`, any calls and `Rollback` exactly when some of the calls had succeeded. */
  lemma RollbackLeavesMark(s: Scheme, t0: Tree, ops: seq<Op>)
    requires t0.saved.Nothing? && !t0.c.dirty
    ensures RollbackTree(History(s, true, t0, ops)).c.dirty <==> SomeDone(s, t0, ops)
  {
    hide History, SomeDone;
    TransactionMarks(s, t0, ops);
    UnsavedRootMark(History(s, true, t0, ops));
  }

  lemma UnsavedRootMark(t: Tree)
    requires t.saved.Nothing?
    ensures RollbackTree(t).c.dirty == t.c.dirty
  {
  }

  /** Some call of the sequence changes what a map holds. */
  ghost predicate SomeAccepted(s: Scheme, m: map<Bytes, Values>, ops: seq<Op>)
    decreases |ops|
  {
    ops != []
    && (SomeAccepted(s, m, ops[..|ops| - 1])
        || Refusal(s, ops[|ops| - 1], MapHistory(s, m, ops[..|ops| - 1])).None?)
  }

  /** On a full collection the map tells which calls succeed. */
  lemma {:induction false} DoneIsAccepted(s: Scheme, t0: Tree, ops: seq<Op>)
    requires WellFormed(s, t0) && Pure(false, t0) && forall op | op in ops :: GoodOp(s, op)
    ensures SomeDone(s, t0, ops) <==> SomeAccepted(s, Map(t0), ops)
    decreases |ops|
  {
    hide Manipulate, WellFormed, InSession;
    if ops != [] {
      var before := ops[..|ops| - 1];
      DoneIsAccepted(s, t0, before);
      SessionKeeps(s, t0, before);
      CallInSession(s, ops[|ops| - 1], History(s, true, t0, before), MapHistory(s, Map(t0), before));
    }
  }

  lemma {:induction false} PureWeaker(t: Tree)
    requires Pure(true, t)
    ensures Pure(false, t)
  {
    if t.Fork? {
      PureWeaker(t.left);
      PureWeaker(t.right);
    }
  }
}
