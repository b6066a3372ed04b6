/** Runs of a collection with slices explicit: as long as no `Set` offends, the source is what the value
    model says; and a run in which one does (collection/collection.go, collection/manipulators.go,
    collection/transaction.go). */
module SharedRuns {
  import opened ByteSlices
  import opened Fields
  import opened Trees
  import opened Rules
  import opened Refinement
  import opened Canonical
  import opened Transactions
  import opened Sessions
  import opened Machines
  import opened Slices
  import opened Sharing

  // ------------------------------------------------------------------ the runs

  /** `confirm`: the backups are dropped. */
  function Dropped(k: Knot): Knot {
    if k.Leaf? then Leaf(k.known, k.key, k.at, NoSpare) else Inner(NoSpare, Dropped(k.left), Dropped(k.right))
  }

  lemma {:induction false} DroppedKeeps(k: Knot, slots: Slots)
    requires Within(k, slots) && Separate(k)
    ensures var u := Dropped(k);
            && Live(u, slots) == Live(k, slots) && Used(u) == Used(k) && Separate(u) && Within(u, slots) && Unsaved(u)
  {
    if k.Inner? {
      DroppedKeeps(k.left, slots);
      DroppedKeeps(k.right, slots);
    }
  }

  /** A known leaf without a backup. */
  function Place(key: Bytes, at: nat): Knot {
    Leaf(true, key, at, NoSpare)
  }

  /** `New`: two placeholders below the root. */
  function Fresh(s: Scheme): Placed {
    Placed(Inner(NoSpare, Place([], 0), Place([], 1)), [s.PlaceholderValues(), s.PlaceholderValues()])
  }

  /** One step on slices. The root has no backup, so `Rollback` finds an inner node there. */
  function Turn(s: Scheme, ongoing: bool, p: Placed, a: Action): (q: Placed)
    requires p.k.Inner?
    ensures q.k.Inner?
  {
    match a
    case Begin => p
    case End => Placed(Dropped(p.k), p.slots)
    case Rollback => if Target(p.k).Inner? then Placed(Target(p.k), p.slots) else p
    case Call(op) => Perform(s, ongoing, op, p)
  }

  function Turns(s: Scheme, actions: seq<Action>): (q: Placed)
    ensures q.k.Inner?
    decreases |actions|
  {
    if actions == [] then Fresh(s)
    else
      var before := actions[..|actions| - 1];
      Turn(s, Run(s, New(s), before).ongoing, Turns(s, before), actions[|actions| - 1])
  }

  /** No call of the run offends inside a transaction. */
  ghost predicate Harmless(s: Scheme, actions: seq<Action>)
    decreases |actions|
  {
    actions == [] ||
      var before, a := actions[..|actions| - 1], actions[|actions| - 1];
      Harmless(s, before) && (a.Call? && Run(s, New(s), before).ongoing ==> !Offends(s, a.op, Turns(s, before)))
  }

  /** The slices show what the value model holds, and what it would roll back to. */
  ghost predicate Shows(m: Machine, q: Placed) {
    && q.k.Inner? && q.k.spare.NoSpare?
    && LiveOf(m.t) == Live(q.k, q.slots) && Within(q.k, q.slots) && Separate(q.k)
    && if m.ongoing then Separate(Target(q.k)) && Goal(q) == LiveOf(RollbackTree(m.t)) else Unsaved(q.k)
  }

  // ----------------------------------------------------------------- the steps

  lemma {:induction false} TargetUnsaved(k: Knot)
    ensures Unsaved(Target(k))
    decreases k, 1
  {
    if k.spare.Spare? {
      FrozenUnsaved(k.spare.was);
    } else if k.Inner? {
      TargetUnsaved(k.left);
      TargetUnsaved(k.right);
    }
  }

  lemma {:induction false} FrozenUnsaved(was: Knot)
    ensures Unsaved(Frozen(was))
    decreases was, 0
  {
    if was.Inner? {
      TargetUnsaved(was.left);
      TargetUnsaved(was.right);
    }
  }

  lemma {:induction false} RelabelLive(s: Scheme, t: Tree)
    ensures LiveOf(Relabel(s, t)) == LiveOf(t)
  {
    RelabelShape(s, t);
    if t.Fork? {
      RelabelLive(s, t.left);
      RelabelLive(s, t.right);
    }
  }

  lemma RootStays(s: Scheme, og: bool, op: Op, p: Placed)
    requires p.k.Inner?
    ensures Perform(s, og, op, p).k.spare == p.k.spare
  {
  }

  lemma BeginShows(s: Scheme, m: Machine, x: Store, q: Placed)
    requires Represents(s, m, x) && !m.ongoing && Shows(m, q)
    ensures Shows(Next(s, m, Begin), q)
  {
    PureCovered(m.t);
    RollbackIsRestored(m.t);
    UnsavedTarget(q.k);
  }

  lemma EndShows(s: Scheme, m: Machine, x: Store, q: Placed)
    requires Represents(s, m, x) && m.ongoing && Shows(m, q)
    ensures Shows(Next(s, m, End), Turn(s, true, q, End))
  {
    hide RollbackTree, Target, WellFormed, EndTree, Relabel;
    EndInSession(s, m.t, x.working);
    StripLive(EndTree(s, m.t));
    RelabelLive(s, m.t);
    DroppedKeeps(q.k, q.slots);
  }

  lemma RollbackShows(s: Scheme, m: Machine, q: Placed)
    requires m.ongoing && Shows(m, q)
    ensures Shows(Next(s, m, Rollback), Turn(s, true, q, Rollback))
  {
    TargetWithin(q.k, q.slots);
    TargetUnsaved(q.k);
  }

  lemma CallShows(s: Scheme, m: Machine, x: Store, op: Op, q: Placed)
    requires Represents(s, m, x) && Enabled(s, m, Call(op)) && Shows(m, q)
    requires m.ongoing ==> !Offends(s, op, q)
    ensures Shows(Next(s, m, Call(op)), Turn(s, m.ongoing, q, Call(op)))
  {
    hide Offends, Perform, Manipulate, Target, RollbackTree, Ok, Compact;
    RootStays(s, m.ongoing, op, q);
    StepAlike(s, m.ongoing, op, m.t, q);
    if m.ongoing {
      StepExactly(s, op, q);
      var t0 :| UndoneBy(s, m.t, t0) && Map(t0) == x.committed;
      UndoStays(s, op, m.t, x.working);
    }
  }

  /** A call leaves what the value model would roll back to. */
  lemma UndoStays(s: Scheme, op: Op, t: Tree, working: map<Bytes, Values>)
    requires InSession(s, t, working) && Covered(t) && GoodOp(s, op)
    ensures var r := Manipulate(s, true, op, t);
            r.Done? ==> LiveOf(RollbackTree(r.t)) == LiveOf(RollbackTree(t))
  {
    hide RollbackTree, Restored, Manipulate, InSession, Closed;
    CallInSession(s, op, t, working);
    RollbackIsRestored(t);
    StripLive(Restored(t));
    var r := Manipulate(s, true, op, t);
    if r.Done? {
      RollbackIsRestored(r.t);
      StripLive(Restored(r.t));
    }
  }

  lemma FreshShows(s: Scheme)
    ensures Shows(New(s), Fresh(s))
  {
  }

  /** As long as no call offends, the source does what the value model says: after any run readers see
      its keys and values, and `Rollback` brings back what it would. */
  lemma {:induction false} SlicesFollow(s: Scheme, actions: seq<Action>)
    requires Runs(s, New(s), actions) && Harmless(s, actions)
    ensures Shows(Run(s, New(s), actions), Turns(s, actions))
    decreases |actions|
  {
    hide Shows, Turn, Next, Enabled, Represents, Offends, Fresh, New;
    if actions == [] {
      FreshShows(s);
    } else {
      var before, a := actions[..|actions| - 1], actions[|actions| - 1];
      SlicesFollow(s, before);
      RunRefinesStore(s, before);
      TurnShows(s, Run(s, New(s), before), StoreRun(s, EMPTY_STORE, before), a, Turns(s, before));
    }
  }

  lemma TurnShows(s: Scheme, m: Machine, x: Store, a: Action, q: Placed)
    requires Represents(s, m, x) && Enabled(s, m, a) && Shows(m, q) && (a.Call? && m.ongoing ==> !Offends(s, a.op, q))
    ensures Shows(Next(s, m, a), Turn(s, m.ongoing, q, a))
  {
    hide Shows, Represents, Offends, Turn, Next;
    match a
    case Begin => BeginShows(s, m, x, q); BeginTurn(s, m.ongoing, q);
    case End => EndShows(s, m, x, q);
    case Rollback => RollbackShows(s, m, q);
    case Call(op) => CallShows(s, m, x, op, q);
  }

  lemma BeginTurn(s: Scheme, ongoing: bool, q: Placed)
    requires q.k.Inner?
    ensures Turn(s, ongoing, q, Begin) == q
  {
  }

  /** So every collection reached this way is, at rest, one from which `Sharing` starts. */
  lemma RestStarts(s: Scheme, actions: seq<Action>)
    requires Runs(s, New(s), actions) && Harmless(s, actions) && !Run(s, New(s), actions).ongoing
    ensures var t := Run(s, New(s), actions).t; WellFormed(s, t) && Pure(false, t) && Starts(t, Turns(s, actions))
  {
    SlicesFollow(s, actions);
    RunRefinesStore(s, actions);
  }

  // ------------------------------------------------------------- a failing run

  /** What a reader sees of two records next to each other below a node other than the root. */
  function View(a: Bytes, va: Values, b: Bytes, vb: Values, rest: Values): Plain {
    Limb(true, Limb(true, Bud(true, a, va), Bud(true, b, vb)), Bud(true, [], rest))
  }

  /** Two records next to each other below a node other than the root. */
  function Pair(s: Scheme, a: Bytes, b: Bytes, va: Values, vb: Values): Placed {
    var ph := s.PlaceholderValues();
    var pair := Inner(NoSpare, Place(a, 2), Place(b, 4));
    Placed(Inner(NoSpare, pair, Place([], 1)), [ph, ph, va, ph, vb])
  }

  /** The node of the pair once a is removed: it holds the record of b, in the slice of b's old leaf. */
  function Lifted(s: Scheme, a: Bytes, b: Bytes, va: Values, vb: Values): Placed {
    var ph := s.PlaceholderValues();
    var emptied := Leaf(true, [], 6, Spare(Place(a, 5)));
    var lifted := Leaf(true, b, 4, Spare(Inner(NoSpare, emptied, Place(b, 4))));
    Placed(Inner(NoSpare, lifted, Place([], 1)), [ph, ph, va, ph, vb, va, ph])
  }

  /** The first `Add` fills the left placeholder, the second splits that leaf. */
  lemma AddsMakePair(s: Scheme, a: Bytes, b: Bytes, va: Values, vb: Values)
    requires a != [] && b != [] && a != b
    requires !Bit(s.Path(a), 0) && !Bit(s.Path(b), 0) && !Bit(s.Path(a), 1) && Bit(s.Path(b), 1)
    ensures Perform(s, false, Op.Add(b, vb), Perform(s, false, Op.Add(a, va), Fresh(s))) == Pair(s, a, b, va, vb)
  {
    hide Bit, Scheme.Path, Scheme.PlaceholderValues;
    var ph := s.PlaceholderValues();
    var first, second := Op.Add(a, va), Op.Add(b, vb);
    var q := Pair(s, a, b, va, vb);
    var one := Placed(Inner(NoSpare, Place(a, 2), Place([], 1)), [ph, ph, va]);
    assert Perform(s, false, first, Fresh(s)) == one;
    var split := Inner(NoSpare, Place(a, 2), Place([], 3));
    assert Halve(s, false, one.k.left, one.slots, false) == Placed(split, [ph, ph, va, ph]);
    assert Visit(s, false, second, split.right, [ph, ph, va, ph], s.Path(b), 2) == Moved(Place(b, 4), q.slots);
    assert Walk(s, false, second, split, [ph, ph, va, ph], s.Path(b), 1) == Moved(q.k.left, q.slots);
    assert AtLeaf(s, false, second, one.k.left, one.slots, s.Path(b), 1) == Moved(q.k.left, q.slots);
  }

  lemma RemoveLifts(s: Scheme, a: Bytes, b: Bytes, va: Values, vb: Values)
    requires a != [] && b != [] && !Bit(s.Path(a), 0) && !Bit(s.Path(a), 1)
    ensures Perform(s, true, Op.Remove(a), Pair(s, a, b, va, vb)) == Lifted(s, a, b, va, vb)
  {
    hide Bit, Scheme.Path, Scheme.PlaceholderValues;
    var p, q := Pair(s, a, b, va, vb), Lifted(s, a, b, va, vb);
    assert (p.slots + [va]) + [s.PlaceholderValues()] == q.slots;
    assert AtLeaf(s, true, Op.Remove(a), p.k.left.left, p.slots, s.Path(a), 2)
        == Moved(q.k.left.spare.was.left, q.slots);
    assert Walk(s, true, Op.Remove(a), p.k.left, p.slots, s.Path(a), 1) == Moved(q.k.left, q.slots);
  }

  lemma LiftedTarget(s: Scheme, a: Bytes, b: Bytes, va: Values, vb: Values, slots: Slots)
    ensures var k := Target(Lifted(s, a, b, va, vb).k);
            && k == Inner(NoSpare, Inner(NoSpare, Place(a, 5), Place(b, 4)), Place([], 1))
            && 4 in Used(k)
            && Live(k, slots) == View(a, Look(slots, 5), b, Look(slots, 4), Look(slots, 1))
  {
    var lifted := Lifted(s, a, b, va, vb).k.left;
    var back := Inner(NoSpare, Place(a, 5), Place(b, 4));
    assert Target(lifted.spare.was.left) == back.left && Target(back.right) == back.right;
    assert Frozen(lifted.spare.was) == back;
    assert Used(back) == Used(back.left) + Used(back.right);
    assert Live(back, slots) == Limb(true, Live(back.left, slots), Live(back.right, slots));
  }

  lemma PairGoal(s: Scheme, a: Bytes, b: Bytes, va: Values, vb: Values)
    ensures Goal(Pair(s, a, b, va, vb)) == View(a, va, b, vb, s.PlaceholderValues())
  {
    hide Target, Scheme.PlaceholderValues;
    var p := Pair(s, a, b, va, vb);
    UnsavedTarget(p.k);
    assert Live(p.k.left, p.slots) == Limb(true, Bud(true, a, va), Bud(true, b, vb));
    assert Live(p.k.right, p.slots) == Bud(true, [], s.PlaceholderValues());
  }

  /** The failing case, on slices: of two neighbours one is removed, which lifts the other, and the lifted
      one is changed; a rollback then brings back the changed values. */
  lemma LiftedThenSet(s: Scheme, a: Bytes, b: Bytes, va: Values, vb: Values, changes: seq<Change>)
    requires a != [] && b != []
    requires !Bit(s.Path(a), 0) && !Bit(s.Path(b), 0) && !Bit(s.Path(a), 1) && Bit(s.Path(b), 1)
    requires Merge(vb, changes) != vb
    ensures var p := Pair(s, a, b, va, vb);
            && Goal(p) == View(a, va, b, vb, s.PlaceholderValues())
            && Goal(After(s, p, [Op.Remove(a), Op.Set(b, changes)]))
               == View(a, va, b, Merge(vb, changes), s.PlaceholderValues())
            && NoOffense(s, p, [Op.Remove(a)]) && Offends(s, Op.Set(b, changes), After(s, p, [Op.Remove(a)]))
  {
    hide Bit, Scheme.Path, Merge, Target, Used, Scheme.PlaceholderValues;
    var p, q := Pair(s, a, b, va, vb), Lifted(s, a, b, va, vb);
    var remove, change := Op.Remove(a), Op.Set(b, changes);
    RemoveLifts(s, a, b, va, vb);
    assert [remove][..0] == [] && After(s, p, [remove]) == q;
    assert Walk(s, true, change, q.k, q.slots, s.Path(b), 0) == Moved(q.k, q.slots);
    assert SlotOn(q.k, s.Path(b), 0) == 4;
    assert [remove, change][..1] == [remove];
    var written := q.slots[4 := Merge(vb, changes)];
    assert After(s, p, [remove, change]) == Placed(q.k, written);
    LiftedTarget(s, a, b, va, vb, q.slots);
    LiftedTarget(s, a, b, va, vb, written);
    PairGoal(s, a, b, va, vb);
  }

  /** The two `Add`s that lead to the pair. */
  function Adds(a: Bytes, b: Bytes, va: Values, vb: Values): seq<Action> {
    [Call(Op.Add(a, va)), Call(Op.Add(b, vb))]
  }

  lemma AddsRun(s: Scheme, a: Bytes, b: Bytes, va: Values, vb: Values)
    requires a != [] && b != [] && s.Fit(va) && s.Fit(vb) && s.Path(a) != s.Path(b)
    ensures var actions := Adds(a, b, va, vb);
            Runs(s, New(s), actions) && Harmless(s, actions) && !Run(s, New(s), actions).ongoing
    ensures Turns(s, Adds(a, b, va, vb))
         == Perform(s, false, Op.Add(b, vb), Perform(s, false, Op.Add(a, va), Fresh(s)))
  {
    hide Perform, Manipulate, WellFormed, Offends, Scheme.Path, Scheme.Fit;
    var first, second := Call(Op.Add(a, va)), Call(Op.Add(b, vb));
    assert [first][..0] == [] && [first, second][..1] == [first];
    EmptyWellFormed(s);
    ManipulateRefinesMap(s, first.op, Empty(s));
    assert Runs(s, New(s), [first]);
    var m := Run(s, New(s), [first]);
    assert m.t == Manipulate(s, false, first.op, Empty(s)).t && !m.ongoing;
    ManipulateRefinesMap(s, second.op, m.t);
    assert Harmless(s, [first]);
    assert Turns(s, []) == Fresh(s) && Run(s, New(s), []) == New(s);
    assert Turns(s, [first]) == Turn(s, false, Fresh(s), first);
    assert Turns(s, [first]) == Perform(s, false, first.op, Fresh(s));
  }

  /** The failing case is within reach of the source: two `Add`s to a new collection make the pair, from
      which the transaction starts; `Begin`, `Remove(a)`, `Set(b)`, `Rollback` then leaves a tree that
      differs from the one held at `Begin`. */
  lemma FailingRun(s: Scheme, a: Bytes, b: Bytes, va: Values, vb: Values, changes: seq<Change>)
    requires a != [] && b != [] && s.Fit(va) && s.Fit(vb)
    requires !Bit(s.Path(a), 0) && !Bit(s.Path(b), 0) && !Bit(s.Path(a), 1) && Bit(s.Path(b), 1)
    requires Merge(vb, changes) != vb
    ensures var actions, ops := Adds(a, b, va, vb), [Op.Remove(a), Op.Set(b, changes)];
            var t, p := Run(s, New(s), actions).t, Turns(s, actions);
            && WellFormed(s, t) && Pure(false, t) && Starts(t, p) && p == Pair(s, a, b, va, vb)
            && LiftedIn(s, p, [Op.Remove(a)]) == {b}
            && Strip(RolledBack(s, t, p, ops)) != Strip(t)
  {
    hide Bit, WellFormed, Starts, Pair, Offends, NoOffense, RolledBack, Scheme.Path, Merge, LiftedIn, Run, Turns,
         Scheme.Fit;
    var actions := Adds(a, b, va, vb);
    AddsRun(s, a, b, va, vb);
    AddsMakePair(s, a, b, va, vb);
    RestStarts(s, actions);
    LiftedThenSet(s, a, b, va, vb, changes);
    RemoveLiftsNeighbour(s, a, b, va, vb);
    assert [Op.Remove(a)] + [Op.Set(b, changes)] == [Op.Remove(a), Op.Set(b, changes)];
    RollbackExactly(s, Run(s, New(s), actions).t, Turns(s, actions), [Op.Remove(a)], Op.Set(b, changes));
  }

  lemma RemoveLiftsNeighbour(s: Scheme, a: Bytes, b: Bytes, va: Values, vb: Values)
    requires a != [] && b != [] && a != b && !Bit(s.Path(a), 0) && !Bit(s.Path(a), 1)
    ensures LiftedIn(s, Pair(s, a, b, va, vb), [Op.Remove(a)]) == {b}
  {
    hide Bit, Scheme.Path, Scheme.PlaceholderValues;
    var p, q, remove := Pair(s, a, b, va, vb), Lifted(s, a, b, va, vb), Op.Remove(a);
    RemoveLifts(s, a, b, va, vb);
    var path := s.Path(a);
    assert Visit(s, true, remove, p.k.left.left, p.slots, path, 2)
        == AtLeaf(s, true, remove, p.k.left.left, p.slots, path, 2);
    assert Lifts(s, remove, p.k.left.left, p.slots, path, 2) == {};
    assert Lifts(s, remove, p.k.left, p.slots, path, 1) == {b};
    assert Lifts(s, remove, p.k, p.slots, path, 0) == {b};
    assert [remove][..0] == [];
  }
}
