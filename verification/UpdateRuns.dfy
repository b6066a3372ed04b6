/** Sequences of updates: a verifier that starts from a root label alone, what updates leave untouched,
    and the epoch a prepared update belongs to
    (collection/update.go, collection/collection.go, collection/transaction.go). */
module UpdateRuns {
  import opened ByteSlices
  import opened Fields
  import opened Trees
  import opened Rules
  import opened Refinement
  import opened Canonical
  import opened Pruning
  import opened Transactions
  import opened Sessions
  import opened Machines
  import opened Scopes
  import opened Proofs
  import opened Updates

  // ------------------------------------------------------------ a run of updates

  /** The answers to a sequence of updates, up to the first crash. */
  ghost function RunUpdates(s: Scheme, v: View, t: Tree, ups: seq<UserUpdate>): seq<Response>
    requires Sized(v) && forall up | up in ups :: Usable(up.records)
    decreases |ups|
  {
    if ups == [] then []
    else
      assert Usable(ups[0].records);
      var r := RunUpdate(s, v, t, ups[0]);
      if r == Crash then [r] else [r] + RunUpdates(s, v, r.t, ups[1..])
  }

  /** Wherever the full collection gets to, the tuples hashed in its tree and in the next proofs
      do not collide. */
  ghost predicate SafeRun(s: Scheme, t: Tree, ups: seq<UserUpdate>)
    requires forall up | up in ups :: Usable(up.records)
    decreases |ups|
  {
    ups != [] ==>
      assert Usable(ups[0].records);
      && CollisionFree(s, TreePreimages(t) + AllPreimages(ups[0].records))
      && var r := RunUpdate(s, ALL, t, ups[0]); r != Crash ==> SafeRun(s, r.t, ups[1..])
  }

  /** A pruned copy and its full collection stay in step over any sequence of updates. */
  lemma {:induction false} UpdatesAgree(s: Scheme, v: View, small: Tree, big: Tree, ups: seq<UserUpdate>)
    requires Sized(v) && Mirrors(s, small, big) && (forall up | up in ups :: Usable(up.records)) && SafeRun(s, big, ups)
    ensures var a, b := RunUpdates(s, v, small, ups), RunUpdates(s, ALL, big, ups);
            |a| == |b| && forall i | 0 <= i < |a| :: SameStory(s, a[i], b[i])
    decreases |ups|
  {
    hide Mirrors, RunUpdate, CollisionFree, TreePreimages, AllPreimages;
    if ups != [] {
      assert Usable(ups[0].records);
      UpdateAgrees(s, v, small, big, ups[0]);
      var a := RunUpdate(s, v, small, ups[0]);
      if a != Crash {
        UpdatesAgree(s, v, a.t, RunUpdate(s, ALL, big, ups[0]).t, ups[1..]);
      }
    }
  }

  /** The tree of `NewVerifier`: the label of an empty collection, and nothing else. */
  function Verifier(s: Scheme): Tree {
    Tip(Empty(s).c.(known := false, values := []), Nothing)
  }

  /** A new verifier and a new full collection given the same updates tell the same story: same
      refusals, same records, same replies, same root labels. */
  lemma VerifierAgrees(s: Scheme, ups: seq<UserUpdate>)
    requires (forall up | up in ups :: Usable(up.records)) && SafeRun(s, Empty(s), ups)
    ensures var a, b := RunUpdates(s, View([], false), Verifier(s), ups), RunUpdates(s, ALL, Empty(s), ups);
            |a| == |b| && forall i | 0 <= i < |a| :: SameStory(s, a[i], b[i])
  {
    hide RunUpdates, SafeRun, SameStory;
    EmptyWellFormed(s);
    UpdatesAgree(s, View([], false), Verifier(s), Empty(s), ups);
  }

  // ----------------------------------------------------------------------- frame

  /** The maps agree on every key that was not declared. */
  ghost predicate SameOutside(s: Scheme, paths: set<Digest>, m: map<Bytes, Values>, n: map<Bytes, Values>) {
    forall key | s.Path(key) !in paths :: (key in m <==> key in n) && (key in m ==> m[key] == n[key])
  }

  lemma {:induction false} ApplyFrame(s: Scheme, t: Tree, paths: set<Digest>, m: map<Bytes, Values>,
        up: UserUpdate, seen: seq<Reply>, n: nat)
    requires InSession(s, t, m)
    ensures var r := ApplyRun(s, t, paths, up, seen, n);
            r.Applied? ==> InSession(s, r.t, Map(r.t)) && SameOutside(s, paths, m, Map(r.t))
    decreases n
  {
    hide Manipulate, Ok, Full, Compact, GoodOp, Relabel, Covered, Undoes, Callable, OpOf;
    match up.apply(seen)
    case None =>
    case Some(r) =>
      if s.Path(KeyOf(r)) in paths && n > 0 {
        match r
        case Get(key) => ApplyFrame(s, t, paths, m, up, seen + [Got(Lookup(s, t, key))], n - 1);
        case Alter(call) =>
          if Callable(s.fields, call) {
            var op := OpOf(s.fields, call);
            CallableGood(s, call);
            CallInSession(s, op, t, m);
            var a := Manipulate(s, true, op, t);
            if a.Done? {
              ApplyFrame(s, a.t, paths, Effect(op, m), up, seen + [Answered(None)], n - 1);
            } else if a != Failed(Panic) {
              ApplyFrame(s, t, paths, m, up, seen + [Answered(Some(a.e))], n - 1);
            }
          }
      }
  }

  lemma {:induction false} GraftFull(t: Tree, steps: seq<ProofStep>, path: Digest, i: nat)
    requires i <= |steps| <= BITS && Full(t)
    ensures var r := Graft(t, steps, path, i); r == None || r == Some(t)
    decreases t
  {
    hide Bit;
    if i < |steps| && t.Fork? {
      GraftFull(t.Child(Bit(path, i)), steps, path, i + 1);
    }
  }

  /** Proofs teach a full collection nothing, whether or not they are honest. */
  lemma {:induction false} VerifyAllFull(s: Scheme, t: Tree, proofs: seq<Proof>)
    requires Full(t) && forall p | p in proofs :: |p.steps| <= BITS
    ensures var r := VerifyAll(s, t, proofs); r.Ready? ==> r.t == t
    decreases |proofs|
  {
    hide Consistent, Graft;
    if proofs != [] {
      GraftFull(t, proofs[0].steps, s.Path(proofs[0].key), 0);
      assert forall p | p in proofs[1..] :: p in proofs;
      VerifyAllFull(s, t, proofs[1..]);
    }
  }

  /** Whatever an update asks for, the associations of the keys it did not declare survive it
      unchanged, and the collection is well formed again afterwards. */
  lemma UpdateFrame(s: Scheme, t: Tree, up: UserUpdate)
    requires WellFormed(s, t) && Usable(up.records)
    ensures var r := RunUpdate(s, ALL, t, up);
            r != Crash ==> WellFormed(s, r.t) && SameOutside(s, Declared(s, up.records), Map(t), Map(r.t))
  {
    VerifyAllFull(s, t, up.records);
    PreparedFrame(s, t, Declared(s, up.records), up);
  }

  lemma PreparedFrame(s: Scheme, t: Tree, paths: set<Digest>, up: UserUpdate)
    requires WellFormed(s, t)
    ensures var r := RunPrepared(s, ALL, t, paths, up);
            r != Crash ==> WellFormed(s, r.t) && SameOutside(s, paths, Map(t), Map(r.t))
  {
    hide CheckRun, ApplyRun, Ok, Full, Compact, EndTree, CollectTree, Merkle;
    var r := ApplyRun(s, t, paths, up, [], up.limit);
    if r.Applied? {
      BeginSession(s, t);
      ApplyFrame(s, t, paths, Map(t), up, [], up.limit);
      EndInSession(s, r.t, Map(r.t));
      if Shallow(EndTree(s, r.t), 0) {
        CollectIsKeep(ALL, EndTree(s, r.t));
        KeepAll(ALL, EndTree(s, r.t), []);
      }
    }
  }

  // ---------------------------------------------------------------------- epochs

  /** What `Prepare` returns: the update, its declared paths, and the current `transaction.id`. */
  datatype PreparedUpdate = PreparedUpdate(epoch: Uint64, paths: set<Digest>, up: UserUpdate)

  /** `Prepare` on a collection; None stands for its error or a panic. */
  ghost function Prepare(s: Scheme, m: Machine, up: UserUpdate): Option<(Machine, PreparedUpdate)>
    requires Usable(up.records)
  {
    match VerifyAll(s, m.t, up.records)
    case Broken => None
    case Ready(u, ok) =>
      if m.t.c.dirty || !ok then None
      else Some((m.(t := u), PreparedUpdate(m.id, Declared(s, up.records), up)))
  }

  datatype Event = Act(a: Action) | Use(p: PreparedUpdate)

  /** One event; None is a panic. `closed` tells whether it closed a transaction, and `performed`
      whether it ran an update's `Apply`. */
  datatype Stage = Stage(m: Machine, closed: bool, performed: bool)

  /** A step of the collection with its garbage collection: at the end of a transaction, and after a
      call that succeeds outside one. */
  ghost function Collected(s: Scheme, v: View, m: Machine, a: Action): Machine
    requires Sized(v)
  {
    var n := Next(s, m, a);
    if (a.End? || (a.Call? && !m.ongoing && Manipulate(s, false, a.op, m.t).Done?)) && Shallow(n.t, 0)
    then n.(t := CollectTree(v, n.t)) else n
  }

  ghost function React(s: Scheme, v: View, m: Machine, e: Event): Option<Stage>
    requires Sized(v)
  {
    match e
    case Act(a) =>
      if Enabled(s, m, a) then Some(Stage(Collected(s, v, m, a), a.End? || a.Rollback?, false)) else None
    case Use(p) =>
      if p.epoch != m.id then None
      else if !m.ongoing then
        match RunPrepared(s, v, m.t, p.paths, p.up)
        case Crash => None
        case Performed(t, _) => Some(Stage(Machine(t, false, (m.id + 1) % U64), true, true))
        case _ => Some(Stage(m, false, false))
      else
        match CheckRun(s, m.t, p.paths, p.up, [], p.up.limit)
        case None => None
        case Some(false) => Some(Stage(m, false, false))
        case Some(true) =>
          match ApplyRun(s, m.t, p.paths, p.up, [], p.up.limit)
          case Panicked => None
          case Applied(t, _) => Some(Stage(m.(t := t), false, true))
  }

  /** `Apply` of an update that was not prepared, inside or outside a transaction: the machine after it,
      and whether the update was performed; None is a panic. */
  ghost function ReactUser(s: Scheme, v: View, m: Machine, up: UserUpdate): Option<Stage>
    requires Sized(v) && Usable(up.records)
  {
    match VerifyAll(s, m.t, up.records)
    case Broken => None
    case Ready(u, ok) =>
      if m.t.c.dirty then None
      else if !ok then Some(Stage(m.(t := u), false, false))
      else React(s, v, m.(t := u), Use(PreparedUpdate(m.id, Declared(s, up.records), up)))
  }

  /** Outside a transaction this is the answer of `RunUpdate`. */
  lemma ReactUserIsRun(s: Scheme, v: View, m: Machine, up: UserUpdate)
    requires Sized(v) && Usable(up.records) && !m.ongoing
    ensures ReactUser(s, v, m, up)
         == match RunUpdate(s, v, m.t, up)
            case Crash => None
            case Performed(t, _) => Some(Stage(Machine(t, false, (m.id + 1) % U64), true, true))
            case Refused(t) => Some(Stage(m.(t := t), false, false))
            case Unchecked(t) => Some(Stage(m.(t := t), false, false))
  {
    hide VerifyAll, CheckRun, ApplyRun, EndTree, CollectTree;
  }

  ghost function EventRun(s: Scheme, v: View, m: Machine, events: seq<Event>): Option<Machine>
    requires Sized(v)
    decreases |events|
  {
    if events == [] then Some(m)
    else
      match React(s, v, m, events[0])
      case None => None
      case Some(g) => EventRun(s, v, g.m, events[1..])
  }

  /** How many transactions the events close. */
  ghost function Closings(s: Scheme, v: View, m: Machine, events: seq<Event>): nat
    requires Sized(v)
    decreases |events|
  {
    if events == [] then 0
    else
      match React(s, v, m, events[0])
      case None => 0
      case Some(g) => (if g.closed then 1 else 0) + Closings(s, v, g.m, events[1..])
  }

  lemma {:induction false} EpochCounts(s: Scheme, v: View, m: Machine, events: seq<Event>)
    requires Sized(v) && EventRun(s, v, m, events).Some?
    ensures EventRun(s, v, m, events).value.id == (m.id + Closings(s, v, m, events)) % U64
    decreases |events|
  {
    hide RunPrepared, CheckRun, ApplyRun, Enabled, EndTree, RollbackTree, CollectTree;
    if events != [] {
      var g := React(s, v, m, events[0]).value;
      EpochCounts(s, v, g.m, events[1..]);
      WrapTwice(m.id, if g.closed then 1 else 0, Closings(s, v, g.m, events[1..]));
    }
  }

  lemma WrapTwice(a: nat, b: nat, c: nat)
    ensures ((a + b) % U64 + c) % U64 == (a + b + c) % U64
  {
  }

  /** A prepared update passes the guard of `Apply` only in the epoch it was prepared in: after any run
      of events, exactly when the number of transactions closed since is a multiple of 2^64. */
  lemma PassesInItsEpoch(s: Scheme, v: View, m: Machine, up: UserUpdate, events: seq<Event>)
    requires Sized(v) && Usable(up.records) && Prepare(s, m, up).Some?
    requires EventRun(s, v, Prepare(s, m, up).value.0, events).Some?
    ensures var (m0, p) := Prepare(s, m, up).value;
            p.epoch == EventRun(s, v, m0, events).value.id <==> Closings(s, v, m0, events) % U64 == 0
  {
    var (m0, p) := Prepare(s, m, up).value;
    EpochCounts(s, v, m0, events);
    var n := Closings(s, v, m0, events);
    WrapTwice(n, 0, m.id);
  }

  /** Outside a transaction a prepared update is applied at most once: a second use after it was
      performed panics, until 2^64 transactions have been closed. */
  lemma AppliedOnce(s: Scheme, v: View, m: Machine, p: PreparedUpdate, between: seq<Event>)
    requires Sized(v) && !m.ongoing
    requires var g := React(s, v, m, Use(p)); g.Some? && g.value.performed
    requires Closings(s, v, m, [Use(p)] + between) < U64
    ensures EventRun(s, v, m, [Use(p)] + between + [Use(p)]) == None
  {
    var events := [Use(p)] + between;
    EventRunSplits(s, v, m, events, [Use(p)]);
    var after := EventRun(s, v, m, events);
    if after.Some? {
      EpochCounts(s, v, m, events);
      assert events[1..] == between;
    }
  }

  lemma {:induction false} EventRunSplits(s: Scheme, v: View, m: Machine, first: seq<Event>, rest: seq<Event>)
    requires Sized(v)
    ensures EventRun(s, v, m, first + rest)
         == match EventRun(s, v, m, first) case None => None case Some(m1) => EventRun(s, v, m1, rest)
    decreases |first|
  {
    hide React;
    if first == [] {
      assert first + rest == rest;
    } else {
      assert (first + rest)[0] == first[0] && (first + rest)[1..] == first[1..] + rest;
      var g := React(s, v, m, first[0]);
      if g.Some? {
        EventRunSplits(s, v, g.value.m, first[1..], rest);
      }
    }
  }
}
