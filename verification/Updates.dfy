/** Prepared updates, and a verifier and a full collection that run them in step
    (collection/update.go, collection/verifiers.go, collection/transaction.go). */
module Updates {
  import opened ByteSlices
  import opened Fields
  import opened Trees
  import opened Rules
  import opened Refinement
  import opened Canonical
  import opened Pruning
  import opened Transactions
  import opened Sessions
  import opened Scopes
  import opened Proofs

  /** A call of a manipulator with typed arguments. */
  datatype Invocation =
    | Insert(key: Bytes, values: seq<Value>)
    | Assign(key: Bytes, args: seq<Argument>)
    | AssignField(key: Bytes, field: nat, value: Value)
    | Delete(key: Bytes)

  /** The calls that do not trip over the source's checks of arity and types. */
  predicate Callable(fields: seq<Field>, call: Invocation) {
    && call.key != []
    && match call
       case Insert(_, values) => Typed(fields, values)
       case Assign(_, args) => TypedArguments(fields, args)
       case AssignField(_, field, value) => field < |fields| && fields[field].Accepts(value)
       case Delete(_) => true
  }

  /** The call on raw values. */
  function OpOf(fields: seq<Field>, call: Invocation): Op
    requires Callable(fields, call)
  {
    match call
    case Insert(key, values) => Op.Add(key, Encoded(fields, values))
    case Assign(key, args) => Op.Set(key, Changes(fields, args))
    case AssignField(key, field, value) => Op.Set(key, Changes(fields, OneField(fields, field, value)))
    case Delete(key) => Op.Remove(key)
  }

  lemma EncodedFit(s: Scheme, values: seq<Value>)
    requires Typed(s.fields, values)
    ensures s.Fit(Encoded(s.fields, values))
  {
    forall i | 0 <= i < |s.fields|
      ensures s.fields[i].Fits(Encoded(s.fields, values)[i])
    {
      FieldRoundTrip(s.fields[i], values[i]);
    }
  }

  lemma CallableGood(s: Scheme, call: Invocation)
    requires Callable(s.fields, call)
    ensures GoodOp(s, OpOf(s.fields, call)) && OpOf(s.fields, call).key == call.key
  {
    var op := OpOf(s.fields, call);
    if call.Insert? {
      EncodedFit(s, call.values);
    }
    if op.Set? {
      var args := if call.Assign? then call.args else OneField(s.fields, call.field, call.value);
      forall i | 0 <= i < |s.fields| && op.changes[i].To?
        ensures s.fields[i].Fits(op.changes[i].raw)
      {
        FieldRoundTrip(s.fields[i], args[i].v);
      }
    }
  }

  /** A call an update makes through its proxy. */
  datatype Request = Get(key: Bytes) | Alter(call: Invocation)

  datatype Reply = Got(record: Record) | Answered(error: Option<Error>)

  /** An update: the proofs it carries, and its next step as a function of the replies it has seen.
      A check ends with its verdict, an application when it has no request left; `limit` bounds both. */
  datatype UserUpdate = UserUpdate(
    records: seq<Proof>,
    check: seq<Record> -> CheckStep,
    apply: seq<Reply> -> Option<Request>,
    limit: nat)

  datatype CheckStep = Look(key: Bytes) | Verdict(accept: bool)

  function KeyOf(r: Request): Bytes {
    match r case Get(key) => key case Alter(call) => call.key
  }

  // ----------------------------------------------------------------- the steps

  /** `Prepare`'s loop: the tree after the proofs accepted so far, and whether all were. */
  datatype Prepared = Broken | Ready(t: Tree, ok: bool)

  function VerifyAll(s: Scheme, t: Tree, proofs: seq<Proof>): Prepared
    requires forall p | p in proofs :: |p.steps| <= BITS
    decreases |proofs|
  {
    if proofs == [] then Ready(t, true)
    else
      match Verify(s, t, proofs[0])
      case Rejected => Ready(t, false)
      case NilDereference => Broken
      case Accepted(u) => VerifyAll(s, u, proofs[1..])
  }

  /** The paths of the declared keys: the proxy's map. */
  ghost function Declared(s: Scheme, proofs: seq<Proof>): set<Digest> {
    set i | 0 <= i < |proofs| :: s.Path(proofs[i].key)
  }

  /** The verdict of `Check`; None is a panic, or no verdict within the limit. */
  ghost function CheckRun(s: Scheme, t: Tree, paths: set<Digest>, up: UserUpdate, seen: seq<Record>,
        n: nat): Option<bool>
    decreases n
  {
    match up.check(seen)
    case Verdict(accept) => Some(accept)
    case Look(key) =>
      if s.Path(key) !in paths || n == 0 then None
      else CheckRun(s, t, paths, up, seen + [Lookup(s, t, key)], n - 1)
  }

  datatype Application = Panicked | Applied(t: Tree, replies: seq<Reply>)

  /** `Apply` within a transaction, from the replies seen so far. */
  ghost function ApplyRun(s: Scheme, t: Tree, paths: set<Digest>, up: UserUpdate, seen: seq<Reply>, n: nat): Application
    decreases n
  {
    match up.apply(seen)
    case None => Applied(t, seen)
    case Some(r) =>
      if s.Path(KeyOf(r)) !in paths || n == 0 then Panicked
      else
        match r
        case Get(key) => ApplyRun(s, t, paths, up, seen + [Got(Lookup(s, t, key))], n - 1)
        case Alter(call) =>
          if !Callable(s.fields, call) then Panicked
          else
            match Manipulate(s, true, OpOf(s.fields, call), t)
            case Done(u) => ApplyRun(s, u, paths, up, seen + [Answered(None)], n - 1)
            case Failed(e) =>
              if e == Panic then Panicked else ApplyRun(s, t, paths, up, seen + [Answered(Some(e))], n - 1)
  }

  /** What a collection answers to `Apply(update)` outside a transaction, and its tree afterwards;
      a panic of the source is a `Crash`. */
  datatype Response = Crash | Refused(t: Tree) | Unchecked(t: Tree) | Performed(t: Tree, replies: seq<Reply>)

  ghost function RunUpdate(s: Scheme, v: View, t: Tree, up: UserUpdate): Response
    requires Sized(v) && forall p | p in up.records :: |p.steps| <= BITS
  {
    match VerifyAll(s, t, up.records)
    case Broken => Crash
    case Ready(u, ok) =>
      if t.c.dirty then Crash
      else if !ok then Refused(u)
      else RunPrepared(s, v, u, Declared(s, up.records), up)
  }

  /** `Apply` of a prepared update outside a transaction. */
  ghost function RunPrepared(s: Scheme, v: View, t: Tree, paths: set<Digest>, up: UserUpdate): Response
    requires Sized(v)
  {
    match CheckRun(s, t, paths, up, [], up.limit)
    case None => Crash
    case Some(false) => Unchecked(t)
    case Some(true) =>
      match ApplyRun(s, t, paths, up, [], up.limit)
      case Panicked => Crash
      case Applied(w, replies) =>
        var e := EndTree(s, w);
        if Shallow(e, 0) then Performed(CollectTree(v, e), replies) else Crash
  }

  // ------------------------------------------------- relabelling pruned copies

  lemma {:induction false} PrunesStrip(s: Scheme, small: Tree, big: Tree, p: seq<bool>)
    ensures Prunes(s, Strip(small), Strip(big), p) <==> Prunes(s, small, big, p)
    decreases small
  {
    StripMerkle(s, big, p);
    assert Strip(small).c == small.c.(dirty := false) && Strip(big).c == big.c.(dirty := false);
    if small.Fork? && big.Fork? {
      PrunesStrip(s, small.left, big.left, p + [false]);
      PrunesStrip(s, small.right, big.right, p + [true]);
      assert Strip(small).ChildrenKnown() == small.ChildrenKnown();
    }
  }

  lemma {:induction false} PrunesMerkle(s: Scheme, small: Tree, big: Tree, p: seq<bool>)
    requires Prunes(s, small, big, p) && Merkle(s, big, p)
    ensures Merkle(s, small, p)
    decreases small
  {
    if small.Fork? && small.c.known {
      PrunesMerkle(s, small.left, big.left, p + [false]);
      PrunesMerkle(s, small.right, big.right, p + [true]);
    }
  }

  lemma {:induction false} RelabelPrunes(s: Scheme, small: Tree, big: Tree, p: seq<bool>)
    requires Prunes(s, small, big, p) && Ok(s, true, small, p) && Ok(s, true, big, p)
    ensures Prunes(s, Relabel(s, small), Relabel(s, big), p)
    decreases small
  {
    RelabelShape(s, small);
    RelabelShape(s, big);
    if !small.c.known {
      RelabelMerkle(s, big, p);
      PrunesStrip(s, small, big, p);
    } else if small.Fork? {
      if small.ChildrenKnown() {
        OkBranches(s, true, small, p);
        OkBranches(s, true, big, p);
        RelabelPrunes(s, small.left, big.left, p + [false]);
        RelabelPrunes(s, small.right, big.right, p + [true]);
        UpdatePrunes(s, small, big, p);
      } else {
        RelabelMerkle(s, small, p);
        RelabelMerkle(s, big, p);
        PrunesStrip(s, small, big, p);
      }
    }
  }

  lemma UpdatePrunes(s: Scheme, small: Tree, big: Tree, p: seq<bool>)
    requires small.Fork? && big.Fork? && small.c.known && SameCell(small.c, big.c) && small.ChildrenKnown()
    requires Prunes(s, Relabel(s, small.left), Relabel(s, big.left), p + [false])
    requires Prunes(s, Relabel(s, small.right), Relabel(s, big.right), p + [true])
    ensures Prunes(s, Relabel(s, small), Relabel(s, big), p)
  {
    hide Update, Prunes;
    RelabelShape(s, small.left);
    RelabelShape(s, small.right);
    var a := Fork(small.c.(dirty := false), Nothing, Relabel(s, small.left), Relabel(s, small.right));
    var b := Fork(big.c.(dirty := false), Nothing, Relabel(s, big.left), Relabel(s, big.right));
    ClimbPrunes(s, false, Op.Set([], []), a, b, p);
  }

  /** Ending the transaction on both sides keeps one a pruning of the other. */
  lemma EndPrunes(s: Scheme, small: Tree, big: Tree)
    requires Prunes(s, small, big, []) && Ok(s, true, small, []) && Ok(s, true, big, [])
    ensures Prunes(s, EndTree(s, small), EndTree(s, big), [])
  {
    EndIsRelabel(s, small);
    EndIsRelabel(s, big);
    RelabelPrunes(s, small, big, []);
    RelabelIsStripped(s, small);
    RelabelIsStripped(s, big);
    PrunesStrip(s, EndTree(s, small), EndTree(s, big), []);
    PrunesStrip(s, Relabel(s, small), Relabel(s, big), []);
  }

  /** Rolling a transaction back on both sides, whatever each side called, does too. */
  lemma RollbackPrunes(s: Scheme, small: Tree, big: Tree, ops: seq<Op>, others: seq<Op>)
    requires Prunes(s, small, big, []) && Pure(false, small) && Pure(false, big)
    ensures Prunes(s, RollbackTree(History(s, true, small, ops)), RollbackTree(History(s, true, big, others)), [])
  {
    hide RollbackTree, History, Prunes;
    RollbackIsUndo(s, small, ops);
    RollbackIsUndo(s, big, others);
    PrunesStrip(s, small, big, []);
    PrunesStrip(s, RollbackTree(History(s, true, small, ops)), RollbackTree(History(s, true, big, others)), []);
  }

  lemma EndIsRelabel(s: Scheme, t: Tree)
    requires Ok(s, true, t, [])
    ensures Strip(EndTree(s, t)) == Relabel(s, t)
  {
    ConfirmKeeps(s, t, [], true);
    RelabelStrip(s, ConfirmTree(t), t);
    FixIsRelabel(s, ConfirmTree(t), []);
  }

  lemma {:induction false} RelabelIsStripped(s: Scheme, t: Tree)
    ensures Strip(Relabel(s, t)) == Relabel(s, t)
  {
    RelabelShape(s, t);
    if t.Fork? {
      RelabelIsStripped(s, t.left);
      RelabelIsStripped(s, t.right);
    }
  }

  // --------------------------------------------------------------- preparation

  lemma {:induction false} FullKnown(t: Tree, path: Digest, d: nat)
    requires Full(t)
    ensures KnownPath(t, path, d)
    decreases t
  {
    hide Bit;
    if t.Fork? && d < BITS {
      FullKnown(t.Child(Bit(path, d)), path, d + 1);
    }
  }

  lemma {:induction false} ExtendsKnown(t: Tree, u: Tree, path: Digest, d: nat)
    requires Extends(t, u) && KnownPath(t, path, d)
    ensures KnownPath(u, path, d)
    decreases t
  {
    hide Bit;
    if t.Fork? && d < BITS {
      ExtendsKnown(t.Child(Bit(path, d)), u.Child(Bit(path, d)), path, d + 1);
    }
  }

  /** A proof has nothing to teach a collection that knows its path. */
  lemma {:induction false} GraftKnown(t: Tree, steps: seq<ProofStep>, path: Digest, i: nat)
    requires i <= |steps| <= BITS && KnownPath(t, path, i) && Truthful(t, steps, path, i)
    ensures Graft(t, steps, path, i) == Some(t)
    decreases t
  {
    hide Bit;
    if i < |steps| {
      GraftKnown(t.Child(Bit(path, i)), steps, path, i + 1);
    }
  }

  /** The tuples hashed when the proofs of an update are checked. */
  ghost function AllPreimages(proofs: seq<Proof>): set<seq<Serialization.Item>> {
    set i, x | 0 <= i < |proofs| && x in ProofPreimages(proofs[i]) :: x
  }

  /** Proofs as the model accepts them: non-empty keys, and no more steps than a digest has bits. */
  ghost predicate Usable(proofs: seq<Proof>) {
    forall p | p in proofs :: p.key != [] && |p.steps| <= BITS
  }

  lemma CollisionFreeSubset(s: Scheme, a: set<seq<Serialization.Item>>, b: set<seq<Serialization.Item>>)
    requires a <= b && CollisionFree(s, b)
    ensures CollisionFree(s, a)
  {
  }

  lemma VerifyAgrees(s: Scheme, small: Tree, big: Tree, proof: Proof)
    requires proof.key != [] && |proof.steps| <= BITS && Prunes(s, small, big, []) && WellFormed(s, big)
    requires CollisionFree(s, TreePreimages(big) + ProofPreimages(proof))
    ensures var a, b := Verify(s, small, proof), Verify(s, big, proof);
            || (a == Rejected && b == Rejected)
            || (a.Accepted? && b == Accepted(big) && Prunes(s, a.t, big, []) && Extends(small, a.t)
                && KnownPath(a.t, s.Path(proof.key), 0))
  {
    var path := s.Path(proof.key);
    FullKnown(big, path, 0);
    VerifyPrunes(s, small, big, proof);
    VerifyExtends(s, small, proof);
    if proof.root.tag == big.c.tag && Consistent(s, proof) {
      ProofSound(s, big, proof);
      GraftKnown(big, proof.steps, path, 0);
    }
  }

  /** `Prepare` on a pruned copy accepts the same updates as on the full tree, which it leaves alone;
      afterwards the pruned copy knows the paths of all declared keys. */
  lemma {:induction false} PrepareAgrees(s: Scheme, small: Tree, big: Tree, proofs: seq<Proof>)
    requires Usable(proofs) && Prunes(s, small, big, []) && WellFormed(s, big)
    requires CollisionFree(s, TreePreimages(big) + AllPreimages(proofs))
    ensures var a, b := VerifyAll(s, small, proofs), VerifyAll(s, big, proofs);
            && a.Ready? && b == Ready(big, a.ok) && Prunes(s, a.t, big, []) && Extends(small, a.t)
            && (a.ok ==> forall i | 0 <= i < |proofs| :: KnownPath(a.t, s.Path(proofs[i].key), 0))
    decreases |proofs|
  {
    hide Verify, Prunes, WellFormed, Extends, KnownPath, CollisionFree, TreePreimages, ProofPreimages;
    ExtendsSelf(small);
    if proofs != [] {
      var rest := proofs[1..];
      SafeRest(s, big, proofs);
      VerifyAgrees(s, small, big, proofs[0]);
      var a := Verify(s, small, proofs[0]);
      if a.Accepted? {
        PrepareAgrees(s, a.t, big, rest);
        var u := VerifyAll(s, a.t, rest).t;
        ExtendsTransitive(small, a.t, u);
        if VerifyAll(s, a.t, rest).ok {
          ExtendsKnown(a.t, u, s.Path(proofs[0].key), 0);
          forall i | 0 <= i < |proofs|
            ensures KnownPath(u, s.Path(proofs[i].key), 0)
          {
            if i > 0 { assert proofs[i] == rest[i - 1]; }
          }
        }
      }
    }
  }

  lemma {:induction false} ExtendsTransitive(t: Tree, u: Tree, w: Tree)
    requires Extends(t, u) && Extends(u, w)
    ensures Extends(t, w)
    decreases t
  {
    if t.Fork? && t.c.known {
      ExtendsTransitive(t.left, u.left, w.left);
      ExtendsTransitive(t.right, u.right, w.right);
    }
  }

  /** `Verify` takes the proof, whatever the tree below the root. */
  ghost predicate Taken(s: Scheme, root: Digest, proof: Proof) {
    |proof.steps| <= BITS && proof.root.tag == root && Consistent(s, proof)
  }

  /** The loop of `Prepare` gets through proof i. */
  ghost predicate TakenUpTo(s: Scheme, root: Digest, proofs: seq<Proof>, i: nat)
    requires i < |proofs|
  {
    forall j | 0 <= j <= i :: Taken(s, root, proofs[j])
  }

  /** The copy knows the path of every proof that `Prepare` gets through. */
  ghost predicate KnowsTaken(s: Scheme, t: Tree, u: Tree, proofs: seq<Proof>) {
    forall i | 0 <= i < |proofs| && TakenUpTo(s, t.c.tag, proofs, i) :: KnownPath(u, s.Path(proofs[i].key), 0)
  }

  /** Along a known path a proof changes nothing, unless it runs into a missing child. */
  lemma {:induction false} GraftNothing(t: Tree, steps: seq<ProofStep>, path: Digest, i: nat)
    requires i <= |steps| <= BITS && KnownPath(t, path, i)
    ensures var r := Graft(t, steps, path, i); r == None || r == Some(t)
    decreases t
  {
    hide Bit;
    if i < |steps| && t.Fork? {
      GraftNothing(t.Child(Bit(path, i)), steps, path, i + 1);
    }
  }

  lemma KnowsTakenStep(s: Scheme, t: Tree, a: Tree, u: Tree, proofs: seq<Proof>)
    requires proofs != [] && a.c.tag == t.c.tag && Taken(s, t.c.tag, proofs[0])
    ensures KnowsTaken(s, t, u, proofs) <==> KnownPath(u, s.Path(proofs[0].key), 0) && KnowsTaken(s, a, u, proofs[1..])
  {
    hide KnownPath, Taken;
    var rest := proofs[1..];
    forall i: nat | i < |rest|
      ensures TakenUpTo(s, a.c.tag, rest, i) <==> TakenUpTo(s, t.c.tag, proofs, i + 1)
    {
      assert forall j | 0 <= j <= i :: rest[j] == proofs[j + 1];
      assert forall j | 0 <= j <= i + 1 :: j == 0 || proofs[j] == rest[j - 1];
    }
    assert TakenUpTo(s, t.c.tag, proofs, 0);
    if KnowsTaken(s, t, u, proofs) {
      forall i | 0 <= i < |rest| && TakenUpTo(s, a.c.tag, rest, i)
        ensures KnownPath(u, s.Path(rest[i].key), 0)
      {
        assert TakenUpTo(s, t.c.tag, proofs, i + 1) && rest[i] == proofs[i + 1];
      }
    }
    if KnownPath(u, s.Path(proofs[0].key), 0) && KnowsTaken(s, a, u, rest) {
      forall i | 0 <= i < |proofs| && TakenUpTo(s, t.c.tag, proofs, i)
        ensures KnownPath(u, s.Path(proofs[i].key), 0)
      {
        if i > 0 {
          assert TakenUpTo(s, a.c.tag, rest, i - 1) && rest[i - 1] == proofs[i];
        }
      }
    }
  }

  /** `Prepare` teaches a copy the paths of the proofs it gets through, whether or not a later proof is
      rejected; so it leaves the copy as it was if and only if those paths were known already. */
  lemma {:induction false} PrepareTeaches(s: Scheme, small: Tree, big: Tree, proofs: seq<Proof>)
    requires Usable(proofs) && Prunes(s, small, big, []) && WellFormed(s, big)
    requires CollisionFree(s, TreePreimages(big) + AllPreimages(proofs))
    ensures var r := VerifyAll(s, small, proofs);
            r.Ready? && KnowsTaken(s, small, r.t, proofs) && (r.t == small <==> KnowsTaken(s, small, small, proofs))
    decreases |proofs|
  {
    hide Verify, Prunes, WellFormed, Extends, KnownPath, CollisionFree, TreePreimages, ProofPreimages, KnowsTaken,
         Consistent;
    PrepareAgrees(s, small, big, proofs);
    if proofs == [] || !Taken(s, small.c.tag, proofs[0]) {
      NothingTaken(s, small, proofs);
    } else {
      var rest := proofs[1..];
      SafeRest(s, big, proofs);
      VerifyAgrees(s, small, big, proofs[0]);
      VerifyTaken(s, small, proofs[0]);
      var a := Verify(s, small, proofs[0]).t;
      PrepareTeaches(s, a, big, rest);
      PrepareAgrees(s, a, big, rest);
      var u := VerifyAll(s, a, rest).t;
      ExtendsKnown(a, u, s.Path(proofs[0].key), 0);
      KnowsTakenStep(s, small, a, u, proofs);
      KnowsTakenStep(s, small, a, small, proofs);
    }
  }

  lemma NothingTaken(s: Scheme, t: Tree, proofs: seq<Proof>)
    requires Usable(proofs) && (proofs == [] || !Taken(s, t.c.tag, proofs[0]))
    ensures VerifyAll(s, t, proofs) == Ready(t, proofs == []) && forall u :: KnowsTaken(s, t, u, proofs)
  {
    hide KnownPath, Consistent;
    assert proofs != [] ==> proofs[0] in proofs;
  }

  lemma VerifyTaken(s: Scheme, t: Tree, proof: Proof)
    requires Taken(s, t.c.tag, proof)
    ensures Verify(s, t, proof) != Rejected
    ensures var r := Verify(s, t, proof);
            r.Accepted? ==> r.t.c.tag == t.c.tag && (KnownPath(t, s.Path(proof.key), 0) ==> r.t == t)
  {
    hide Bit, Consistent;
    VerifyExtends(s, t, proof);
    if KnownPath(t, s.Path(proof.key), 0) {
      GraftNothing(t, proof.steps, s.Path(proof.key), 0);
    }
  }

  /** What is assumed of all proofs holds of the first and of the rest. */
  lemma SafeRest(s: Scheme, big: Tree, proofs: seq<Proof>)
    requires proofs != [] && Usable(proofs) && CollisionFree(s, TreePreimages(big) + AllPreimages(proofs))
    ensures proofs[0] in proofs && Usable(proofs[1..])
    ensures CollisionFree(s, TreePreimages(big) + ProofPreimages(proofs[0]))
    ensures CollisionFree(s, TreePreimages(big) + AllPreimages(proofs[1..]))
  {
    hide CollisionFree, TreePreimages, ProofPreimages;
    var rest := proofs[1..];
    assert proofs[0] in proofs && forall p | p in rest :: p in proofs;
    assert ProofPreimages(proofs[0]) <= AllPreimages(proofs);
    assert AllPreimages(rest) <= AllPreimages(proofs) by {
      forall x | x in AllPreimages(rest) ensures x in AllPreimages(proofs) {
        var i :| 0 <= i < |rest| && x in ProofPreimages(rest[i]);
        assert rest[i] == proofs[i + 1];
      }
    }
    CollisionFreeSubset(s, TreePreimages(big) + ProofPreimages(proofs[0]), TreePreimages(big) + AllPreimages(proofs));
    CollisionFreeSubset(s, TreePreimages(big) + AllPreimages(rest), TreePreimages(big) + AllPreimages(proofs));
  }

  // -------------------------------------------------------------- check and apply

  /** The two collections in the middle of an update with these declared paths. */
  ghost predicate InStep(s: Scheme, small: Tree, big: Tree, paths: set<Digest>, m: map<Bytes, Values>) {
    && Prunes(s, small, big, []) && Ok(s, true, small, [])
    && InSession(s, big, m)
    && forall path | path in paths :: KnownPath(small, path, 0)
  }

  /** The replies an update can use: no request was turned down for lack of a proof. */
  ghost predicate Informed(replies: seq<Reply>) {
    forall r | r in replies :: r != Answered(Some(ProofNeeded)) && r != Got(Hidden)
  }

  lemma LookupAgrees(s: Scheme, small: Tree, big: Tree, key: Bytes)
    requires Prunes(s, small, big, []) && KnownPath(small, s.Path(key), 0)
    ensures Lookup(s, small, key) == Lookup(s, big, key) && Lookup(s, small, key) != Hidden
  {
    KnownRecord(small, key, s.Path(key), 0);
    RecordPrunes(s, small, big, key, s.Path(key), []);
  }

  lemma {:induction false} CheckAgrees(s: Scheme, small: Tree, big: Tree, paths: set<Digest>, up: UserUpdate,
        seen: seq<Record>, n: nat)
    requires Prunes(s, small, big, []) && forall path | path in paths :: KnownPath(small, path, 0)
    ensures CheckRun(s, small, paths, up, seen, n) == CheckRun(s, big, paths, up, seen, n)
    decreases n
  {
    match up.check(seen)
    case Verdict(_) =>
    case Look(key) =>
      if s.Path(key) in paths && n > 0 {
        LookupAgrees(s, small, big, key);
        CheckAgrees(s, small, big, paths, up, seen + [Lookup(s, small, key)], n - 1);
      }
  }

  /** One manipulator on both sides, on a declared key. */
  lemma AlterAgrees(s: Scheme, small: Tree, big: Tree, paths: set<Digest>, m: map<Bytes, Values>, op: Op)
    requires InStep(s, small, big, paths, m) && GoodOp(s, op) && s.Path(op.key) in paths
    ensures var a, b := Manipulate(s, true, op, small), Manipulate(s, true, op, big);
            || (a.Failed? && a == b && a != Failed(ProofNeeded))
            || (a.Done? && b.Done? && InStep(s, a.t, b.t, paths, Effect(op, m)))
  {
    var path := s.Path(op.key);
    assert KnownPath(small, path, 0);
    ManipulatePrunes(s, true, op, small, big);
    CallInSession(s, op, big, m);
    OkBranches(s, true, small, []);
    ModifyOk(s, true, op, small, path, []);
    ModifyKeepsFork(s, true, op, small, path);
    ModifyKnown(s, true, op, small, path, path, 0);
    forall other | other in paths && Manipulate(s, true, op, small).Done?
      ensures KnownPath(Manipulate(s, true, op, small).t, other, 0)
    {
      ModifyKnown(s, true, op, small, path, other, 0);
    }
  }

  ghost predicate ApplyAgree(s: Scheme, paths: set<Digest>, a: Application, b: Application) {
    || (a == Panicked && b == Panicked)
    || (a.Applied? && b.Applied? && a.replies == b.replies && Informed(a.replies)
        && exists m :: InStep(s, a.t, b.t, paths, m))
  }

  /** An application on both sides; its declared paths are among those the copy knows. */
  lemma {:induction false} ApplyAgrees(s: Scheme, small: Tree, big: Tree, paths: set<Digest>, known: set<Digest>,
        m: map<Bytes, Values>, up: UserUpdate, seen: seq<Reply>, n: nat)
    requires InStep(s, small, big, known, m) && paths <= known && Informed(seen)
    ensures ApplyAgree(s, known, ApplyRun(s, small, paths, up, seen, n), ApplyRun(s, big, paths, up, seen, n))
    decreases n
  {
    hide Manipulate, Lookup, Prunes, Ok, InSession, KnownPath, GoodOp, Effect, Callable, OpOf;
    match up.apply(seen)
    case None =>
    case Some(r) =>
      if s.Path(KeyOf(r)) in paths && n > 0 {
        match r
        case Get(key) =>
          LookupAgrees(s, small, big, key);
          ApplyAgrees(s, small, big, paths, known, m, up, seen + [Got(Lookup(s, small, key))], n - 1);
        case Alter(call) =>
          if Callable(s.fields, call) {
            var op := OpOf(s.fields, call);
            CallableGood(s, call);
            AlterAgrees(s, small, big, known, m, op);
            var a, b := Manipulate(s, true, op, small), Manipulate(s, true, op, big);
            if a.Done? {
              ApplyAgrees(s, a.t, b.t, paths, known, Effect(op, m), up, seen + [Answered(None)], n - 1);
            } else if a != Failed(Panic) {
              ApplyAgrees(s, small, big, paths, known, m, up, seen + [Answered(Some(a.e))], n - 1);
            }
          }
      }
  }

  // ---------------------------------------------------------------- end to end

  const ALL := View([], true)

  /** A pruned copy and its full collection, both at rest. */
  ghost predicate Mirrors(s: Scheme, small: Tree, big: Tree) {
    Prunes(s, small, big, []) && WellFormed(s, big) && !small.c.dirty && !big.c.dirty
  }

  /** The two answers tell the same story and leave the copies in step. */
  ghost predicate SameStory(s: Scheme, small: Response, big: Response) {
    match (small, big)
    case (Crash, Crash) => true
    case (Refused(a), Refused(b)) => Mirrors(s, a, b)
    case (Unchecked(a), Unchecked(b)) => Mirrors(s, a, b)
    case (Performed(a, ra), Performed(b, rb)) => Mirrors(s, a, b) && a.c.tag == b.c.tag && ra == rb && Informed(ra)
    case _ => false
  }

  lemma EndMerkle(s: Scheme, t: Tree)
    requires Ok(s, true, t, [])
    ensures Merkle(s, EndTree(s, t), []) && Shallow(EndTree(s, t), 0)
  {
    EndIsRelabel(s, t);
    RelabelOk(s, t, []);
    StripMerkle(s, EndTree(s, t), []);
    OkShallow(s, false, EndTree(s, t), []);
  }

  lemma EndClears(s: Scheme, t: Tree)
    ensures !EndTree(s, t).c.dirty
  {
  }

  /** The end of the update on both sides, garbage collection included. */
  lemma FinishAgrees(s: Scheme, v: View, small: Tree, big: Tree, paths: set<Digest>, m: map<Bytes, Values>)
    requires Sized(v) && InStep(s, small, big, paths, m)
    ensures Shallow(EndTree(s, small), 0) && Shallow(EndTree(s, big), 0)
    ensures var a, b := CollectTree(v, EndTree(s, small)), CollectTree(ALL, EndTree(s, big));
            Mirrors(s, a, b) && a.c.tag == b.c.tag
  {
    var a, b := EndTree(s, small), EndTree(s, big);
    EndPrunes(s, small, big);
    EndMerkle(s, small);
    EndMerkle(s, big);
    EndClears(s, small);
    EndClears(s, big);
    EndInSession(s, big, m);
    CollectIsKeep(ALL, b);
    KeepAll(ALL, b, []);
    CollectPrunes(s, v, a, b);
    PrunesTag(s, a, b);
    CollectKeepsMark(v, a);
  }

  lemma PrunesTag(s: Scheme, small: Tree, big: Tree)
    requires Prunes(s, small, big, [])
    ensures small.c.tag == big.c.tag
  {
  }

  lemma CollectKeepsMark(v: View, t: Tree)
    requires Sized(v) && Shallow(t, 0)
    ensures CollectTree(v, t).c.dirty == t.c.dirty
  {
  }

  /** A prepared update on both sides. */
  lemma PreparedAgrees(s: Scheme, v: View, small: Tree, big: Tree, paths: set<Digest>, up: UserUpdate)
    requires Sized(v) && Mirrors(s, small, big) && forall path | path in paths :: KnownPath(small, path, 0)
    ensures SameStory(s, RunPrepared(s, v, small, paths, up), RunPrepared(s, ALL, big, paths, up))
  {
    hide Prunes, WellFormed, Ok, CollectTree, EndTree, KnownPath;
    CheckAgrees(s, small, big, paths, up, [], up.limit);
    if CheckRun(s, small, paths, up, [], up.limit) == Some(true) {
      BeginStep(s, small, big, paths);
      ApplyAgrees(s, small, big, paths, paths, Map(big), up, [], up.limit);
      var a, b := ApplyRun(s, small, paths, up, [], up.limit), ApplyRun(s, big, paths, up, [], up.limit);
      if a.Applied? {
        var m :| InStep(s, a.t, b.t, paths, m);
        FinishAgrees(s, v, a.t, b.t, paths, m);
      }
    }
  }

  /** End to end: a verifier (or any pruned copy) and the full collection that both run the same update
      refuse it together, or see the same records and replies, never lack a proof for a
      declared key, and end with the same root label and the copy again a pruning of the tree. */
  lemma UpdateAgrees(s: Scheme, v: View, small: Tree, big: Tree, up: UserUpdate)
    requires Sized(v) && Usable(up.records) && Mirrors(s, small, big)
    requires CollisionFree(s, TreePreimages(big) + AllPreimages(up.records))
    ensures SameStory(s, RunUpdate(s, v, small, up), RunUpdate(s, ALL, big, up))
  {
    hide Prunes, WellFormed, CollisionFree, TreePreimages, RunPrepared, KnownPath, Extends;
    PrepareAgrees(s, small, big, up.records);
    VerifyAllMark(s, small, up.records);
    var u := VerifyAll(s, small, up.records);
    if u.ok {
      PreparedAgrees(s, v, u.t, big, Declared(s, up.records), up);
    }
  }

  lemma {:induction false} VerifyAllMark(s: Scheme, t: Tree, proofs: seq<Proof>)
    requires forall p | p in proofs :: |p.steps| <= BITS
    ensures var r := VerifyAll(s, t, proofs); r.Ready? ==> r.t.c.dirty == t.c.dirty
    decreases |proofs|
  {
    hide Bit, Consistent;
    if proofs != [] {
      var r := Verify(s, t, proofs[0]);
      if r.Accepted? {
        assert forall p | p in proofs[1..] :: p in proofs;
        VerifyAllMark(s, r.t, proofs[1..]);
      }
    }
  }

  lemma BeginStep(s: Scheme, small: Tree, big: Tree, paths: set<Digest>)
    requires Prunes(s, small, big, []) && WellFormed(s, big) && forall path | path in paths :: KnownPath(small, path, 0)
    ensures InStep(s, small, big, paths, Map(big))
  {
    PrunesMerkle(s, small, big, []);
    OkRelax(s, small, []);
    BeginSession(s, big);
  }
}
