/** What an update means: which verdict counts, what its requests do to the map and which replies they get
    (collection/update.go). */
module Stories {
  import opened ByteSlices
  import opened Fields
  import opened Trees
  import opened Rules
  import opened Refinement
  import opened Canonical
  import opened Pruning
  import opened Transactions
  import opened Sessions
  import opened Machines
  import opened Scopes
  import opened Proofs
  import opened Updates
  import opened UpdateRuns
  import opened SharedUpdates
  import opened Calls

  // ------------------------------------------------------------------ the check

  /** A declared key was looked up in the map. */
  ghost predicate LookedUp(s: Scheme, next: CheckStep, paths: set<Digest>, m: map<Bytes, Values>, record: Record) {
    next.Look? && s.Path(next.key) in paths && record == if next.key in m then Found(m[next.key]) else Absent
  }

  /** These are the records a check sees, each asked for in the light of those before. */
  ghost predicate Looked(s: Scheme, up: UserUpdate, paths: set<Digest>, m: map<Bytes, Values>, seen: seq<Record>) {
    forall i | 0 <= i < |seen| :: LookedUp(s, up.check(seen[..i]), paths, m, seen[i])
  }

  /** The update's own check, shown the records of the map, ends with this verdict. */
  ghost predicate Judges(s: Scheme, up: UserUpdate, paths: set<Digest>, m: map<Bytes, Values>, accept: bool) {
    exists seen :: Looked(s, up, paths, m, seen) && |seen| <= up.limit && up.check(seen) == Verdict(accept)
  }

  /** A tree that knows what is declared; no declared key has the digest of the empty key. */
  ghost predicate Open(s: Scheme, t: Tree, paths: set<Digest>) {
    Ok(s, true, t, []) && s.Path([]) !in paths && forall path | path in paths :: KnownPath(t, path, 0)
  }

  lemma OpenLookup(s: Scheme, t: Tree, paths: set<Digest>, key: Bytes)
    requires Open(s, t, paths) && s.Path(key) in paths
    ensures key != [] && Lookup(s, t, key) == if key in Map(t) then Found(Map(t)[key]) else Absent
  {
    hide Ok, KnownPath, Lookup;
    assert key != [];
    KnownLookup(s, true, t, key);
  }

  lemma LookedMore(s: Scheme, up: UserUpdate, paths: set<Digest>, m: map<Bytes, Values>, seen: seq<Record>,
        record: Record)
    requires Looked(s, up, paths, m, seen) && LookedUp(s, up.check(seen), paths, m, record)
    ensures Looked(s, up, paths, m, seen + [record])
  {
    var more := seen + [record];
    forall i | 0 <= i < |more|
      ensures LookedUp(s, up.check(more[..i]), paths, m, more[i])
    {
      assert more[..i] == seen[..i] && seen[..|seen|] == seen;
    }
  }

  lemma {:induction false} CheckFinds(s: Scheme, t: Tree, paths: set<Digest>, up: UserUpdate, seen: seq<Record>, n: nat)
    requires Open(s, t, paths) && Looked(s, up, paths, Map(t), seen) && |seen| + n == up.limit
    ensures var r := CheckRun(s, t, paths, up, seen, n); r.Some? ==> Judges(s, up, paths, Map(t), r.value)
    decreases n
  {
    hide Open, Looked, Lookup, Map;
    match up.check(seen)
    case Verdict(_) =>
    case Look(key) =>
      if s.Path(key) in paths && n > 0 {
        OpenLookup(s, t, paths, key);
        LookedMore(s, up, paths, Map(t), seen, Lookup(s, t, key));
        CheckFinds(s, t, paths, up, seen + [Lookup(s, t, key)], n - 1);
      }
  }

  lemma {:induction false} CheckFollows(s: Scheme, t: Tree, paths: set<Digest>, up: UserUpdate, seen: seq<Record>,
        i: nat)
    requires Open(s, t, paths) && Looked(s, up, paths, Map(t), seen) && i <= |seen| <= up.limit
    requires up.check(seen).Verdict?
    ensures CheckRun(s, t, paths, up, seen[..i], up.limit - i) == Some(up.check(seen).accept)
    decreases |seen| - i
  {
    hide Open, Lookup, Map;
    if i == |seen| {
      assert seen[..i] == seen;
    } else {
      assert LookedUp(s, up.check(seen[..i]), paths, Map(t), seen[i]);
      OpenLookup(s, t, paths, up.check(seen[..i]).key);
      CheckFollows(s, t, paths, up, seen, i + 1);
      assert seen[..i + 1] == seen[..i] + [seen[i]];
    }
  }

  /** A check reaches the verdict of the update's own `Check`, on full collections and on pruned copies that
      know what is declared; without such a verdict it panics. */
  lemma CheckExactly(s: Scheme, t: Tree, paths: set<Digest>, up: UserUpdate, accept: bool)
    requires Open(s, t, paths)
    ensures CheckRun(s, t, paths, up, [], up.limit) == Some(accept) <==> Judges(s, up, paths, Map(t), accept)
  {
    hide Open, CheckRun, Map;
    CheckFinds(s, t, paths, up, [], up.limit);
    if Judges(s, up, paths, Map(t), accept) {
      var seen :| Looked(s, up, paths, Map(t), seen) && |seen| <= up.limit && up.check(seen) == Verdict(accept);
      CheckFollows(s, t, paths, up, seen, 0);
      assert seen[..0] == [];
    }
  }

  // ------------------------------------------------------------ the application

  /** A request for a declared key turns the map m into n and gets this reply. */
  ghost predicate Served(s: Scheme, next: Option<Request>, paths: set<Digest>, m: map<Bytes, Values>,
        n: map<Bytes, Values>, reply: Reply)
  {
    match next
    case None => false
    case Some(Get(key)) =>
      s.Path(key) in paths && n == m && reply == Got(if key in m then Found(m[key]) else Absent)
    case Some(Alter(call)) =>
      s.Path(call.key) in paths && Callable(s.fields, call) && reply.Answered? && Does(s, call, m, n, reply.error)
  }

  /** From map to map, the requests an update makes in the light of the replies before, and their replies. */
  ghost predicate Unfolds(s: Scheme, up: UserUpdate, paths: set<Digest>, ms: seq<map<Bytes, Values>>,
        replies: seq<Reply>)
  {
    && |ms| == |replies| + 1
    && forall i | 0 <= i < |replies| :: Served(s, up.apply(replies[..i]), paths, ms[i], ms[i + 1], replies[i])
  }

  /** The update's own `Apply`, started on the map m, gets these replies and ends with the map n. */
  ghost predicate Performs(s: Scheme, up: UserUpdate, paths: set<Digest>, m: map<Bytes, Values>,
        n: map<Bytes, Values>, replies: seq<Reply>)
  {
    exists ms ::
      Unfolds(s, up, paths, ms, replies) && ms[0] == m && ms[|replies|] == n
      && |replies| <= up.limit && up.apply(replies) == None
  }

  lemma UnfoldsMore(s: Scheme, up: UserUpdate, paths: set<Digest>, ms: seq<map<Bytes, Values>>, replies: seq<Reply>,
        n: map<Bytes, Values>, reply: Reply)
    requires Unfolds(s, up, paths, ms, replies) && Served(s, up.apply(replies), paths, ms[|replies|], n, reply)
    ensures Unfolds(s, up, paths, ms + [n], replies + [reply])
  {
    hide Served;
    var more := replies + [reply];
    forall i | 0 <= i < |more|
      ensures Served(s, up.apply(more[..i]), paths, (ms + [n])[i], (ms + [n])[i + 1], more[i])
    {
      assert more[..i] == replies[..i] && replies[..|replies|] == replies;
    }
  }

  /** A full tree inside a transaction, before the requests of an update for these keys. */
  ghost predicate Underway(s: Scheme, t: Tree, paths: set<Digest>) {
    InSession(s, t, Map(t)) && s.Path([]) !in paths
  }

  lemma UnderwayOpen(s: Scheme, t: Tree, paths: set<Digest>)
    requires Underway(s, t, paths)
    ensures Open(s, t, paths)
  {
    forall path | path in paths ensures KnownPath(t, path, 0) { FullKnown(t, path, 0); }
  }

  /** A call never lacks a proof, panics exactly on the digest of another key, and otherwise does what it
      promises. */
  lemma SessionCall(s: Scheme, call: Invocation, t: Tree)
    requires InSession(s, t, Map(t)) && Callable(s.fields, call)
    ensures var r := Manipulate(s, true, OpOf(s.fields, call), t);
            && r != Failed(ProofNeeded)
            && (r == Failed(Panic) ==> call.Insert? && call.key !in Map(t) && Twin(s, Map(t), call.key))
            && (r != Failed(Panic) ==> Does(s, call, Map(t), Map(TreeAfter(r, t)), ErrorOf(r)))
            && InSession(s, TreeAfter(r, t), Map(TreeAfter(r, t)))
  {
    hide Does, Callable, OpOf, Manipulate, Ok, Full, Compact, Twin, Effect, Map;
    CallableGood(s, call);
    SameKind(s, call);
    CallInSession(s, OpOf(s.fields, call), t, Map(t));
    CallDoes(s, true, call, t);
    AnswersPlainly(s, OpOf(s.fields, call), Map(t), Manipulate(s, true, OpOf(s.fields, call), t));
  }

  lemma AnswersPlainly(s: Scheme, op: Op, m: map<Bytes, Values>, r: Outcome)
    requires Answers(s, op, m, r)
    ensures r != Failed(ProofNeeded) && (r.Done? ==> Map(r.t) == Effect(op, m))
    ensures r == Failed(Panic) ==> op.Add? && op.key !in m && Twin(s, m, op.key)
  {
  }

  lemma {:induction false} ApplyFinds(s: Scheme, t: Tree, paths: set<Digest>, up: UserUpdate,
        ms: seq<map<Bytes, Values>>, replies: seq<Reply>, n: nat)
    requires Underway(s, t, paths) && Unfolds(s, up, paths, ms, replies) && ms[|replies|] == Map(t)
    requires |replies| + n == up.limit
    ensures var r := ApplyRun(s, t, paths, up, replies, n);
            r.Applied? ==> Performs(s, up, paths, ms[0], Map(r.t), r.replies) && Underway(s, r.t, paths)
    decreases n
  {
    hide InSession, Does, Callable, OpOf, Manipulate, Lookup, Map, Open;
    match up.apply(replies)
    case None =>
    case Some(r) =>
      if s.Path(KeyOf(r)) in paths && n > 0 {
        match r
        case Get(key) =>
          UnderwayOpen(s, t, paths);
          OpenLookup(s, t, paths, key);
          UnfoldsMore(s, up, paths, ms, replies, Map(t), Got(Lookup(s, t, key)));
          ApplyFinds(s, t, paths, up, ms + [Map(t)], replies + [Got(Lookup(s, t, key))], n - 1);
        case Alter(call) =>
          if Callable(s.fields, call) {
            SessionCall(s, call, t);
            var a := Manipulate(s, true, OpOf(s.fields, call), t);
            if a != Failed(Panic) {
              var u := TreeAfter(a, t);
              UnfoldsMore(s, up, paths, ms, replies, Map(u), Answered(ErrorOf(a)));
              ApplyFinds(s, u, paths, up, ms + [Map(u)], replies + [Answered(ErrorOf(a))], n - 1);
            }
          }
      }
  }

  lemma {:induction false} ApplyFollows(s: Scheme, t: Tree, paths: set<Digest>, up: UserUpdate,
        ms: seq<map<Bytes, Values>>, replies: seq<Reply>, i: nat)
    requires Underway(s, t, paths) && Unfolds(s, up, paths, ms, replies) && i <= |replies| <= up.limit
    requires ms[i] == Map(t) && up.apply(replies) == None
    ensures var r := ApplyRun(s, t, paths, up, replies[..i], up.limit - i);
            r.Applied? && r.replies == replies && Map(r.t) == ms[|replies|]
    decreases |replies| - i
  {
    hide InSession, Does, Callable, OpOf, Manipulate, Lookup, Map, Open;
    if i == |replies| {
      assert replies[..i] == replies;
    } else {
      var next := up.apply(replies[..i]);
      assert Served(s, next, paths, ms[i], ms[i + 1], replies[i]);
      assert replies[..i + 1] == replies[..i] + [replies[i]];
      match next.value
      case Get(key) =>
        UnderwayOpen(s, t, paths);
        OpenLookup(s, t, paths, key);
        ApplyFollows(s, t, paths, up, ms, replies, i + 1);
      case Alter(call) =>
        SessionCall(s, call, t);
        var a := Manipulate(s, true, OpOf(s.fields, call), t);
        NoTwinDone(s, call, Map(t), ms[i + 1], replies[i].error);
        DoesOnce(s, call, Map(t), Map(TreeAfter(a, t)), ErrorOf(a), ms[i + 1], replies[i].error);
        ApplyFollows(s, TreeAfter(a, t), paths, up, ms, replies, i + 1);
    }
  }

  lemma NoTwinDone(s: Scheme, call: Invocation, m: map<Bytes, Values>, n: map<Bytes, Values>, error: Option<Error>)
    requires Callable(s.fields, call) && Does(s, call, m, n, error)
    ensures !(call.Insert? && call.key !in m && Twin(s, m, call.key))
  {
  }

  /** An application serves the requests of the update's own `Apply`, in order, on the map; it panics exactly
      when a request cannot be served. */
  lemma ApplyExactly(s: Scheme, t: Tree, paths: set<Digest>, up: UserUpdate)
    requires Underway(s, t, paths)
    ensures var a := ApplyRun(s, t, paths, up, [], up.limit);
            && (forall n, replies :: Performs(s, up, paths, Map(t), n, replies)
                                     <==> a.Applied? && a.replies == replies && Map(a.t) == n)
            && (a.Applied? ==> InSession(s, a.t, Map(a.t)))
  {
    hide ApplyRun, Map, InSession, Served;
    var a := ApplyRun(s, t, paths, up, [], up.limit);
    ApplyFinds(s, t, paths, up, [Map(t)], [], up.limit);
    forall n, replies | Performs(s, up, paths, Map(t), n, replies)
      ensures a.Applied? && a.replies == replies && Map(a.t) == n
    {
      var ms :| Unfolds(s, up, paths, ms, replies) && ms[0] == Map(t) && ms[|replies|] == n
        && |replies| <= up.limit && up.apply(replies) == None;
      ApplyFollows(s, t, paths, up, ms, replies, 0);
      assert replies[..0] == [];
    }
  }

  // --------------------------------------------------------------- whole updates

  /** `Verify` accepts a proof on a collection with this root label. */
  ghost predicate Holds(s: Scheme, root: Digest, proofs: seq<Proof>)
    requires Usable(proofs)
  {
    forall i | 0 <= i < |proofs| ::
      assert proofs[i] in proofs; proofs[i].root.tag == root && Consistent(s, proofs[i])
  }

  /** `Prepare` refuses exactly when one of the proofs is inconsistent or has another root label. */
  lemma {:induction false} PrepareExactly(s: Scheme, small: Tree, big: Tree, proofs: seq<Proof>)
    requires Usable(proofs) && Prunes(s, small, big, []) && WellFormed(s, big)
    requires CollisionFree(s, TreePreimages(big) + AllPreimages(proofs))
    ensures var r := VerifyAll(s, small, proofs); r.Ready? && (r.ok <==> Holds(s, big.c.tag, proofs))
    decreases |proofs|
  {
    hide Verify, Prunes, WellFormed, Extends, KnownPath, CollisionFree, TreePreimages, ProofPreimages, Consistent;
    if proofs != [] {
      var rest := proofs[1..];
      SafeRest(s, big, proofs);
      VerifyAgrees(s, small, big, proofs[0]);
      VerifyTells(s, small, big, proofs[0]);
      if Verify(s, small, proofs[0]).Accepted? {
        PrepareExactly(s, Verify(s, small, proofs[0]).t, big, rest);
        HoldsFrom(s, big.c.tag, proofs);
      }
    }
  }

  lemma HoldsFrom(s: Scheme, root: Digest, proofs: seq<Proof>)
    requires Usable(proofs) && proofs != [] && Usable(proofs[1..])
    ensures Holds(s, root, proofs) <==>
            (assert proofs[0] in proofs; proofs[0].root.tag == root && Consistent(s, proofs[0]))
            && Holds(s, root, proofs[1..])
  {
    hide Consistent;
    assert forall i | 0 < i < |proofs| :: proofs[i] == proofs[1..][i - 1];
    assert forall i | 0 <= i < |proofs| - 1 :: proofs[1..][i] == proofs[i + 1];
  }

  lemma VerifyTells(s: Scheme, small: Tree, big: Tree, proof: Proof)
    requires proof.key != [] && |proof.steps| <= BITS && Prunes(s, small, big, []) && WellFormed(s, big)
    ensures small.c.tag == big.c.tag
    ensures Verify(s, small, proof) != Rejected <==> proof.root.tag == big.c.tag && Consistent(s, proof)
  {
    hide Consistent, Graft;
    PrunesTag(s, small, big);
  }

  /** A path is declared exactly when it is that of the key of some proof. */
  lemma DeclaredExactly(s: Scheme, proofs: seq<Proof>, path: Digest)
    ensures path in Declared(s, proofs) <==> exists p :: p in proofs && s.Path(p.key) == path
  {
    if path in Declared(s, proofs) {
      var i :| 0 <= i < |proofs| && s.Path(proofs[i].key) == path;
      assert proofs[i] in proofs;
    }
  }

  /** `Prepare` of a collection, full or pruned: it panics on a marked root; otherwise it lets an update through
      exactly when all its proofs hold, for the current epoch and the declared paths. */
  lemma PrepareInEpoch(s: Scheme, m: Machine, big: Tree, up: UserUpdate)
    requires Usable(up.records) && Prunes(s, m.t, big, []) && WellFormed(s, big)
    requires CollisionFree(s, TreePreimages(big) + AllPreimages(up.records))
    ensures var r := Prepare(s, m, up);
            && (r.Some? <==> !m.t.c.dirty && Holds(s, big.c.tag, up.records))
            && (r.Some? ==>
                  && r.value.0 == m.(t := r.value.0.t) && Prunes(s, r.value.0.t, big, [])
                  && r.value.1.epoch == m.id && r.value.1.up == up && r.value.1.paths == Declared(s, up.records))
  {
    hide VerifyAll, Prunes, WellFormed, CollisionFree, TreePreimages, AllPreimages, Holds;
    PrepareExactly(s, m.t, big, up.records);
    PrepareAgrees(s, m.t, big, up.records);
  }

  /** Which of several updates are prepared. */
  ghost predicate Granted(s: Scheme, root: Digest, id: Uint64, up: UserUpdate, p: PreparedUpdate) {
    Usable(up.records) && Holds(s, root, up.records) && p == PreparedUpdate(id, Declared(s, up.records), up)
  }

  /** Of several updates, in one epoch, those are prepared whose proofs all hold. */
  lemma {:induction false} PrepareAllExactly(s: Scheme, small: Tree, big: Tree, id: Uint64, ups: seq<UserUpdate>)
    requires Mirrors(s, small, big) && Pure(false, small) && forall up | up in ups :: Usable(up.records)
    requires forall up | up in ups :: CollisionFree(s, TreePreimages(big) + AllPreimages(up.records))
    ensures var r := PrepareAll(s, small, id, ups);
            r.Batch? && forall p :: p in r.prepared <==> exists up :: up in ups && Granted(s, big.c.tag, id, up, p)
    decreases |ups|
  {
    hide VerifyAll, Prunes, WellFormed, Extends, KnownPath, CollisionFree, TreePreimages, AllPreimages, Pure, Holds;
    if ups != [] {
      var proofs, rest := ups[0].records, ups[1..];
      assert ups[0] in ups && Usable(proofs);
      PrepareExactly(s, small, big, proofs);
      PrepareAgrees(s, small, big, proofs);
      VerifyAllMark(s, small, proofs);
      VerifyAllPure(s, small, proofs);
      assert forall up | up in rest :: up in ups;
      assert forall up | up in ups :: up == ups[0] || up in rest;
      PrepareAllExactly(s, VerifyAll(s, small, proofs).t, big, id, rest);
    }
  }

  /** The update's own check accepts the map m, and its own application leads from m to n with these replies. */
  ghost predicate Leads(s: Scheme, up: UserUpdate, paths: set<Digest>, m: map<Bytes, Values>, n: map<Bytes, Values>,
        replies: seq<Reply>)
  {
    Judges(s, up, paths, m, true) && Performs(s, up, paths, m, n, replies)
  }

  /** What a collection at rest answers to an update prepared for these paths: it turns the update away exactly
      when the update's own check ends in false, performs it exactly when that check ends in true and its
      requests can be served, and then holds the map they lead to and gives their replies. */
  ghost predicate Obeys(s: Scheme, up: UserUpdate, paths: set<Digest>, m: map<Bytes, Values>, r: Response,
        after: map<Bytes, Values>)
  {
    && !r.Refused?
    && (r.Unchecked? <==> Judges(s, up, paths, m, false))
    && (r.Unchecked? ==> after == m)
    && (forall n, replies :: Leads(s, up, paths, m, n, replies)
                             <==> r.Performed? && r.replies == replies && after == n)
  }

  /** The map of a response. */
  function MapAfter(r: Response): map<Bytes, Values> {
    if r == Crash then map[] else Map(r.t)
  }

  /** A well-formed tree before the requests of an update for these keys. */
  lemma RestUnderway(s: Scheme, t: Tree, paths: set<Digest>)
    requires WellFormed(s, t) && s.Path([]) !in paths
    ensures Underway(s, t, paths) && Open(s, t, paths)
  {
    BeginSession(s, t);
    UnderwayOpen(s, t, paths);
  }

  /** Closing the transaction of an update keeps its map. */
  lemma ClosesWith(s: Scheme, t: Tree)
    requires InSession(s, t, Map(t))
    ensures var e := EndTree(s, t); Shallow(e, 0) && CollectTree(ALL, e) == e && WellFormed(s, e) && Map(e) == Map(t)
  {
    EndInSession(s, t, Map(t));
    var e := EndTree(s, t);
    OkShallow(s, false, e, []);
    CollectIsKeep(ALL, e);
    KeepAll(ALL, e, []);
  }

  lemma PreparedExactly(s: Scheme, t: Tree, paths: set<Digest>, up: UserUpdate)
    requires WellFormed(s, t) && s.Path([]) !in paths
    ensures var r := RunPrepared(s, ALL, t, paths, up);
            Obeys(s, up, paths, Map(t), r, MapAfter(r)) && (r != Crash ==> WellFormed(s, r.t))
  {
    hide WellFormed, CheckRun, ApplyRun, Judges, Performs, Map, EndTree, CollectTree, Open, InSession;
    RestUnderway(s, t, paths);
    CheckExactly(s, t, paths, up, true);
    CheckExactly(s, t, paths, up, false);
    ApplyExactly(s, t, paths, up);
    var a := ApplyRun(s, t, paths, up, [], up.limit);
    if a.Applied? { ClosesWith(s, a.t); }
  }

  /** `Apply` of an update, on the full collection: it is refused exactly when a proof is inconsistent or has
      another root label, and otherwise answered as the update's own `Check` and `Apply` demand. */
  lemma UpdateExactly(s: Scheme, t: Tree, up: UserUpdate)
    requires WellFormed(s, t) && !t.c.dirty && Usable(up.records) && s.Path([]) !in Declared(s, up.records)
    requires CollisionFree(s, TreePreimages(t) + AllPreimages(up.records))
    ensures var r := RunUpdate(s, ALL, t, up);
            && (r.Refused? <==> !Holds(s, t.c.tag, up.records))
            && (r.Refused? ==> r.t == t)
            && (Holds(s, t.c.tag, up.records) ==>
                  Obeys(s, up, Declared(s, up.records), Map(t), r, MapAfter(r)))
  {
    hide WellFormed, CollisionFree, TreePreimages, AllPreimages, RunPrepared, Obeys, Holds, Map, VerifyAll;
    FullItself(s, t);
    PrepareExactly(s, t, t, up.records);
    PrepareAgrees(s, t, t, up.records);
    PreparedExactly(s, t, Declared(s, up.records), up);
    NotRefused(s, t, Declared(s, up.records), up);
  }

  lemma NotRefused(s: Scheme, t: Tree, paths: set<Digest>, up: UserUpdate)
    ensures !RunPrepared(s, ALL, t, paths, up).Refused?
  {
  }

  lemma FullItself(s: Scheme, t: Tree)
    requires WellFormed(s, t)
    ensures Prunes(s, t, t, [])
  {
    PrunesItself(s, t, []);
  }

  /** The same for a pruned copy, a new verifier for one: its answers are those that the map of the full
      collection demands, and its root label is the one of the collection that holds the new map. */
  lemma CopyExactly(s: Scheme, v: View, small: Tree, big: Tree, up: UserUpdate)
    requires Sized(v) && Usable(up.records) && Mirrors(s, small, big) && s.Path([]) !in Declared(s, up.records)
    requires CollisionFree(s, TreePreimages(big) + AllPreimages(up.records))
    ensures var a, b := RunUpdate(s, v, small, up), RunUpdate(s, ALL, big, up);
            && SameStory(s, a, b)
            && (a.Refused? <==> !Holds(s, small.c.tag, up.records))
            && (Holds(s, small.c.tag, up.records) ==>
                  Obeys(s, up, Declared(s, up.records), Map(big), a, MapAfter(b)))
  {
    hide WellFormed, CollisionFree, TreePreimages, AllPreimages, RunUpdate, Holds, Map, Judges, Performs, Prunes;
    PrunesTag(s, small, big);
    UpdateAgrees(s, v, small, big, up);
    UpdateExactly(s, big, up);
    var a, b := RunUpdate(s, v, small, up), RunUpdate(s, ALL, big, up);
    if Holds(s, small.c.tag, up.records) {
      ObeysAlike(s, up, Declared(s, up.records), Map(big), a, b, MapAfter(b));
    }
  }

  lemma ObeysAlike(s: Scheme, up: UserUpdate, paths: set<Digest>, m: map<Bytes, Values>, a: Response, b: Response,
        after: map<Bytes, Values>)
    requires SameStory(s, a, b) && Obeys(s, up, paths, m, b, after)
    ensures Obeys(s, up, paths, m, a, after)
  {
    hide Leads, Judges;
    SameKindOfAnswer(s, a, b);
  }

  lemma SameKindOfAnswer(s: Scheme, a: Response, b: Response)
    requires SameStory(s, a, b)
    ensures a.Refused? == b.Refused? && a.Unchecked? == b.Unchecked? && a.Performed? == b.Performed?
    ensures a.Performed? ==> a.replies == b.replies
  {
    hide Mirrors;
  }

  // ------------------------------------------------------- inside a transaction

  /** With some replies. */
  ghost predicate LeadsTo(s: Scheme, p: PreparedUpdate, m: map<Bytes, Values>, n: map<Bytes, Values>) {
    exists replies :: Leads(s, p.up, p.paths, m, n, replies)
  }

  /** A prepared update used by a full collection, inside a transaction or outside: it is turned away, and
      nothing changes, exactly when its own check ends in false; it is performed exactly when that check
      ends in true and its requests can be served; otherwise, or in another epoch, it panics. */
  lemma UseExactly(s: Scheme, m: Machine, p: PreparedUpdate)
    requires s.Path([]) !in p.paths
    requires if m.ongoing then InSession(s, m.t, Map(m.t)) else WellFormed(s, m.t)
    ensures p.epoch != m.id ==> React(s, ALL, m, Use(p)) == None
    ensures p.epoch == m.id ==>
              var g := React(s, ALL, m, Use(p));
              && (Judges(s, p.up, p.paths, Map(m.t), false) <==> g == Some(Stage(m, false, false)))
              && (forall n :: LeadsTo(s, p, Map(m.t), n) <==> g.Some? && g.value.performed && Map(g.value.m.t) == n)
              && (g.Some? && !g.value.performed ==> g.value.m == m)
              && (g.Some? && g.value.performed ==>
                    && g.value.m.ongoing == m.ongoing
                    && g.value.m.id == if m.ongoing then m.id else (m.id + 1) % U64)
  {
    hide WellFormed, CheckRun, ApplyRun, RunPrepared, Judges, Performs, Map, InSession, Open;
    if p.epoch == m.id {
      if m.ongoing {
        UnderwayOpen(s, m.t, p.paths);
        CheckExactly(s, m.t, p.paths, p.up, true);
        CheckExactly(s, m.t, p.paths, p.up, false);
        ApplyExactly(s, m.t, p.paths, p.up);
        var a := ApplyRun(s, m.t, p.paths, p.up, [], p.up.limit);
        assert a.Applied? && Judges(s, p.up, p.paths, Map(m.t), true) ==>
                 Leads(s, p.up, p.paths, Map(m.t), Map(a.t), a.replies);
      } else {
        PreparedExactly(s, m.t, p.paths, p.up);
        UncheckedStays(s, m.t, p.paths, p.up);
        var r := RunPrepared(s, ALL, m.t, p.paths, p.up);
        assert r.Performed? ==> Leads(s, p.up, p.paths, Map(m.t), MapAfter(r), r.replies);
      }
    }
  }

  lemma UncheckedStays(s: Scheme, t: Tree, paths: set<Digest>, up: UserUpdate)
    ensures var r := RunPrepared(s, ALL, t, paths, up); !r.Refused? && (r.Unchecked? ==> r.t == t)
  {
  }

  /** One update used inside a transaction: what it does to the map, and the replies it gets if its check
      accepts. */
  ghost predicate Link(s: Scheme, p: PreparedUpdate, m: map<Bytes, Values>, n: map<Bytes, Values>,
        story: Option<seq<Reply>>)
  {
    match story
    case None => Judges(s, p.up, p.paths, m, false) && n == m
    case Some(replies) => Leads(s, p.up, p.paths, m, n, replies)
  }

  /** Some updates used one after the other. */
  ghost predicate Chained(s: Scheme, uses: seq<PreparedUpdate>, ms: seq<map<Bytes, Values>>,
        stories: seq<Option<seq<Reply>>>)
    requires |ms| == |uses| + 1
  {
    |stories| == |uses| && forall i | 0 <= i < |uses| :: Link(s, uses[i], ms[i], ms[i + 1], stories[i])
  }

  /** From the map m to the map n. */
  ghost predicate Chain(s: Scheme, uses: seq<PreparedUpdate>, m: map<Bytes, Values>, n: map<Bytes, Values>,
        stories: seq<Option<seq<Reply>>>)
  {
    exists ms :: |ms| == |uses| + 1 && Chained(s, uses, ms, stories) && ms[0] == m && ms[|uses|] == n
  }

  /** Several prepared updates inside one transaction of a full collection: each is answered as its own `Check`
      and `Apply` demand, on the map the ones before it have left. */
  lemma {:induction false} ShareExactly(s: Scheme, t: Tree, uses: seq<PreparedUpdate>)
    requires InSession(s, t, Map(t)) && forall p | p in uses :: s.Path([]) !in p.paths
    ensures var r := Share(s, t, uses); r.Some? ==> Chain(s, uses, Map(t), Map(r.value.t), r.value.stories)
    decreases |uses|
  {
    hide CheckRun, ApplyRun, Judges, Performs, Map, InSession, Open, Chain;
    if uses == [] {
      ChainNone(s, Map(t));
    } else {
      var p := uses[0];
      assert p in uses && forall q | q in uses[1..] :: q in uses;
      UnderwayOpen(s, t, p.paths);
      CheckExactly(s, t, p.paths, p.up, true);
      CheckExactly(s, t, p.paths, p.up, false);
      ApplyExactly(s, t, p.paths, p.up);
      var check, a := CheckRun(s, t, p.paths, p.up, [], p.up.limit), ApplyRun(s, t, p.paths, p.up, [], p.up.limit);
      var r := Share(s, t, uses);
      if r.Some? {
        var u := if check == Some(true) then a.t else t;
        ShareExactly(s, u, uses[1..]);
        ChainMore(s, uses, Map(t), Map(u), Map(r.value.t), r.value.stories[0], Share(s, u, uses[1..]).value.stories);
      }
    }
  }

  lemma ChainNone(s: Scheme, m: map<Bytes, Values>)
    ensures Chain(s, [], m, m, [])
  {
    assert Chained(s, [], [m], []);
  }

  lemma ChainMore(s: Scheme, uses: seq<PreparedUpdate>, m: map<Bytes, Values>, u: map<Bytes, Values>,
        n: map<Bytes, Values>, story: Option<seq<Reply>>, stories: seq<Option<seq<Reply>>>)
    requires uses != [] && Link(s, uses[0], m, u, story) && Chain(s, uses[1..], u, n, stories)
    ensures Chain(s, uses, m, n, [story] + stories)
  {
    hide Link;
    var ms :| |ms| == |uses| && Chained(s, uses[1..], ms, stories) && ms[0] == u && ms[|uses| - 1] == n;
    var all := [m] + ms;
    forall i | 0 <= i < |uses|
      ensures Link(s, uses[i], all[i], all[i + 1], ([story] + stories)[i])
    {
      if i > 0 { assert Link(s, uses[1..][i - 1], ms[i - 1], ms[i], stories[i - 1]); }
    }
    assert Chained(s, uses, all, [story] + stories);
  }
}
