/** Several prepared updates inside one transaction, which is then ended or rolled back
    (collection/update.go, collection/transaction.go). */
module SharedUpdates {
  import opened ByteSlices
  import opened Fields
  import opened Trees
  import opened Rules
  import opened Refinement
  import opened Canonical
  import opened Pruning
  import opened Transactions
  import opened Sessions
  import opened Machines
  import opened Scopes
  import opened Proofs
  import opened Updates
  import opened UpdateRuns

  // ---------------------------------------------------------------- preparation

  /** The tree after a series of `Prepare`s in one epoch, and the updates that were not refused;
      `Stuck` is a panic. */
  datatype Batch = Stuck | Batch(t: Tree, prepared: seq<PreparedUpdate>)

  ghost function PrepareAll(s: Scheme, t: Tree, id: Uint64, ups: seq<UserUpdate>): Batch
    requires forall up | up in ups :: Usable(up.records)
    decreases |ups|
  {
    if ups == [] then Batch(t, [])
    else
      assert Usable(ups[0].records);
      match VerifyAll(s, t, ups[0].records)
      case Broken => Stuck
      case Ready(u, ok) =>
        if t.c.dirty then Stuck
        else
          match PrepareAll(s, u, id, ups[1..])
          case Stuck => Stuck
          case Batch(w, prepared) =>
            Batch(w, (if ok then [PreparedUpdate(id, Declared(s, ups[0].records), ups[0])] else []) + prepared)
  }

  /** The copy knows every path the prepared updates declare. */
  ghost predicate Knows(t: Tree, prepared: seq<PreparedUpdate>) {
    forall p, path | p in prepared && path in p.paths :: KnownPath(t, path, 0)
  }

  lemma LearnPure(d: Dump, t: Tree)
    requires Pure(false, t)
    ensures Pure(false, Learn(d, t))
  {
  }

  lemma {:induction false} GraftPure(t: Tree, steps: seq<ProofStep>, path: Digest, i: nat)
    requires i <= |steps| <= BITS && Pure(false, t)
    ensures var r := Graft(t, steps, path, i); r.Some? ==> Pure(false, r.value)
    decreases |steps| - i
  {
    hide Bit;
    if i < |steps| && t.Fork? {
      var step := Bit(path, i);
      LearnPure(steps[i].left, t.left);
      LearnPure(steps[i].right, t.right);
      GraftPure(Learn(if step then steps[i].right else steps[i].left, t.Child(step)), steps, path, i + 1);
    }
  }

  lemma {:induction false} VerifyAllPure(s: Scheme, t: Tree, proofs: seq<Proof>)
    requires Pure(false, t) && forall p | p in proofs :: |p.steps| <= BITS
    ensures var r := VerifyAll(s, t, proofs); r.Ready? ==> Pure(false, r.t)
    decreases |proofs|
  {
    hide Bit, Consistent, Graft;
    if proofs != [] {
      var r := Verify(s, t, proofs[0]);
      if r.Accepted? {
        LearnPure(proofs[0].root, t);
        GraftPure(Learn(proofs[0].root, t), proofs[0].steps, s.Path(proofs[0].key), 0);
        assert forall p | p in proofs[1..] :: p in proofs;
        VerifyAllPure(s, r.t, proofs[1..]);
      }
    }
  }

  /** A pruned copy and the full collection refuse the same updates; what a later update teaches the copy
      does not undo what an earlier one has taught it. */
  lemma {:induction false} PrepareAllAgrees(s: Scheme, small: Tree, big: Tree, id: Uint64, ups: seq<UserUpdate>)
    requires Mirrors(s, small, big) && Pure(false, small) && forall up | up in ups :: Usable(up.records)
    requires forall up | up in ups :: CollisionFree(s, TreePreimages(big) + AllPreimages(up.records))
    ensures var a, b := PrepareAll(s, small, id, ups), PrepareAll(s, big, id, ups);
            && a.Batch? && b == Batch(big, a.prepared)
            && Mirrors(s, a.t, big) && Pure(false, a.t) && Extends(small, a.t) && Knows(a.t, a.prepared)
    decreases |ups|
  {
    hide VerifyAll, Prunes, WellFormed, Extends, KnownPath, CollisionFree, TreePreimages, AllPreimages, Pure;
    ExtendsSelf(small);
    if ups != [] {
      var proofs := ups[0].records;
      assert ups[0] in ups && Usable(proofs);
      PrepareAgrees(s, small, big, proofs);
      VerifyAllMark(s, small, proofs);
      VerifyAllPure(s, small, proofs);
      var u := VerifyAll(s, small, proofs);
      assert forall up | up in ups[1..] :: up in ups;
      PrepareAllAgrees(s, u.t, big, id, ups[1..]);
      var w := PrepareAll(s, u.t, id, ups[1..]).t;
      ExtendsTransitive(small, u.t, w);
      forall path | u.ok && path in Declared(s, proofs)
        ensures KnownPath(w, path, 0)
      {
        ExtendsKnown(u.t, w, path, 0);
      }
    }
  }

  // ------------------------------------------------------- inside the transaction

  /** The tree after a series of `Apply`s, and for each the replies it saw, if its check accepted. */
  datatype Shared = Shared(t: Tree, stories: seq<Option<seq<Reply>>>)

  /** `Apply` of one prepared update after another inside a transaction; None is a panic. */
  ghost function Share(s: Scheme, t: Tree, uses: seq<PreparedUpdate>): Option<Shared>
    decreases |uses|
  {
    if uses == [] then Some(Shared(t, []))
    else
      var p := uses[0];
      match CheckRun(s, t, p.paths, p.up, [], p.up.limit)
      case None => None
      case Some(false) => Told(None, Share(s, t, uses[1..]))
      case Some(true) =>
        match ApplyRun(s, t, p.paths, p.up, [], p.up.limit)
        case Panicked => None
        case Applied(u, replies) => Told(Some(replies), Share(s, u, uses[1..]))
  }

  function Told(story: Option<seq<Reply>>, rest: Option<Shared>): Option<Shared> {
    match rest
    case None => None
    case Some(r) => Some(r.(stories := [story] + r.stories))
  }

  ghost function Uses(uses: seq<PreparedUpdate>): seq<Event> {
    seq(|uses|, i requires 0 <= i < |uses| => Use(uses[i]))
  }

  /** These are the steps of the run model, for updates prepared in the epoch of the transaction. */
  lemma {:induction false} ShareIsRun(s: Scheme, v: View, m: Machine, uses: seq<PreparedUpdate>)
    requires Sized(v) && m.ongoing && forall p | p in uses :: p.epoch == m.id
    ensures EventRun(s, v, m, Uses(uses))
         == match Share(s, m.t, uses) case None => None case Some(r) => Some(m.(t := r.t))
    decreases |uses|
  {
    hide CheckRun, ApplyRun, RunPrepared;
    if uses != [] {
      assert uses[0] in uses && Uses(uses)[0] == Use(uses[0]) && Uses(uses)[1..] == Uses(uses[1..]);
      var g := React(s, v, m, Use(uses[0]));
      if g.Some? {
        ShareIsRun(s, v, g.value.m, uses[1..]);
      }
    }
  }

  /** The two sides have seen the same and can still go on, end or go back. */
  ghost predicate ShareAgree(s: Scheme, known: set<Digest>, a: Option<Shared>, b: Option<Shared>) {
    || (a == None && b == None)
    || (a.Some? && b.Some? && a.value.stories == b.value.stories
        && (forall x | x in a.value.stories && x.Some? :: Informed(x.value))
        && exists m :: InStep(s, a.value.t, b.value.t, known, m))
  }

  lemma {:induction false} ShareAgrees(s: Scheme, small: Tree, big: Tree, known: set<Digest>, m: map<Bytes, Values>,
        uses: seq<PreparedUpdate>)
    requires InStep(s, small, big, known, m) && forall p | p in uses :: p.paths <= known
    ensures ShareAgree(s, known, Share(s, small, uses), Share(s, big, uses))
    decreases |uses|
  {
    hide InStep, CheckRun, ApplyRun;
    if uses != [] {
      var p := uses[0];
      assert p in uses && p.paths <= known;
      StepChecks(s, small, big, known, m, p);
      ApplyAgrees(s, small, big, p.paths, known, m, p.up, [], p.up.limit);
      assert forall q | q in uses[1..] :: q in uses;
      if CheckRun(s, small, p.paths, p.up, [], p.up.limit) == Some(false) {
        ShareAgrees(s, small, big, known, m, uses[1..]);
      }
      var a, b := ApplyRun(s, small, p.paths, p.up, [], p.up.limit), ApplyRun(s, big, p.paths, p.up, [], p.up.limit);
      if a.Applied? {
        var n :| InStep(s, a.t, b.t, known, n);
        ShareAgrees(s, a.t, b.t, known, n, uses[1..]);
      }
    }
  }

  lemma StepChecks(s: Scheme, small: Tree, big: Tree, known: set<Digest>, m: map<Bytes, Values>, p: PreparedUpdate)
    requires InStep(s, small, big, known, m) && p.paths <= known
    ensures CheckRun(s, small, p.paths, p.up, [], p.up.limit) == CheckRun(s, big, p.paths, p.up, [], p.up.limit)
  {
    CheckAgrees(s, small, big, p.paths, p.up, [], p.up.limit);
  }

  // ------------------------------------------------------------------- going back

  lemma {:induction false} ApplyUndoes(s: Scheme, t: Tree, paths: set<Digest>, up: UserUpdate, seen: seq<Reply>, n: nat)
    requires Covered(t)
    ensures var r := ApplyRun(s, t, paths, up, seen, n); r.Applied? ==> Undoes(t, r.t)
    decreases n
  {
    hide Covered, Restored, Callable, OpOf, Modify, Lookup;
    match up.apply(seen)
    case None =>
    case Some(r) =>
      if s.Path(KeyOf(r)) in paths && n > 0 {
        match r
        case Get(key) => ApplyUndoes(s, t, paths, up, seen + [Got(Lookup(s, t, key))], n - 1);
        case Alter(call) =>
          if Callable(s.fields, call) {
            var op := OpOf(s.fields, call);
            var a := Manipulate(s, true, op, t);
            if a.Done? {
              ModifyUndo(s, op, t, s.Path(op.key), 0);
              ApplyUndoes(s, a.t, paths, up, seen + [Answered(None)], n - 1);
            } else if a != Failed(Panic) {
              ApplyUndoes(s, t, paths, up, seen + [Answered(Some(a.e))], n - 1);
            }
          }
      }
  }

  lemma {:induction false} ShareUndoes(s: Scheme, t: Tree, uses: seq<PreparedUpdate>)
    requires Covered(t)
    ensures var r := Share(s, t, uses); r.Some? ==> Undoes(t, r.value.t)
    decreases |uses|
  {
    hide CheckRun, ApplyRun, Covered, Restored;
    if uses != [] {
      var p := uses[0];
      ApplyUndoes(s, t, p.paths, p.up, [], p.up.limit);
      ShareUndoes(s, t, uses[1..]);
      var a := ApplyRun(s, t, p.paths, p.up, [], p.up.limit);
      if a.Applied? {
        ShareUndoes(s, a.t, uses[1..]);
      }
    }
  }

  /** Rolling back gives the tree at `Begin`, on any tree. */
  lemma ShareRollsBack(s: Scheme, t: Tree, uses: seq<PreparedUpdate>)
    requires Pure(false, t)
    ensures var r := Share(s, t, uses); r.Some? ==> Strip(RollbackTree(r.value.t)) == Strip(t)
  {
    hide Share, RollbackTree, Restored, Covered, Pure;
    PureCovered(t);
    ShareUndoes(s, t, uses);
    var r := Share(s, t, uses);
    if r.Some? { RollbackIsRestored(r.value.t); }
  }

  // ------------------------------------------------------------------- end to end

  /** What the two sides have in common after the transaction, however it is closed. */
  ghost predicate ClosesAlike(s: Scheme, v: View, small: Tree, big: Tree, a: Tree, b: Tree)
    requires Sized(v)
  {
    && Shallow(EndTree(s, a), 0) && Shallow(EndTree(s, b), 0)
    && (var x, y := CollectTree(v, EndTree(s, a)), CollectTree(ALL, EndTree(s, b));
        Mirrors(s, x, y) && x.c.tag == y.c.tag)
    && (var x, y := RollbackTree(a), RollbackTree(b);
        && Strip(x) == Strip(small) && Strip(y) == Strip(big)
        && Prunes(s, x, y, []) && WellFormed(s, y) && x.c.tag == y.c.tag)
  }

  lemma CloseAgrees(s: Scheme, v: View, small: Tree, big: Tree, known: set<Digest>, uses: seq<PreparedUpdate>)
    requires Sized(v) && Mirrors(s, small, big) && Pure(false, small) && Pure(false, big)
    requires ShareAgree(s, known, Share(s, small, uses), Share(s, big, uses))
    ensures var a, b := Share(s, small, uses), Share(s, big, uses);
            a.Some? && b.Some? ==> ClosesAlike(s, v, small, big, a.value.t, b.value.t)
  {
    hide Share, Prunes, WellFormed, InStep, RollbackTree, EndTree, CollectTree, Strip, Pure;
    var a, b := Share(s, small, uses), Share(s, big, uses);
    if a.Some? && b.Some? {
      var m :| InStep(s, a.value.t, b.value.t, known, m);
      FinishAgrees(s, v, a.value.t, b.value.t, known, m);
      ShareRollsBack(s, small, uses);
      ShareRollsBack(s, big, uses);
      var x, y := RollbackTree(a.value.t), RollbackTree(b.value.t);
      PrunesStrip(s, small, big, []);
      PrunesStrip(s, x, y, []);
      PrunesTag(s, x, y);
      SameStripWellFormed(s, big, y);
    }
  }

  lemma SameStripWellFormed(s: Scheme, t: Tree, u: Tree)
    requires WellFormed(s, t) && Strip(t) == Strip(u)
    ensures WellFormed(s, u)
  {
    StripKeeps(s, t, u, []);
    StripTwice(t);
    StripTwice(u);
  }

  /** Several updates are prepared by a pruned copy and by the full collection, and some of them, in any order
      and as often as one likes, are applied inside one transaction: both refuse the same ones, see the
      same records and replies and never lack a proof; if the transaction is ended, the copy is again a
      pruning of the collection with the same root label, and if it is rolled back, both are what they
      were at `Begin`, except for dirty marks. */
  lemma SharedAgrees(s: Scheme, v: View, small: Tree, big: Tree, id: Uint64, ups: seq<UserUpdate>,
        uses: seq<PreparedUpdate>)
    requires Sized(v) && Mirrors(s, small, big) && Pure(false, small) && Pure(false, big)
    requires forall up | up in ups :: Usable(up.records)
    requires forall up | up in ups :: CollisionFree(s, TreePreimages(big) + AllPreimages(up.records))
    requires var a := PrepareAll(s, big, id, ups); a.Batch? && forall p | p in uses :: p in a.prepared
    ensures var a, b := PrepareAll(s, small, id, ups), PrepareAll(s, big, id, ups);
            && a.Batch? && b == Batch(big, a.prepared) && Extends(small, a.t)
            && var x, y := Share(s, a.t, uses), Share(s, big, uses);
            && (x == None <==> y == None)
            && (x.Some? ==>
                  && x.value.stories == y.value.stories
                  && (forall story | story in x.value.stories && story.Some? :: Informed(story.value))
                  && ClosesAlike(s, v, a.t, big, x.value.t, y.value.t))
  {
    hide PrepareAll, Share, Mirrors, InStep, Knows, ClosesAlike, Extends, Informed, KnownPath;
    PrepareAllAgrees(s, small, big, id, ups);
    var a := PrepareAll(s, small, id, ups);
    var known := set p, path | p in a.prepared && path in p.paths :: path;
    KnownPaths(a.t, a.prepared, known);
    StartInStep(s, a.t, big, known);
    ShareAgrees(s, a.t, big, known, Map(big), uses);
    CloseAgrees(s, v, a.t, big, known, uses);
  }

  lemma KnownPaths(t: Tree, prepared: seq<PreparedUpdate>, known: set<Digest>)
    requires Knows(t, prepared) && known == set p, path | p in prepared && path in p.paths :: path
    ensures forall path | path in known :: KnownPath(t, path, 0)
    ensures forall p | p in prepared :: p.paths <= known
  {
  }

  lemma StartInStep(s: Scheme, small: Tree, big: Tree, known: set<Digest>)
    requires Mirrors(s, small, big) && forall path | path in known :: KnownPath(small, path, 0)
    ensures InStep(s, small, big, known, Map(big))
  {
    BeginStep(s, small, big, known);
  }
}
