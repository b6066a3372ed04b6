/** `Prepare` and `Apply` on the heap (collection/update.go). */
module Proxies {
  import opened ByteSlices
  import opened Fields
  import opened Trees
  import opened Canonical
  import opened Pruning
  import opened Transactions
  import opened Scopes
  import opened Proofs
  import opened Updates
  import opened UpdateRuns
  import opened Machines
  import opened Nodes
  import opened Collections
  import opened Getters
  import opened Verifiers

  /** `proxy`: the paths of the keys. */
  method DeclarePaths(s: Scheme, proofs: seq<Proof>) returns (paths: set<Digest>)
    ensures paths == Declared(s, proofs)
  {
    paths := {};
    for index := 0 to |proofs|
      invariant paths == set i | 0 <= i < index :: s.Path(proofs[i].key)
    {
      paths := paths + {s.Path(proofs[index].key)};
    }
  }

  /** The state of `Prepare`'s loop. */
  ghost function Remaining(s: Scheme, t: Tree, proofs: seq<Proof>, i: nat): Prepared
    requires i <= |proofs| && forall p | p in proofs :: |p.steps| <= BITS
  {
    VerifyAll(s, t, proofs[i..])
  }

  lemma RemainingStep(s: Scheme, t: Tree, proofs: seq<Proof>, i: nat)
    requires i < |proofs| && forall p | p in proofs :: |p.steps| <= BITS
    ensures Remaining(s, t, proofs, i)
         == match Proofs.Verify(s, t, proofs[i])
            case Rejected => Ready(t, false)
            case NilDereference => Broken
            case Accepted(u) => Remaining(s, u, proofs, i + 1)
  {
    assert proofs[i..][1..] == proofs[i + 1..];
  }

  lemma VerifyMark(s: Scheme, t: Tree, proof: Proof)
    requires |proof.steps| <= BITS
    ensures var r := Proofs.Verify(s, t, proof); r.Accepted? ==> r.t.c.dirty == t.c.dirty
  {
    assert [proof][1..] == [];
    VerifyAllMark(s, t, [proof]);
  }

  /** `Prepare`: the proofs are checked in turn, and what they teach stays even when a later one fails. */
  method Prepare(c: Collection, up: UserUpdate) returns (prepared: Option<PreparedUpdate>)
    requires c.Valid() && Usable(up.records) && !c.root.inconsistent
    requires VerifyAll(c.scheme, c.AsTree(), up.records).Ready?
    modifies c`shape, Foot(c.shape)
    ensures c.Valid() && forall n | n in Foot(c.shape) :: n in old(Foot(c.shape)) || fresh(n)
    ensures var r := old(VerifyAll(c.scheme, c.AsTree(), up.records));
            && c.AsTree() == r.t
            && prepared == if r.ok then Some(PreparedUpdate(c.id, Declared(c.scheme, up.records), up)) else None
  {
    hide Focus, Abs, Proofs.Verify, VerifyAll;
    ghost var goal := VerifyAll(c.scheme, c.AsTree(), up.records);
    ghost var made: set<Node> := {};
    assert up.records[0..] == up.records;
    RootFacts(c.shape);
    for index := 0 to |up.records|
      invariant c.Valid() && Foot(c.shape) <= old(Foot(c.shape)) + made && fresh(made)
      invariant !c.root.inconsistent && Abs(c.shape).c.dirty == c.root.inconsistent
      invariant Remaining(c.scheme, c.AsTree(), up.records, index) == goal
    {
      assert up.records[index] in up.records;
      RemainingStep(c.scheme, c.AsTree(), up.records, index);
      VerifyMark(c.scheme, c.AsTree(), up.records[index]);
      ghost var before := Foot(c.shape);
      label Checking:
      var ok := Verifiers.Verify(c, up.records[index]);
      RootFacts(c.shape);
      forall n | n in Foot(c.shape) - before ensures fresh(n) {
        assert fresh@Checking(n);
      }
      made := made + (Foot(c.shape) - before);
      if !ok {
        return None;
      }
    }
    assert up.records[|up.records|..] == [];
    NothingRemains(c.scheme, c.AsTree());
    Allocated(c.shape);
    var paths := DeclarePaths(c.scheme, up.records);
    return Some(PreparedUpdate(c.id, paths, up));
  }

  lemma NothingRemains(s: Scheme, t: Tree)
    ensures VerifyAll(s, t, []) == Ready(t, true)
  {
  }

  // ------------------------------------------------------------------- Apply

  /** Trees a collection can be in: inner nodes within the bits of a digest, and a known root that is one. */
  ghost predicate Sound(t: Tree) {
    Shallow(t, 0) && (t.c.known ==> t.Fork?)
  }

  lemma {:induction false} ShallowRecord(t: Tree, key: Bytes, path: Digest, d: nat)
    requires Shallow(t, d)
    ensures RecordFrom(t, key, path, d) != Crashed
    decreases t
  {
    hide Bit;
    if t.Fork? && d < BITS {
      ShallowRecord(t.Child(Bit(path, d)), key, path, d + 1);
    }
  }

  /** `Check` through the read-only proxy. */
  method Check(c: Collection, p: PreparedUpdate) returns (accept: bool)
    requires c.Valid() && Sound(c.AsTree()) && CheckRun(c.scheme, c.AsTree(), p.paths, p.up, [], p.up.limit).Some?
    ensures old(CheckRun(c.scheme, c.AsTree(), p.paths, p.up, [], p.up.limit)) == Some(accept)
    ensures c.Valid() && c.AsTree() == old(c.AsTree())
  {
    hide Focus, Abs, RecordFrom;
    var seen: seq<Record> := [];
    var n := p.up.limit;
    Allocated(c.shape);
    ghost var t := c.AsTree();
    while true
      invariant n >= 0 && c.Valid() && c.AsTree() == t
      invariant CheckRun(c.scheme, t, p.paths, p.up, seen, n) == CheckRun(c.scheme, t, p.paths, p.up, [], p.up.limit)
      decreases n
    {
      match p.up.check(seen)
      case Verdict(accept) => return accept;
      case Look(key) =>
        ShallowRecord(t, key, c.scheme.Path(key), 0);
        var record := Getter(c, key).Record();
        seen := seen + [record];
        n := n - 1;
    }
  }

  /** One manipulator call of an update. */
  method Dispatch(c: Collection, call: Invocation) returns (error: Option<Error>)
    requires c.Valid() && Sized(c.scope.Contents()) && Shallow(c.AsTree(), 0) && Callable(c.scheme.fields, call)
    requires Manipulate(c.scheme, c.ongoing, OpOf(c.scheme.fields, call), c.AsTree()) != Failed(Panic)
    modifies c`shape, Foot(c.shape)
    ensures c.Valid() && fresh(Foot(c.shape) - old(Foot(c.shape)))
    ensures match old(Manipulate(c.scheme, c.ongoing, OpOf(c.scheme.fields, call), c.AsTree()))
            case Failed(e) => error == Some(e) && c.AsTree() == old(c.AsTree())
            case Done(u) =>
              && error == None && Shallow(u, 0)
              && c.AsTree() == if c.ongoing then u else CollectTree(c.scope.Contents(), u)
  {
    hide Focus, Abs, Manipulate, CollectTree;
    match call
    case Insert(key, values) => error := c.Add(key, values);
    case Assign(key, args) => error := c.Set(key, args);
    case AssignField(key, field, value) => error := c.SetField(key, field, value);
    case Delete(key) => error := c.Remove(key);
  }

  /** `Apply` of an update, inside a transaction: its calls one by one, until it has no more. */
  method Perform(c: Collection, p: PreparedUpdate) returns (replies: seq<Reply>)
    requires c.Valid() && c.ongoing && Sized(c.scope.Contents()) && Sound(c.AsTree())
    requires ApplyRun(c.scheme, c.AsTree(), p.paths, p.up, [], p.up.limit).Applied?
    modifies c`shape, Foot(c.shape)
    ensures c.Valid() && (forall n | n in Foot(c.shape) :: n in old(Foot(c.shape)) || fresh(n)) && Sound(c.AsTree())
    ensures old(ApplyRun(c.scheme, c.AsTree(), p.paths, p.up, [], p.up.limit)) == Applied(c.AsTree(), replies)
  {
    hide Focus, Abs, Manipulate, RecordFrom, CollectTree, Callable, OpOf, Shallow;
    replies := [];
    var n := p.up.limit;
    ghost var made: set<Node> := {};
    ghost var goal := ApplyRun(c.scheme, c.AsTree(), p.paths, p.up, [], n);
    while true
      invariant n >= 0 && c.Valid() && Sound(c.AsTree()) && Foot(c.shape) <= old(Foot(c.shape)) + made && fresh(made)
      invariant ApplyRun(c.scheme, c.AsTree(), p.paths, p.up, replies, n) == goal
      decreases n
    {
      var next := p.up.apply(replies);
      if next.None? {
        return;
      }
      if next.value.Get? {
        ShallowRecord(c.AsTree(), next.value.key, c.scheme.Path(next.value.key), 0);
        Allocated(c.shape);
        var record := Getter(c, next.value.key).Record();
        replies := replies + [Got(record)];
      } else {
        ManipulateShallow(c.scheme, true, OpOf(c.scheme.fields, next.value.call), c.AsTree());
        ghost var before := Foot(c.shape);
        label Calling:
        var error := Dispatch(c, next.value.call);
        forall m | m in Foot(c.shape) - before ensures fresh(m) {
          assert fresh@Calling(m);
        }
        made := made + (Foot(c.shape) - before);
        replies := replies + [Answered(error)];
      }
      n := n - 1;
    }
  }

  /** The collection as the machine of the runs. */
  ghost function MachineOf(c: Collection): Machine
    reads c, Foot(c.shape)
  {
    Machine(c.AsTree(), c.ongoing, c.id)
  }

  /** What `End` keeps: everything when automatic collection is off. */
  ghost function Keeping(c: Collection): View
    reads c, c.scope
  {
    if c.autoCollect then c.scope.Contents() else ALL
  }

  lemma EndSound(s: Scheme, t: Tree)
    requires Sound(t)
    ensures EndTree(s, t).Fork? == t.Fork? && EndTree(s, t).c.known == t.c.known
  {
  }

  lemma CollectAll(t: Tree)
    requires Sound(t)
    ensures CollectTree(ALL, t) == t
  {
    CollectIsKeep(ALL, t);
    KeepAll(ALL, t, []);
  }

  /** `Begin`, the update's calls, `End`. */
  method PerformAlone(c: Collection, p: PreparedUpdate) returns (replies: seq<Reply>)
    requires c.Valid() && !c.ongoing && Sized(c.scope.Contents()) && Sound(c.AsTree())
    requires var r := ApplyRun(c.scheme, c.AsTree(), p.paths, p.up, [], p.up.limit);
             r.Applied? && Shallow(EndTree(c.scheme, r.t), 0)
    modifies c`shape, c`ongoing, c`id, Foot(c.shape)
    ensures c.Valid() && !c.ongoing && c.id == (old(c.id) + 1) % U64
    ensures forall n | n in Foot(c.shape) :: n in old(Foot(c.shape)) || fresh(n)
    ensures var r := old(ApplyRun(c.scheme, c.AsTree(), p.paths, p.up, [], p.up.limit));
            replies == r.replies && c.AsTree() == CollectTree(Keeping(c), EndTree(c.scheme, r.t))
  {
    hide Focus, Abs, ApplyRun, CollectTree, EndTree, Shallow;
    c.Begin();
    label Begun:
    replies := Perform(c, p);
    EndSound(c.scheme, c.AsTree());
    CollectAll(EndTree(c.scheme, c.AsTree()));
    ghost var before := Foot(c.shape);
    c.End();
    forall n | n in Foot(c.shape) ensures n in old(Foot(c.shape)) || fresh(n) {
      assert n in before;
      assert n in old@Begun(Foot(c.shape)) || fresh@Begun(n);
    }
  }

  /** `Apply` of a prepared update; one of another epoch makes the source panic. */
  method ApplyPrepared(c: Collection, p: PreparedUpdate) returns (accepted: bool, replies: seq<Reply>)
    requires c.Valid() && Sized(c.scope.Contents()) && Sound(c.AsTree())
    requires React(c.scheme, Keeping(c), MachineOf(c), Use(p)).Some?
    modifies c`shape, c`ongoing, c`id, Foot(c.shape)
    ensures c.Valid() && forall n | n in Foot(c.shape) :: n in old(Foot(c.shape)) || fresh(n)
    ensures var g := old(React(c.scheme, Keeping(c), MachineOf(c), Use(p))).value;
            MachineOf(c) == g.m && accepted == g.performed
    ensures accepted && !old(c.ongoing) ==>
              old(RunPrepared(c.scheme, Keeping(c), c.AsTree(), p.paths, p.up)) == Performed(c.AsTree(), replies)
    ensures accepted && old(c.ongoing) ==>
              old(ApplyRun(c.scheme, c.AsTree(), p.paths, p.up, [], p.up.limit)) == Applied(c.AsTree(), replies)
  {
    hide Focus, Abs, ApplyRun, CheckRun, CollectTree, EndTree, Shallow;
    Allocated(c.shape);
    replies := [];
    accepted := Check(c, p);
    if accepted {
      if c.ongoing {
        replies := Perform(c, p);
      } else {
        replies := PerformAlone(c, p);
      }
    }
  }

  /** `Apply` of an update that was not prepared: `Prepare`, then `Apply`. */
  method ApplyUpdate(c: Collection, up: UserUpdate) returns (error: bool, replies: seq<Reply>)
    requires c.Valid() && Sized(c.scope.Contents()) && Sound(c.AsTree()) && Usable(up.records)
    requires ReactUser(c.scheme, Keeping(c), MachineOf(c), up).Some?
    requires var r := VerifyAll(c.scheme, c.AsTree(), up.records); r.Ready? ==> Sound(r.t)
    modifies c`shape, c`ongoing, c`id, Foot(c.shape)
    ensures c.Valid()
    ensures var g := old(ReactUser(c.scheme, Keeping(c), MachineOf(c), up)).value;
            MachineOf(c) == g.m && error == !g.performed
    ensures !error && !old(c.ongoing) ==>
              old(RunUpdate(c.scheme, Keeping(c), c.AsTree(), up)) == Performed(c.AsTree(), replies)
    ensures !error && old(c.ongoing) ==>
              old(var t := VerifyAll(c.scheme, c.AsTree(), up.records).t;
                  ApplyRun(c.scheme, t, Declared(c.scheme, up.records), up, [], up.limit))
              == Applied(c.AsTree(), replies)
  {
    hide Focus, Abs, ApplyRun, CheckRun, VerifyAll, CollectTree, EndTree, Shallow;
    RootFacts(c.shape);
    var prepared := Prepare(c, up);
    replies := [];
    if prepared.None? {
      return true, replies;
    }
    var accepted;
    accepted, replies := ApplyPrepared(c, prepared.value);
    error := !accepted;
  }

  lemma PrunedSound(s: Scheme, small: Tree, big: Tree)
    requires Prunes(s, small, big, []) && WellFormed(s, big)
    ensures Sound(small)
  {
    PrunesMerkle(s, small, big, []);
    OkShallow(s, false, small, []);
  }

  /** A pruned copy of a full collection meets what `ApplyUpdate` asks for, whatever the proofs. */
  lemma CopyIsSound(s: Scheme, small: Tree, big: Tree, up: UserUpdate)
    requires Mirrors(s, small, big) && Usable(up.records)
    requires CollisionFree(s, TreePreimages(big) + AllPreimages(up.records))
    ensures Sound(small) && var r := VerifyAll(s, small, up.records); r.Ready? && Sound(r.t)
  {
    hide CollisionFree, VerifyAll, Sound, WellFormed, Prunes;
    PrepareAgrees(s, small, big, up.records);
    PrunedSound(s, small, big);
    PrunedSound(s, VerifyAll(s, small, up.records).t, big);
  }
}
