/** What one call of a manipulator with typed arguments does to the map, and what `Get` returns afterwards
    (collection/manipulators.go, collection/update.go, collection/record.go). */
module Calls {
  import opened ByteSlices
  import opened Fields
  import opened Trees
  import opened Rules
  import opened Refinement
  import opened Canonical
  import opened Pruning
  import opened Proofs
  import opened Updates
  import opened Getters
  import opened Verifiers

  // --------------------------------------------------------- what a call promises

  /** No other key is touched. */
  ghost predicate OthersStay(key: Bytes, m: map<Bytes, Values>, n: map<Bytes, Values>) {
    forall k | k != key :: (k in m <==> k in n) && (k in m ==> n[k] == m[k])
  }

  /** The record holds these bytes: for each field the value given, or what was there. */
  ghost predicate Written(was: Values, args: seq<Argument>, now: Values) {
    && |now| == |was| == |args|
    && forall i | 0 <= i < |args| :: match args[i] case Put(v) => Raw(v, now[i]) case Keep => now[i] == was[i]
  }

  /** The call turns the map m into n and answers with the error, if any. */
  ghost predicate Does(s: Scheme, call: Invocation, m: map<Bytes, Values>, n: map<Bytes, Values>, error: Option<Error>)
    requires Callable(s.fields, call)
  {
    && OthersStay(call.key, m, n)
    && match call
       case Insert(key, values) =>
         if key in m then error == Some(KeyCollision) && n == m
         else
           && !Twin(s, m, key) && error == None
           && key in n && |n[key]| == |values| && forall i | 0 <= i < |values| :: Raw(values[i], n[key][i])
       case Assign(key, args) =>
         if key !in m then error == Some(KeyNotFound) && n == m
         else error == None && key in n && Written(m[key], args, n[key])
       case AssignField(key, field, value) =>
         if key !in m then error == Some(KeyNotFound) && n == m
         else
           && error == None && key in n && |n[key]| == |m[key]| && field < |m[key]| && Raw(value, n[key][field])
           && forall i | 0 <= i < |m[key]| && i != field :: n[key][i] == m[key][i]
       case Delete(key) =>
         if key !in m then error == Some(KeyNotFound) && n == m else error == None && key !in n
  }

  /** The calls that the source accepts: one value for each field, of the type of that field. */
  lemma CallableExactly(s: Scheme, call: Invocation)
    ensures Callable(s.fields, call) <==>
            call.key != [] &&
            match call
            case Insert(_, values) =>
              |values| == |s.fields| && forall i | 0 <= i < |values| :: values[i].Blob? == (s.fields[i] == Data)
            case Assign(_, args) =>
              && |args| == |s.fields|
              && forall i | 0 <= i < |args| && args[i].Put? :: args[i].v.Blob? == (s.fields[i] == Data)
            case AssignField(_, field, value) => field < |s.fields| && value.Blob? == (s.fields[field] == Data)
            case Delete(_) => true
  {
  }

  /** The error of an outcome, and the tree after it. */
  function ErrorOf(r: Outcome): Option<Error> {
    match r case Done(_) => None case Failed(e) => Some(e)
  }

  function TreeAfter(r: Outcome, t: Tree): Tree {
    match r case Done(u) => u case Failed(_) => t
  }

  lemma InsertDoes(s: Scheme, call: Invocation, m: map<Bytes, Values>)
    requires call.Insert? && Callable(s.fields, call) && Refusal(s, OpOf(s.fields, call), m) == None
    ensures Does(s, call, m, Effect(OpOf(s.fields, call), m), None)
  {
    hide Raw, Field.Encode;
    var n := Effect(OpOf(s.fields, call), m);
    forall i | 0 <= i < |call.values|
      ensures Raw(call.values[i], n[call.key][i])
    {
      FieldBytes(s.fields[i], call.values[i], n[call.key][i]);
    }
  }

  /** The raw bytes a record has after `Set`. */
  lemma MergeWrites(s: Scheme, was: Values, args: seq<Argument>)
    requires TypedArguments(s.fields, args) && |was| == |s.fields|
    ensures Written(was, args, Merge(was, Changes(s.fields, args)))
  {
    hide Raw, Field.Encode;
    var now := Merge(was, Changes(s.fields, args));
    forall i | 0 <= i < |args| && args[i].Put?
      ensures Raw(args[i].v, now[i])
    {
      FieldBytes(s.fields[i], args[i].v, now[i]);
    }
  }

  lemma SetDoes(s: Scheme, call: Invocation, m: map<Bytes, Values>)
    requires (call.Assign? || call.AssignField?) && Callable(s.fields, call) && call.key in m
    requires |m[call.key]| == |s.fields|
    ensures Does(s, call, m, Effect(OpOf(s.fields, call), m), None)
  {
    hide Raw, Field.Encode, Merge, Changes;
    if call.Assign? {
      MergeWrites(s, m[call.key], call.args);
    } else {
      var args := OneField(s.fields, call.field, call.value);
      MergeWrites(s, m[call.key], args);
      assert args[call.field] == Put(call.value);
    }
  }

  /** Whatever answers as the map demands does what the call promises. */
  lemma AnswersDo(s: Scheme, call: Invocation, t: Tree, r: Outcome)
    requires Callable(s.fields, call) && Answers(s, OpOf(s.fields, call), Map(t), r) && r != Failed(Panic)
    requires forall k | k in Map(t) :: |Map(t)[k]| == |s.fields|
    ensures Does(s, call, Map(t), Map(TreeAfter(r, t)), ErrorOf(r))
  {
    hide Written, Raw, Merge, Changes, Encoded, OneField;
    match call
    case Insert(_, _) => if r.Done? { InsertDoes(s, call, Map(t)); }
    case Assign(_, _) => if r.Done? { SetDoes(s, call, Map(t)); }
    case AssignField(_, _, _) => if r.Done? { SetDoes(s, call, Map(t)); }
    case Delete(_) =>
  }

  lemma {:induction false} MapFits(s: Scheme, lazy: bool, t: Tree, p: seq<bool>)
    requires Ok(s, lazy, t, p)
    ensures forall k | k in Map(t) :: s.Fit(Map(t)[k])
    decreases t
  {
    if t.Fork? {
      var inner := lazy && t.c.dirty && t.ChildrenKnown();
      MapFits(s, inner, t.left, p + [false]);
      MapFits(s, inner, t.right, p + [true]);
    }
  }

  /** A typed call, on a full collection or a pruned copy, inside a transaction or outside: it asks for a
      proof; or it panics, which it does only for a new key with the digest of another one; or it does to the
      map what it promises, field by field. */
  lemma CallDoes(s: Scheme, og: bool, call: Invocation, t: Tree)
    requires Ok(s, og, t, []) && t.Fork? && Callable(s.fields, call)
    ensures var r := Manipulate(s, og, OpOf(s.fields, call), t);
            || r == Failed(ProofNeeded)
            || (r == Failed(Panic) && call.Insert? && call.key !in Map(t) && Twin(s, Map(t), call.key))
            || Does(s, call, Map(t), Map(TreeAfter(r, t)), ErrorOf(r))
  {
    hide Ok, Modify, Does, Callable, OpOf, Effect;
    var op := OpOf(s.fields, call);
    CallableGood(s, call);
    SameKind(s, call);
    OkRoot(s, og, t);
    if t.ChildrenKnown() { OkBranches(s, og, t, []); }
    ModifyMap(s, og, op, t, s.Path(op.key), []);
    MapFits(s, og, t, []);
    var r := Manipulate(s, og, op, t);
    if r != Failed(ProofNeeded) && r != Failed(Panic) { AnswersDo(s, call, t, r); }
  }

  lemma OkRoot(s: Scheme, og: bool, t: Tree)
    requires t.Fork? && Ok(s, og, t, [])
    ensures t.c.known
  {
  }

  lemma SameKind(s: Scheme, call: Invocation)
    requires Callable(s.fields, call)
    ensures OpOf(s.fields, call).Add? <==> call.Insert?
  {
  }

  /** What a call does is determined by the call and the map. */
  lemma DoesOnce(s: Scheme, call: Invocation, m: map<Bytes, Values>, n1: map<Bytes, Values>, e1: Option<Error>,
        n2: map<Bytes, Values>, e2: Option<Error>)
    requires Callable(s.fields, call) && Does(s, call, m, n1, e1) && Does(s, call, m, n2, e2)
    ensures n1 == n2 && e1 == e2
  {
    assert call.key in n1 <==> call.key in n2;
    if call.key in n1 && !(call.Insert? && call.key in m) {
      assert |n1[call.key]| == |n2[call.key]|;
      assert forall i | 0 <= i < |n1[call.key]| :: n1[call.key][i] == n2[call.key][i];
      assert n1[call.key] == n2[call.key];
    }
    assert forall k :: k in n1 <==> k in n2;
    assert forall k | k in n1 :: n1[k] == n2[k];
  }

  // ------------------------------------------------------------- what `Get` returns

  /** What `Values` of a record returns; None is one of its errors. */
  function RecordValues(s: Scheme, r: Record): Option<seq<Value>> {
    if r.Found? then Decoded(s.fields, r.values) else None
  }

  lemma {:induction false} DecodedAt(fields: seq<Field>, raw: Values, i: nat, values: seq<Value>)
    requires i <= |fields| == |raw|
    ensures DecodedFrom(fields, raw, i) == Some(values) <==>
            && |values| == |fields| - i
            && forall j | 0 <= j < |values| :: fields[i + j].Decode(raw[i + j]) == Some(values[j])
    decreases |fields| - i
  {
    if i < |fields| && values != [] {
      DecodedAt(fields, raw, i + 1, values[1..]);
      assert values == [values[0]] + values[1..];
      assert forall j | 0 < j < |values| :: values[j] == values[1..][j - 1];
    }
  }

  lemma DecodedExactly(fields: seq<Field>, raw: Values, values: seq<Value>)
    ensures Decoded(fields, raw) == Some(values) <==>
            |raw| == |fields| == |values| && forall i | 0 <= i < |values| :: fields[i].Decode(raw[i]) == Some(values[i])
  {
    if |raw| == |fields| { DecodedAt(fields, raw, 0, values); }
  }

  lemma {:induction false} FitDecodes(fields: seq<Field>, raw: Values, i: nat)
    requires i <= |fields| == |raw| && forall j | i <= j < |fields| :: fields[j].Fits(raw[j])
    ensures DecodedFrom(fields, raw, i).Some?
    decreases |fields| - i
  {
    if i < |fields| {
      FitDecodes(fields, raw, i + 1);
    }
  }

  /** A call that succeeds has found every node of its path, and the nodes beside it. */
  lemma {:induction false} DoneKnown(s: Scheme, og: bool, op: Op, t: Tree, path: Digest, d: nat)
    requires t.Fork? && t.c.known && d <= BITS && Modify(s, og, op, t, path, d).Done?
    ensures KnownPath(t, path, d)
    decreases t
  {
    hide Bit;
    var next := t.Child(Bit(path, d));
    if next.Fork? {
      DoneKnown(s, og, op, next, path, d + 1);
    }
  }

  lemma KnownLookup(s: Scheme, lazy: bool, t: Tree, key: Bytes)
    requires key != [] && Ok(s, lazy, t, []) && KnownPath(t, s.Path(key), 0)
    ensures Lookup(s, t, key) == if key in Map(t) then Found(Map(t)[key]) else Absent
    ensures key in Map(t) ==> Decoded(s.fields, Map(t)[key]).Some?
  {
    KnownRecord(t, key, s.Path(key), 0);
    RecordIsMap(s, lazy, t, key, []);
    MapFits(s, lazy, t, []);
    if key in Map(t) { FitDecodes(s.fields, Map(t)[key], 0); }
  }

  /** Before and after a call that succeeds, `Get` finds the record of its key. */
  lemma CallLooksUp(s: Scheme, og: bool, call: Invocation, t: Tree)
    requires Ok(s, og, t, []) && t.Fork? && Callable(s.fields, call)
    requires Manipulate(s, og, OpOf(s.fields, call), t).Done?
    ensures var u := Manipulate(s, og, OpOf(s.fields, call), t).t;
            && Ok(s, og, u, []) && KnownPath(t, s.Path(call.key), 0) && KnownPath(u, s.Path(call.key), 0)
  {
    hide Ok, Modify, Callable, OpOf, KnownPath;
    var op, path := OpOf(s.fields, call), s.Path(call.key);
    CallableGood(s, call);
    OkRoot(s, og, t);
    DoneKnown(s, og, op, t, path, 0);
    if t.ChildrenKnown() { OkBranches(s, og, t, []); }
    ModifyOk(s, og, op, t, path, []);
    ModifyKnown(s, og, op, t, path, path, 0);
  }

  /** The typed values a record has after the call, given those it had before. */
  ghost predicate Shows(call: Invocation, was: Record, before: Option<seq<Value>>, now: Record,
        after: Option<seq<Value>>)
  {
    match call
    case Insert(_, values) => was == Absent && after == Some(values)
    case Assign(_, args) =>
      && before.Some? && after.Some? && |before.value| == |after.value| == |args|
      && forall i | 0 <= i < |args| :: after.value[i] == (match args[i] case Put(v) => v case Keep => before.value[i])
    case AssignField(_, field, value) =>
      before.Some? && after.Some? && field < |before.value| && after.value == before.value[field := value]
    case Delete(_) => before.Some? && now == Absent
  }

  lemma InsertShows(s: Scheme, call: Invocation, m: map<Bytes, Values>, n: map<Bytes, Values>)
    requires call.Insert? && Callable(s.fields, call) && Does(s, call, m, n, None)
    ensures Decoded(s.fields, n[call.key]) == Some(call.values)
  {
    hide Raw;
    forall i | 0 <= i < |call.values|
      ensures s.fields[i].Decode(n[call.key][i]) == Some(call.values[i])
    {
      FieldBytes(s.fields[i], call.values[i], n[call.key][i]);
    }
    DecodedExactly(s.fields, n[call.key], call.values);
  }

  lemma WrittenShows(s: Scheme, was: Values, args: seq<Argument>, now: Values, before: seq<Value>, after: seq<Value>)
    requires TypedArguments(s.fields, args) && Written(was, args, now)
    requires Decoded(s.fields, was) == Some(before) && Decoded(s.fields, now) == Some(after)
    ensures |before| == |after| == |args|
    ensures forall i | 0 <= i < |args| :: after[i] == (match args[i] case Put(v) => v case Keep => before[i])
  {
    hide Raw;
    DecodedExactly(s.fields, was, before);
    DecodedExactly(s.fields, now, after);
    forall i | 0 <= i < |args|
      ensures after[i] == match args[i] case Put(v) => v case Keep => before[i]
    {
      if args[i].Put? { FieldBytes(s.fields[i], args[i].v, now[i]); }
    }
  }

  lemma SetShows(s: Scheme, call: Invocation, m: map<Bytes, Values>, n: map<Bytes, Values>, before: seq<Value>,
        after: seq<Value>)
    requires (call.Assign? || call.AssignField?) && Callable(s.fields, call) && Does(s, call, m, n, None)
    requires call.key in m && Decoded(s.fields, m[call.key]) == Some(before)
    requires Decoded(s.fields, n[call.key]) == Some(after)
    ensures Shows(call, Found(m[call.key]), Some(before), Found(n[call.key]), Some(after))
  {
    hide Raw;
    var was, now := m[call.key], n[call.key];
    if call.Assign? {
      WrittenShows(s, was, call.args, now, before, after);
    } else {
      var args := OneField(s.fields, call.field, call.value);
      DecodedExactly(s.fields, was, before);
      forall i | 0 <= i < |args|
        ensures match args[i] case Put(v) => Raw(v, now[i]) case Keep => now[i] == was[i]
      {
      }
      WrittenShows(s, was, args, now, before, after);
      assert after == before[call.field := call.value];
    }
  }

  /** What `Get` returns after a call that succeeds, in typed values: what was added; of a record that was
      set, the values given and the others as they were; nothing of a removed record. */
  lemma GetAfterCall(s: Scheme, og: bool, call: Invocation, t: Tree)
    requires Ok(s, og, t, []) && t.Fork? && Callable(s.fields, call)
    requires Manipulate(s, og, OpOf(s.fields, call), t).Done?
    ensures var u := Manipulate(s, og, OpOf(s.fields, call), t).t;
            var was, now := Lookup(s, t, call.key), Lookup(s, u, call.key);
            Shows(call, was, RecordValues(s, was), now, RecordValues(s, now))
  {
    hide Ok, KnownPath, Manipulate, Lookup, OpOf, Decoded, Written, Raw, Twin;
    var u := Manipulate(s, og, OpOf(s.fields, call), t).t;
    CallDoes(s, og, call, t);
    CallLooksUp(s, og, call, t);
    KnownLookup(s, og, t, call.key);
    KnownLookup(s, og, u, call.key);
    match call
    case Insert(_, _) => InsertShows(s, call, Map(t), Map(u));
    case Assign(key, _) =>
      SetShows(s, call, Map(t), Map(u), Decoded(s.fields, Map(t)[key]).value, Decoded(s.fields, Map(u)[key]).value);
    case AssignField(key, _, _) =>
      SetShows(s, call, Map(t), Map(u), Decoded(s.fields, Map(t)[key]).value, Decoded(s.fields, Map(u)[key]).value);
    case Delete(_) =>
  }

  // ------------------------------------------------------- what a proof returns

  /** A proof that answers as the map does gives the typed values stored under its key, and an error when
      there is none. */
  lemma ValuesOfProof(s: Scheme, lazy: bool, t: Tree, proof: Proof)
    requires Ok(s, lazy, t, []) && 0 < |proof.steps| <= BITS && Faithful(s, t, proof)
    ensures match ProofValues(s, proof)
            case None => proof.key !in Map(t)
            case Some(values) =>
              && proof.key in Map(t) && |values| == |s.fields| == |Map(t)[proof.key]|
              && forall i | 0 <= i < |values| :: Raw(values[i], Map(t)[proof.key][i]) && s.fields[i].Accepts(values[i])
  {
    hide Raw, Last, MatchProof;
    MapFits(s, lazy, t, []);
    if proof.key in Map(t) {
      var raw := Map(t)[proof.key];
      FitDecodes(s.fields, raw, 0);
      var values := Decoded(s.fields, raw).value;
      DecodedExactly(s.fields, raw, values);
      forall i | 0 <= i < |values|
        ensures Raw(values[i], raw[i]) && s.fields[i].Accepts(values[i])
      {
        FieldBytes(s.fields[i], values[i], raw[i]);
      }
    }
  }

  /** A proof that a collection produces returns the stored values, in the middle of a transaction too. */
  lemma ProducedValues(s: Scheme, t: Tree, key: Bytes, values: seq<Value>)
    requires key != [] && Ok(s, true, t, []) && Unmistakable(t) && (t.c.known ==> t.Fork?) && Prove(s, t, key).Some?
    ensures |Prove(s, t, key).value.steps| <= BITS
    ensures key !in Map(t) ==> ProofValues(s, Prove(s, t, key).value) == None
    ensures key in Map(t) && Typed(s.fields, values) && Map(t)[key] == Encoded(s.fields, values) ==>
              ProofValues(s, Prove(s, t, key).value) == Some(values)
  {
    hide ProofValues, Faithful, Decoded, Prove, Ok;
    ProofExactly(s, t, key);
    StoredValues(s, true, t, Prove(s, t, key).value, values);
  }

  lemma StoredValues(s: Scheme, lazy: bool, t: Tree, proof: Proof, values: seq<Value>)
    requires Ok(s, lazy, t, []) && 0 < |proof.steps| <= BITS && Faithful(s, t, proof)
    ensures proof.key !in Map(t) ==> ProofValues(s, proof) == None
    ensures proof.key in Map(t) && Typed(s.fields, values) && Map(t)[proof.key] == Encoded(s.fields, values) ==>
              ProofValues(s, proof) == Some(values)
  {
    if Typed(s.fields, values) { DecodedEncoded(s.fields, values); }
  }

  /** So does a proof that `Verify` accepts on a pruned copy: what it returns is what the full collection
      holds, unless two of the hashed tuples collide or one hashes to zero. */
  lemma AcceptedValues(s: Scheme, small: Tree, big: Tree, proof: Proof, values: seq<Value>)
    requires proof.key != [] && |proof.steps| <= BITS
    requires Prunes(s, small, big, []) && Merkle(s, big, []) && big.Fork? && KnownPath(big, s.Path(proof.key), 0)
    requires CollisionFree(s, TreePreimages(big) + ProofPreimages(proof)) && Proofs.Verify(s, small, proof).Accepted?
    ensures proof.key !in Map(big) ==> ProofValues(s, proof) == None
    ensures proof.key in Map(big) && Typed(s.fields, values) && Map(big)[proof.key] == Encoded(s.fields, values) ==>
              ProofValues(s, proof) == Some(values)
  {
    hide ProofValues, Decoded, Graft, CollisionFree, TreePreimages, KnownPath, Prunes, Chain;
    VerifyPrunes(s, small, big, proof);
    StoredValues(s, false, big, proof, values);
  }
}
