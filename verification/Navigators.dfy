/** Navigation by stake: every query below the total reaches one record, each record as many
    queries as its stake (collection/navigators.go, collection/field.go). */
module Navigators {
  import opened ByteSlices
  import opened Fields
  import opened Trees
  import opened Rules
  import opened Refinement
  import opened Canonical
  import opened Pruning

  /** What `Navigate(field, value).Record()` reports; a record comes with what is left of the query. */
  datatype Landing = Unseen | Astray | Arrived(c: Cell, query: Bytes)

  function NavigateFrom(s: Scheme, f: nat, t: Tree, query: Bytes): Landing
    requires f < |s.fields|
    decreases t
  {
    if !t.c.known then Unseen
    else
      match t
      case Tip(c, _) => Arrived(c, query)
      case Fork(c, _, l, r) =>
        if !t.ChildrenKnown() then Unseen
        else
          match s.fields[f].Navigate(query, At(c.values, f), At(l.c.values, f), At(r.c.values, f))
          case Lost => Astray
          case GoLeft => NavigateFrom(s, f, l, query)
          case GoRight(rest) => NavigateFrom(s, f, r, rest)
  }

  // ------------------------------------------------------------------- stakes

  /** The stake among raw values. */
  function StakeAt(values: Values, f: nat): Uint64 {
    match DecodeStake(At(values, f)) case None => 0 case Some(n) => n
  }

  /** The leaves of a tree, placeholders included, in the order of their paths. */
  function Leaves(t: Tree): seq<Cell> {
    match t case Tip(c, _) => [c] case Fork(_, _, l, r) => Leaves(l) + Leaves(r)
  }

  /** The stake of the leaves before leaf i. */
  function Before(cells: seq<Cell>, f: nat, i: nat): nat
    requires i <= |cells|
  {
    if i == 0 then 0 else Before(cells, f, i - 1) + StakeAt(cells[i - 1].values, f)
  }

  function Total(cells: seq<Cell>, f: nat): nat {
    Before(cells, f, |cells|)
  }

  /** The queries of leaf i: an interval as long as its stake. */
  ghost predicate Owns(cells: seq<Cell>, f: nat, i: nat, q: nat)
    requires i < |cells|
  {
    Before(cells, f, i) <= q < Before(cells, f, i) + StakeAt(cells[i].values, f)
  }

  lemma {:induction false} BeforeAppend(a: seq<Cell>, b: seq<Cell>, f: nat, i: nat)
    requires i <= |a| + |b|
    ensures Before(a + b, f, i) == if i <= |a| then Before(a, f, i) else Before(a, f, |a|) + Before(b, f, i - |a|)
    decreases i
  {
    if i > 0 {
      BeforeAppend(a, b, f, i - 1);
      assert (a + b)[i - 1] == if i <= |a| then a[i - 1] else b[i - 1 - |a|];
    }
  }

  lemma BeforeStart(cells: seq<Cell>, f: nat)
    ensures Before(cells, f, 0) == 0
  {
  }

  lemma BeforeNext(cells: seq<Cell>, f: nat, i: nat)
    requires i < |cells|
    ensures Before(cells, f, i + 1) == Before(cells, f, i) + StakeAt(cells[i].values, f)
  {
  }

  lemma {:induction false} BeforeGrows(cells: seq<Cell>, f: nat, i: nat, j: nat)
    requires i <= j <= |cells|
    ensures Before(cells, f, i) <= Before(cells, f, j)
    decreases j - i
  {
    if i < j {
      BeforeGrows(cells, f, i, j - 1);
    }
  }

  /** The intervals do not overlap. */
  lemma OwnerUnique(cells: seq<Cell>, f: nat, i: nat, j: nat, q: nat)
    requires i < |cells| && j < |cells| && Owns(cells, f, i, q) && Owns(cells, f, j, q)
    ensures i == j
  {
    if i < j { BeforeGrows(cells, f, i + 1, j); }
    if j < i { BeforeGrows(cells, f, j + 1, i); }
  }

  // ---------------------------------------------------- conservation of stake

  lemma StakeOfParent(s: Scheme, f: nat, t: Tree)
    requires f < |s.fields| && s.fields[f] == Stake64
    requires t.Fork? && Settled(s, t) && t.ChildrenKnown() && s.Fit(t.left.c.values) && s.Fit(t.right.c.values)
    ensures StakeAt(t.c.values, f) == (StakeAt(t.left.c.values, f) + StakeAt(t.right.c.values, f)) % U64
  {
    var l, r := t.left.c.values, t.right.c.values;
    assert s.fields[f].Fits(l[f]) && s.fields[f].Fits(r[f]);
    ParentsAt(s.fields, l, r, 0, f);
    StakeRoundTrip((DecodeStake(l[f]).value + DecodeStake(r[f]).value) % U64);
  }

  /** One step of the navigation. */
  lemma NavigateStep(s: Scheme, f: nat, t: Tree, q: Uint64)
    requires f < |s.fields| && s.fields[f] == Stake64
    requires t.Fork? && t.c.known && t.ChildrenKnown() && s.Fit(t.c.values) && s.Fit(t.left.c.values)
    ensures var l := StakeAt(t.left.c.values, f);
            NavigateFrom(s, f, t, EncodeStake(q))
            == if q >= StakeAt(t.c.values, f) then Astray
               else if q >= l then NavigateFrom(s, f, t.right, EncodeStake(q - l))
               else NavigateFrom(s, f, t.left, EncodeStake(q))
  {
    StakeRoundTrip(q);
    assert s.fields[f].Fits(t.c.values[f]) && s.fields[f].Fits(t.left.c.values[f]);
  }

  lemma WrapSum(a: nat, b: nat)
    ensures (a % U64 + b % U64) % U64 == (a + b) % U64
  {
  }

  lemma FitOf(s: Scheme, t: Tree, p: seq<bool>)
    requires Merkle(s, t, p) && t.c.known
    ensures s.Fit(t.c.values)
    ensures t.Fork? ==> Settled(s, t) && Merkle(s, t.left, p + [false]) && Merkle(s, t.right, p + [true])
  {
  }

  /** Conservation: the stake of a node is the stake of the leaves below it, modulo 2^64. */
  lemma {:induction false} StakeIsSum(s: Scheme, f: nat, t: Tree, p: seq<bool>)
    requires f < |s.fields| && s.fields[f] == Stake64 && Full(t) && Merkle(s, t, p)
    ensures s.Fit(t.c.values) && StakeAt(t.c.values, f) == Total(Leaves(t), f) % U64
    decreases t
  {
    hide StakeAt, Parents, Settled, Merkle, Before;
    FitOf(s, t, p);
    if t.Fork? {
      StakeIsSum(s, f, t.left, p + [false]);
      StakeIsSum(s, f, t.right, p + [true]);
      StakeOfParent(s, f, t);
      var l, r := Leaves(t.left), Leaves(t.right);
      BeforeAppend(l, r, f, |l| + |r|);
      BeforeStart(r, f);
      WrapSum(Total(l, f), Total(r, f));
    } else {
      BeforeStart([t.c], f);
      BeforeNext([t.c], f, 0);
    }
  }

  /** One step of the navigation, in terms of the leaves on either side. */
  lemma NavigateTotals(s: Scheme, f: nat, t: Tree, p: seq<bool>, q: Uint64)
    requires f < |s.fields| && s.fields[f] == Stake64 && Full(t) && Merkle(s, t, p) && t.Fork?
    ensures Merkle(s, t.left, p + [false]) && Merkle(s, t.right, p + [true])
    ensures var l, r := Leaves(t.left), Leaves(t.right);
            && Total(Leaves(t), f) == Total(l, f) + Total(r, f)
            && NavigateFrom(s, f, t, EncodeStake(q))
            == if q >= Total(Leaves(t), f) % U64 then Astray
               else if q >= Total(l, f) % U64 then NavigateFrom(s, f, t.right, EncodeStake(q - Total(l, f) % U64))
               else NavigateFrom(s, f, t.left, EncodeStake(q))
  {
    hide StakeAt, Settled, EncodeStake, NavigateFrom, Before, Merkle, Parents;
    FitOf(s, t, p);
    StakeIsSum(s, f, t, p);
    StakeIsSum(s, f, t.left, p + [false]);
    NavigateStep(s, f, t, q);
    var l, r := Leaves(t.left), Leaves(t.right);
    BeforeAppend(l, r, f, |l| + |r|);
    BeforeStart(r, f);
  }

  // ----------------------------------------------------------------- partition

  lemma ReachesTip(s: Scheme, f: nat, t: Tree, q: nat)
    requires f < |s.fields| && t.Tip? && t.c.known && q < Total(Leaves(t), f) < U64
    ensures Leaves(t) == [t.c] && Before([t.c], f, 0) == 0 && Owns([t.c], f, 0, q)
    ensures NavigateFrom(s, f, t, EncodeStake(q)) == Arrived(t.c, EncodeStake(q))
  {
    assert Before([t.c], f, 1) == Before([t.c], f, 0) + StakeAt(t.c.values, f);
  }

  /** A query below the total of a tree whose stakes do not overflow reaches the leaf that owns it. */
  lemma {:induction false} ReachesOwner(s: Scheme, f: nat, t: Tree, p: seq<bool>, q: nat) returns (i: nat)
    requires f < |s.fields| && s.fields[f] == Stake64 && Full(t) && Merkle(s, t, p)
    requires q < Total(Leaves(t), f) < U64
    ensures i < |Leaves(t)| && Owns(Leaves(t), f, i, q)
    ensures NavigateFrom(s, f, t, EncodeStake(q)) == Arrived(Leaves(t)[i], EncodeStake(q - Before(Leaves(t), f, i)))
    decreases t
  {
    hide StakeAt, EncodeStake, NavigateFrom, Merkle, Before;
    if t.Tip? {
      i := 0;
      ReachesTip(s, f, t, q);
    } else {
      var l, r := Leaves(t.left), Leaves(t.right);
      NavigateTotals(s, f, t, p, q);
      if q < Total(l, f) {
        i := ReachesOwner(s, f, t.left, p + [false], q);
        BeforeAppend(l, r, f, i);
      } else {
        var j := ReachesOwner(s, f, t.right, p + [true], q - Total(l, f));
        i := |l| + j;
        BeforeAppend(l, r, f, i);
        BeforeStart(r, f);
      }
    }
  }

  /** Stake navigation is an exact partition when the stakes do not overflow: a query fails exactly
      when it is not below the total, and reaches a leaf exactly when the leaf owns it. */
  lemma NavigationIsPartition(s: Scheme, f: nat, t: Tree, q: Uint64)
    requires f < |s.fields| && s.fields[f] == Stake64 && WellFormed(s, t) && Total(Leaves(t), f) < U64
    ensures var r := NavigateFrom(s, f, t, EncodeStake(q));
            && (r == Astray <==> q >= Total(Leaves(t), f))
            && r != Unseen
            && (forall i | 0 <= i < |Leaves(t)| && Owns(Leaves(t), f, i, q) ::
                  r == Arrived(Leaves(t)[i], EncodeStake(q - Before(Leaves(t), f, i))))
            && (r.Arrived? ==> exists i | 0 <= i < |Leaves(t)| :: Owns(Leaves(t), f, i, q) && r.c == Leaves(t)[i])
  {
    hide StakeAt, EncodeStake, NavigateFrom, Leaves, Merkle, Compact, Before;
    var cells := Leaves(t);
    NavigateTotals(s, f, t, [], q);
    forall i | 0 <= i < |cells| && Owns(cells, f, i, q)
      ensures q < Total(cells, f)
    {
      BeforeNext(cells, f, i);
      BeforeGrows(cells, f, i + 1, |cells|);
    }
    if q < Total(cells, f) {
      var i := ReachesOwner(s, f, t, [], q);
      forall j | 0 <= j < |cells| && Owns(cells, f, j, q)
        ensures j == i
      {
        OwnerUnique(cells, f, i, j, q);
      }
    }
  }

  /** A leaf owns as many queries as its stake; a placeholder owns none. */
  lemma ShareIsStake(s: Scheme, f: nat, t: Tree, i: nat)
    requires f < |s.fields| && s.fields[f] == Stake64 && WellFormed(s, t) && i < |Leaves(t)|
    ensures |set q: nat | q < Total(Leaves(t), f) && Owns(Leaves(t), f, i, q)| == StakeAt(Leaves(t)[i].values, f)
    ensures Leaves(t)[i].key == [] ==> StakeAt(Leaves(t)[i].values, f) == 0
  {
    var cells := Leaves(t);
    var lo := Before(cells, f, i);
    BeforeGrows(cells, f, i + 1, |cells|);
    IntervalSize(lo, StakeAt(cells[i].values, f));
    assert (set q: nat | q < Total(cells, f) && Owns(cells, f, i, q)) == Interval(lo, StakeAt(cells[i].values, f));
    LeavesOk(s, t, [], i);
    StakeRoundTrip(0);
  }

  function Interval(lo: nat, n: nat): set<nat> {
    if n == 0 then {} else Interval(lo, n - 1) + {lo + n - 1}
  }

  lemma {:induction false} IntervalSize(lo: nat, n: nat)
    ensures |Interval(lo, n)| == n && forall q: nat :: q in Interval(lo, n) <==> lo <= q < lo + n
    decreases n
  {
    if n > 0 {
      IntervalSize(lo, n - 1);
    }
  }

  /** Every leaf of an up-to-date full tree is a sound leaf on its path. */
  lemma {:induction false} LeavesOk(s: Scheme, t: Tree, p: seq<bool>, i: nat)
    requires Full(t) && Merkle(s, t, p) && i < |Leaves(t)|
    ensures var c := Leaves(t)[i];
            && s.Fit(c.values) && (c.key == [] ==> c.values == s.PlaceholderValues())
            && (c.key != [] ==> c.key in Map(t) && Map(t)[c.key] == c.values)
    decreases t
  {
    if t.Fork? {
      var n := |Leaves(t.left)|;
      if i < n {
        LeavesOk(s, t.left, p + [false], i);
      } else {
        LeavesOk(s, t.right, p + [true], i - n);
      }
      OkBranches(s, false, t, p);
      OtherSide(s, false, t, p, Zero());
    }
  }

  /** Every association has its leaf. */
  lemma {:induction false} LeafOfKey(t: Tree, key: Bytes) returns (i: nat)
    requires key in Map(t) && key != []
    ensures i < |Leaves(t)| && Leaves(t)[i].key == key && Leaves(t)[i].values == Map(t)[key]
    decreases t
  {
    match t
    case Tip(_, _) => i := 0;
    case Fork(_, _, l, r) =>
      if key in Map(r) {
        i := LeafOfKey(r, key);
        i := |Leaves(l)| + i;
      } else {
        i := LeafOfKey(l, key);
      }
  }

  /** No two records have the same key. */
  lemma {:induction false} LeafKeysDiffer(s: Scheme, t: Tree, p: seq<bool>, i: nat, j: nat)
    requires Full(t) && Merkle(s, t, p) && i < j < |Leaves(t)| && Leaves(t)[i].key != []
    ensures Leaves(t)[i].key != Leaves(t)[j].key
    decreases t
  {
    hide Bit;
    if t.Fork? {
      var n := |Leaves(t.left)|;
      if j < n {
        LeafKeysDiffer(s, t.left, p + [false], i, j);
      } else if i >= n {
        LeafKeysDiffer(s, t.right, p + [true], i - n, j - n);
      } else {
        OkBranches(s, false, t, p);
        OtherSide(s, false, t, p, Zero());
        LeavesOk(s, t.left, p + [false], i);
        LeavesOk(s, t.right, p + [true], j - n);
      }
    }
  }

  /** `Navigate(f, q).Record()` comes back with the record of this key. */
  ghost predicate Lands(s: Scheme, f: nat, t: Tree, q: nat, key: Bytes)
    requires f < |s.fields|
  {
    q < U64 && var r := NavigateFrom(s, f, t, EncodeStake(q)); r.Arrived? && r.c.key == key
  }

  lemma LandsWhereOwned(s: Scheme, f: nat, t: Tree, q: Uint64, i: nat)
    requires f < |s.fields| && s.fields[f] == Stake64 && WellFormed(s, t) && Total(Leaves(t), f) < U64
    requires i < |Leaves(t)| && Leaves(t)[i].key != []
    ensures Lands(s, f, t, q, Leaves(t)[i].key) <==> Owns(Leaves(t), f, i, q)
    ensures Lands(s, f, t, q, Leaves(t)[i].key) ==> q < Total(Leaves(t), f)
  {
    hide StakeAt, EncodeStake, NavigateFrom, Leaves, Merkle, Compact, Before, Owns, Full;
    NavigationIsPartition(s, f, t, q);
    var r := NavigateFrom(s, f, t, EncodeStake(q));
    if r.Arrived? {
      var j :| 0 <= j < |Leaves(t)| && Owns(Leaves(t), f, j, q) && r.c == Leaves(t)[j];
      if i < j { LeafKeysDiffer(s, t, [], i, j); }
      if j < i && Leaves(t)[j].key != [] { LeafKeysDiffer(s, t, [], j, i); }
    }
  }

  /** A record is drawn with a probability proportional to its stake: of the queries below the total,
      navigation takes as many to it as it has stake, and brings back its values; no query
      lands on a placeholder. */
  lemma QueriesPerRecord(s: Scheme, f: nat, t: Tree, key: Bytes)
    requires f < |s.fields| && s.fields[f] == Stake64 && WellFormed(s, t) && Total(Leaves(t), f) < U64
    requires key in Map(t) && key != []
    ensures |set q: nat | q < Total(Leaves(t), f) && Lands(s, f, t, q, key)| == StakeAt(Map(t)[key], f)
    ensures forall q: Uint64 | Lands(s, f, t, q, key) :: NavigateFrom(s, f, t, EncodeStake(q)).c.values == Map(t)[key]
    ensures forall q: Uint64 :: !Lands(s, f, t, q, [])
  {
    hide StakeAt, EncodeStake, NavigateFrom, Leaves, Merkle, Compact, Before, Full, Owns;
    var i := LeafOfKey(t, key);
    forall q: nat | q < Total(Leaves(t), f)
      ensures Lands(s, f, t, q, key) <==> Owns(Leaves(t), f, i, q)
    {
      LandsWhereOwned(s, f, t, q, i);
    }
    ShareIsStake(s, f, t, i);
    assert (set q: nat | q < Total(Leaves(t), f) && Lands(s, f, t, q, key))
        == (set q: nat | q < Total(Leaves(t), f) && Owns(Leaves(t), f, i, q));
    forall q: Uint64
      ensures !Lands(s, f, t, q, [])
      ensures Lands(s, f, t, q, key) ==> NavigateFrom(s, f, t, EncodeStake(q)).c.values == Map(t)[key]
    {
      LandsOnRecord(s, f, t, q);
    }
  }

  /** Navigation arrives at associations only, and brings back what the map holds. */
  lemma LandsOnRecord(s: Scheme, f: nat, t: Tree, q: Uint64)
    requires f < |s.fields| && s.fields[f] == Stake64 && WellFormed(s, t) && Total(Leaves(t), f) < U64
    ensures !Lands(s, f, t, q, [])
    ensures forall key | Lands(s, f, t, q, key) ::
              key in Map(t) && NavigateFrom(s, f, t, EncodeStake(q)).c.values == Map(t)[key]
  {
    hide StakeAt, EncodeStake, NavigateFrom, Leaves, Merkle, Compact, Before, Full;
    NavigationIsPartition(s, f, t, q);
    var r := NavigateFrom(s, f, t, EncodeStake(q));
    if r.Arrived? {
      var j :| 0 <= j < |Leaves(t)| && Owns(Leaves(t), f, j, q) && r.c == Leaves(t)[j];
      ShareIsStake(s, f, t, j);
      LeavesOk(s, t, [], j);
    }
  }

  /** A query is used up on the way: what a navigator keeps for a second call is the query it was given
      if and only if there is no stake before the record it reached. */
  lemma QuerySurvives(s: Scheme, f: nat, t: Tree, q: Uint64, i: nat)
    requires f < |s.fields| && s.fields[f] == Stake64 && WellFormed(s, t) && Total(Leaves(t), f) < U64
    requires i < |Leaves(t)| && Owns(Leaves(t), f, i, q)
    ensures var r := NavigateFrom(s, f, t, EncodeStake(q));
            r.Arrived? && (r.query == EncodeStake(q) <==> Before(Leaves(t), f, i) == 0)
  {
    hide StakeAt, NavigateFrom, Leaves, Merkle, Compact, Before, Full, EncodeStake;
    NavigationIsPartition(s, f, t, q);
    StakeRoundTrip(q);
    StakeRoundTrip(q - Before(Leaves(t), f, i));
  }

  /** Asked again, a navigator names a record again, and it is the record named before if and only if the
      query was at least twice the stake that lies before that record. */
  lemma AskedAgain(s: Scheme, f: nat, t: Tree, q: Uint64, i: nat)
    requires f < |s.fields| && s.fields[f] == Stake64 && WellFormed(s, t) && Total(Leaves(t), f) < U64
    requires i < |Leaves(t)| && Owns(Leaves(t), f, i, q)
    ensures var first := NavigateFrom(s, f, t, EncodeStake(q));
            && first.Arrived? && first.c == Leaves(t)[i]
            && var second := NavigateFrom(s, f, t, first.query);
            && second.Arrived? && second.c.key != []
            && (second.c == first.c <==> q >= 2 * Before(Leaves(t), f, i))
            && (second.c.key == first.c.key <==> q >= 2 * Before(Leaves(t), f, i))
  {
    hide StakeAt, NavigateFrom, Leaves, Merkle, Compact, Before, Full, EncodeStake;
    var rest := q - Before(Leaves(t), f, i);
    NavigationIsPartition(s, f, t, q);
    NavigationIsPartition(s, f, t, rest);
    ShareIsStake(s, f, t, i);
    LandsWhereOwned(s, f, t, rest, i);
    LandsOnRecord(s, f, t, rest);
  }

  /** When the total overflows 64 bits the partition breaks: some query below the total is turned away.
      Hence it is exact if and only if the total stays below 2^64. */
  lemma PartitionExactly(s: Scheme, f: nat, t: Tree)
    requires f < |s.fields| && s.fields[f] == Stake64 && WellFormed(s, t)
    ensures (forall q: Uint64 :: NavigateFrom(s, f, t, EncodeStake(q)) == Astray <==> q >= Total(Leaves(t), f))
       <==> Total(Leaves(t), f) < U64
  {
    hide StakeAt, EncodeStake, NavigateFrom, Leaves, Merkle, Compact;
    var total := Total(Leaves(t), f);
    if total < U64 {
      forall q: Uint64
        ensures NavigateFrom(s, f, t, EncodeStake(q)) == Astray <==> q >= total
      {
        NavigationIsPartition(s, f, t, q);
      }
    } else {
      var q: Uint64 := total % U64;
      NavigateTotals(s, f, t, [], q);
      assert NavigateFrom(s, f, t, EncodeStake(q)) == Astray && q < total;
    }
  }

  /** On a pruned copy navigation stops at an unknown subtree, or ends as on the full tree. */
  lemma {:induction false} NavigatePrunes(s: Scheme, f: nat, small: Tree, big: Tree, p: seq<bool>, query: Bytes)
    requires f < |s.fields| && Prunes(s, small, big, p)
    ensures var a, b := NavigateFrom(s, f, small, query), NavigateFrom(s, f, big, query);
            || a == Unseen || a == b
            || (a.Arrived? && b.Arrived? && SameCell(a.c, b.c) && a.query == b.query)
    decreases small
  {
    if small.c.known && small.Fork? && small.ChildrenKnown() {
      match s.fields[f].Navigate(query, At(small.c.values, f), At(small.left.c.values, f), At(small.right.c.values, f))
      case Lost =>
      case GoLeft => NavigatePrunes(s, f, small.left, big.left, p + [false], query);
      case GoRight(rest) => NavigatePrunes(s, f, small.right, big.right, p + [true], rest);
    }
  }

  // ------------------------------------------------------------- two records

  /** A collection that was given two records, the first to the left of the second. */
  function TwoRecords(s: Scheme, a: Bytes, b: Bytes, va: Values, vb: Values): Tree {
    History(s, false, Empty(s), [Op.Add(a, va), Op.Add(b, vb)])
  }

  lemma TwoRecordsLeaves(s: Scheme, f: nat, a: Bytes, b: Bytes, va: Values, vb: Values)
    requires a != [] && b != [] && s.Fit(va) && s.Fit(vb) && !Bit(s.Path(a), 0) && Bit(s.Path(b), 0)
    ensures var t := TwoRecords(s, a, b, va, vb);
            && WellFormed(s, t) && |Leaves(t)| == 2
            && Leaves(t)[0].key == a && Leaves(t)[0].values == va && Leaves(t)[1].key == b && Leaves(t)[1].values == vb
            && Before(Leaves(t), f, 0) == 0 && Before(Leaves(t), f, 1) == StakeAt(va, f)
            && Total(Leaves(t), f) == StakeAt(va, f) + StakeAt(vb, f)
  {
    hide Bit, WellFormed, Scheme.Path, Scheme.Fit, Manipulate, StakeAt, Before;
    var first, second := Op.Add(a, va), Op.Add(b, vb);
    EmptyWellFormed(s);
    HistoryRefinesMap(s, Empty(s), [first, second]);
    EmptyHoles(s);
    FillsHole(s, first, Empty(s));
    var u := Manipulate(s, false, first, Empty(s)).t;
    FillsHole(s, second, u);
    TwoCalls(s, Empty(s), first, second);
    assert TwoRecords(s, a, b, va, vb) == Manipulate(s, false, second, u).t;
    var t := TwoRecords(s, a, b, va, vb);
    assert Leaves(t) == [t.left.c] + [t.right.c];
    BeforeStart(Leaves(t), f);
    BeforeNext(Leaves(t), f, 0);
    BeforeNext(Leaves(t), f, 1);
  }

  lemma TwoCalls(s: Scheme, t: Tree, first: Op, second: Op)
    requires Manipulate(s, false, first, t).Done?
    ensures var u := Manipulate(s, false, first, t).t;
            History(s, false, t, [first, second])
            == match Manipulate(s, false, second, u) case Done(w) => w case Failed(_) => u
  {
    hide Manipulate;
    assert [first, second][..1] == [first] && [first][..0] == [];
    assert History(s, false, t, [first]) == Manipulate(s, false, first, t).t;
  }

  lemma EmptyHoles(s: Scheme)
    ensures var t := Empty(s);
            t.Fork? && t.c.known && t.ChildrenKnown() && t.left.Placeholder() && t.right.Placeholder()
  {
  }

  /** An `Add` whose path starts with a placeholder below the root. */
  lemma FillsHole(s: Scheme, op: Op, t: Tree)
    requires op.Add? && t.Fork? && t.c.known && t.ChildrenKnown() && t.Child(Bit(s.Path(op.key), 0)).Placeholder()
    ensures var r, step := Manipulate(s, false, op, t), Bit(s.Path(op.key), 0);
            && r.Done? && r.t.Fork? && r.t.c.known && r.t.ChildrenKnown() && r.t.Child(!step) == t.Child(!step)
            && r.t.Child(step).Tip? && r.t.Child(step).c.key == op.key && r.t.Child(step).c.values == op.values
  {
    hide Bit, Scheme.Path, Parents, Scheme.LeafLabel, Scheme.InnerLabel;
    var path := s.Path(op.key);
    var hole := t.Child(Bit(path, 0));
    assert Below(s, false, op, hole, path, 1) == AtTip(s, false, op, hole, path, 1);
  }

  /** Overflow is within reach: two `Add`s make a collection with a query below its total that is
      turned away. */
  lemma OverflowReached(s: Scheme, f: nat, a: Bytes, b: Bytes, va: Values, vb: Values)
    requires f < |s.fields| && s.fields[f] == Stake64
    requires a != [] && b != [] && s.Fit(va) && s.Fit(vb) && !Bit(s.Path(a), 0) && Bit(s.Path(b), 0)
    requires StakeAt(va, f) >= U64 / 2 && StakeAt(vb, f) >= U64 / 2
    ensures var t := TwoRecords(s, a, b, va, vb);
            && WellFormed(s, t) && Total(Leaves(t), f) >= U64
            && exists q: Uint64 :: NavigateFrom(s, f, t, EncodeStake(q)) == Astray && q < Total(Leaves(t), f)
  {
    hide StakeAt, EncodeStake, NavigateFrom, Leaves, Merkle, Compact, Before, TwoRecords, Full;
    var t := TwoRecords(s, a, b, va, vb);
    TwoRecordsLeaves(s, f, a, b, va, vb);
    var q: Uint64 := Total(Leaves(t), f) % U64;
    NavigateTotals(s, f, t, [], q);
  }

  /** A navigator asked a second time can name another record: the first query of the right record,
      asked again with what is left of it, lands on the left one. */
  lemma AskedTwice(s: Scheme, f: nat, a: Bytes, b: Bytes, va: Values, vb: Values)
    requires f < |s.fields| && s.fields[f] == Stake64
    requires a != [] && b != [] && s.Fit(va) && s.Fit(vb) && !Bit(s.Path(a), 0) && Bit(s.Path(b), 0)
    requires StakeAt(va, f) > 0 && StakeAt(vb, f) > 0 && StakeAt(va, f) + StakeAt(vb, f) < U64
    ensures var t := TwoRecords(s, a, b, va, vb);
            var first := NavigateFrom(s, f, t, EncodeStake(StakeAt(va, f)));
            && first.Arrived? && first.c.key == b
            && var second := NavigateFrom(s, f, t, first.query); second.Arrived? && second.c.key == a
  {
    hide StakeAt, EncodeStake, NavigateFrom, Leaves, Merkle, Compact, Before, TwoRecords, Full;
    var t := TwoRecords(s, a, b, va, vb);
    TwoRecordsLeaves(s, f, a, b, va, vb);
    assert Owns(Leaves(t), f, 1, StakeAt(va, f)) && Owns(Leaves(t), f, 0, 0);
    NavigationIsPartition(s, f, t, StakeAt(va, f));
    NavigationIsPartition(s, f, t, 0);
  }
}
