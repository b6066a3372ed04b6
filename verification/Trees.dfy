/** The tree of a collection as a value, and what one manipulator call does to it
    (collection/node.go, collection/singlenode.go, collection/manipulators.go). */
module Trees {
  import opened ByteSlices
  import opened Fields

  type Values = seq<Bytes>

  /** The plain fields of a node; `tag` is its label. */
  datatype Cell = Cell(tag: Digest, known: bool, dirty: bool, key: Bytes, values: Values)

  /** The backup a transaction attaches to a node: the node as it was, children included. */
  datatype Saved = Nothing | Kept(was: Tree)

  /** A node without children is a `Tip`: a leaf, a placeholder, or an unknown subtree. */
  datatype Tree =
    | Tip(c: Cell, saved: Saved)
    | Fork(c: Cell, saved: Saved, left: Tree, right: Tree)
  {
    /** `leaf()` and an empty key; unknown nodes satisfy it too. */
    predicate Placeholder() {
      Tip? && c.key == []
    }

    function Child(right: bool): Tree
      requires Fork?
    {
      if right then this.right else left
    }

    function WithChild(right: bool, child: Tree): Tree
      requires Fork?
    {
      if right then this.(right := child) else this.(left := child)
    }

    predicate ChildrenKnown()
      requires Fork?
    {
      left.c.known && right.c.known
    }
  }

  /** The node these steps lead to. */
  function NodeAt(t: Tree, q: seq<bool>): Option<Tree> {
    if q == [] then Some(t) else if t.Tip? then None else NodeAt(t.Child(q[0]), q[1..])
  }

  // --------------------------------------------------------- single-node steps

  /** `values[i]`, empty when the node has fewer values. */
  function At(values: Values, i: nat): Bytes {
    if i < |values| then values[i] else []
  }

  /** The parent values from field i on, up to the first field that reports an error. */
  function ParentsFrom(fields: seq<Field>, left: Values, right: Values, i: nat): (r: Values)
    ensures i <= |fields| ==> |r| <= |fields| - i
    decreases |fields| - i
  {
    if i >= |fields| then []
    else
      match fields[i].Parent(At(left, i), At(right, i))
      case None => []
      case Some(v) => [v] + ParentsFrom(fields, left, right, i + 1)
  }

  function Parents(fields: seq<Field>, left: Values, right: Values): Values {
    ParentsFrom(fields, left, right, 0)
  }

  /** The loop of `update` reaches field i + k exactly when the fields before it report no error. */
  lemma {:induction false} ParentsAt(fields: seq<Field>, l: Values, r: Values, i: nat, k: nat)
    requires i + k < |fields| && k <= |ParentsFrom(fields, l, r, i)|
    ensures var vs := ParentsFrom(fields, l, r, i);
            match fields[i + k].Parent(At(l, i + k), At(r, i + k))
            case None => |vs| == k
            case Some(v) => k < |vs| && vs[k] == v
    decreases k
  {
    if k > 0 {
      ParentsAt(fields, l, r, i + 1, k - 1);
    }
  }

  function Nils(n: nat): (r: Values)
    ensures |r| == n
  {
    seq(n, _ => [])
  }

  /** `update`: recomputes the label of a leaf, or the values and the label of an inner node. */
  function Update(s: Scheme, t: Tree): Tree {
    if !t.c.known then t
    else if t.Tip? then t.(c := t.c.(tag := s.LeafLabel(t.c.key, t.c.values)))
    else if !t.ChildrenKnown() then t
    else
      var vs := Parents(s.fields, t.left.c.values, t.right.c.values);
      if |vs| < |s.fields| then t.(c := t.c.(values := vs + Nils(|s.fields| - |vs|)))
      else t.(c := t.c.(values := vs, tag := s.InnerLabel(vs, t.left.c.tag, t.right.c.tag)))
  }

  /** `backup`: a node keeps the first state it had in the transaction. */
  function Backup(ongoing: bool, t: Tree): Tree {
    if ongoing && t.saved.Nothing? then t.(saved := Kept(t)) else t
  }

  /** `placeholder`. */
  function Emptied(s: Scheme, t: Tree): Tree {
    Update(s, Tip(t.c.(known := true, key := [], values := s.PlaceholderValues()), t.saved))
  }

  /** `new(node)`. */
  function Blank(): Tree {
    Tip(Cell(Zero(), false, false, [], []), Nothing)
  }

  // --------------------------------------------------------------- manipulators

  /** One argument of `Set`: keep the field, or store raw bytes. */
  datatype Change = Same | To(raw: Bytes)

  /** An argument of `Set` as the caller gives it: `Same{}` or a typed value. */
  datatype Argument = Keep | Put(v: Value)

  predicate Typed(fields: seq<Field>, values: seq<Value>) {
    |values| == |fields| && forall i | 0 <= i < |fields| :: fields[i].Accepts(values[i])
  }

  predicate TypedArguments(fields: seq<Field>, args: seq<Argument>) {
    |args| == |fields| && forall i | 0 <= i < |fields| && args[i].Put? :: fields[i].Accepts(args[i].v)
  }

  /** The arguments of `SetField`. */
  function OneField(fields: seq<Field>, field: nat, v: Value): (r: seq<Argument>)
    requires field < |fields| && fields[field].Accepts(v)
    ensures |r| == |fields| && TypedArguments(fields, r)
  {
    seq(|fields|, i requires 0 <= i < |fields| => if i == field then Put(v) else Keep)
  }

  /** The raw values of typed arguments. */
  function Encoded(fields: seq<Field>, values: seq<Value>): (raw: Values)
    requires Typed(fields, values)
    ensures |raw| == |fields|
  {
    seq(|fields|, i requires 0 <= i < |fields| => fields[i].Encode(values[i]))
  }

  function Changes(fields: seq<Field>, args: seq<Argument>): (r: seq<Change>)
    requires TypedArguments(fields, args)
    ensures |r| == |fields|
  {
    seq(|fields|, i requires 0 <= i < |fields| => if args[i].Keep? then Same else To(fields[i].Encode(args[i].v)))
  }

  datatype Op =
    | Add(key: Bytes, values: Values)
    | Set(key: Bytes, changes: seq<Change>)
    | Remove(key: Bytes)

  /** The errors the manipulators return; `Panic` is a run-time panic of the Go code. */
  datatype Error = ProofNeeded | KeyCollision | KeyNotFound | Panic

  datatype Outcome = Done(t: Tree) | Failed(e: Error)

  function Merge(was: Values, changes: seq<Change>): (r: Values)
    ensures |r| == |was|
  {
    seq(|was|, i requires 0 <= i < |was| => if i < |changes| && changes[i].To? then changes[i].raw else was[i])
  }

  /** A leaf turned into an inner node: the record moves down by the bit `step` of its own path. */
  function Split(s: Scheme, ongoing: bool, t: Tree, step: bool): (r: Tree)
    ensures r.Fork?
  {
    var record := Tip(Cell(t.c.tag, true, false, t.c.key, t.c.values), Nothing);
    var hole := Emptied(s, Blank());
    var b := Backup(ongoing, t);
    Fork(b.c.(key := []), b.saved, if step then hole else record, if step then record else hole)
  }

  /** What the three manipulators do where their descent stops at a node without children;
      an `Add` that meets another key splits the leaf and goes on one level below. */
  function AtTip(s: Scheme, ongoing: bool, op: Op, t: Tree, path: Digest, d: nat): Outcome
    requires t.Tip? && d <= BITS
    decreases BITS - d, 1
  {
    match op
    case Add(key, values) =>
      if t.c.key == [] then
        var b := Backup(ongoing, t);
        Done(Update(s, Tip(b.c.(key := key, values := values), b.saved)))
      else if t.c.key == key then Failed(KeyCollision)
      else if d == BITS then Failed(Panic)
      else Modify(s, ongoing, op, Split(s, ongoing, t, Bit(s.Path(t.c.key), d)), path, d)
    case Set(key, changes) =>
      if t.c.key != key then Failed(KeyNotFound)
      else
        var b := Backup(ongoing, t);
        Done(Update(s, Tip(b.c.(values := Merge(b.c.values, changes)), b.saved)))
    case Remove(key) =>
      if t.c.key != key then Failed(KeyNotFound) else Done(Emptied(s, Backup(ongoing, t)))
  }

  /** A placeholder next to a node without children. */
  predicate Collapsible(t: Tree) {
    t.Fork? && ((t.left.Placeholder() && t.right.Tip?) || (t.right.Placeholder() && t.left.Tip?))
  }

  /** The inner node takes over its one record and loses its children. */
  function Collapse(ongoing: bool, t: Tree): Tree
    requires t.Fork?
  {
    var b := Backup(ongoing, t);
    var from := if t.left.Placeholder() then t.right.c else t.left.c;
    Tip(b.c.(tag := from.tag, key := from.key, values := from.values), b.saved)
  }

  /** What happens to an ancestor of the changed node. */
  function Climb(s: Scheme, ongoing: bool, op: Op, t: Tree, root: bool): Tree
    requires t.Fork?
  {
    if op.Remove? && !root && Collapsible(t) then Collapse(ongoing, t)
    else if ongoing then t.(c := t.c.(dirty := true))
    else Update(s, t)
  }

  /** The descent from an inner node at depth d, the change, and the way back up. */
  function Modify(s: Scheme, ongoing: bool, op: Op, t: Tree, path: Digest, d: nat): Outcome
    requires t.Fork? && d <= BITS
    decreases BITS - d, 0
  {
    if !t.ChildrenKnown() then Failed(ProofNeeded)
    else if d == BITS then Failed(Panic)
    else
      var step := Bit(path, d);
      match Below(s, ongoing, op, t.Child(step), path, d + 1)
      case Failed(e) => Failed(e)
      case Done(u) => Done(Climb(s, ongoing, op, t.WithChild(step, u), d == 0))
  }

  /** The rest of the descent, from the node the last step led to. */
  function Below(s: Scheme, ongoing: bool, op: Op, t: Tree, path: Digest, d: nat): Outcome
    requires d <= BITS
    decreases BITS - d, 2
  {
    if t.Tip? then AtTip(s, ongoing, op, t, path, d) else Modify(s, ongoing, op, t, path, d)
  }

  /** A whole call of `Add`, `Set` or `Remove`, without the garbage collection at its end. */
  function Manipulate(s: Scheme, ongoing: bool, op: Op, t: Tree): Outcome {
    if !t.c.known then Failed(ProofNeeded)
    else if t.Tip? then Failed(Panic)
    else Modify(s, ongoing, op, t, s.Path(op.key), 0)
  }

  /** The tree of `New`. */
  function Empty(s: Scheme): Tree {
    var hole := Emptied(s, Blank());
    Update(s, Fork(Cell(Zero(), true, false, [], []), Nothing, hole, hole))
  }
}
