# Verified model of lleap's `collection`

This project models the Go package `collection` of lleap and the small database of the service that
is built on it, and proves properties of the model with Dafny's verifier. `dafny verify dfyconfig.toml`
checks everything.

A collection is a Merkle tree that maps non-empty keys to tuples of values. A full server keeps the whole
tree; a verifier keeps a root label, learns parts of the tree from proofs, applies updates to them and
forgets them again. The model has three layers.

* **Trees as values.** `Trees.Tree` is the tree with labels, keys, values, `known` flags, the dirty marks of
  a transaction (`transaction.inconsistent` in the source) and the backups a transaction attaches to nodes.
  A node without children is a `Tip`: a leaf, a placeholder (empty key) or an unknown subtree. `Add`, `Set`
  and `Remove` are one function `Manipulate` of an `Op`; `og` says whether a transaction is ongoing. Most
  theorems are about these functions.
* **Nodes on the heap.** `Nodes.Node` and `Collections.Collection` have the fields of the source and its
  loops: down with a cursor, up along parent pointers, recursive explorers for transactions and for garbage
  collection. Each method is proved equal to the function on trees, through a ghost shape (which node is
  whose child, backup, or detached child of a backup) and a zipper around the cursor.
* **Slices.** In the source, two nodes can refer to the same slice of values and `Set` writes it in place.
  `Slices` makes slices explicit and proves that readers never notice while a transaction lasts, `Sharing`
  gives the exact condition under which `Rollback` does, both on full collections and on pruned copies;
  `SharedRuns` carries both over whole runs of a full collection: as long as no call meets that condition, the
  source does what the value model says.

The hash is a parameter: any function from tuples to 32 bytes. Nothing assumes it injective. Where it
matters, a statement names the finite set of tuples that are hashed and assumes that no two of them collide
and none hashes to zeros (`Proofs.CollisionFree`), or it speaks of keys with distinct paths. `Serialization`
proves that tuples and byte strings correspond, so a collision of tuples is one of byte strings.

Files, bottom up: `ByteSlices`, `Serialization`, `Fields`, `Trees` (definitions); `Rules`, `Refinement`,
`Canonical`, `Splitting` (one tree); `Pruning`, `Transactions`, `Sessions`, `Machines`, `Scopes` (pruned copies,
transactions, runs, garbage collection); `Proofs`, `Navigators`, `Updates`, `UpdateRuns`, `SharedUpdates`
(protocols); `Nodes`, `Collections`, `Getters`, `Verifiers`, `Proxies`, `Service` (heap); `Calls`, `Stories` (what typed
calls, proofs and updates answer); `Slices`, `Sharing`,
`SharedRuns` (slices).

## Findings

* **Rule 4 of the documentation is too weak.** collection/README.md:558-566 says its four rules make maps and
  trees a bijection. They admit a pair of placeholders below a non-root node (`DocumentedRulesTooWeak`). The
  code keeps a stronger rule: at least two associations below every non-root inner node. `CompactExactly`
  says what is missing, `SameMapSameTree` is the bijection for the rule the code keeps.
* **`Rollback` can bring back changed values.** `Remove` hands the slice of the lifted leaf to its ancestor
  (collection/manipulators.go:248-254), the leaf itself has no backup, and a later `Set` of the lifted record
  writes that slice in place (line 148). `FailingRun` is a run of the source that fails: two `Add`s to a new
  collection, then `Begin`, `Remove`, `Set`, `Rollback`. `RollbackExactly` is the exact condition for each call,
  and in terms of calls alone only a `Set` of a record that a `Remove` of the same transaction has lifted, and
  that was not removed since, can break it (`OnlyLiftedOffends`, `SafeToRollBack`). `RollbackIsUndo` and
  `RunRefinesStore` are about values; `SlicesFollow` says that they describe the source as long as no such call
  is made.
* **`Rollback` leaves dirty marks.** They stay on nodes without a backup. On any tree whose root carried neither
  mark nor backup at `Begin`, pruned copies included, the root is marked afterwards exactly when some call
  of the transaction had succeeded (`RollbackLeavesMark`; on a full collection its map tells which calls those
  are, `DoneIsAccepted`), and `Verify` and `Prepare` then panic. The next `End` clears every mark (`RunEndsClean`).
* **A proof taken in the middle of a transaction can be inconsistent.** `Begin`, one `Add` to a new collection, and the
  proof for the added key carries the unchanged root label beside the new leaf (`ProofInTransaction`).
  A proof is consistent exactly when no inner node it dumps has a label that is out of date (`ProofExactly`);
  that no inner node it dumps is marked is enough (`UnmarkedProof`), and outside a transaction it
  always is (`ProofComplete`).
* **Stake navigation is exact only below 2^64.** `PartitionExactly` is the condition, both ways, and two `Add`s
  are enough to break it (`OverflowReached`).
* **Asked again, a navigator can name another record.** The query it was given is overwritten on the way
  (collection/field.go:122); two records are enough to see it (`AskedTwice`). A second call names the record of
  the first exactly when the query was at least twice the stake before that record (`AskedAgain`), and the query itself
  survives exactly when there is no stake before it (`QuerySurvives`).
* **A refused `Prepare` still teaches.** What earlier proofs of the same update taught the tree stays. `PrepareTeaches`
  says when it changes nothing: exactly when the paths of the proofs before the first rejected one were known.

## Model

| member | source | states |
|---|---|---|
| ByteSlices.SetBitSets | collection/byteslice.go:19-35 | writing bit i of a buffer changes what `bit` reads at i and nowhere else, most significant bit first |
| ByteSlices.WriteBit | collection/byteslice.go:26-35 | `setbit` on the caller's buffer, in place |
| ByteSlices.BitsOfByte | collection/byteslice.go:19-24 | the eight bits that `bit` reads off a byte spell that byte, most significant digit first |
| ByteSlices.EqualSlices | collection/byteslice.go:5-17 | the index loop decides equality of byte slices |
| ByteSlices.Match | collection/byteslice.go:37-55 | the byte-wise fast path decides whether two buffers agree on their first bits, for any number of bits |
| Serialization.DecodeEncode | collection/sha256.go:98-266 | any item, nested slices included, can be read back off the front of any byte string that starts with its encoding |
| Serialization.DecodeEncodeAll | collection/README.md:380-475 | the serialisation of a tuple, followed by anything, decodes to that tuple and leaves the rest |
| Serialization.EncodeInjective | collection/README.md:382-384 | different tuples have different serialisations |
| Serialization.Size | collection/sha256.go:33-96 | `size` is the number of bytes that `write` needs |
| Serialization.Write | collection/sha256.go:98-266 | the recursive writer fills exactly its stretch of the buffer, with the serialisation, and touches nothing else |
| Serialization.Sha256 | collection/sha256.go:7-269 | the buffer of the summed sizes is filled to its last byte, so what is hashed is the serialisation |
| Serialization.DocumentedNumbers | collection/README.md:402-407 | the documented examples of numbers and booleans: type prefixes, widths and byte order |
| Serialization.DocumentedNested | collection/README.md:433-471 | the documented example of nested slices, and the empty slice of slices, byte for byte |
| Serialization.TypePrefixes | collection/README.md:391-417 | the two tables of prefixes, with strings and slices of slices, and the number of bytes each type takes |
| Serialization.NumberDigits | collection/README.md:392 | every number is written big endian, a negative one in two's complement |
| Serialization.DocumentedSlices | collection/README.md:421-429 | the documented examples of slices and of a string: type prefixes, lengths, elements |
| Fields.StakeRoundTrip | collection/field.go:62-76 | a stake survives encoding and decoding |
| Fields.FieldRoundTrip | collection/field.go:34-76 | every value a field accepts survives encoding and decoding |
| Fields.ParentFits | collection/field.go:82-96 | the parent of two decodable values exists and is decodable |
| Fields.FieldBytes | collection/field.go:34-76 | the bytes a field stores for a value, and the one value it reads from any bytes: data as they are, a stake as eight bytes, big endian |
| Fields.PlaceholderBytes | collection/field.go:43-80 | a placeholder holds no data and a stake of zero |
| Fields.ParentBytes | collection/field.go:47-96 | an inner node holds no data and the sum of the stakes modulo 2^64; a stake of another length is an error |
| Fields.NavigateBytes | collection/field.go:51-127 | for every query, where it goes and what is left of it; data cannot be navigated |
| Rules.UpdateStops | collection/singlenode.go:34-44 | relabelling stops at the first field that reports an error: values before it are new, the others nil, the label stale |
| Rules.NoDataInside | collection/field.go:47-49 | an up-to-date inner node holds no data |
| Rules.UpdateSettles | collection/singlenode.go:22-50 | relabelling an inner node with known children makes its values and its label agree with theirs and changes nothing else |
| Rules.ModifyOk | collection/testctx.go:42-115 | a manipulator keeps every rule of the tree: paths, labels, computed values; inside a transaction up to marked nodes |
| Refinement.ModifyMap | collection/manipulators.go:10-272 | from an inner node on, a call gives the answer and the change of contents that the map of the associations demands |
| Refinement.KeysFollow | collection/README.md:557 | every key found below a node lies on that node's path |
| Canonical.ManipulateRefinesMap | collection/manipulators.go:10-272 | `Add` is refused exactly on a present key (and panics exactly on a key with the digest of another), `Set` and `Remove` are refused exactly on an absent one; success changes that binding only; the tree stays well formed |
| Canonical.ModifyCompact | collection/manipulators.go:235-265 | every call keeps at least two associations below each non-root inner node, collapsing over several levels included |
| Canonical.SameMapSameTree | collection/README.md:546-568 | two full well-formed trees with the same map are the same tree, labels and values included |
| Canonical.CompactExactly | collection/README.md:558 | the documented rule 4 gives compactness exactly when no non-root node has two placeholders |
| Canonical.DocumentedRulesTooWeak | collection/README.md:566 | a tree other than the empty collection's obeys the documented rules and holds the same, empty, map |
| Canonical.HistoryRefinesMap | collection/manipulators.go:10-272 | after any calls, refused ones included, the tree is well formed and holds the map of the same history |
| Canonical.SameMapSameState | collection/README.md:546-568 | any two histories that end in the same map end with the same root label |
| Canonical.EmptyWellFormed | collection/collection.go:23-39 | the tree of `New` is well formed and empty |
| Splitting.SplitsWherePathsPart | collection/manipulators.go:53-84 | an `Add` that meets another key builds a chain down to the first bit where the paths differ, with placeholders beside it and the two records side by side below its last node |
| Splitting.AddSplits | collection/manipulators.go:29-85 | keys with distinct digests part within the 256 bits, so the split ends and reads no bit beyond |
| Pruning.ManipulatePrunes | collection/manipulators.go:10-272 | a call on a pruned copy asks for a proof, or answers as on the full tree and leaves a pruning of the full tree's new state with the same root label |
| Pruning.RecordIsMap | collection/getters.go:18-45 | a record that is not hidden is the binding of the key, or absent when the map has none |
| Pruning.RecordPrunes | collection/getters.go:18-45 | a pruned copy hides a record or reports what the full tree reports |
| Pruning.ModifyKnown | collection/manipulators.go:25-32 | on a known path no proof is asked for, and a known path stays known whatever key a call changes |
| Transactions.ModifyLazy | collection/manipulators.go:87-99 | a call that only marks its ancestors leads, once relabelled, to the tree of the same call with immediate relabelling |
| Transactions.FixIsRelabel | collection/transaction.go:126-141 | visiting marked nodes only recomputes every label and value that could be stale |
| Transactions.RollbackIsRestored | collection/transaction.go:15-36 | visiting marked or backed-up nodes only reaches every backup there is |
| Transactions.RollbackNode | collection/node.go:67-73 | `Rollback` makes of each node what its first backup says, and leaves one without a backup as it is, mark included |
| Transactions.ModifyUndo | collection/node.go:49-73 | whatever a call does to a subtree, collapse and new splits included, the backups still lead back to the subtree at `Begin` |
| Transactions.ModifyClosed | collection/manipulators.go:94-95 | marks are closed upward: every call keeps that below an unmarked inner node nothing has a backup or a mark |
| Transactions.EndPure | collection/transaction.go:110-141 | after `End` no node has a backup, and none has a mark if marks were closed |
| Transactions.ModifyMarks | collection/manipulators.go:87-99 | a call inside a transaction marks no node of the tree to be rolled back to without marking the nodes above it |
| Sessions.CallInSession | collection/manipulators.go:10-272 | a call inside a transaction answers as the map demands and as the same call would outside; the transaction can still be ended or undone |
| Sessions.EndIsEager | collection/transaction.go:38-52 | `Begin`, any calls, `End` gives the tree, labels and values of the calls made outside a transaction, without a backup left, nor a mark if marks were closed upward at `Begin` |
| Sessions.RollbackIsUndo | collection/transaction.go:15-36 | on values, for any tree without backups, pruned copies included: `Begin`, any calls, `Rollback` gives back structure, labels, keys, values and known flags, hence the map and the rules the tree obeyed |
| Sessions.RollbackClosed | collection/transaction.go:20-36 | on any tree: the marks that `Rollback` leaves are closed upward if they were at `Begin`, so the next `End` finds them all |
| Machines.StepKeeps | collection/transaction.go:7-52 | every step of a collection is a step of a transactional map |
| Machines.RunRefinesStore | collection/transaction.go:7-52 | after any run of begins, ends, rollbacks and calls the tree holds the working map, can be rolled back to the committed one, carries marks that are closed upward, and at rest is well formed |
| Machines.RunsWithSameMapSameState | collection/README.md:546-568 | at rest the root label depends on the committed map alone, whatever run led there |
| Machines.RunEndsClean | collection/transaction.go:38-52 | in any run, whatever was rolled back before, `End` leaves no mark and no backup on any node |
| Machines.RollbackLeavesMark | collection/transaction.go:20-36 | on any tree with an unmarked root: after `Rollback` the root is marked inconsistent exactly when some call of the transaction had succeeded |
| Machines.DoneIsAccepted | collection/manipulators.go:10-272 | on a full collection the map alone tells whether a call of the transaction succeeds |
| Slices.WalkAlike | collection/manipulators.go:10-272 | with slices explicit, a call inside or outside a transaction, on a full collection or a pruned copy, takes the same turn as in the value model and leaves the same known flags, keys and values to be read |
| Slices.WalkSteady | collection/node.go:49-65 | up to the write of `Set`, a call inside a transaction leaves the keys and values that the backups lead back to |
| Sharing.ReadsAlike | collection/manipulators.go:66-84 | readers inside a transaction, of a full collection or a pruned copy, see the known flags, keys and values of the value model after any calls |
| Sharing.StepExactly | collection/manipulators.go:144-150 | one call leaves what `Rollback` would bring back unchanged exactly when it is no `Set` that changes a slice still held by the rollback target |
| Sharing.RollbackExactly | collection/transaction.go:15-36 | on full collections and pruned copies: as long as no call offends, one more call leaves `Rollback` able to restore the tree of `Begin`, labels, known flags and inner values included, if and only if it does not offend |
| Sharing.OnlyLiftedOffends | collection/manipulators.go:242-257 | a `Set` can offend only if its record was lifted by a `Remove` of the same transaction and not removed since |
| Sharing.SafeToRollBack | collection/transaction.go:15-36 | on full collections and pruned copies, a transaction whose `Set`s meet no lifted record is rolled back exactly, whatever else it calls |
| Sharing.OnlyRemoveLends | collection/manipulators.go:248-254 | without a `Remove` in the transaction no call offends, whatever the keys |
| SharedRuns.SlicesFollow | collection/transaction.go:7-52 | after any run in which no call offends, the slices show what the value model holds and what it would roll back to; at rest no two leaves share a slice |
| SharedRuns.RestStarts | collection/manipulators.go:10-272 | every collection reached by such a run meets, at rest, what the rollback theorems ask for |
| SharedRuns.LiftedThenSet | collection/manipulators.go:148 | the failing case: a record lifted by the removal of its neighbour, then changed, comes back changed |
| SharedRuns.FailingRun | collection/manipulators.go:248-254 | that case is reached from a new collection by two `Add`s, and `Rollback` then leaves a tree other than that of `Begin` |
| Scopes.Scope.MatchPath | collection/scope.go:14-59 | a path is in scope when it agrees with some mask on the bits both have, or by default when there is no mask |
| Scopes.CollectIsKeep | collection/transaction.go:54-106 | the explorer's path buffer, reused and overwritten, always spells the node's own path: what is kept depends on the position alone |
| Scopes.CollectPrunes | collection/transaction.go:54-106 | garbage collection leaves a pruned copy of the same tree with every surviving label |
| Scopes.KeepCovered | collection/transaction.go:61-73 | keys whose path matches a mask keep every known node of their path and its siblings |
| Scopes.KeepScoped | collection/transaction.go:61-66 | a known node at depth d of two or more survives only when its first d-2 bits are in scope |
| Scopes.KeepNone | collection/transaction.go:93-98 | an empty scope keeps the root label and nothing else |
| Scopes.CollectExactly | collection/transaction.go:54-106 | a known node survives garbage collection, contents unchanged, if and only if the steps to it without the last two agree with a mask, or there is no mask and everything is kept |
| Scopes.ManipulateShallow | collection/manipulators.go:29-34 | no call makes inner nodes deeper than a digest has bits |
| Proofs.DumpTells | collection/proof.go:39-52 | a consistent dump with the label of a known node tells its kind, key, values and children's labels, unless two tuples collide or one hashes to zero |
| Proofs.ProofSound | collection/proof.go:99-191 | an arbitrary proof that is consistent with the root label answers presence, absence and values as the map does, unless two of the hashed tuples collide or one hashes to zero |
| Proofs.ProofExactly | collection/getters.go:47-85 | a proof that any collection produces, in a transaction or not, carries the root label and answers as the map does; it is consistent exactly when every inner node it dumps has an up-to-date label |
| Proofs.UnmarkedProof | collection/transaction.go:126-141 | a proof that dumps no marked inner node is consistent, in the middle of a transaction too |
| Proofs.ProofInTransaction | collection/getters.go:47-85 | the failing case: after `Begin` and one `Add` to a new collection, the proof for the added key matches, carries the old root label and is not consistent unless tuples collide or hash to zero |
| Proofs.ProofComplete | collection/getters.go:47-85 | outside a transaction, a proof that is produced is consistent, carries the root label and answers as the map does |
| Proofs.ProvePrunes | collection/getters.go:47-85 | a pruned copy that can produce a proof produces the one of the full tree, up to date or not |
| Proofs.HonestProofAccepted | collection/verifiers.go:5-38 | outside a transaction, `Verify` accepts a proof produced by any pruned copy of a collection on every other, meets no missing child, alters no label and no known node and learns the key's path; no assumption on collisions |
| Proofs.StepsWhenKnown | collection/getters.go:62-82 | a proof can be produced exactly when the key's path and its siblings are known |
| Proofs.VerifyPrunes | collection/verifiers.go:5-38 | `Verify` rejects exactly the proofs with another root label or an inconsistency, meets no missing child, and leaves a pruning of the same tree that knows the key's path |
| Proofs.VerifyExtends | collection/proof.go:54-72 | whatever the proof, `Verify` changes no label and no known node |
| Proofs.TupleCollision | collection/README.md:382-384 | a collision of tuples is a collision of the underlying hash on two byte strings |
| Proofs.LeafNeverInner | collection/singlenode.go:28-46 | the bytes hashed for a leaf are never those hashed for an inner node |
| Proofs.LabelBytes | collection/singlenode.go:28-46 | the bytes hashed for the path of a key, for the label of a leaf and for the label of an inner node |
| Updates.PrepareAgrees | collection/update.go:108-125 | a pruned copy and the full tree accept the same proofs; afterwards the copy knows the paths of all declared keys |
| Updates.PrepareTeaches | collection/update.go:116-122 | `Prepare` leaves a copy as it was if and only if it knew the paths of all proofs before the first rejected one |
| Updates.AlterAgrees | collection/update.go:65-95 | a call on a declared key inside the transaction never lacks a proof and has the same outcome on the copy and on the full tree |
| Updates.EndPrunes | collection/transaction.go:38-52 | ending the transaction on both sides keeps the copy a pruning of the full tree |
| Updates.RollbackPrunes | collection/transaction.go:15-36 | rolling back on both sides does too, whatever each side called |
| Updates.UpdateAgrees | collection/update.go:140-167 | copy and full collection given the same update refuse it together, or see the same records and replies, never lack a proof for a declared key, and finish with the same root label |
| UpdateRuns.UpdatesAgree | collection/update.go:140-167 | they stay in step over any sequence of updates |
| UpdateRuns.VerifierAgrees | collection/collection.go:41-54 | a new verifier, knowing one label, and a new full collection tell the same story over any sequence of updates |
| SharedUpdates.PrepareAllAgrees | collection/update.go:108-125 | copy and collection that prepare several updates in one epoch refuse the same ones, and what one teaches the copy survives the others |
| SharedUpdates.SharedAgrees | collection/update.go:140-158 | of those, any applied inside one transaction, in any order and repeatedly, see the same records and replies on both sides; ending it leaves the same root label and a pruning, rolling it back the trees of `Begin` |
| SharedUpdates.ShareIsRun | collection/update.go:140-158 | these applications are steps of the run model that `Apply` is proved to make |
| UpdateRuns.UpdateFrame | collection/update.go:43-102 | whatever an update asks for, associations of undeclared keys are untouched and the tree is well formed again |
| UpdateRuns.PassesInItsEpoch | collection/update.go:140-143 | a prepared update passes `Apply`'s guard exactly when the number of transactions closed since `Prepare` is a multiple of 2^64 |
| UpdateRuns.AppliedOnce | collection/update.go:149-155 | outside a transaction a prepared update is performed at most once, until 2^64 transactions have been closed |
| UpdateRuns.ReactUserIsRun | collection/update.go:160-167 | outside a transaction, applying an unprepared update is the run that `UpdateAgrees` is about, and uses up one epoch exactly when it is performed |
| Calls.CallDoes | collection/manipulators.go:10-272 | a typed call, full or pruned, inside a transaction or not: it asks for a proof, panics exactly on a new key with another's digest, or reports the error of the map; on success the record holds, field by field, the bytes of the values given and its old bytes elsewhere, and no other key changes |
| Calls.DoesOnce | collection/update.go:65-95 | that determines the new map and the error |
| Calls.GetAfterCall | collection/record.go:58-80 | `Get` after a successful call returns the typed values added; after `Set` those given, and the others as before; after `SetField` only that field changes; after `Remove` nothing |
| Calls.CallableExactly | collection/field.go:34-60 | the calls accepted have one argument for each field, of its type |
| Calls.ValuesOfProof | collection/proof.go:114-158 | `Values` of any proof that answers as the map does gives the stored values, and fails exactly when the key is absent |
| Calls.ProducedValues | collection/proof.go:114-158 | so does `Values` of every proof a collection produces: the typed values that were stored |
| Calls.AcceptedValues | collection/proof.go:114-158 | and of every proof that `Verify` accepts on a pruned copy, unless tuples collide or hash to zero |
| Stories.CheckExactly | collection/update.go:145-147 | on full and pruned collections, the verdict is that of the update's own `Check`, shown the records of the map |
| Stories.ApplyExactly | collection/update.go:65-95 | an application gets exactly the replies, and leads to exactly the map, that its own requests demand one after the other; when one cannot be served it panics |
| Stories.PrepareExactly | collection/update.go:108-125 | on full and pruned collections, an update is refused exactly when one of its proofs is inconsistent or has another root label |
| Stories.PrepareInEpoch | collection/update.go:108-125 | `Prepare` lets an update through exactly when its proofs hold and the root is not marked, for the current epoch and the keys of its proofs |
| Stories.DeclaredExactly | collection/update.go:47-54 | the declared paths are those of the keys of the proofs |
| Stories.UpdateExactly | collection/update.go:140-167 | `Apply` on the full collection: refused exactly when a proof does not hold, turned away exactly when its check ends in false, performed exactly when it ends in true and its requests can be served, with their replies and their map |
| Stories.CopyExactly | collection/update.go:140-167 | the same answers from a pruned copy, decided by the map of the full collection |
| Stories.UseExactly | collection/update.go:140-158 | a prepared update inside a transaction or outside: turned away, performed or panicking as its own check and requests and the epoch demand |
| Stories.PrepareAllExactly | collection/update.go:108-125 | of several updates those are prepared whose proofs all hold |
| Stories.ShareExactly | collection/update.go:140-158 | several prepared updates inside one transaction are answered one after the other, each on the map the others have left |
| Navigators.StakeIsSum | collection/field.go:82-96 | the stake of a node is the sum of the leaf stakes below it modulo 2^64 |
| Navigators.NavigationIsPartition | collection/navigators.go:23-50 | when the stakes do not overflow a query fails exactly when it is not below the total, and reaches a leaf exactly when it lies in that leaf's interval |
| Navigators.QueriesPerRecord | collection/navigators.go:23-50 | when the stakes do not overflow, as many queries below the total land on a record as it has stake, with its values; none lands on a placeholder |
| Navigators.QuerySurvives | collection/field.go:121-123 | a navigator keeps the query it was given exactly when no stake lies before the record reached |
| Navigators.AskedAgain | collection/navigators.go:23-50 | a second call names a record again, the one of the first call exactly when the query was at least twice the stake before it |
| Navigators.AskedTwice | collection/field.go:121-123 | a navigator asked a second time can name another record |
| Navigators.PartitionExactly | collection/field.go:98-127 | failing exactly from the total on holds if and only if the total is below 2^64 |
| Navigators.OverflowReached | collection/field.go:95 | two `Add`s of stakes of 2^63 or more lead to a query below the total that is turned away |
| Navigators.LeavesOk | collection/navigators.go:31-32 | every leaf navigation can reach is an association of the map or a placeholder |
| Navigators.NavigatePrunes | collection/navigators.go:27-36 | on a pruned copy navigation stops at an unknown subtree or ends as on the full tree |
| Nodes.Node.Backup | collection/node.go:49-65 | the first state of the transaction is kept; a second call changes nothing |
| Nodes.Node.Restore | collection/node.go:67-73 | the node becomes what its backup says, and loses the backup |
| Nodes.Node.Branch | collection/node.go:75-81 | two new children that point back to the node |
| Nodes.FocusDown | collection/manipulators.go:34-41 | moving a cursor to a child keeps the heap tree, its links and the rest of the tree around the cursor |
| Nodes.FocusUp | collection/manipulators.go:87-92 | moving a cursor to the parent does too |
| Collections.Collection.New | collection/collection.go:23-39 | a new collection is well linked and is the empty tree, at full scope |
| Collections.Collection.NewVerifier | collection/collection.go:41-54 | a new verifier holds the label of the empty collection and nothing else |
| Collections.Collection.Clone | collection/collection.go:58-96 | a clone is built of new nodes and is the same tree without transaction bookkeeping |
| Collections.Collection.Update | collection/singlenode.go:22-50 | `update` changes the node's label and values as the function on trees says, stopping at the first field that reports an error |
| Collections.Collection.Placeholder | collection/singlenode.go:7-20 | the node becomes a labelled placeholder without children |
| Collections.Collection.Add | collection/manipulators.go:10-106 | the heap after `Add`, splitting loop and way up included, is the tree `Manipulate` gives, collected outside a transaction; an error changes nothing |
| Collections.Collection.Set | collection/manipulators.go:108-178 | the same for `Set` |
| Collections.Collection.SetField | collection/manipulators.go:180-195 | the same for `SetField`: the other fields keep their values |
| Collections.Collection.Remove | collection/manipulators.go:197-272 | the same for `Remove`, with collapses on the way up |
| Collections.Collection.Begin | collection/transaction.go:7-13 | opens a transaction, nothing else |
| Collections.Collection.Rollback | collection/transaction.go:15-36 | the heap after the explorer is the tree `RollbackTree` gives; the epoch is used up |
| Collections.Collection.Confirm | collection/transaction.go:110-124 | backups are dropped along marked and backed-up nodes |
| Collections.Collection.Fix | collection/transaction.go:126-141 | marked nodes are relabelled, children first |
| Collections.Collection.End | collection/transaction.go:38-52 | confirm, fix, collect if automatic collection is on; the epoch is used up |
| Collections.Collection.Collect | collection/transaction.go:54-106 | the heap after the explorer is the tree `CollectTree` gives |
| Getters.DecodedEncoded | collection/record.go:58-80 | the typed values given to `Add` are those that `Values` returns, for records and proofs |
| Getters.Getter.Record | collection/getters.go:18-45 | the loop reports the record of the tree |
| Getters.Getter.Proof | collection/getters.go:47-85 | the loop builds the proof of the tree, or fails when a part is unknown |
| Getters.NavigateField | collection/field.go:98-127 | the step, and the query buffer rewritten in place on the way to the right |
| Getters.Navigator.Record | collection/navigators.go:23-50 | the loop lands where the tree's navigation does; the navigator keeps only what is left of its query |
| Verifiers.CheckConsistent | collection/proof.go:162-191 | the loop decides consistency of a proof |
| Verifiers.ReadValues | collection/proof.go:114-158 | `Values` decodes the last dump of the proof when it carries the key, and fails otherwise |
| Verifiers.LearnNode | collection/proof.go:54-72 | an unknown node with the dump's label takes over its contents; any other node is left alone |
| Verifiers.Verify | collection/verifiers.go:5-38 | the heap after `Verify` is the tree the function on trees gives; a rejected proof changes nothing |
| Proxies.Prepare | collection/update.go:108-125 | proofs are checked in turn; the update is prepared in the current epoch, or refused with what was learnt so far kept |
| Proxies.Check | collection/update.go:56-63 | the verdict reached through the read-only proxy, the collection unchanged |
| Proxies.Perform | collection/update.go:149-151 | the update's calls inside a transaction give the tree and the replies of the run on trees |
| Proxies.ApplyPrepared | collection/update.go:140-158 | `Apply` of a prepared update makes exactly the step of the run model, inside and outside a transaction |
| Proxies.ApplyUpdate | collection/update.go:160-167 | `Prepare` and `Apply` in one, inside or outside a transaction: refusal, failed check or performed update, with tree, epoch and, outside, replies |
| Proxies.CopyIsSound | collection/update.go:108-125 | a pruned copy of a full collection meets what `ApplyUpdate` asks for, whatever the proofs |
| Service.CollectionDB.Store | service/struct.go:110-132 | a new key goes to the three buckets and the collection; a present one is refused and the bucket writes are rolled back; buckets and tree always describe the same map |
| Service.CollectionDB.LoadAll | service/struct.go:72-108 | in any order of the keys, loading succeeds exactly when every value has an eight-byte index and a signature, and then mirrors the buckets |
| Service.NewCollectionDB | service/struct.go:38-70 | a database opens exactly on buckets that can be loaded |
| Service.CollectionDB.GetValue | service/struct.go:134-174 | the stored index, value and signature of a present key, an error for an absent one |
| Service.SameBucketsSameRoot | service/struct.go:72-132 | two databases with the same buckets, one grown by `Store` and one reloaded, say, have the same root label |
| Service.ValidIsComplete | service/struct.go:84-101 | a live database meets everything that loading its buckets asks for |
| Service.Reload | service/struct.go:38-108 | a live database, loaded again in any order of the keys, gives the same tree with the same root label |
| Service.IndexRoundTrip | service/struct.go:112-113 | the stored index comes back |
| Service.IndexBytes | service/struct.go:112-113 | the eight bytes of a stored index, least significant first, and the index eight bytes stand for |

## Left out

- The insides of SHA-256, signatures, skipchains, identities, networking, `app/`, `conode/`, `status/`, `external/`: libraries and plumbing.
- `Serialize` and `Deserialize` of proofs (collection/proof.go:197-222): protobuf.
- `GetRoot` and `RootHash`: they return the root's key, not its label.
- Misuse that panics in the source (wrong arity or types, nested `Begin`, undeclared keys, a stale prepared update, `Verify` on a marked root, keys with equal digests): preconditions on the heap, `Panic`, `Crash` or None on values; the state after a panic is not described.
- The empty key: a leaf that holds it is a placeholder to the source. `Add` on the heap covers it, the theorems about maps and proofs ask for non-empty keys.
- Nodes with fewer values than the collection has fields, which only a proof of another collection could bring in: the source would panic on them, the model reads missing values as empty.
- Slices of keys and values that a caller keeps and changes, and slices a proof shares with the tree: bytes are immutable here. Slices shared between nodes are the subject of `Slices`, `Sharing` and `SharedRuns`.
- `Query` of a record: see the finding about navigators.
- Sessions.RollbackIsUndo: values are immutable here, so it covers the source up to the first call that offends in the sense of `Sharing`; from there on `Sharing.RollbackExactly` is the statement.
- SharedRuns.SlicesFollow: for full collections, whose runs the machine model describes; for pruned copies `Sharing` starts from a copy whose leaves share no slice.
- Machines.RunRefinesStore: its rollback steps are read the same way (`SharedRuns.SlicesFollow`); a run ends at a call that panics.
- Sharing.RollbackExactly: exact for the first offending call; later calls may by chance write the old values back.
- Fields other than `Data` and `Stake64`: the source's `Field` is an open interface (collection/field.go:17-23), the model's is closed to the two it provides.
- UpdateRuns.PassesInItsEpoch: its runs collect with one scope throughout, and after `End` as if automatic collection were on; neither touches the epochs.
- Collections.Collection.Collect: masks that announce more bits than their value has are excluded, because matching them runs off the buffer.
- Collections.Collection.Add: excludes the calls that panic, for another key with the same digest or a known root without children; so do `Set` and `Remove`.
- Getters.Getter.Record: excludes trees with inner nodes below the 256th level, where the source reads a bit that does not exist.
- Verifiers.Verify: proofs with more than 256 steps are excluded; the source would read a bit beyond the digest.
- Proofs.ProofExactly: asks that no inner node have two children labelled with zeros (`Unmistakable`), since the source would take its dump for a leaf's; so do `ProofComplete` and `HonestProofAccepted`. On a full collection outside a transaction `FullUnmistakable` derives it from no tuple hashing to zeros.
- Proofs.HonestProofAccepted: for a collection outside a transaction; a proof taken inside one can be inconsistent (`ProofExactly`), and `Verify` panics while the root is marked.
- Proofs.ProofSound: for trees that know the key's path; a proof for an unknown path is the business of `VerifyPrunes`.
- Stories.UpdateExactly: asks that no declared key have the digest of the empty key, since a lookup of the empty key would read a placeholder.
- Updates.UpdateAgrees: the checks and applications of an update are functions of the replies they have seen, with a bound on the number of requests; the copy is compared with a full collection that collects with full scope.
- Proxies.ApplyUpdate: the trees its proofs lead to are taken to have no inner node below the 256th level; `Proxies.CopyIsSound` shows that of every pruned copy.
- Service.CollectionDB.Store: Bolt is three finite maps and a rollback; commit failures, size limits and slice lifetimes are not modelled, and keys whose digests coincide are excluded.
- Service.NewCollectionDB: a cursor is any listing of the keys without repetition; buckets found on disk that hold the empty key or two keys with equal digests, which no database that was live can have left, are excluded.
