# A verified model of the l1chain state machine

This project models, in Dafny, the deterministic core of the l1chain blockchain and proves what
that core promises over every input, every run and every reachable state:

- **Trie and state** (`Codec`, `Tree`, `Merkle`, `NodeStore`, `State`, `MptState`, `StateRuns`, `OneView`,
  `StateProof`):
  the SHA-256 Merkle Patricia trie over a content-addressed node store, the two-level account state on
  top of it, and inclusion proofs. Tries are first described as trees (`Tree`); `Merkle` gives a tree
  its root hash; `NodeStore` and `MptState` are the classes that write encoded nodes into the map;
  `StateRuns` follows them through whole runs of updates; `OneView` ties the trie-backed database to the
  plain one the rest of the model runs on.
- **StackVM** (`Dispatch`, `Vm`, `VmLaws`, `Expressions`, `Programs`, `Contracts`, `VmExec`, `Ledger`): `Vm`
  is a semantics that copies the whole world at each CALL. `VmLaws` says what each instruction does to a run
  and for which price. `Expressions` and `Programs` translate expressions and a small language with variables,
  storage, branches and loops to bytecode and prove that the machine runs every program as written, to the
  unit of gas; `Contracts` carries this to frames, messages and nested calls. `VmExec` is the interpreter as
  written, with a gas meter and a chain of write journals changed in place, proved to compute what `Vm` does.
  `Ledger` holds the supply.
- **Fees and transitions** (`FeeMarket`, `Transition`): base-fee arithmetic in 64 bits and the effect of
  one transaction and one block.
- **Chain engine** (`Pos`, `Votes`, `Quorums`, `ChainLog`, `ChainLaws`, `ChainEngine`, `Plans`, `Scenarios`): the block
  tree, reorganisation, checkpoint votes, finality and jailing. A *log* lists the accepted blocks in order of acceptance;
  `ChainLog` defines everything the engine keeps as a function of the log, `ChainLaws` proves what
  holds of every log that can arise, and `ChainEngine.Engine` is the engine with its maps and fields,
  proved to hold exactly what its log determines. `Plans` shows that certain logs given in advance are
  accepted, and `Scenarios` uses it for the logs on which a comment in the source does not hold.
- **EVM adapter journal** (`Journal`, `Adapter`): an undo log proved to behave like a stack of full copies.
- **Block builder** (`Builder`, `BuilderLaws`): the greedy choice of pending transactions.

How the model is set up:

- The hash is an arbitrary function `sum: Bytes -> Hash` into 32-byte strings. Where a property depends
  on collisions, it carries the hypothesis `NoCollision(sum, inPlay)`: no two of the byte strings in play
  have the same hash, and none hashes to zero. Signatures (ECDSA, BLS), the block hash, the transaction
  root, the state root of a world and the proposer seed are function parameters.
- 64-bit arithmetic wraps explicitly (`Add64`, `Mul64`); a theorem that needs a sum not to wrap says so.
- Code that updates things in place is a class or a method with loops, proved equal to a specification
  function; the theorems are about those functions.
- Undo closures of the journal are a datatype `Entry`. Nested maps such as round to validator to target are
  one map with pairs as keys. A Go map with only `true` values is a set.

Where the code and its comments differ, the model follows the code:

- The comment on `attestedRound` says two conflicting targets can never both cross two thirds of the stake.
  That holds of the whole set's stake within one round (`Votes.OneQuorumPerRound`), but the code compares
  with the shrinking stake of the validators not jailed, and with a tally kept by hash over all rounds. So
  two targets of a round can both pass (`Quorums.JailingLetsTwoPass`, in an accepted log in
  `Scenarios.ConflictAccepted`), and one validator can finalise a hash it names in two rounds
  (`Quorums.OneHashTwoRounds`, `Scenarios.AloneAccepted`). `ChainLaws.FinalIsBacked` says what always stands
  behind a final checkpoint, and `ChainLaws.TwoTargetsNeedJailing` how much stake must be jailed for a conflict.
- The comment on `ErrConflictsWithFinalized` says no branch that conflicts with a finalised checkpoint can
  become canonical again. New blocks must descend from the present checkpoint only, and a vote may name a
  block of another branch that was stored before; when that block is finalised next, its branch can take the
  head (`Scenarios.FinalisedBranchLosesHead`). The head keeps its final ancestor until another checkpoint is
  final (`ChainLaws.HeadStaysFinal`); from then on a branch with the later checkpoint keeps the earlier one
  if and only if the later descends from it (`ChainLaws.EarlierFinalKept`), as it does when its block was stored
  while the earlier was final (`ChainLaws.NextFinalDescends`).
- The comment on `isFeePriced` says it follows the dispatch order of the state transition. It tests for
  attestations before embedded-EVM code and the transition after; the two agree except on attestations to
  an address with tagged code (`BuilderLaws.FeePricedExact`). No path modelled here installs code at the
  attestation address (`ChainLaws.CodeOnBranch`) unless a deployment's derived address is that address.

Nothing here was executed; every statement is checked by the Dafny verifier. `dafny verify dfyconfig.toml`
checks the whole project.

## Model

| member | source | states |
|---|---|---|
| Codec.NibblesOf | trie/node.go:49-55 | the loop computes the high-then-low nibbles of every byte |
| Codec.NibblesInjective | trie/node.go:49-67 | keys of equal length with equal nibbles are equal |
| Codec.CommonPrefixLen | trie/node.go:69-79 | the loop finds the length of the longest common prefix |
| Codec.CommonPrefixUnique | trie/node.go:69-79 | any agreeing prefix that ends at a difference or an end is the one found |
| Codec.PackNibbles | trie/node.go:85-95 | the buffer filled in place holds the packed nibbles, an odd last one padded |
| Codec.UnpackNibbles | trie/node.go:97-108 | the buffer filled in place holds the first `count` nibbles |
| Codec.UnpackPack | trie/node.go:85-108 | unpacking what was packed gives the nibbles back, for odd counts too |
| Codec.AppendChildren | trie/node.go:152-166 | the loop concatenates the sixteen child hashes |
| Codec.CutChildren | trie/node.go:237-262 | the loop cuts sixteen hashes out of the bytes |
| Codec.SplitConcat | trie/node.go:152-262 | cutting undoes concatenating |
| Codec.RoundTrip | trie/node.go:131-262 | a leaf, extension or branch decodes to itself if and only if its lengths fit their fields |
| Codec.EncodeInjective | trie/node.go:131-166 | two nodes in range with one encoding are the same node, across all three kinds |
| Codec.DecodedInRange | trie/node.go:182-262 | whatever decodes has lengths that fit their fields |
| Codec.TailsIgnored | trie/node.go:182-262 | a node in range decodes to itself whatever bytes follow its encoding |
| Codec.CutsRefused | trie/node.go:182-262 | no proper prefix of an encoding decodes |
| Codec.TagsDecide | trie/node.go:182-196 | an input is refused for its tag if and only if it is not empty and begins with none of the three; the empty input is too short |
| Codec.OtherFlags | trie/node.go:237-262 | a branch has a value only under the flag 1 |
| Tree.PutGet | trie/trie.go:56-160 | after a put, that path reads the value and every other path reads as before |
| Tree.DelGet | trie/trie.go:170-277 | after a delete, that path reads nothing and every other path reads as before |
| Tree.DelAbsent | trie/trie.go:162-224 | a delete returns the very same trie if and only if the path was absent |
| Tree.PutCanonical | trie/trie.go:84-160 | put keeps the canonical shape: no extension above a leaf or extension, no branch with fewer than two occupants |
| Tree.DelCanonical | trie/trie.go:170-277 | delete, with its merges and collapses, keeps the canonical shape |
| Tree.Unique | trie/trie.go:226-277 | two canonical tries with the same look-ups are the same trie |
| Tree.HistoryRefinesMap | trie/trie.go:8-224 | after any sequence of puts and deletes the trie reads as a plain map does |
| Tree.HistoryIndependence | trie/trie.go:84-277 | two histories give the same trie if and only if they leave the same contents |
| Merkle.RootInjective | trie/node.go:264-276 | without collisions two tries with one root are the same trie |
| Merkle.RootsDecideContents | trie/trie.go:48-224 | two histories give equal roots if and only if they leave equal contents |
| Merkle.LookupIsGet | trie/trie.go:12-46 | following hashes through the node map reads what the trie holds |
| Merkle.OldRootReads | trie/trie.go:48-168 | after any later writes an older root still reads exactly as before |
| Merkle.PutFits | trie/trie.go:56-160 | put keeps every path and value within its length field |
| Merkle.DelFits | trie/trie.go:170-277 | delete keeps every path and value within its length field |
| Merkle.GenProof | trie/proof.go:21-56 | the value found on the way is the one a look-up finds |
| Merkle.VerifyProof | trie/proof.go:66-110 | the loop accepts exactly the chains of encodings from the root to the value |
| Merkle.ProofComplete | trie/proof.go:15-56 | whatever is found with a proof is accepted with that proof |
| Merkle.ProofSound | trie/proof.go:58-110 | any chain accepted against the root of a trie proves what the trie holds there |
| Merkle.ProofUnique | trie/proof.go:15-110 | the only proof accepted for a key is the one generated for it: nothing can be appended, dropped or replaced |
| NodeStore.NodeStore.Store | trie/node.go:271-276 | one entry is added, keyed by the hash of the encoding |
| NodeStore.NodeStore.Get | trie/trie.go:8-46 | reading from a known root returns the trie's value |
| NodeStore.NodeStore.PutIntoLeaf | trie/trie.go:84-115 | the returned hash is the root of the leaf split, merged or replaced |
| NodeStore.NodeStore.PutIntoExtension | trie/trie.go:117-148 | the returned hash is the root of the extension after the put |
| NodeStore.NodeStore.PutIntoBranch | trie/trie.go:150-160 | the returned hash is the root of the branch after the put |
| NodeStore.NodeStore.PutAt | trie/trie.go:56-82 | a put at any known root names the trie after the put; a missing or broken node starts a new leaf |
| NodeStore.NodeStore.MergeIntoExtensionParent | trie/trie.go:232-249 | a path is merged into a leaf or extension below it and kept above a branch |
| NodeStore.NodeStore.CollapseBranch | trie/trie.go:258-277 | the counting loop collapses a branch with one occupant left and keeps any other |
| NodeStore.NodeStore.DelAt | trie/trie.go:170-224 | a delete at any known root names the trie after the delete; a missing or broken node changes nothing |
| NodeStore.NodeStore.Put | trie/trie.go:52-54 | without collisions the new root names the trie with the key's path written |
| NodeStore.NodeStore.Delete | trie/trie.go:166-168 | without collisions the new root names the trie without the key, and is the old root if and only if the key was absent |
| NodeStore.NodeStore.GenerateProof | trie/proof.go:15-19 | the value is the trie's and the proof returned with it is accepted |
| State.StateDB.SetAccount | state/statedb.go:77-79 | one account is replaced, nothing else changes |
| State.StateDB.SetCode | state/statedb.go:91-99 | code is replaced, empty code removed |
| State.StateDB.SetStorage | state/statedb.go:109-125 | one word is replaced, a zero word removed |
| MptState.AccountRoundTrip | state/mpt.go:35-54 | every account decodes from its encoding |
| MptState.SoundWrite | state/mpt.go:72-149 | replacing one account keeps both trie levels in step with the plain maps |
| MptState.MirrorsInjective | state/mpt.go:15-19 | two maps mirrored by one trie are the same map |
| MptState.RootsDecideViews | state/mpt.go:151-157 | two states have equal roots if and only if their balances, nonces, code and storage are equal |
| MptState.MptStateDB.constructor | state/mpt.go:25-30 | a new database mirrors empty maps |
| MptState.MptStateDB.GetAccount | state/mpt.go:64-70 | balance and nonce of the plain maps, with the hashes that commit to code and storage |
| MptState.MptStateDB.SetAccount | state/mpt.go:72-83 | the root names the world trie with the record replaced, or deleted when all zero; a record that keeps the hashes just read changes balance and nonce, and the all-zero one removes the account with its code and storage |
| MptState.MptStateDB.GetCode | state/mpt.go:85-97 | the code of the plain map |
| MptState.MptStateDB.SetCode | state/mpt.go:105-119 | only the code of the plain map changes |
| MptState.MptStateDB.GetStorage | state/mpt.go:121-133 | the word of the plain map |
| MptState.MptStateDB.SetStorage | state/mpt.go:141-149 | only that word of the plain map changes; a zero word clears it |
| OneView.AccountInStep | state/mpt.go:72-83 | setting records of equal balance and nonce keeps the trie-backed and the plain database in one view, exactly unless an all-zero record removes code or storage |
| OneView.CodeInStep | state/mpt.go:105-119 | setting code keeps the two databases in one view |
| OneView.WordInStep | state/mpt.go:141-149 | setting a word keeps the two databases in one view |
| StateRuns.SoundStep | state/mpt.go:72-149 | one update, with the nodes and keys it hashes, keeps both trie levels in step with the plain maps |
| StateRuns.RunSound | state/mpt.go:72-149 | after every sequence of balance, nonce, removal, code and storage updates the two levels of tries hold exactly the plain maps the updates make, if no two strings hashed on the way collide |
| StateRuns.RootsOfRuns | state/mpt.go:151-157 | two sequences of updates end in the same root if and only if they make the same plain maps |
| StateRuns.Perform | state/mpt.go:64-149 | one update through the methods of the database, which hash nothing but the strings listed for it |
| StateRuns.PerformAll | state/mpt.go:25-149 | a new database after every sequence of calls holds the plain maps, and its root is that of the tries |
| OneView.RunsAgreeExactly | state/mpt.go:72-149 | trie-backed and in-memory database agree at every point of a sequence of updates if and only if it removes no account that has code or storage |
| OneView.RootsOfWorlds | state/mpt.go:151-157 | two such sequences end in the same trie root if and only if the in-memory databases after them read the same |
| OneView.EveryWorldIsBuilt | state/statedb.go:65-125 | every plain state is reached by some sequence of updates that removes nothing |
| OneView.RootsDecideWorlds | state/mpt.go:151-157 | two trie roots are equal if and only if the plain states in one view with them have equal balances, nonces, code and storage |
| OneView.AcceptedRootsDecide | chain/chain.go:697-699 | when the state roots are those of tries built by updates that make the replayed states, two accepted blocks declare equal state roots if and only if these states are the same |
| StateProof.AccountProofComplete | state/proof.go:34-48 | a proof exists if and only if the account does, it states the account, and it verifies |
| StateProof.AccountProofSound | state/proof.go:42-48 | a verified account proof states the true account |
| StateProof.StorageProofComplete | state/proof.go:64-87 | a proof exists if and only if the slot is set, it states the word, and it verifies |
| StateProof.StorageProofSound | state/proof.go:78-87 | a verified chained proof states the true word of the slot |
| Dispatch.TagRoundTrip | evm/dispatch.go:30-50 | tagged code is recognised and untags to its runtime |
| Dispatch.UntagRoundTrip | evm/dispatch.go:39-50 | tagging the untagged form restores code if and only if it was tagged |
| Vm.NextStart | vm/stackvm.go:759-774 | past an instruction and its immediates comes an instruction start or the end |
| Vm.ImmediatesAreNotStarts | vm/stackvm.go:759-774 | no byte of a PUSH immediate is an instruction start |
| Vm.WordRoundTrip | vm/stackvm.go:812-820 | a word survives being stored as 32 bytes |
| Vm.LocalStepAdvances | vm/stackvm.go:360-606 | an instruction that continues costs gas and ends at an instruction start |
| Vm.Run | vm/stackvm.go:360-606 | every program ends; gas left never exceeds gas given, and instructions executed are at most the gas spent plus one, nested frames included |
| Vm.Call | vm/stackvm.go:614-694 | a CALL costs gas, never creates any, and resumes at an instruction start |
| Vm.JumpSafety | vm/stackvm.go:360-606 | at every loop head of every run the program counter is past the end or at an instruction start, never inside an immediate |
| Vm.FailedCallLeavesNoTrace | vm/stackvm.go:614-694 | a CALL that pushes 0 leaves the caller's world as it was, at any depth |
| VmLaws.PushSpells | vm/stackvm.go:360-606 | for 3 units of gas a PUSH pushes the word its immediate bytes spell, bytes past the end of the code read as zero |
| VmLaws.Unpaid | vm/stackvm.go:247-254 | an instruction that cannot be paid for ends the run and takes all gas |
| VmLaws.StackFaults | vm/stackvm.go:360-606 | every instruction fails where a table of words taken and put says its stack is too short or too full, and a byte that is no instruction fails always, with the gas left stated |
| VmLaws.PastTheEnd | vm/stackvm.go:366-606 | a run past the end of its code ends well and returns nothing |
| VmLaws.Jumps | vm/stackvm.go:519-529 | for 8 units of gas a run goes on at the word popped if a JUMPDEST is there at an instruction start, and fails otherwise |
| VmLaws.JumpsIf | vm/stackvm.go:530-546 | for 10 units a run goes on behind a JUMPI whose condition is zero; if it is not, at the destination when a JUMPDEST is there at an instruction start, and it fails otherwise |
| VmLaws.Lands | vm/stackvm.go:547-548 | JUMPDEST does nothing, for one unit |
| VmLaws.Drops | vm/stackvm.go:464-467 | POP removes the top word and nothing else, for 2 units |
| VmLaws.Doubles | vm/stackvm.go:563-570 | DUP1 puts a second copy of the top word on the stack, for 3 units |
| VmLaws.Swaps | vm/stackvm.go:571-574 | SWAP1 exchanges the two top words and keeps the others, for 3 units |
| VmLaws.Asks | vm/stackvm.go:447-454 | CALLVALUE and CALLDATASIZE push the value sent and the length of the input, for 2 units |
| VmLaws.ReadsInput | vm/stackvm.go:455-462 | CALLDATALOAD replaces an offset by the word whose 32 bytes the input spells there, zeros past its end, for 3 units |
| VmLaws.ReadsMemory | vm/stackvm.go:469-481 | MLOAD replaces an offset by the word memory spells there and grows memory to reach it, or fails beyond the limit |
| VmLaws.WritesMemory | vm/stackvm.go:482-497 | MSTORE puts the 32 bytes of a word at an offset, leaves every other byte, grows memory with zeros, or fails beyond the limit |
| VmLaws.ReadsSlot | vm/stackvm.go:499-507 | SLOAD replaces a key by the running contract's word there, for 200 units |
| VmLaws.WritesSlot | vm/stackvm.go:508-517 | SSTORE writes a word to the running contract's slot, for 5000 units |
| VmLaws.Returns | vm/stackvm.go:576-593 | RETURN ends the run with exactly the bytes of memory named by offset and size, zeros past its end, keeping world and gas, or fails beyond the limit |
| VmLaws.Halts | vm/stackvm.go:373-374 | STOP ends the run well, returning nothing and costing nothing |
| VmLaws.MemoryReadsBack | vm/stackvm.go:776-783 | MSTORE writes a word that MLOAD reads back and no byte outside it; new memory is zero |
| VmLaws.StorageReadsBack | vm/stackvm.go:165-184 | SSTORE writes the running contract's slot, SLOAD reads it back, and nothing else changes |
| VmLaws.PlainCall | vm/stackvm.go:614-694 | a CALL to an account without code moves exactly the value to exactly that account, pushes 1, and grows memory to the ranges named |
| VmLaws.PlainMessage | vm/stackvm.go:300-319 | a message to an account without code is a transfer and uses no gas |
| Expressions.ExpressionsEvaluate | vm/stackvm.go:360-606 | wherever it stands in a program and whatever is on the stack, the code of an expression over constants, operators, input, value sent, storage and variables in memory pushes the value of the expression, for exactly its price in gas, does nothing else, and runs dry for less |
| Expressions.WrapsOnce | vm/stackvm.go:376-438 | the value of an expression is its value over the integers, with unbounded sums, differences and products, reduced modulo 2^256 once |
| Expressions.ProgramsMeanIntegers | vm/stackvm.go:360-606 | the code of an expression pushes its integer value modulo 2^256 |
| Programs.ProgramsRun | vm/stackvm.go:360-606 | the bytecode of every program of assignments, storage writes, branches, loops and returns does what the program does: the same variables, storage and bytes returned, the same gas left, and out of gas exactly when the program is |
| Contracts.FramesRunPrograms | vm/stackvm.go:360-606 | a frame whose code is that of a program ends as the program does, run as its own address on its own value and input |
| Contracts.MessagesRunPrograms | vm/stackvm.go:300-319 | a message to a contract moves the value, runs the contract's program as the contract on the message's value and data, and reports its gas and what it returns; if it runs dry nothing changes |
| Contracts.MessagesFail | vm/stackvm.go:300-342 | a message whose code fails changes nothing and uses the gas spent so far, or all of it when it ran out |
| Contracts.CallEnters | vm/stackvm.go:614-694 | a CALL runs the callee's code as the callee, with the value and the argument bytes named, one level deeper, on the world after the transfer, and takes over its world only on success |
| Contracts.CallsRunPrograms | vm/stackvm.go:614-694 | a CALL of a contract runs its program as the callee; the caller goes on with 1, the program's world and gas, and as many of the bytes returned as its return range holds, in that range, every other byte of memory kept; if the program runs dry so does the caller |
| Contracts.CallsFail | vm/stackvm.go:670-676 | a callee that fails is undone, value and all: the caller goes on with 0 and the gas that was left |
| Contracts.CallsOverrun | vm/stackvm.go:678-692 | a return range beyond the memory limit ends the caller once the callee has ended well, with the gas the callee left |
| Contracts.CallsRefused | vm/stackvm.go:644-668 | a CALL at the depth limit or of a value that is not there is answered with 0 and changes nothing; one with argument bytes beyond the limit ends the caller |
| Contracts.OwnSlotsOnly | vm/stackvm.go:360-606 | a frame without CALL changes nothing but the storage of its own address |
| Contracts.CalleeOwnSlots | vm/stackvm.go:614-694 | a CALL of a contract without CALL leaves the storage of every other account, the caller's among them, as it was |
| Contracts.MessageOwnSlots | vm/stackvm.go:300-319 | a message to a contract without CALL changes no code and no storage but the contract's |
| Contracts.BareSlotsStay | vm/stackvm.go:360-694 | whatever a frame calls, at any depth, no account without code but its own has its storage changed |
| Contracts.EchoReturns | vm/stackvm.go:447-606 | the echo contract of n words returns its input, changes nothing and uses 11 + 12n units of gas |
| Contracts.EchoedBack | vm/stackvm.go:614-694 | a CALL of an echo contract copies the argument bytes into the return range and changes no other byte, no storage, and no balance but by the value sent |
| Contracts.DeploymentsApart | vm/stackvm.go:344-356 | two deployments have one address if and only if they have one sender and one nonce, unless two of the strings hashed share their last 20 bytes |
| Contracts.Deploys | vm/stackvm.go:321-335 | a deployment costs 32000 units of gas, places its data as code at the new address and nowhere else, and moves the value; it fails without that gas or value, changing nothing |
| VmExec.GasMeter.Charge | vm/stackvm.go:242-254 | a charge succeeds exactly when the gas is there, without wrap-around, and otherwise uses it all |
| VmExec.FlushTwice | vm/stackvm.go:186-220 | writing two journals in turn is writing their union, the later one winning |
| VmExec.Scope.Transfer | vm/stackvm.go:222-236 | value moves within the scope exactly when the balance covers it |
| VmExec.Scope.CommitToParent | vm/stackvm.go:189-220 | the parent's view becomes the child's, in whatever order the maps are walked |
| VmExec.Scope.CommitToBase | vm/stackvm.go:189-220 | the database's view becomes the root scope's |
| VmExec.ValidJumpdests | vm/stackvm.go:759-774 | the scan finds exactly the JUMPDEST bytes at instruction starts |
| VmExec.RunFrame | vm/stackvm.go:360-606 | the interpreter with journals computes what the copying semantics computes: result, gas and view |
| VmExec.OpCall | vm/stackvm.go:614-694 | a CALL with a child scope does what copying the world and keeping the copy only on success does |
| VmExec.ExecuteMessage | vm/stackvm.go:300-319 | receipt and database are those of the copying semantics; a failure leaves the database as it was |
| VmExec.CreateContract | vm/stackvm.go:321-335 | deployment installs code at the derived address exactly as the copying semantics does |
| Ledger.TransferMoves | vm/stackvm.go:222-236 | a transfer goes through exactly when it can be paid, moves that value over the integers and changes nothing else |
| Ledger.TransferKeeps | vm/stackvm.go:222-236 | a transfer keeps the supply and everything but balances |
| Ledger.RunKeeps | vm/stackvm.go:360-694 | a frame and all frames it calls keep the supply, all code, and every nonce, code hash and storage root |
| Ledger.ExecuteKeeps | vm/stackvm.go:300-356 | a message keeps the supply, uses at most its gas limit, changes nothing if it fails, and changes code only by a deployment, at its derived address |
| Ledger.InstructionBound | vm/stackvm.go:242-293 | a message executes at most its gas limit plus one instructions |
| FeeMarket.FeeIsIdeal | chain/feemarket.go:46-68 | when neither the product computed nor the sum wraps, the 64-bit computation is the recurrence of EIP-1559 over the integers |
| FeeMarket.FeeIsIdealExactly | chain/feemarket.go:46-68 | for targets up to 2^60 the computation is the recurrence if and only if neither the product nor the sum wraps |
| FeeMarket.FeeStep | chain/feemarket.go:29-68 | a positive fee stays positive and moves in the direction of usage, down by at most fee/8 and up by at most max(1, fee/8), or max(1, fee*(target+1)/target/8) under an odd gas limit; a full block attains that |
| FeeMarket.FeeMonotone | chain/feemarket.go:46-68 | more gas used never means a lower next fee, for any two usages computed without wrap-around |
| FeeMarket.FeeAfterEmpty | chain/feemarket.go:46-68 | an empty block takes off an eighth; the fee falls if and only if it is at least 8 |
| FeeMarket.FeesAlongChain | chain/feemarket.go:29-68 | along any chain of headers, whatever the gas limit, a positive first fee stays at least 1 and each step is so bounded |
| FeeMarket.FeesOverEmptyBlocks | chain/feemarket.go:46-68 | over empty blocks the fee falls strictly until below 8 and then stays |
| FeeMarket.EffectiveGasPrice | chain/feemarket.go:88-98 | fails exactly below the base fee; otherwise base fee plus tip, within both caps and as large as they allow |
| Transition.ReserveExact | chain/transition.go:271-281 | the division test rejects a reservation if and only if the product overflows |
| Transition.ContractCondition | chain/transition.go:271-285 | a contract transaction is applied if and only if the tip cap is within the fee cap, the base fee is, and the balance covers gas limit times fee cap over the integers; otherwise the first of these faults is reported |
| Transition.ContractExact | chain/transition.go:271-319 | an applied contract transaction executes the message its fields spell on the world with the reservation taken and the nonce advanced, and gives the sender back exactly the reservation less gas used times effective price; nothing else changes, and gas and tip reported are exact |
| Transition.ContractSupply | chain/transition.go:271-319 | a contract transaction burns base fee times gas and sets the tip aside; the refund never underflows |
| Transition.PlainSupply | chain/transition.go:166-184 | a plain transfer keeps the supply, to oneself too |
| Transition.TxSupply | chain/transition.go:92-184 | what one native transaction takes from the supply is the burnt fee and the tip |
| Transition.TxsSupply | chain/transition.go:205-239 | the 64-bit totals of a block account for every unit |
| Transition.BlockSupply | chain/chain.go:389-400 | one block adds its reward to the supply and takes base fee times gas used |
| Transition.PlainMoves | chain/transition.go:166-184 | a plain transfer succeeds exactly when covered, advances the sender's nonce, moves the value to the receiver and changes nothing else |
| Transition.FailedContractPays | chain/transition.go:255-319 | a contract transaction whose execution fails does nothing but advance the nonce and pay for its gas |
| Transition.RewardPaid | chain/chain.go:389-400 | reward and tips go to the coinbase, exactly, and to nobody else |
| Transition.TxNonce | chain/transition.go:92-99 | an applied native transaction is signed, carries the sender's nonce, and advances that nonce and no other |
| Transition.BlockNonces | chain/transition.go:205-239 | in a native block a sender's transactions carry consecutive nonces, so none is applied twice |
| Transition.TxCode | chain/transition.go:92-184 | a native transaction changes no code but at the address it deploys to, where it leaves its data |
| Transition.BlockCode | chain/transition.go:205-239 | over a native block code stays as it was wherever none of its transactions deploys |
| Transition.OutsideSees | chain/transition.go:205-239 | an exchange or embedded-EVM transaction is handed over with the state before it, its position, and the block's height and base fee, and its gas and tip are added to the totals |
| Transition.PricedIsCharged | chain/transition.go:92-184 | of the transactions executed here, those the dispatch prices by gas are charged as contracts and the others use no gas |
| Transition.ApplyContractTx | chain/transition.go:271-319 | reservation, execution and refund written to the database, or an error and no change |
| Transition.ApplyOneTx | chain/transition.go:92-184 | signature, nonce and the dispatch order, written to the database |
| Transition.ApplyTxsAt | chain/transition.go:205-239 | the loop applies all transactions in order or reports the first error |
| Transition.ApplyBlockRewarded | chain/chain.go:389-400 | transactions, then reward and tips to the coinbase unless the height is 0 |
| Pos.NewValidatorSet | pos/validator.go:36-68 | succeeds if and only if stakes are positive, addresses and keys distinct, keys valid and the total fits 64 bits; the total is then exact |
| Pos.EffectiveStake | pos/validator.go:94-104 | exactly the validators not jailed, in order, with their exact total |
| Pos.ActiveSound | pos/validator.go:94-104 | active validators are registered, not jailed, and hold no more than the whole stake |
| Pos.ByAddress | pos/validator.go:77-84 | the search loop finds the registered validator with that address, if any |
| Pos.SelectProposer | pos/proposer.go:35-53 | the scan picks the first validator whose cumulative stake exceeds the target, or none without stake |
| Pos.SelectSound | pos/proposer.go:35-53 | the choice is the active validator whose range of cumulative stake holds the target; the fallback is never reached |
| Pos.SelectedUnique | pos/proposer.go:26-53 | exactly one validator is chosen per target, each for as many targets as it has stake |
| Pos.AttestRoundTrip | pos/attestation.go:38-56 | height and target always survive encoding; the signature does if and only if it has 96 bytes |
| Pos.AttestCanonical | pos/attestation.go:38-56 | calldata that decodes is the one encoding of what it decodes to |
| Votes.VoteOf | chain/chain.go:542-556 | a vote comes only from attestation calldata of a registered sender |
| Votes.RecordAllGrows | chain/chain.go:542-578 | recorded votes never change, jailing is never undone, a jailed validator's votes are not recorded, finality only rises and one height is decided once |
| Votes.CastExact | chain/chain.go:557-577 | one vote keeps jailing equal to having made two different claims for one slot |
| Votes.ProposeExact | chain/chain.go:586-597 | one proposal keeps jailing equal to having made two different claims for one slot |
| Votes.RecordAllCounts | chain/chain.go:542-578 | every tally stays the stake of the recorded votes for its target, modulo 2^64 |
| Votes.BackingByRound | chain/chain.go:542-578 | a target's backing is the sum of its backing in one round and in all others |
| Votes.BackingShared | chain/chain.go:542-578 | within one round two targets together have at most the stake of the validators |
| Votes.OneQuorumPerRound | chain/chain.go:153-161 | in one round no two targets each hold two thirds of the whole set's stake, which is the comment's promise over the whole set; the test the code makes is the subject of the next rows |
| Quorums.CarriesMeans | chain/chain.go:570-573 | a target that passes the 64-bit test has two thirds of the stake not jailed behind it, over all rounds, and when three times its backing fits 64 bits it passes if and only if it has |
| Quorums.ConflictNeedsJailing | chain/chain.go:542-578 | two targets voted for in one round only both pass, at two points of a run, only if twice the stake jailed at these points together is at least the whole stake |
| Quorums.JailingBoundAttained | chain/chain.go:542-578 | with stakes 3, 1 and 2 two targets pass while twice the jailed stake is exactly the whole stake |
| Quorums.JailingLetsTwoPass | chain/chain.go:562-573 | with stakes 2 and 1, a second vote of the larger validator jails it and lets the smaller carry a second target of the round |
| Quorums.OneHashTwoRounds | chain/chain.go:570-576 | of three equal validators one finalises a hash alone, by voting for it in two rounds, with two thirds in neither |
| Quorums.VoteIsCarried | chain/chain.go:542-556 | every vote of a registered validator is carried by some calldata |
| ChainLaws.HeightIsDepth | chain/chain.go:603-614 | an accepted block's height is its distance from genesis, modulo 2^64 |
| ChainLaws.WalkIsLookup | chain/chain.go:469-490 | heights fall by one along the finality walk, which accepts if and only if the ancestor at that height is the checkpoint |
| ChainLaws.Finality | chain/chain.go:469-490 | a block accepted while a non-zero checkpoint is final has it as a proper ancestor at its height |
| ChainLaws.BallotsGrow | chain/chain.go:129-186 | over any run votes and jailings only accumulate and the final height never decreases |
| ChainLaws.FinalWasVoted | chain/chain.go:569-576 | in every state a final checkpoint has a recorded vote of its round |
| ChainLaws.FinalIsBacked | chain/chain.go:569-577 | in every state, with a total stake below 2^63, three times the stake recorded for the final checkpoint is at least twice the stake not jailed |
| ChainLaws.TwoTargetsNeedJailing | chain/chain.go:542-578 | over every run two targets of one round pass the test, at any two points, only if twice the stake jailed at these points together is at least the whole stake |
| ChainLaws.LostCheckpointHalts | chain/chain.go:469-490 | if no stored block has the final hash at the final height, no further block is accepted |
| ChainLaws.HeadStaysFinal | chain/chain.go:603-720 | once the head descends from the final checkpoint, every reorganisation keeps it so until another is final |
| ChainLaws.NextFinalDescends | chain/chain.go:469-490 | a checkpoint final next descends from the one before if its block was stored while that one was final |
| ChainLaws.EarlierFinalKept | chain/chain.go:469-490 | a branch with the later of two checkpoints has the earlier one if and only if the later descends from it |
| ChainLaws.OneFinalPerRound | chain/chain.go:569-576 | at any two points of a run, checkpoints final in one round are the same |
| Plans.PlanAccepted | chain/chain.go:603-720 | a log given in advance, with at most one vote a block, is accepted block by block if its proposers, heights, votes and branches are as the checks demand |
| Scenarios.ConflictAccepted | chain/chain.go:542-578 | an accepted log in which two targets of one round both pass the two-thirds test |
| Scenarios.AloneAccepted | chain/chain.go:569-576 | an accepted log in which one validator of three makes a hash final without two thirds in any round |
| Scenarios.FinalisedBranchLosesHead | chain/chain.go:469-490 | an accepted log in which the head is on the branch of a final checkpoint and later, another being final, is not |
| ChainLaws.TallyIsBacking | chain/chain.go:542-578 | in every state each tally is the stake of the recorded votes for it, and only registered validators voted |
| ChainLaws.JailingIsExact | chain/chain.go:542-597 | a validator is jailed if and only if accepted blocks hold two blocks of its on one parent or two targets of its in one round |
| ChainLaws.ProposerNotJailed | chain/chain.go:642-658 | the proposer of an accepted block is registered and not jailed |
| ChainLaws.JailedIsSilent | chain/chain.go:542-658 | from its jailing on a validator authors no accepted block and none of its votes is recorded |
| ChainLaws.ProposerOwnsSeed | chain/chain.go:642-650 | an accepted block was proposed by the validator in whose range of the active stake the seed of parent and height falls |
| ChainLaws.VotesBeforeProposal | chain/chain.go:704-711 | a block's votes are counted before its proposal, so the first of them stands even if the block jails its caster |
| ChainLaws.ErrorsTellTheTruth | chain/chain.go:603-699 | a refused block has the fault its error names |
| ChainLaws.WorkAdds | chain/chain.go:659-703 | under proof of work total difficulty is the sum of the difficulties along the parent path, in 64 bits |
| ChainLaws.StakeCounts | chain/chain.go:629-703 | under proof of stake total difficulty is the genesis difficulty plus one for each block after it, in 64 bits |
| ChainLaws.ForkChoice | chain/chain.go:713-718 | under proof of work the head is the earliest block whose path has the largest sum of difficulties, under proof of stake the earliest block of the longest path, as long as the sums fit 64 bits |
| ChainLaws.HeadIsEarliestHeaviest | chain/chain.go:713-718 | the head is the earliest accepted block of maximal total difficulty |
| ChainLaws.HeightIndexIsPath | chain/chain.go:723-732 | the index holds exactly the heights of the path, each with the block at that depth |
| ChainLaws.Replays | chain/chain.go:405-421 | every accepted block replays, to the state and gas it declared, within the gas limit |
| ChainLaws.AcceptedIsChecked | chain/chain.go:641-699 | every accepted block has matching transaction and state roots, the chain's id on every transaction, and a target met or a registered proposer's signature with attestations aligned, past, registered and signed |
| ChainLaws.CandidateAgrees | chain/chain.go:431-456 | a sealed block on the head is accepted if and only if it declares the candidate's root and gas and the gas is within the limit; at a height wrapped to 0 the root is that of the state without the reward |
| ChainLaws.BranchFees | chain/chain.go:615-624 | on every accepted branch each base fee is dictated by the parent and usage stays within the limit |
| ChainLaws.FeesOnBranch | chain/chain.go:615-624 | on every accepted branch a positive genesis fee stays at least 1, falls by at most an eighth and rises by at most the bound of its gas limit |
| ChainLaws.SupplyAlongBranch | chain/chain.go:371-421 | the supply after any accepted native branch is genesis plus 50 per block minus the sum of base fee times gas used |
| ChainLaws.CodeOnBranch | chain/chain.go:405-421 | no accepted native branch puts code at an address none of its transactions deploys to, such as a reserved one |
| ChainEngine.Engine.constructor | chain/chain.go:268-291 | a new chain holds what the log of genesis alone determines |
| ChainEngine.Engine.ChainTo | chain/chain.go:351-369 | the ancestors of a stored block, genesis first; nothing for an unknown hash |
| ChainEngine.Engine.DeriveState | chain/chain.go:405-421 | a fresh database with the replayed state of a stored block; replay of history never fails |
| ChainEngine.Engine.ChainIdsMatch | chain/chain.go:340-347 | true exactly when every transaction carries the chain's id |
| ChainEngine.Engine.RespectsFinality | chain/chain.go:469-490 | the loop rejects exactly the blocks whose walk misses the checkpoint |
| ChainEngine.Engine.AttestationsVerify | chain/chain.go:501-526 | true exactly when every attestation is well formed, aligned, past, registered and signed |
| ChainEngine.Engine.CheckSeal | chain/chain.go:641-664 | proposer, signature and attestations in order, or the target under proof of work |
| ChainEngine.Engine.RecordAttestations | chain/chain.go:542-578 | the loop leaves the bookkeeping that casting each vote in order leaves |
| ChainEngine.Engine.DetectEquivocation | chain/chain.go:586-597 | remembers a first proposal on a parent and jails for a second, different one |
| ChainEngine.Engine.RebuildIndex | chain/chain.go:723-732 | the loop rebuilds the index of the head's path |
| ChainEngine.Engine.CheckLink | chain/chain.go:603-627 | duplicate, parent, height, base fee and finality, first failure reported |
| ChainEngine.Engine.ExecuteBlock | chain/chain.go:666-699 | roots, ids, execution, gas and state root, first failure reported |
| ChainEngine.Engine.Store | chain/chain.go:701-711 | store, difficulty and votes are those of the log extended by the block |
| ChainEngine.Engine.Reorganise | chain/chain.go:713-718 | head, head state and index are those the extended log determines |
| ChainEngine.Engine.AddBlock | chain/chain.go:603-720 | either the log is extended by the block and every field is what it determines, or the verdict's error is returned and nothing changed |
| ChainEngine.Engine.CandidateStateRoot | chain/chain.go:431-456 | root and gas of the candidate on the head, with no field changed |
| Journal.CodeUndoExact | evm/adapter/statedb.go:272-289 | undoing a code write restores the state if and only if the stored code was empty or tagged with a runtime |
| Journal.UndoDo | evm/adapter/statedb.go:106-604 | undoing a write restores every observation, if and only if it does not replace code that is neither empty nor tagged with a runtime |
| Journal.CodeReadsBack | evm/adapter/statedb.go:239-289 | code reads back as it was given, and no other account's code changes |
| Journal.WritesAreSeen | evm/adapter/statedb.go:151-564 | nonce, balance, storage, transient and refund writes are observed where they were made and nowhere else |
| Journal.LogsAreSeen | evm/adapter/statedb.go:596-604 | a log is appended under its content and transaction, numbered by how many there were; no other log changes |
| Journal.DoClean | evm/adapter/statedb.go:264-289 | at any accounts, writes keep stored code empty or tagged with a runtime |
| Journal.WriteSimulates | evm/adapter/journal.go:22-34 | a write that can be undone keeps every held snapshot restorable, whatever code other accounts hold |
| Journal.RevertSimulates | evm/adapter/journal.go:29-34 | reverting restores the copy taken at the snapshot and keeps every earlier one restorable |
| Journal.LogRefinesCopies | evm/adapter/journal.go:22-34 | after any interleaving of writes, snapshots and reverts that writes code only at accounts whose code was empty or tagged with a runtime, the undo log and a stack of full copies observe the same state |
| Journal.UncleanTellsApart | evm/adapter/statedb.go:272-289 | snapshot, code write and revert tell the undo log from a copy if and only if the code replaced was neither empty nor tagged with a runtime |
| Journal.RefinesExactlyWhenClean | evm/adapter/journal.go:22-34 | for any accounts, every run writing code there is indistinguishable from keeping copies if and only if their code is empty or tagged with a runtime at the start |
| Journal.WriteSound | evm/adapter/statedb.go:536-564 | writes keep the committed value of every slot its value at the start, given a slot is cached before it is written |
| Journal.MovesExact | evm/adapter/statedb.go:193-229 | the overflow test on a 256-bit sum or difference is right if and only if the result did not wrap into 64 bits |
| Adapter.Adapter.constructor | evm/adapter/statedb.go:129-131 | a fresh adapter over any database observes it and holds no snapshot |
| Adapter.Adapter.Snapshot | evm/adapter/statedb.go:139 | returns the log's length, against which the present state is copied |
| Adapter.Adapter.RevertToSnapshot | evm/adapter/journal.go:29-34 | the reverse loop restores every observation of the copy, truncates the log and keeps earlier snapshots |
| Adapter.Adapter.TouchAddr | evm/adapter/statedb.go:106-117 | touches, recording the undo only when newly touched |
| Adapter.Adapter.CreateContract | evm/adapter/statedb.go:371-384 | touches and flags as created, each recorded once |
| Adapter.Adapter.SelfDestruct | evm/adapter/statedb.go:398-411 | touches and flags as destroyed, each recorded once |
| Adapter.Adapter.AddAddressToAccessList | evm/adapter/statedb.go:419-435 | warms an address, recorded once |
| Adapter.Adapter.AddSlotToAccessList | evm/adapter/statedb.go:437-451 | warms an address and a slot, each recorded once |
| Adapter.Adapter.SetNonce | evm/adapter/statedb.go:151-163 | touches and sets the nonce, recording the previous one |
| Adapter.Adapter.AddBalance | evm/adapter/statedb.go:193-206 | touches and credits, or latches the error and leaves the balance; returns the previous balance |
| Adapter.Adapter.SubBalance | evm/adapter/statedb.go:209-229 | touches and debits, or latches the error and leaves the balance; returns the previous balance |
| Adapter.Adapter.SetCode | evm/adapter/statedb.go:272-289 | touches and stores tagged code, recording and returning the previous runtime; snapshots stay restorable if the code replaced was empty or tagged with a runtime |
| Adapter.Adapter.AddRefund | evm/adapter/statedb.go:293-299 | adds in 64 bits, recording the previous counter |
| Adapter.Adapter.SubRefund | evm/adapter/statedb.go:308-317 | subtracts what is there, recording the previous counter |
| Adapter.Adapter.SetTransientState | evm/adapter/statedb.go:505-519 | writes and records only a change |
| Adapter.Adapter.SetTxContext | evm/adapter/statedb.go:586-589 | sets the context later logs are tagged with |
| Adapter.Adapter.AddLog | evm/adapter/statedb.go:596-604 | appends a log numbered by its position under the current context |
| Adapter.Adapter.CacheCommitted | evm/adapter/statedb.go:536-544 | the cached value is the slot's value when the transaction began |
| Adapter.Adapter.SetState | evm/adapter/statedb.go:552-564 | touches, caches and writes, recording and returning the previous word |
| Adapter.Adapter.GetStateAndCommittedState | evm/adapter/statedb.go:575-581 | the present word, and the word at the start of the transaction after any writes and reverts |
| Adapter.Adapter.Prepare | evm/adapter/statedb.go:467-494 | warms exactly the listed addresses and slots, clears transient and committed values, and starts a new baseline |
| Builder.SortTxsSorts | chain/blockbuilder.go:52-56 | a queue sorted by nonce is ordered and a permutation |
| BuilderLaws.FeePricedExact | chain/blockbuilder.go:12-24 | the builder's notion of fee-priced is the dispatch's if and only if the transaction is not an attestation to an address with tagged code |
| BuilderLaws.TaggedAttestationDiffers | chain/blockbuilder.go:12-24 | with tagged code at the attestation address an attestation is free for the builder and charged by the dispatch |
| Builder.RoundShrinks | chain/blockbuilder.go:72-140 | every round lowers transactions left plus active senders, so the loop ends |
| BuilderLaws.BestPaysMost | chain/blockbuilder.go:92-125 | the winner of a round pays the highest priority fee, and has the smallest address among equals |
| BuilderLaws.PriorityIs | chain/blockbuilder.go:112 | what the builder compares is the tip: the smaller of tip cap and fee cap less base fee |
| BuilderLaws.WinnerTipsMost | chain/blockbuilder.go:92-125 | no active sender whose front transaction can pay offers a larger tip than the winner, or the same from a smaller address |
| BuilderLaws.SelectionGreedy | chain/blockbuilder.go:26-143 | whenever a fee-priced transaction is taken, the next transaction of every other sender cannot pay the base fee, does not fit beside the gas declared so far, offers a smaller tip, or the same tip from a higher address |
| BuilderLaws.LargerTipWins | chain/blockbuilder.go:92-140 | of two senders with one transaction each, of which only one fits, exactly the one with the larger tip is included, at equal tips the smaller address, in whatever order they arrived |
| BuilderLaws.FreeInOrder | chain/blockbuilder.go:44-90 | a mempool of free transactions only is taken whole, sender by sender in order of address, each by nonce |
| BuilderLaws.BudgetTestExact | chain/blockbuilder.go:127 | with the budget within the limit the test is right if and only if the sum does not wrap |
| BuilderLaws.RoundInv | chain/blockbuilder.go:72-140 | every round keeps prefixes, reasons to stop, payability, and the budget equal to the declared gas modulo 2^64 and within the limit |
| BuilderLaws.SelectionSound | chain/blockbuilder.go:26-143 | for every mempool each sender contributes a prefix of its nonce-ordered queue and stops early only at a fee-priced transaction under the base fee or too large beside the gas finally declared; declared gas modulo 2^64 is within the limit, so it is within the limit if and only if it is below 2^64, and it is when no competing transaction's gas plus the limit wraps |
| BuilderLaws.TwoInARow | chain/blockbuilder.go:72-140 | of two competing transactions of one sender the second is taken if and only if the 64-bit sum is within the limit |
| BuilderLaws.HugeGasOverfills | chain/blockbuilder.go:127-135 | two transactions declaring 1 and 2^64 - 1 units of gas are both taken, whatever the limit |
| BuilderLaws.OrderIrrelevant | chain/blockbuilder.go:44-61 | mempools with the same transactions give the same block, whatever their order |
| BuilderLaws.GroupBySender | chain/blockbuilder.go:48-51 | the loop groups every sender's transactions in order of arrival |
| BuilderLaws.SortQueues | chain/blockbuilder.go:52-61 | queues sorted by nonce and senders by address, in whatever order the map is walked |
| BuilderLaws.DrainAll | chain/blockbuilder.go:73-90 | the loops take every free transaction at the front of each active queue |
| BuilderLaws.PickWinner | chain/blockbuilder.go:92-125 | the scan finds the best-paying front transaction |
| BuilderLaws.BuildBlockTxs | chain/blockbuilder.go:44-143 | grouping, sorting and rounds of drain, filter and award compute the specified choice |

## Left out

- The on-chain exchange (`exchange/`): in continuous mode its transactions are a function parameter applied one at a time, and supply and code theorems are restricted to blocks that hand no transaction outside; the batch mode is not modelled.
- Transition.ApplyTxsAt: continuous mode only; the batch session that the source opens before its loop and settles after it is not modelled.
- The embedded EVM interpreter (`chain/evm_wiring.go`, `evm/runtime.go`) is library code: only the adapter's journal is modelled, and EVM transactions are the same function parameter.
- SHA-256, secp256k1 and BLS themselves, the byte layout of block and transaction preimages, and the transaction Merkle root: function parameters.
- Networking, JSON-RPC, persistence, command line and web code (`p2p/`, `rpc/`, `store/`, `cmd/`, `web/`), and the locking in `node/node.go`.
- Proof-of-work search, difficulty retargeting and mode names (`consensus/`): only the target test appears, as a predicate.
- `memStateDB.StateRoot`, genesis funding loops and bytecode fixtures: they would only add easy members; the genesis world is a parameter.
- `overlayState` and the `ApplyBlock` helpers of `chain/transition.go` that use it: block validation does not call them.
- `Finalise`, preimages, witnesses and burn logs of the adapter, and its one-line readers: easy members.
- The setters of `Chain` (`SetChainID`, `SetGasLimit`, `SetConsensusMode`, `SetExchangeMode`): a chain's configuration is fixed before its first block, as their comments require, and so is the signature check passed to `AddBlock`.
- MptState.MptStateDB.SetAccount: for a record that is neither all zero nor keeps the code hash and storage root just read only the new root is stated, as its hashes need not stand for any code or storage. The callers in the repository read, modify and write, or, in the adapter's `Finalise`, write the all-zero record.
- MptState.MptStateDB.GetAccount: like all members of this class states its result under the hypothesis that no two byte strings hashed so far collide.
- NodeStore.NodeStore.DelAt: like every walk over the node map requires each stored extension to consume at least one nibble, as with an empty one the source's recursion need not end; writes keep this as long as merged paths fit the two-byte length field, which they do in every trie of 32-byte hashed keys without a collision.
- Transition.ContractExact: requires a supply below 2^64, beyond which the balance additions of the code may wrap.
- Programs.ProgramsRun: covers the programs of its language, without CALL (the subject of `Contracts`), with up to 2048 variables and code below 4 GiB; hand-written bytecode is the subject of `VmLaws`.
- Contracts.EchoReturns: up to 2048 words, the memory limit.
- ChainLaws.ForkChoice: requires sums below 2^64, as `c.td` wraps beyond; `ChainLaws.HeadIsEarliestHeaviest` has no such bound.
- BuilderLaws.LargerTipWins: for two senders; `BuilderLaws.SelectionGreedy` is the law for any number.
- Transition.BlockSupply: requires the supply to leave room for one reward in 64 bits; with more the balance additions of the code may wrap.
- ChainLaws.SupplyAlongBranch: requires genesis supply plus all rewards to fit 64 bits and a branch of at most 2^64 blocks, beyond which balances and heights wrap.
- ChainLaws.HeightIndexIsPath: requires at most 2^64 blocks on the path, beyond which heights repeat.
- FeeMarket.FeeIsIdealExactly: for targets above 2^60 only one direction is stated (`FeeMarket.FeeIsIdeal`), as a wrapped product may then round to the same change.
- Adapter.Adapter.SetCode: promises restorable snapshots only when the code it replaces is empty or tagged with a runtime, as by `Journal.CodeUndoExact` its undo entry restores no other.
- Adapter.Adapter.SubRefund: requires the refund counter to cover the amount, as the source panics otherwise.
- Adapter.Adapter.constructor: the adapter's database is the plain in-memory one; the lemmas of `OneView` carry its operations to the trie-backed one.
- Quorums.ConflictNeedsJailing: requires a total stake below 2^63, beyond which the doubled stake in the test wraps; the bound is attained (`Quorums.JailingBoundAttained`), but that any such amount of jailed stake lets two targets pass is not claimed.
- BuilderLaws.SortQueues: keeps arrival order between equal nonces of one sender, which the source's sort leaves open.
