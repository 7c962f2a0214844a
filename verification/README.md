# A verified model of a small blockchain node

The repository is a blockchain node written in Go: servers gossip transactions and blocks over a transport,
each keeps a hash-linked chain, a transaction pool and a contract state, and transactions carry bytecode that a
stack machine runs when their block is added. This project models that logic in Dafny and proves what
it keeps, over all inputs and over whole runs of a network.

The project has two levels. Modules of functions say what each operation does to a plain value:
`VmSpec` (the virtual machine), `Ledger` (a chain as a list of blocks plus a contract state), `PoolSpec` (the pool),
`Node` (one server's reaction to one message), `Network` (servers and messages in flight). Modules of classes do
the same work the way the source does it, with arrays, maps, index structures, caches, loops and updates in
place: `VmMachine`, `BlockObject`, `Blockchain`, `TxPool`, `Server`. Every method of a class is proved to equal its function, so
the theorems about the functions are theorems about the classes.

## What is proved

- **Virtual machine.** Compile correctness for a language of assignments, errors and panics included, although
  every operand byte is itself executed, with the exact stack need and, for one assignment, exactly the
  keys, lengths and literals that break the layout; a frame theorem; no run removes a key, and only keys stored to change; a bound
  that rules out 64-bit overflow in Get-free programs (`VmCompile`, `VmLayout`, `VmFrame`, `VmArith`).
- **Chain.** Every sequence of AddBlock calls keeps the chain linked with heights counting up and at most 2^32
  blocks; the hash index is the exact inverse of the header list; the swallowed error of ValidateBlock is unreachable
  (`Ledger`, `Blockchain`).
- **Replay.** The contract state is the replay of the chain's blocks until a block validates and then fails, having changed the
  state. `AddKeepsInStep` states this as an exact condition on the block before the call, `FailedBlockLeaks` gives the input, and
  `LeakReached` a run of two steps that gets there.
- **Agreement.** With any number of block creators, one shared header means one shared history (`Agreement`).
- **Protocol.** For all runs of any number of servers, with messages lost, forged and delivered in any order: chain safety, pool
  conservation, validity of created blocks, an explicit bound on how long gossip can go on, and how a transaction that cannot run
  ends block creation. With a single creator: prefix agreement whatever is forged but blocks; catch-up and self healing; and, when
  nothing is lost, agreement at rest: a peer of the creator always ends up with its whole chain if and only if it is connected
  back to it (`Network`, `Gossip`, `Stuck`, `Prefix`, `SingleCreator`, `SelfHeal`, `Quiet`, `Connection`). `Line` shows that servers
  further away can be left behind for good; `Scenario` holds the blocks and steps of these runs.
- **Pool.** `pending` is always a well-indexed tail of what was accepted. The history `all` is the rolling window it is meant to be
  if and only if no hash is accepted twice within a window; otherwise it can outgrow `max`, and then it is never pruned
  again. A block's slice of pending transactions survives every later pool operation (`PoolSpec`, `TxPool`).
- **Store and wire.** The channel-served map is linearizable, and every call on it returns within six steps; reading back a stream of encoded envelopes, cut anywhere
  but in a length prefix, yields exactly those envelopes if and only if each fits the buffer; which payloads can still be read from the
  reused buffer afterwards is stated exactly (`MemStore`, `Envelope`).
- **In plain terms.** Beside these theorems, each main operation is described exactly, in numbers and in terms of the library
  functions alone: which byte is which instruction and how it fails (`VmBytes`), what a block's transactions leave in the contract
  state (`BlockMeaning`), when a block is accepted (`Ledger.VerdictExactly`), what each message does to a server (the members of `Node` whose
  names end in `Exactly`), and what is on the wire (`Envelope.EncodeIs`, `DecodeIs`, `TurnExactly`).
- **Local transport.** Mutually recursive Connect ends and keeps the peer relation symmetric (`LocalTransport`).

## Assumptions

- `Ledger.Scheme` bundles the library functions: digest, header and transaction encodings, key derivation, signing and
  verification. Nothing is assumed of them except where a member says so: `SignaturesVerify` (a signature
  made with a private key verifies under its public key), `PrefixFree` (no transaction encoding is a prefix of
  another's) and `NoCollision` (the digest does not collide on the headers and encodings of equal height of the two chains compared).
- Gob is an exact round trip of exported fields. A block from the wire therefore has transactions without a hasher
  (`Origin`), and reporting a failed transaction of such a block panics (core/blockchain.go:166-171).
- A message handler, with the message it sends, is one atomic step; so is creating a block. A server that panics, or enters
  the endless loop of handleGetBlocksRequest at height 2^32 - 1, is halted and takes no more steps.
- A server subscribes under its own address and with its own handle, as in the local transport; forged subscriptions may use any.

Three places where the code is followed although a reader may expect otherwise: `Sign` signs the header before it writes
the data hash, though its comment calls it the step that finalizes a block (core/block.go:83-97); Put of the store returns
before the map is written (core/storage.go:60-67); the pool looks for duplicates in `pending` only (server/txpool.go:123-125).

## Model

| member | source | states |
|---|---|---|
| VmSpec.RunAppend | vm/vm.go:56-77 | running a concatenation is running the first part and then, if it succeeds, the second, whose first operand is the first part's last byte |
| VmSpec.DepthKept | vm/stack.go:37-62 | no program, however it ends, leaves more values on the stack than its depth |
| VmSpec.PopBytesShrinks | vm/vm.go:129-137 | Pack's loop never grows the stack, and on success takes exactly the requested number of values off its end |
| VmSpec.PackPushHasRoom | vm/vm.go:119-138 | Pack ignores the error of its last Push, but that Push always finds room |
| VmBytes.TwoAdded | vm/vm.go:81-111 | for all operand bytes x and y, the bytes x,10,y,10,11 leave x + y on the stack, and the state as it was |
| VmBytes.OneStored | vm/vm.go:112-155 | k,12,1,10,13,x,10,15 stores x under the key k and nothing else |
| VmBytes.ReadBack | vm/vm.go:157-169 | and k,12,1,10,13,16 after it puts x on the stack |
| VmBytes.DepthIs1024 | vm/stack.go:25-48 | 1024 pushes run, and one more is an error |
| VmBytes.AddWraps | vm/vm.go:103-111 | a sum is the 64-bit integer equal to it modulo 2^64 |
| VmBytes.FailsExactly | vm/vm.go:79-178 | for every instruction byte but Pack's: exactly when it is an error (a value, room or a key is missing) and exactly when a panic (a value is of the wrong type) |
| VmBytes.FirstPushPanics | vm/vm.go:82-113 | a push at position 0 panics |
| VmBytes.PackFailsExactly | vm/vm.go:119-138 | exactly when Pack succeeds, is an error, and panics |
| VmFrame.ExecUnder | vm/vm.go:79-173 | an instruction that succeeds does the same with values below its stack and extra keys in the state |
| VmFrame.RunUnder | vm/vm.go:56-178 | frame theorem: a successful run also succeeds with any values below its stack and any extra keys, leaving both alone except for keys it defines |
| VmFrame.RunChangesOnly | vm/vm.go:139-155 | every run, failed ones included, changes only the keys it stores to and removes none |
| VmArith.RunBounded | vm/vm.go:81-138 | Get-free code runs over 64-bit integers exactly as over unbounded ones, and keeps the stack's integers non-negative with a sum of at most 255 per push |
| VmArith.ArithmeticBound | vm/vm.go:81-138 | at every point of a Get-free run from an empty stack, the next addition fits 64 bits and the next Pack sees no negative length (programs below 2^55 bytes) |
| VmCompile.KeyRuns | main.go:172-188 | the key layout pushes exactly that byte string, whatever is below it |
| VmCompile.ExprRuns | main.go:190-196 | the code of an expression pushes its value, or fails with the same error or panic as its meaning and leaves the state alone |
| VmCompile.ProgramRuns | vm/vm.go:56-178 | from any point of a program, compiled assignments end with the status and state the assignments mean |
| VmCompile.CompileCorrect | main.go:170-204 | compile correctness on the default machine: same status (success, error or panic) and same contract state as the source meaning, and a clean stack on success |
| VmCompile.EmptyProgramPanics | vm/vm.go:61 | the one exception: the empty program panics at its first fetch, though its meaning is to do nothing |
| VmCompile.FitsExactly | vm/stack.go:37-48 | the stack need is exact: a program whose meaning succeeds runs to its end if and only if every key and expression fits, and otherwise overflows the stack |
| VmLayout.LiteralExactly | vm/vm.go:61-86 | for every clean key, literal and contract state, the layout of an assignment does what it means if and only if the literal is no opcode, or is Get and the key holds itself |
| VmLayout.LayoutExactly | vm/vm.go:61-138 | for every key and literal, on a state without that key: if and only if no byte of the key, nor its length, nor the literal is an opcode |
| VmMachine.Stack.Push | vm/stack.go:37-48 | appends, or reports an overflow and changes nothing, exactly at full depth |
| VmMachine.Stack.Pop | vm/stack.go:50-62 | returns and removes the value pushed last, or reports an empty stack |
| VmMachine.Stack.Peek | vm/stack.go:78-99 | the value pushed last, or nothing, without changing the stack |
| VmMachine.ContractState.Put | vm/state.go:29-34 | sets one key and no other |
| VmMachine.ContractState.Get | vm/state.go:41-47 | the value of the key, or an error if it is absent |
| VmMachine.VM.constructor | vm/vm.go:37-54 | starts at position 0 with an empty stack of depth 1024 on the shared state |
| VmMachine.VM.Run | vm/vm.go:56-77 | the loop over `ip` on a mutable stack and state ends as the functional run does, in status, stack and state |
| VmMachine.VM.Exec | vm/vm.go:79-173 | one instruction on the mutable machine equals the functional one, for every opcode and every way to fail |
| VmMachine.VM.ExecAdd | vm/vm.go:87-111 | pops two integers and pushes their 64-bit sum; partial pops stay popped on failure |
| VmMachine.VM.PopInto | vm/vm.go:127-137 | the loop that fills a byte array from its end yields the popped bytes in push order |
| VmMachine.VM.ExecPack | vm/vm.go:119-138 | Pack in place equals the functional Pack, including its panics |
| VmMachine.VM.ExecStore | vm/vm.go:139-155 | Store in place equals the functional Store |
| VmMachine.VM.ExecGet | vm/vm.go:157-169 | Get in place equals the functional Get |
| Ledger.ValidateLinked | core/validator.go:19-46 | on a linked chain a block is accepted if and only if it has the next height, names the tip's hash and verifies; the other verdicts are decided by height alone |
| Ledger.NeverUnchecked | core/validator.go:20-33 | on any chain the swallowed lookup error is unreachable, and `Height()+1` has not wrapped around where it decides |
| Ledger.EncodingsInTurn | core/transaction.go:94-107 | the encodings of a list are those of its transactions, one behind the other |
| Ledger.VerdictExactly | core/validator.go:19-46 | the whole verdict on a linked chain in terms of the library functions: behind height and previous hash, accepted exactly if the block's signature, every transaction's signature and the data hash are right |
| Ledger.AddedIsSigned | core/block.go:99-122 | a block added to any chain is signed, all its transactions are, and its data hash is right |
| Ledger.AddExactly | core/blockchain.go:149-180 | which verdict, execution and hash lead to which outcome, and what chain and state it leaves |
| BlockMeaning.OneTransaction | core/blockchain.go:162-171 | one transaction leaves what its program leaves on the shared state, whether it succeeds or fails |
| BlockMeaning.TransactionsInTurn | core/blockchain.go:162-177 | for arbitrary bytecode, a list of transactions runs on what the list before it left, and not at all after a failure |
| BlockMeaning.TransactionsMean | core/blockchain.go:162-177 | transactions with compiled programs end as the concatenated assignments mean |
| BlockMeaning.BlockMeans | core/blockchain.go:149-180 | a validating block with a new hash is added exactly if all its assignments in turn succeed, and the contract state is what they leave in every case |
| BlockMeaning.BlockLeaves | core/blockchain.go:162-177 | with any bytecode, the contract state afterwards is that of the last program, run on what those before it left |
| Ledger.AddKeepsLinked | core/blockchain.go:149-180 | every AddBlock, of any block and with any outcome, keeps heights, hash links, verification and the 2^32 bound, and appends or changes nothing |
| Ledger.AddAllKeepsLinked | core/blockchain.go:149-180 | so does every sequence of AddBlock calls, and it never rewrites a block |
| Ledger.LeakedExactly | core/blockchain.go:149-180 | a block is turned away after its transactions ran exactly if it validates and then a transaction fails or its hash is taken, which can be told before the call |
| Ledger.AddKeepsInStep | core/blockchain.go:149-180 | exactly when an AddBlock keeps the contract state equal to the replay of the chain: unless the block validates, then fails, and its transactions have changed the state by then |
| Ledger.ReplayNext | core/blockchain.go:162-179 | if a chain replays, so does each prefix, and the next block's transactions run on top of it |
| Ledger.FailedBlockLeaks | core/blockchain.go:162-171 | a rejected block can leave its stores behind: a concrete transaction after which state and blocks disagree |
| Ledger.LeakyRuns | vm/vm.go:56-173 | that transaction stores one key and then fails, on every contract state |
| Agreement.EncodingInjective | core/transaction.go:94-107 | equal concatenated encodings come from equal transaction lists, if encodings are prefix-free |
| Agreement.SameHeaderSameHistory | core/validator.go:30-43 | two chains with the same header at height k have the same headers up to k and the same transactions at 1..k |
| Agreement.ServersAgree | core/block.go:99-122 | the same for any two servers in every run with any number of creators |
| Agreement.SameTipSameContract | core/blockchain.go:149-180 | two replayable chains with the same tip header have the same contract state |
| BlockObject.BlockObject.FromPrevHeader | core/block.go:33-77 | the new block has version 1, the wrapped next height, the previous header's hash, its data hash, and no cached hash |
| BlockObject.BlockObject.Sign | core/block.go:84-97 | signs the header as it stands, then writes the data hash; nothing changes if the data hash was right already |
| BlockObject.BlockObject.Verify | core/block.go:99-122 | true exactly for a block with a valid signature, only valid transactions and the right data hash |
| BlockObject.BlockObject.Hash | core/block.go:132-139 | caches the first hash for good; if the cache was coherent the result is the header's hash |
| BlockObject.BlockObject.AddTransaction | core/block.go:79-81 | adds to the transactions and touches neither header nor cache |
| BlockObject.CalculateDataHash | core/transaction.go:94-107 | the loop over a growing buffer digests the concatenated encodings |
| BlockObject.BuildAndHash | server/server_internal.go:172-196 | built, signed and then hashed, a block verifies, its header is not changed by signing, and its cached hash is coherent |
| BlockObject.HashAddSign | core/block.go:79-97 | hashed before a transaction is added and the block signed, it keeps the stale hash: unless hashes collide, coherent exactly if the data hash was that of the longer list from the start |
| Blockchain.IndexOneMore | core/blockchain.go:246-252 | storing one more transaction keeps the store equal to "latest transaction with this hash" |
| Blockchain.StoreOneMore | core/blockchain.go:241-244 | storing a block under a new header keeps the store exactly the list's blocks |
| Blockchain.LastWithHashExactly | core/blockchain.go:246-252 | the latest transaction with a digest is found exactly if there is one, and none after it has that digest |
| Blockchain.LatestOnChain | core/blockchain.go:216-252 | a digest is known exactly if some block on the chain has such a transaction |
| Blockchain.HeaderStore.Put | core/blockchain.go:46-59 | refuses exactly the known hashes; otherwise appends, keeping the index the exact inverse of the list |
| Blockchain.HeaderStore.GetAt | core/blockchain.go:74-84 | the header at that position; an error above the height, and out of range on an empty store, whose height is 2^32 - 1 |
| Blockchain.HeaderStore.GetHash | core/blockchain.go:86-98 | the header with that hash, or an error if there is none |
| Blockchain.Blockchain.constructor | core/blockchain.go:126-147 | a chain of just the genesis block with an empty contract state |
| Blockchain.Blockchain.PersistBlock | core/blockchain.go:229-254 | refuses exactly the known header hashes; otherwise header list, block store and transaction store all gain the block and stay in agreement |
| Blockchain.Blockchain.ValidateBlock | core/validator.go:19-46 | gives the verdict of the plain list of blocks |
| Blockchain.Blockchain.RunAll | core/blockchain.go:162-177 | running the transactions on the shared state ends as the functional run does, failures and leftovers included |
| Blockchain.Blockchain.AddBlock | core/blockchain.go:149-180 | with all its indexes, does to chain and contract state exactly what the plain list model does, with the same outcome |
| Blockchain.Blockchain.GetBlockAt | core/blockchain.go:199-206 | the block of the plain list at that height |
| Blockchain.Blockchain.GetBlockHash | core/blockchain.go:208-214 | the block of the plain list with that header hash, or an error if none has it |
| Blockchain.Blockchain.GetTransaction | core/blockchain.go:216-218 | the latest transaction on the chain with that hash |
| PoolSpec.KnownExactly | server/txpool.go:147-152 | a well-indexed lookup knows a hash exactly if an entry of the list has it |
| PoolSpec.AddExactly | server/txpool.go:78-121 | an error exactly if `pending` is full, otherwise refused exactly if the hash is pending, otherwise at the end of both lists |
| PoolSpec.StepKeepsPending | server/txpool.go:72-121 | one Add or ClearPending keeps the structure of `pending` |
| PoolSpec.PendingStructure | server/txpool.go:72-121 | after every run: at most `max` entries, distinct hashes, lookup and list in exact agreement, and a tail of what was accepted |
| PoolSpec.RemoveFirst | server/txpool.go:177-186 | removing the first entry's hash from a well-indexed map removes exactly that entry and keeps it well indexed |
| PoolSpec.AcceptKeepsWindow | server/txpool.go:88-121 | accepting a hash that is new within the window moves the window on by one |
| PoolSpec.WindowForcesDistinct | server/txpool.go:88-121 | conversely, if `all` is still a proper window afterwards, the hash was new within it |
| PoolSpec.WindowExact | server/txpool.go:78-125 | throughout a run `all` is the indexed window of the last `max` acceptances if and only if no hash was accepted twice within a window |
| PoolSpec.PendingIsTailOfAll | server/txpool.go:78-125 | in that case `pending` is a tail of `all` |
| PoolSpec.HistoryOutgrowsMax | server/txpool.go:85-100 | otherwise it can fail, for every `max` of at least 2 and every hash: one hash accepted twice, then `max` new ones, leave `max` + 1 entries, the first unknown to the lookup |
| PoolSpec.NeverPrunedAgain | server/txpool.go:88-100 | a history longer than `max` is never pruned again: it keeps its entries and gains every transaction accepted from then on |
| PoolSpec.HistoryGrowsForever | server/txpool.go:78-121 | from there on `all` holds all but one of the transactions ever accepted, however many |
| TxPool.List.Append | types/list.go:29-31 | appends, writing to the shared array or moving to a new one; the cells in use keep their values |
| TxPool.List.Clear | types/list.go:33-35 | empties the list onto a new array, leaving the old one to whoever still holds it |
| TxPool.List.Index | types/list.go:38-45 | the first index of the value, or -1 exactly if it is absent |
| TxPool.List.DeleteAt | types/list.go:55-67 | shifts the rest down in the same array; out of range it does nothing |
| TxPool.List.Delete | types/list.go:47-53 | removes the first occurrence and nothing else |
| TxPool.DeleteFirstAt | types/list.go:47-67 | removing the first occurrence is cutting the list at the first index |
| TxPool.OrderedMap.Add | server/txpool.go:154-161 | list and lookup both gain the transaction |
| TxPool.OrderedMap.Remove | server/txpool.go:177-186 | removes the lookup entry and the first list entry equal to it, or nothing for an unknown hash |
| TxPool.OrderedMap.Clear | server/txpool.go:188-193 | empties both, moving to a new array |
| TxPool.TxPool.Prune | server/txpool.go:88-100 | a full history gives up its oldest entry by hash |
| TxPool.TxPool.Add | server/txpool.go:78-121 | equals the functional Add in answer and state, and leaves every slice handed out earlier as it was |
| TxPool.TxPool.ClearPending | server/txpool.go:72-74 | empties `pending` only, and leaves every slice handed out earlier as it was |
| TxPool.TxPool.Pending | server/txpool.go:64-66 | hands out the live slice of the pending list, which no pool operation will disturb |
| TxPool.SliceSurvives | server/server_internal.go:181-205 | a slice taken from the pool shows the same transactions after any sequence of pool operations |
| Node.TxTakenExactly | server/server_internal.go:99-125 | a transaction becomes pending and is passed on exactly if it is signed, fewer than 1000 are pending and none has its digest; nothing else changes |
| Node.BlockTakenExactly | server/server_internal.go:236-283 | exactly when a block is appended and passed on, when it triggers a request for blocks and from which height, what it leaves in the contract state, and when the server halts |
| Node.DraftIs | core/block.go:33-97 | the block a server would create, field by field: on its tip, all pending transactions in order, signed with its key over a header that has their digest |
| Node.CreatedExactly | server/server_internal.go:172-208 | exactly when creating a block succeeds, what it leaves in the contract state, that pending transactions are cleared only then, and when the server halts |
| Node.GetBlocksExactly | server/server_internal.go:285-317 | a request is answered exactly if the requestor is a peer and the height below 2^32 - 1, where that peer is reached and with the blocks from the start on; otherwise a peer's request halts the server and any other does nothing |
| Node.ResponseExactly | server/server_internal.go:319-333 | a response changes the chain only, is not answered, and halts the server exactly if an AddBlock panics |
| Node.OneApplied | server/server_internal.go:324-331 | a block of a response is skipped if its height is present, and goes through AddBlock otherwise |
| Node.AppliedInTurn | server/server_internal.go:324-331 | blocks of a response are applied in turn, and none after a refusal |
| Node.OthersExactly | server/server_internal.go:210-234 | a status request is answered to all connections with the height; transactions and blocks go to their handlers |
| Node.SubscriptionsExactly | server/handle_subscribe.go:10-49 | a subscription is accepted exactly if there is a connection to its handle, which is then where the requestor is reached |
| Node.AddKeepsChain | core/blockchain.go:149-180 | every AddBlock keeps links, distinct hashes, genesis, and replay unless it leaks |
| Node.ApplyKeepsChain | server/server_internal.go:319-333 | so does a whole GetBlocksResponse, whatever blocks are in it |
| Node.TxKept | server/server_internal.go:99-125 | handling a transaction keeps every invariant and does not touch the chain |
| Node.BlockKept | server/server_internal.go:236-263 | handling a block keeps every invariant, including that block heights are broadcast in increasing order |
| Node.HandleKept | server/server.go:250-307 | every message keeps every invariant and never rewrites the chain |
| Node.CreateKept | server/server_internal.go:172-208 | so does creating a block |
| Node.MadeKeepsPool | server/server_internal.go:193-205 | moving the pending transactions into a block conserves them |
| Node.DraftValid | server/server_internal.go:172-196 | a created block passes validation on its creator's chain if and only if the height is below 2^32 - 1 |
| Node.SignedBlockVerifies | core/block.go:70-122 | setting the data hash again after signing changes nothing, so the signature still verifies |
| Network.ApplyKept | server/server_internal.go:38-67 | one step of the network keeps every server's invariants, and chains only grow at their end |
| Network.Run | server/server_internal.go:38-67 | so does every run, from every state that has them |
| Network.GenesisIs | server/server.go:377-385 | the genesis block, field by field |
| Network.EveryServer | server/server_internal.go:172-333 | in every run, forged messages included, every server's chain is linked from the genesis, its state is the replay of it unless it leaked, it broadcast a block at most once per height, and every block, every transaction on it and every one its pool accepted is signed |
| Network.EmitExactly | network/local_transport.go:96-136 | a broadcast is one message per connection, and a message to one needs a connection to it |
| Network.ReactionsExactly | server/server_internal.go:38-67 | a running server becomes what its reaction says, and the reaction's message goes out |
| Network.HaltedStays | server/server_internal.go:38-67 | no step changes a server that panicked |
| Network.OnlyPeersServed | server/server_internal.go:285-317 | in every run blocks are sent only where a peer is reached: who has not subscribed is not served |
| Network.NothingLostOrReordered | server/server_internal.go:99-208 | in every run the transactions of the blocks a server made, then its pending ones, are exactly those its pool accepted, in order |
| Network.CreatedBlocksValid | server/server_internal.go:172-196 | in every reachable state the next block would validate if and only if the height is below 2^32 - 1 |
| Network.SameBlocksSameContract | core/blockchain.go:149-180 | servers with equal blocks that never leaked have equal contract states |
| Network.LeakReached | server/server_internal.go:172-196 | two steps from the start lose replay: a signed transaction with the leaking bytecode is submitted, and the server creates a block |
| Stuck.ListNeverRuns | core/blockchain.go:162-171 | a block with a transaction that never runs does not run on any state, wherever it stands |
| Stuck.StuckForever | server/server_internal.go:180-207 | once a pending transaction can never run, no later run, whatever arrives, makes its server create a block, because pending transactions go into one block and are cleared only when it is added |
| Stuck.SubmittedIsStuck | server/server_internal.go:99-208 | one such transaction submitted first is enough: the server creates no block in any run |
| SingleCreator.AddNext | core/blockchain.go:149-180 | the next block of a chain that replays is accepted by any server in step with a prefix of it |
| SingleCreator.ApplyCatchesUp | server/server_internal.go:324-331 | a stretch of the creator's chain that starts no later than the own chain ends is applied completely, every AddBlock succeeding |
| SingleCreator.HandleFollows | server/server.go:250-307 | whatever a server does with a message about the creator's chain, it stays on that chain and so does its reply |
| SingleCreator.RunFollows | server/server_internal.go:172-333 | that all chains and packets follow the creator's chain is kept by every run in which it alone creates blocks |
| Prefix.HandlePrefixed | server/server.go:250-307 | a server holding a prefix of the creator's chain keeps to it, and sends only blocks of it, whatever message it gets whose blocks are on it |
| Prefix.PrefixAgreement | server/server_internal.go:172-333 | in every run where one server creates blocks and forged messages, otherwise arbitrary, carry only copies of its blocks, every chain is a prefix of the creator's, and every block in flight is its block at that height |
| SingleCreator.RunHealthy | core/blockchain.go:162-171 | if the creator's own blocks never failed after running transactions, no other server's did, in every such run |
| SingleCreator.CreatorDecides | core/blockchain.go:162-171 | then every server's contract state is the replay of its blocks |
| SingleCreator.CatchUp | server/server_internal.go:285-333 | applying a response, after any run since it was built, gives the longer of the own chain and the provider's, every AddBlock succeeding |
| SingleCreator.DeliveredResponse | server/server_internal.go:319-333 | any response in flight in any such run brings its receiver to the end of the response and does not halt it |
| SelfHeal.Asks | server/server_internal.go:236-283 | a block too far ahead makes the server send a request from its next height to each connection, and changes nothing else |
| SelfHeal.Answers | server/server_internal.go:285-317 | a known peer answers with its blocks from that height on |
| SelfHeal.HealsInEveryRun | server/server_internal.go:236-333 | in every single-creator run, three deliveries after a block from too far ahead leave the server running with the longer of its chain and its peer's |
| Gossip.HandleCheaper | server/server_internal.go:99-333 | every reaction either uses up room for blocks or transactions, or sends messages that together weigh less than the one handled |
| Gossip.DeliverDecreases | server/server_internal.go:38-67 | every delivery makes the measure of the network smaller |
| Gossip.GossipEnds | server/server_internal.go:99-333 | no sequence of deliveries and losses is longer than the measure of the state it starts in |
| Gossip.BroadcastsLogged | server/server_internal.go:160-208 | every broadcast of a block, and nothing else, enters the log that EveryServer speaks of |
| Quiet.TipArrives | server/server_internal.go:236-283 | the creator's newest block, arriving at a server behind it, is appended or makes the server ask the creator |
| Quiet.RequestArrives | server/server_internal.go:285-317 | a request from a peer behind the creator is answered with a response that reaches the creator's tip |
| Quiet.RunKeepsTouch | server/server_internal.go:172-333 | in every lossless single-creator run a peer connected both ways, level at the start or once the creator adds a block, is level, or the creator's newest block, a request to it or a response up to its tip is in flight |
| Quiet.QuietMeansLevel | server/server_internal.go:172-333 | so whenever no message to either is in flight, such a peer of the creator has its whole chain |
| Connection.ConnectionNeeded | server/server_internal.go:236-283 | for every topology and scheme: a peer the creator is connected to, but not it to the creator, lacks the newest block at the end of some such run, since its request reaches nobody who has the others |
| Connection.LevelIffConnected | server/server_internal.go:236-317 | so a peer of the creator always has its whole chain at rest if and only if it has a connection back to it |
| Line.FarEndLeftBehind | server/server_internal.go:319-333 | further away, rest is not enough for any scheme: on a line of three servers the far end keeps just the genesis, nothing being lost or in flight, while its neighbour has every block |
| MemStore.RunKeeps | core/storage.go:44-82 | in every interleaving the map is the effect of the calls taken so far, except a put still to be written |
| MemStore.Linearizable | core/storage.go:44-82 | the order in which calls were taken is a total order that respects real time and explains every answer |
| MemStore.GetIsAnswered | core/storage.go:69-82 | in every interleaving, a get not yet taken is answered by an idle handler in four steps with the latest put to its key |
| MemStore.PutIsWritten | core/storage.go:60-67 | and a put is written in two |
| MemStore.EveryCallReturns | core/storage.go:44-82 | progress: whatever has happened, every call that has not returned does so after at most six more steps |
| MemStore.CallsWaitExactly | core/storage.go:44-82 | what a call waits for: an idle handler to be taken; then a put for nothing, and a get for its answer |
| MemStore.HandlerNeverBlocks | core/storage.go:49-54 | whenever the handler has an answer, the response channel has room for it |
| MemStore.PutReturnsEarly | core/storage.go:60-67 | a put may return while the map still lacks its value |
| Envelope.PutUint32 | network/tcp_envelope.go:40-43 | four little-endian bytes that read back as the same number |
| Envelope.EncodeIs | network/tcp_envelope.go:24-77 | what is sent, byte by byte: the length of all that follows, the sender behind its length, the payload behind its length, all in four bytes, least significant first |
| Envelope.DecodeIs | network/tcp_envelope.go:79-95 | what is read from a buffer of up to 64 KiB is exactly what the two lengths in it say, and a panic if they say too much |
| Envelope.DecodeBody | network/tcp_envelope.go:79-95 | a body decodes to its envelope whatever stale bytes follow it in the buffer |
| Envelope.DecodedFits | network/tcp_envelope.go:79-95 | what is decoded, with its prefixes, lies within the buffer |
| Envelope.HandedFit | network/tcp_transport.go:188-204 | whatever arrives, only envelopes that fit the buffer are handed over |
| Envelope.TurnExactly | network/tcp_transport.go:178-204 | one turn of the loop in full: the length from the bytes that came and the old ones, each reason to stop with the buffer it leaves, and what is handed over |
| Envelope.FramingRoundTrip | network/tcp_transport.go:174-205 | concatenated encodings that arrive in pieces splitting no length prefix are handed over as exactly that list, every byte consumed, if and only if every body fits 64 KiB |
| Envelope.LimitIs64KiB | network/tcp_transport.go:174-191 | so all of a list is read exactly if no body exceeds 65536 bytes |
| Envelope.OneMessageExactly | network/tcp_transport.go:180-191 | the prefix is read with a single Read: every message, sent first, comes through if and only if its prefix arrives in one piece |
| Envelope.PayloadSurvives | network/tcp_transport.go:174-204 | after a whole stream is read, the view of message i still shows its payload exactly if each payload byte was last written with the same value by the later messages |
| Envelope.NextPayload | network/tcp_transport.go:174-204 | one later message from a sender with a name of the same length: exactly if both payloads agree on their common length |
| Envelope.PayloadReplaced | network/tcp_transport.go:174-204 | the failing family: with payloads of the same length the first view shows the second payload |
| Envelope.EncodeEnvelope | network/tcp_envelope.go:24-77 | the step-by-step encoder with its reused prefix array writes the envelope's encoding |
| Envelope.DecodeEnvelope | network/tcp_envelope.go:79-95 | the decoder advancing a 32-bit offset returns a view of the buffer, at the place the envelope's lengths give, that shows the decoded envelope; or panics |
| Envelope.Read | network/tcp_transport.go:169-206 | the loop with its reused prefix array and buffer, on any pieces of a stream, hands over the envelopes of the functional reader with their views, and leaves that reader's buffer |
| LocalTransport.LocalTransport.Connect | network/local_transport.go:63-90 | the mutual recursion ends; it adds both directions, or nothing at all if the first is known already |
| LocalTransport.ConnectBoth | network/local_transport.go:63-90 | one Connect keeps the relation symmetric, connects both ways, and adds no other entry |
| LocalTransport.ConnectAll | network/local_transport.go:48-90 | so does every sequence of Connect calls among transports with distinct addresses |
| Server.Server.constructor | server/server.go:377-385 | a new server is the starting node: genesis chain, empty pool, no peers |
| Server.Server.AddToChain | core/blockchain.go:149-180 | AddBlock on the server's chain is the node's step, a panic halting it |
| Server.Server.HandleTransaction | server/server_internal.go:99-125 | in place, does and sends what the node's reaction says |
| Server.Server.HandleBlock | server/server_internal.go:236-263 | in place, does and sends what the node's reaction says |
| Server.Server.RequestBlocks | server/server_internal.go:265-283 | asks all connections for blocks from the wrapped next height |
| Server.Server.CollectBlocks | server/server_internal.go:298-305 | below height 2^32 - 1 the loop on a 32-bit counter ends with exactly the blocks from the start to the height |
| Server.Server.HandleGetBlocksRequest | server/server_internal.go:285-317 | in place, does and sends what the node's reaction says |
| Server.Server.HandleGetBlocksResponse | server/server_internal.go:319-333 | the loop applies the response as the node's reaction says, stopping at the first refusal |
| Server.Server.Subscribe | server/server.go:352-375 | asks the leader to subscribe; without a connection to it the server panics |
| Server.Server.HandleSubscribeRequest | server/handle_subscribe.go:10-34 | a requestor whose handle names a connection becomes a peer, reached through that handle, and is answered there; others are ignored |
| Server.Server.HandleSubscribeResponse | server/handle_subscribe.go:36-49 | a connected provider becomes a peer |
| Server.Server.ProcessMessage | server/server.go:250-307 | for every message the server in place takes exactly the node's step |
| Server.Server.DraftBlock | server/server_internal.go:175-191 | the block built in place is the one the node's step would create |
| Server.Server.CreateNewBlock | server/server_internal.go:172-208 | creating a block in place is exactly the node's step |

## Left out

- RunUnder: says nothing of failing runs: one may go on to succeed once more values or keys are there.
- CompileCorrect: requires literals, key bytes and key lengths outside the opcode set, because the machine executes operands. VmLayout has the exact condition for one assignment of a literal; no converse is claimed for whole programs, since some with opcodes as operands still end as they mean, such as one with a later key starting with byte 10, which leaves the right state and one more value on the stack.
- SameHeaderSameHistory: assumes prefix-free encodings and no collision between the headers and transaction lists compared, which no fixed-length digest offers for all inputs.
- CatchUp: speaks of runs in which the creator's blocks did not fail after running transactions; after such a failure replay is lost (FailedBlockLeaks).
- AddKeepsInStep: the contract state is compared as a value, so a block whose transactions change nothing before failing counts as harmless.
- SliceSurvives: a slice may grow to any larger capacity, because Go does not fix its growth policy; concurrent use of the pool is not modelled.
- Linearizable: operations on the map are atomic steps of one handler goroutine, on values rather than in place, because the claim is about interleavings; the error text of a missing key is dropped.
- GossipEnds: time, retransmission and timers are not modelled; a lost message is a step of its own.
- Read: the pieces are what reads of the connection return, none of them split further by the size of the reader's own buffer; reads that return nothing are skipped. The end of the stream, a panic in the source, is an ordinary end. That a stream of several messages with a split prefix is misread is proved for its first message only (OneMessageExactly): a later misreading could by chance come out right.
- QuietMeansLevel: asks that the server be level with the creator at some point when it is a peer already, or that the creator add a block after that. One that subscribes late may have had its request refused before, and stays behind until the next block.
- ConnectionNeeded: takes connections as transports make them, none to itself and none twice, and a scheme under which the genesis and the creator's two blocks have different hashes. Between local transports every connection goes both ways (ConnectBoth), so there every peer of the creator is level at rest.
- RunFollows: and the results on catching up, healing and rest exclude forged blocks, requests and responses, and subscriptions in another's name, which do change what servers ask for and are sent.
- DeliveredResponse: and CatchUp and HealsInEveryRun deliver responses of any length, as the local transport does. Over TCP a message whose body exceeds 64 KiB makes the reader panic (TooLong in Envelope), so a response that long does not arrive.
- AddTransaction: the source's append may write behind the end of an array shared with the pool; no modelled operation adds to a block that holds the pool's slice.
- ExecPack: lengths above 2^48 panic as in a 64-bit Go runtime; running out of memory below that is not modelled.
- DraftBlock: the block's transactions are copied out of the pool's slice; SliceSurvives is what makes the copy and the shared slice look the same.
- Add: TxPool.Add's deferred rollback is omitted, since adding to an ordered map never returns an error.
- Blocks in module Ledger carry no hash cache: a block from the wire has none, and a created one is first hashed after signing (BuildAndHash). Module BlockObject models the cache.
- The block store is keyed by the header's value instead of its address; chains never hold two equal headers, so lookups agree.
- HandleTransaction: leaves out the creation times of transactions: no modelled decision reads them, except that deep equality in the history of the pool does; PoolSpec is generic in the transaction type and so covers them.
- Status messages are reduced to the height; the version and server id are only logged. Send errors and other errors that are only logged are dropped.
- Elliptic-curve keys, SHA-256, gob and JSON, and malformed keys or blocks without a header, on which those libraries may panic.
- The HTTP API, start-up code, dialing and accepting TCP connections, timers, logging, and formatting of hashes and addresses.
- Data races: locks are taken to make each operation atomic.
