# zkmsg models

Dafny models of the parts of zkmsg whose correctness is not visible from one
function, with proofs over every input, every run or every reachable state.
`dafny verify dfyconfig.toml` checks the whole project. The modules, one file
each:

| module | what it models |
|---|---|
| `EvalMachine`, `TraceSplit`, `TraceSplitProof`, `TraceReread`, `LookupSplit` | the generator that cuts a component's constraint evaluation into parts that hand a carry to each other, what the parts compute, and exactly when that is what the uncut function computes |
| `MerkleTree`, `EventOrder`, `RegistryTree`, `Tickets`, `PrepareSend` | the sparse depth-20 tree, its rebuild from events, the ticket wallet, and the checks of a send's preparation |
| `WitnessSynthesis` | decommitment witnesses for a subset of the queried positions |
| `PublishProtocol`, `TicketLedger`, `QuotaLog` | publishing a send under crashes, tickets shared by many sends, quota slots |
| `VaultCreation`, `AppLock`, `TicketMove`, `FeederSync`, `SpillAlloc` | the local concurrent protocols: vault creation, the PIN counter, moving tickets before a wipe, fetching and caching events, the spill allocator |
| `PackCodec`, `FieldPacker`, `LayerChunks`, `ByteArrays`, `MessagePadding`, `InvokeCalldata`, `TxPolicy` | codecs, transport chunking and the fee policy |

Hashes and the arithmetic of the generated constraints are uninterpreted
functions. Where a hash must be strong, a result names the inputs that collide
otherwise: one hashed on the way up and the genuine one in its place
(`MerkleTree.SomeCollision`). Code that changes state in place is a
class or a method with loops, proved against specification functions.
Protocols whose steps interleave or may be cut off by a crash are state
machines on values: one event for each step that touches a disk, a network or
a lock.

Places where the code does less than it says it does, with the exact condition
where one is proved:

* Every cut part reads the trace columns and preprocessed values it mentions
  afresh, which undoes a tail statement that bound one again. Which names are
  then stale can be followed in the text, and the parts compute the uncut sum
  and seam if and only if none of the values handed on is
  (`TraceReread.SplitPreserves`, `TraceReread.StaleTells`).
* A cut part that reads `log_size` itself after the first cut never comes out
  or never runs (`TraceReread.SplitRunsExactly`); half B1 cannot read
  `column_size` or look back at a column of half B2, which the script does not
  assert (`LookupSplit.HalvesRunExactly`).
* The wallet is loaded, changed and saved with nothing held in between. Over a
  run it stays in order if and only if no send stops between giving its ticket
  back and retiring, and no wallet is saved that was loaded before another send
  was prepared that still keeps its ticket, or before a ticket was spent
  (`TicketLedger.LedgerExactly`); where loads and saves do not overlap only the
  first remains (`TicketLedger.SerialExactly`). Otherwise two sends prove with one
  ticket, a spent ticket is unspent again, a send submits with a ticket the wallet
  calls unspent, or frees one another send has reserved.
* So is the quota log. A slot is handed out twice if and only if some take loaded
  the log before another take of its epoch was saved, or loaded it when it was
  another store's or epoch's although its own had been taken from
  (`QuotaLog.RepeatsExactly`): two sends at once suffice, and so does one late save
  of an earlier epoch. Where loads and saves do not overlap it takes a second
  store (`QuotaLog.SerialRepeatsExactly`).
* The tenth wrong PIN wipes unless the process stops in that very attempt
  (`AppLock.CappedExactly`); with such crashes there is no cap at all
  (`AppLock.NoCapUnderCrashes`).
* A packed value of 256 bits or more does not come back
  (`PackCodec.RoundTripExactly`); the ByteArray decoder accepts layouts no
  encoder writes (`ByteArrays.ReencodesExactly`); a packed resource bound wraps
  in the field for the upper eight-byte names (`InvokeCalldata.PackedDetermines`).
* At an L2 price of 0 the last fee check can refuse after all earlier ones
  passed (`TxPolicy.FreeGasCanFailLast`).
* A deletion loses a ticket if and only if, after its last look at the wallets, one
  is bought in the deleted profile, or a process of the target saves a wallet it
  loaded while that lacked one, and the wipe follows; or such a save follows the
  wipe (`TicketMove.NothingLostExactly`).
* The second settlement of a send's preparation never finds it a ticket; it only
  changes the reason of the refusal (`PrepareSend.LatestNeverHelps`,
  `PrepareSend.LatestChangesWhy`).

## Model

| member | source | states |
|---|---|---|
| TraceSplit.CrossingTmps | scripts/split_component_evals.py:362-381 | the crossing temporaries of a boundary are exactly the names defined before it and used after it that are no column, accumulator or prelude name, in the order they are first defined |
| TraceSplit.AddCrossing | scripts/split_component_evals.py:372-380 | one statement's names are added once each, in order, when they cross |
| TraceSplit.AddPart | scripts/split_component_evals.py:370-380 | the same over all statements of a part |
| TraceSplit.StripUnusedPrelude | scripts/split_component_evals.py:172-187 | the stripping loop computes its specification, including the bodies on which the script never ends |
| TraceSplit.EmitParts | scripts/split_component_evals.py:391-428 | the loop over the parts emits each part's stripped text and what it hands on, or does not end; of the tail statements, part p has exactly those from cut p - 1 to cut p |
| TraceSplit.PartStatements | scripts/split_component_evals.py:358-359 | the tail statements of an emitted part are those from the cut before it to the cut behind it, in order, and no others |
| TraceSplit.PartColumns | scripts/split_component_evals.py:382-412 | each part destructures the trace once, into exactly the columns its own tail statements mention |
| TraceSplit.PartCarry | scripts/split_component_evals.py:365-418 | a part hands on `claimed_sum`, the accumulators and, in the order of their first definition, the names defined before the cut and mentioned behind it; the next part pops exactly these in that order; the last hands on the seam |
| TraceSplitProof.StripWithPrelude | scripts/split_component_evals.py:172-187 | stripping a part that has the three prelude lets always ends and drops exactly those nothing in the part needs |
| TraceSplitProof.StripWithoutPrelude | scripts/split_component_evals.py:172-187 | a later part keeps all its lines, or never comes out |
| TraceSplitProof.CarryInherits | scripts/split_component_evals.py:365-381 | every temporary carried across a boundary was carried across the boundary before or is defined in the part between |
| TraceSplitProof.ForkTerminates | scripts/split_component_evals.py:305-457 | for well-formed bodies the script ends, with one part per stretch of the tail |
| TraceSplitProof.SplitRereads | scripts/split_component_evals.py:318-457 | for every body and sorted cut list, running the parts through their carries is running the uncut body with the inputs a part mentions read again at its start, and nothing else changes |
| TraceReread.SplitPreserves | scripts/split_component_evals.py:318-457 | if nothing handed on is stale, running the parts is running the uncut body whatever the operations mean: same failure, or same sum, seam values and remaining trace |
| TraceReread.StaleTells | scripts/split_component_evals.py:391-418 | and only then: where operations can tell values apart, a body that runs gives the same sum and seam through its parts if and only if nothing handed on is stale |
| TraceReread.HarmlessIsClean | scripts/split_component_evals.py:391-418 | nothing is stale when no part mentions an input that was bound again before it |
| TraceReread.LateReadIsNotClean | scripts/split_component_evals.py:391-418 | a later statement that updates the sum or an accumulator from an input bound again before its part leaves what is handed on stale |
| TraceReread.TermsAreFree | scripts/split_component_evals.py:391-418 | there is a meaning that can tell values apart |
| TraceReread.RebindingColumnBreaks | scripts/split_component_evals.py:391-418 | a body of two statements the script accepts gives another sum or seam through its parts |
| TraceSplitProof.LogSizeConditionNeeded | scripts/split_component_evals.py:398-406 | a later part that reads `log_size` without `column_size` never runs, whatever the inputs |
| TraceReread.SplitRunsExactly | scripts/split_component_evals.py:398-406 | given that the uncut body runs, the parts run if and only if `log_size` is used after the first cut only through `column_size` |
| TraceReread.SameMarksExactly | scripts/split_component_evals.py:408-410 | the parts mark the same preprocessed columns if and only if some part uses every preprocessed read (or it was marked before) |
| EvalMachine.ExecAgree | scripts/split_component_evals.py:362-381 | code cannot tell apart environments that agree on the words in its text, which is what the word-set carry rests on |
| EvalMachine.ExecFrame | scripts/split_component_evals.py:160-169 | code adds exactly the names its lets define and leaves the rest alone |
| LookupSplit.HalvesPreserve | scripts/split_component_evals.py:488-573 | cutting the logup constraints at any k (0 and past the end included, where the slices are cut off), half B1 then half B2 on its carry computes the same sum and consumes the same mask columns as the uncut function, or fails alike |
| LookupSplit.HalvesText | scripts/split_component_evals.py:505-538 | for any k, half B1 has the first k constraints and 4k columns as far as there are so many, half B2 the rest, and B2 pops what is left of the numerators and sums and the four columns before the cut |
| LookupSplit.ScopeNeeded | scripts/split_component_evals.py:507-516 | if half B1 reads `column_size` or a look-back of a column of half B2 the halves never run |
| LookupSplit.HalvesRunExactly | scripts/split_component_evals.py:507-538 | given the script's asserts and that the uncut function runs, the halves run if and only if half B1 stays in that scope |
| MerkleTree.MerkleTree.constructor | tools/zkmsg/core/src/tree.rs:32-39 | the zero hashes make the empty sparse tree the full tree over zero leaves |
| MerkleTree.MerkleTree.Insert | tools/zkmsg/core/src/tree.rs:45-67 | after an insertion every stored node is the subtree hash of the zero-padded leaves with the new leaf appended |
| MerkleTree.MerkleTree.GetRoot | tools/zkmsg/core/src/tree.rs:69-71 | the root is the full tree's root |
| MerkleTree.MerkleTree.Path | tools/zkmsg/core/src/tree.rs:78-88 | the path is the full tree's twenty siblings, bottom-up |
| MerkleTree.FoldPath | tools/zkmsg/core/src/tree.rs:93-107 | the folding loop computes the fold |
| MerkleTree.PathFolds | tools/zkmsg/core/src/tree.rs:78-107 | for every leaf, old or new, the path folds with it to the current root |
| MerkleTree.AppendElsewhere | tools/zkmsg/core/src/tree.rs:51-63 | appending a leaf changes no node but the new leaf's ancestors |
| MerkleTree.FoldBinds | tools/zkmsg/core/src/tree.rs:91-107 | a path that folds to the root is the genuine path from the genuine leaf, if and only if none of the inputs it hashes collides with the genuine ones of its level |
| MerkleTree.RootBinds | tools/zkmsg/core/src/tree.rs:69-71 | equal roots of two trees mean equal leaf and path at a position, if and only if no two inputs on the way up from it collide |
| MerkleTree.InjectiveBinds | tools/zkmsg/core/src/tree.rs:91-107 | for an injective hash a path folds to the root if and only if leaf and path are genuine |
| EventOrder.SortIndexes | tools/zkmsg/core/src/registry.rs:89-97 | sorting by index gives the contract's sequence if and only if the indices are 0..n-1, once each |
| EventOrder.SortIgnoresOrder | tools/zkmsg/core/src/registry.rs:89-97 | that sequence does not depend on the order the events came in |
| RegistryTree.FromRegistrations | tools/zkmsg/core/src/registry.rs:88-102 | the rebuild accepts if and only if the leaf indices are 0..n-1 once each and no handle is registered twice, and then holds exactly the sorted registrations and their tree; a refusal names the first registration out of place or a handle that occurs twice |
| RegistryTree.RebuildIgnoresOrder | tools/zkmsg/core/src/registry.rs:88-102 | acceptance and result are invariant under permutation of the events |
| RegistryTree.Registry.Get | tools/zkmsg/core/src/registry.rs:130-136 | a handle is found if and only if registered, and then with the one registration it has |
| RegistryTree.Registry.Path | tools/zkmsg/core/src/registry.rs:142-146 | a path is given exactly for leaves in the tree, and is the tree's |
| Tickets.FromEvents | tools/zkmsg/core/src/tickets.rs:262-289 | the ticket tree's rebuild accepts if and only if the indices are 0..n-1 once each, and else names the first purchase out of place |
| Tickets.RebuildIgnoresOrder | tools/zkmsg/core/src/tickets.rs:259-289 | its leaves are invariant under permutation of the events |
| Tickets.TicketTree.Path | tools/zkmsg/core/src/tickets.rs:317-321 | a path is given exactly for tickets in the tree, and is the tree's |
| Tickets.First | tools/zkmsg/core/src/tickets.rs:313-315 | the index found for a leaf is its first position, and is found if and only if present |
| Tickets.Position | tools/zkmsg/core/src/tickets.rs:205-207 | the first wallet entry with a nullifier, or none has it |
| Tickets.Wallet.Mint | tools/zkmsg/core/src/tickets.rs:140-153 | the new wallet is the old one followed by one pending ticket per secret, and the leaves are theirs |
| Tickets.MintedSettles | tools/zkmsg/core/src/tickets.rs:140-168 | a minted ticket is usable once settled against a tree, if and only if the tree holds its leaf |
| Tickets.Wallet.Settle | tools/zkmsg/core/src/tickets.rs:157-170 | exactly the pending tickets whose leaf the tree holds become unspent with its index, and they are counted |
| Tickets.SettledCountIs | tools/zkmsg/core/src/tickets.rs:157-170 | as many tickets are counted as are pending before and no longer after |
| Tickets.Wallet.Pick | tools/zkmsg/core/src/tickets.rs:173-202 | the first unspent ticket whose leaf the tree holds at its index, if there is one; else the refusal tells how many tickets are unspent, or that none is and some are pending, or neither |
| Tickets.Wallet.MarkSpent | tools/zkmsg/core/src/tickets.rs:210-218 | only the first ticket with the nullifier changes, to spent |
| Tickets.Wallet.Release | tools/zkmsg/core/src/tickets.rs:221-229 | only a reserved ticket is freed, whichever send reserved it |
| Tickets.SettleMakesUsable | tools/zkmsg/core/src/tickets.rs:157-181 | exactly a pending ticket whose leaf the tree holds changes, to unspent at the leaf's first index, and is then usable; settling twice changes nothing more |
| Tickets.UsableForGood | tools/zkmsg/core/src/tickets.rs:157-181 | a settled ticket stays as it is, and usable, when the tree grows and is settled against again |
| PrepareSend.CheckSender | tools/zkmsg/core/src/virtual_send.rs:572-586 | with the rebuilt root equal to the store's it succeeds if and only if both handles are known and the sender's registered keys are the own ones; each refusal has its own condition; the path folds to the root |
| PrepareSend.PickTicket | tools/zkmsg/core/src/virtual_send.rs:590-606 | settling against the base tree, then against the latest when a purchase is pending: the first usable ticket is found if and only if the base tree has one, and a refusal's reason and wallet are the specified ones |
| PrepareSend.RefusalLeaves | tools/zkmsg/core/src/virtual_send.rs:590-606 | ticket by ticket, the wallet a refusal leaves: a pending ticket is settled at its index in the base tree if that holds its leaf, else in the latest tree if that was fetched and holds it; every other ticket stays |
| PrepareSend.LatestNeverHelps | tools/zkmsg/core/src/virtual_send.rs:594-604 | the settlement against the latest tree never makes a ticket usable for this send |
| PrepareSend.LatestChangesWhy | tools/zkmsg/core/src/virtual_send.rs:594-604 | it makes the refusal "not in the tree yet" if and only if the latest tree holds a pending purchase or a ticket was unspent anyway |
| PrepareSend.NextTryFinds | tools/zkmsg/core/src/virtual_send.rs:594-604 | once the base tree has grown past that latest tree the purchase settled there is found |
| PrepareSend.CheckTicket | tools/zkmsg/core/src/virtual_send.rs:589-613 | the picked ticket's path always folds to the ticket root, the wallet is the settled one, and a refusal tells whether the latest tree could not be fetched or what the wallet lacks |
| PrepareSend.Prepare | tools/zkmsg/core/src/virtual_send.rs:572-613 | neither fold check can fail, nor a path be missing, once the roots agree; each refusal has its own condition, both paths of a prepared send fold to their roots, its ticket is unspent, and the wallet left behind is stated for every outcome |
| PrepareSend.RootPinsRegistry | tools/zkmsg/core/src/virtual_send.rs:659-684 | a rebuilt registry whose root is the store's holds the store's own leaf at each position, unless the two trees' inputs collide on the way up from it |
| WitnessSynthesis.SortedDedup | tools/privacy-prove-cairo-bridge/src/main.rs:201-205 | the result ascends strictly and has the same positions |
| WitnessSynthesis.SynthesizeLayer | tools/privacy-prove-cairo-bridge/src/main.rs:175-194 | the loop over one layer's positions pulls exactly the lone siblings, in order, or names the first missing one |
| WitnessSynthesis.SynthesizeWitness | tools/privacy-prove-cairo-bridge/src/main.rs:168-199 | the walk over all layers computes its specification, errors included |
| WitnessSynthesis.WalkExactly | tools/privacy-prove-cairo-bridge/src/main.rs:168-199 | on any recorded layers whatever: a witness if and only if every position walked has its sibling walked or recorded and one position is left; else the error is the lowest layer's first missing sibling, or the positions left over |
| WitnessSynthesis.SubsetWitness | tools/privacy-prove-cairo-bridge/src/main.rs:129-199 | for every subset of the union's positions synthesis succeeds if and only if the subset is not empty, and the verifier's walk then rebuilds the root, consuming the witness exactly |
| WitnessSynthesis.WitnessLength | tools/privacy-prove-cairo-bridge/src/main.rs:175-198 | the witness has the sum over the layers of 2 * parents - positions hashes |
| WitnessSynthesis.OnlyGenuine | tools/privacy-prove-cairo-bridge/src/main.rs:135-139 | what the verifier accepts are the genuine leaves with the synthesized witness and no other, if and only if none of the inputs its walk hashes collides with the genuine one in its place |
| WitnessSynthesis.InjectiveGenuine | tools/privacy-prove-cairo-bridge/src/main.rs:135-139 | for an injective hash it accepts nothing else |
| PublishProtocol.NextNonceGrows | tools/zkmsg/core/src/virtual_send.rs:1002-1005 | the retry nonce is past the refused one, short of the field's last element |
| PublishProtocol.NextNonceLeast | tools/zkmsg/core/src/virtual_send.rs:1002-1005 | short of the field's last element it is the least nonce past the refused one and not below the one the gateway, else the chain, names |
| PublishProtocol.OneLive | tools/zkmsg/core/src/virtual_send.rs:713-831 | in every run at most one transaction of a send can be live, it is the one on disk, and only it can have landed |
| PublishProtocol.LandedIsFinal | tools/zkmsg/core/src/virtual_send.rs:713-831 | once one has landed, the send records no other |
| PublishProtocol.RecordedFirst | tools/zkmsg/core/src/virtual_send.rs:779-786 | every submission was on disk first, with its nonce and bounds |
| PublishProtocol.RecordChanges | tools/zkmsg/core/src/virtual_send.rs:764-786 | what is on disk changes only after feeder and RPC declared it dropped, to a higher nonce, never on the first attempt after a resume: a resume submits exactly what was recorded |
| PublishProtocol.SubmissionsOrdered | tools/zkmsg/core/src/virtual_send.rs:769-829 | over a run, of any two submissions the later repeats the earlier or has a higher nonce and the earlier was declared dropped |
| PublishProtocol.TwelveAttempts | tools/zkmsg/core/src/virtual_send.rs:769-829 | a process makes at most twelve submissions before it is resumed again, whatever the answers |
| PublishProtocol.JudgedSafely | tools/zkmsg/core/src/virtual_send.rs:793-829 | each answer has its outcome, if and only if: taken is awaited, unclear stops, and a refusal is, in this order, too early, a spent ticket, final, or about the nonce, with the last attempt's answer ending the loop |
| PublishProtocol.AwaitsExactly | tools/zkmsg/core/src/virtual_send.rs:713-741 | a send waits for acceptance exactly when the gateway took its transaction, or, asked about the recorded one, it and the RPC do not both call it dropped and it has not reverted |
| PublishProtocol.BuildsExactly | tools/zkmsg/core/src/virtual_send.rs:764-829 | what is built: after a resume the recorded transaction, at first one at the pool's nonce and bounds, after a dropped refusal the same bounds at the next nonce |
| PublishProtocol.StopsExactly | tools/zkmsg/core/src/virtual_send.rs:769-833 | a process stops exactly at a crash, the send's end, an unclear answer, or a refusal that is none of the known or, leaving the ticket open, the last attempt's |
| PublishProtocol.GoesOnExactly | tools/zkmsg/core/src/virtual_send.rs:713-793 | a resume starts from the recorded transaction, a dropped one is kept while the schedule is waited for, and what is built is recorded, then submitted |
| PublishProtocol.LiveExactly | tools/zkmsg/core/src/virtual_send.rs:779-793 | the gateway may hold a transaction from its submission until it drops it, whatever happens to the process |
| PublishProtocol.EndsExactly | tools/zkmsg/core/src/virtual_send.rs:713-858 | over a run, a send is closed as done if and only if the awaited transaction was accepted, as stale if and only if it reverted, the root was forgotten, or the pool called the ticket spent or the refusal final, and with no file if and only if the proof had failed; its ticket was released if and only if the proof failed, the root was forgotten, or a final refusal did not call it spent |
| PublishProtocol.OneBounds | tools/zkmsg/core/src/virtual_send.rs:764-786 | all submissions of a send carry one set of bounds |
| PublishProtocol.ClosedIsQuiet | tools/zkmsg/core/src/virtual_send.rs:688-700 | a retired or finished send submits nothing more |
| PublishProtocol.ReleaseIsDead | tools/zkmsg/core/src/virtual_send.rs:740-749 | a ticket is given back only while nothing of its send is live or landed |
| TicketLedger.GoneStays | tools/zkmsg/core/src/virtual_send.rs:688-700 | a send that gave its ticket back makes no submission with any step, and stays gone unless it stops before it is retired |
| TicketLedger.MoveKeeps | tools/zkmsg/core/src/virtual_send.rs:740-749 | over any number of sends every move keeps the ledger in order, if and only if it is neither a stop between giving the ticket back and retiring the send nor the save of a wallet loaded before another send was prepared that still keeps its ticket, or before a ticket was spent |
| TicketLedger.KnownIs | tools/zkmsg/core/src/virtual_send.rs:589-649 | what a wallet in memory is compared with is the world right after it was last loaded or saved |
| TicketLedger.LedgerExactly | tools/zkmsg/core/src/virtual_send.rs:589-649 | over whole runs the ledger is in order throughout if and only if no such move occurs |
| TicketLedger.SerialExactly | tools/zkmsg/core/src/virtual_send.rs:589-649 | where no wallet is loaded while another is in memory, it is in order throughout if and only if no send stops between the two |
| TicketLedger.UnspentIsSafe | tools/zkmsg/core/src/virtual_send.rs:812-816 | in every run without such moves, of a send whose ticket is unspent at one point nothing is live or landed at any later point, and it makes no further submission |
| TicketLedger.ReturnedForGood | tools/zkmsg/core/src/virtual_send.rs:740-749 | a send that gave its ticket back never submits again and nothing of it is ever live or landed |
| TicketLedger.OneHolder | tools/zkmsg/core/src/virtual_send.rs:645-649 | in such runs no two sends hold one ticket: of two that proved with it one has given it back, or it is spent |
| TicketLedger.SpentForGood | tools/zkmsg/core/src/tickets.rs:210-229 | in such runs a spent ticket stays spent |
| TicketLedger.OverlapReservesTwice | tools/zkmsg/core/src/virtual_send.rs:589-649 | whenever two sends have both loaded the wallet with a ticket unspent, both can reserve it, and the ledger is then out of order |
| TicketLedger.OverlapUnspends | tools/zkmsg/core/src/virtual_send.rs:589-649 | whenever a wallet loaded before a ticket was spent is saved for another ticket, the spent one is unspent again |
| TicketLedger.ReservedTwice | tools/zkmsg/core/src/virtual_send.rs:589-649 | the first overlap is reached by a run |
| TicketLedger.SpentForgotten | tools/zkmsg/core/src/virtual_send.rs:867-869 | so is the second, with the ticket's transaction landed |
| TicketLedger.InterruptedSubmits | tools/zkmsg/core/src/virtual_send.rs:740-749 | the stop can lead to a live transaction of a ticket the wallet calls unspent |
| TicketLedger.InterruptedFreesAnother | tools/zkmsg/core/src/tickets.rs:221-229 | and to freeing a ticket another send has reserved since |
| QuotaLog.QuotaFile.Load | tools/zkmsg/core/src/tickets.rs:334-340 | the log as the file has it |
| QuotaLog.QuotaFile.Finish | tools/zkmsg/core/src/tickets.rs:344-360 | from a log loaded at any earlier time, the call's file and result, all refusals included |
| QuotaLog.QuotaFile.TakeSlot | tools/zkmsg/core/src/tickets.rs:342-360 | the two together, when nobody interferes |
| QuotaLog.TakeExactly | tools/zkmsg/core/src/tickets.rs:344-360 | a call is refused exactly when the log it loaded is ahead of it or has used up its quota; the slot is below the quota, and the first one free |
| QuotaLog.SlotsWithinQuota | tools/zkmsg/core/src/tickets.rs:344-360 | over every interleaving a slot handed out is below the quota |
| QuotaLog.RepeatsExactly | tools/zkmsg/core/src/tickets.rs:344-360 | over every interleaving of loads and saves a slot is handed out twice if and only if some take loaded the log before another take of its epoch was saved, or while it was another store's or epoch's although its own had been taken from |
| QuotaLog.SerialRepeatsExactly | tools/zkmsg/core/src/tickets.rs:344-360 | where loads and saves do not overlap, if and only if another store's slot was taken between two takes of one epoch |
| QuotaLog.TwoSendsOneSlot | tools/zkmsg/core/src/tickets.rs:344-360 | two calls at once on one store and epoch both get slot 0 |
| QuotaLog.EpochSetBack | tools/zkmsg/core/src/tickets.rs:344-360 | a late save of an earlier epoch makes a later epoch's slot 0 be handed out again |
| VaultCreation.VaultForGood | tools/zkmsg/core/src/vault.rs:214-229 | vault.json once present never changes and names a key that stays in the Keychain |
| VaultCreation.OneKey | tools/zkmsg/core/src/vault.rs:183-236 | any two processes that return a key, whenever they do, return the same one |
| VaultCreation.SealedUnderNamed | tools/zkmsg/core/src/vault.rs:284-291 | no file is sealed under a key vault.json does not name |
| VaultCreation.NoStrayKeys | tools/zkmsg/core/src/vault.rs:206-236 | a key vault.json does not name is its maker's and stays only if that stops; when every process has returned there is no other key |
| VaultCreation.StopsExactly | tools/zkmsg/core/src/vault.rs:183-236 | a process fails exactly when it crashes, the link fails for another reason than vault.json being there, or its own key cannot be dropped; the key vault.json names is always found |
| AppLock.CounterIsAttempts | tools/zkmsg/core/src/applock.rs:256-276 | the saved counter is the number of attempts begun since it was last reset, and no more PINs were checked than that |
| AppLock.LoadExactly | tools/zkmsg/core/src/applock.rs:256-261 | an attempt before its time, or with no PIN set, gives up the lock and counts nothing; any other goes on |
| AppLock.SaveExactly | tools/zkmsg/core/src/applock.rs:262-264 | a saved attempt is one more, stamped when it was allowed, and the next is not before that and its wait |
| AppLock.WrongExactly | tools/zkmsg/core/src/applock.rs:266-276 | a wrong PIN before the tenth attempt gives up the lock and leaves counter and time as saved; from the tenth on it leads to the wipe |
| AppLock.RightResets | tools/zkmsg/core/src/applock.rs:265-271 | a right PIN leads, with no crash, to the reset and nothing else |
| AppLock.ResetOnlyIfRight | tools/zkmsg/core/src/applock.rs:265-275 | over a run, the counter is reset only right after a right PIN of the same process, and wiped only right after a wrong one at the tenth attempt or later |
| AppLock.WaitTable | tools/zkmsg/core/src/applock.rs:121-126 | the wait after each number of failures: nothing to the fourth, then 30, 60, 300 and 900 seconds, and 3600 from the ninth |
| AppLock.SavedBeforeChecked | tools/zkmsg/core/src/applock.rs:263-266 | no PIN is checked before its attempt is saved |
| AppLock.AttemptsTakeTime | tools/zkmsg/core/src/applock.rs:121-126 | k attempts since a reset span at least the waits after the first k-1, in every interleaving with crashes |
| AppLock.WaitsAddUp | tools/zkmsg/core/src/applock.rs:39-42 | those waits add up to 4890 seconds for ten attempts and 3600 for each further one |
| AppLock.CappedExactly | tools/zkmsg/core/src/applock.rs:272-275 | over a run the counter reaches ten only while that attempt is being judged, if and only if no process stops in its tenth attempt |
| AppLock.TenthFailureWipes | tools/zkmsg/core/src/applock.rs:272-275 | in a run without such a stop the tenth consecutive failure leads to the wipe and nothing else |
| AppLock.NoCapUnderCrashes | tools/zkmsg/core/src/applock.rs:263-275 | with such stops any number of wrong PINs can be checked |
| TicketMove.ClassifyTickets | tools/zkmsg/core/src/wipe.rs:166-186 | exactly the unspent and pending tickets, and those reserved by a send with no publish on record, move; the rest are in flight or spent, and all are counted |
| TicketMove.MovesExactly | tools/zkmsg/core/src/wipe.rs:166-186 | a ticket moves if and only if it is unspent, pending, or reserved by a send that never had a publish submitted; movable, in flight and spent tickets add up to the wallet |
| TicketMove.InFlightStays | tools/zkmsg/core/src/wipe.rs:166-186 | with distinct secrets, the target gains no ticket whose send may still land |
| TicketMove.MoveTickets | tools/zkmsg/core/src/wipe.rs:260-279 | the target wallet becomes the specified one and the report counts it |
| TicketMove.MovedAre | tools/zkmsg/core/src/wipe.rs:260-279 | what the target gains is a moved ticket with its secret and index, a reserved one freed |
| TicketMove.MoveExactly | tools/zkmsg/core/src/wipe.rs:244-279 | the target holds its old tickets and exactly the movable secrets it lacked, once each, none reserved or spent; moving again changes nothing |
| TicketMove.WipeKeepsExactly | tools/zkmsg/core/src/wipe.rs:338-352 | a wipe keeps every movable secret if and only if since the deletion's last look at the wallets no ticket was bought in the source and no target wallet saved that was loaded while it lacked a secret |
| TicketMove.NothingLostExactly | tools/zkmsg/core/src/wipe.rs:284-352 | over crashes, retries, purchases and the target's own processes every movable secret is in the source or the target throughout, if and only if no wipe follows one of these without another look, and no such save follows the wipe |
| TicketMove.AloneNothingLost | tools/zkmsg/core/src/wipe.rs:284-352 | without purchases and saves of the target nothing is lost at any crash point and over any number of retries |
| TicketMove.OldWalletLoses | tools/zkmsg/core/src/wipe.rs:260-279 | a run in which a process of the target saves the wallet it loaded before the move, and the one ticket is gone |
| FeederSync.ShardsCover | tools/zkmsg/gateway/src/feeder.rs:188-201 | the workers' shards cover the window exactly, in at most as many shards as workers |
| FeederSync.ChunkIsEnough | tools/zkmsg/gateway/src/feeder.rs:189 | the computed shard size is the smallest that suffices for the parallelism |
| FeederSync.InterleavingIsPermutation | tools/zkmsg/gateway/src/feeder.rs:192-208 | what is received from the workers, in any interleaving, is a permutation of what they send |
| FeederSync.SortedWindow | tools/zkmsg/gateway/src/feeder.rs:188-210 | sorted, it is one message for each block of the window in block order, whatever the parallelism and interleaving |
| FeederSync.Blocks | tools/zkmsg/gateway/src/feeder.rs:184-211 | for every interleaving of the workers' shards the window comes back in block order if and only if no fetch failed |
| FeederSync.Index.constructor | tools/zkmsg/gateway/src/lib.rs:157-191 | the index is the cache's if that is of the same contract and first block, else a new one |
| FeederSync.Index.Absorb | tools/zkmsg/gateway/src/lib.rs:167-170 | a block's events are appended and the position moves behind it |
| FeederSync.Index.Sync | tools/zkmsg/gateway/src/lib.rs:213-229 | a sync fetches windows of 256 blocks, each followed by a checkpoint, in that order; however it ends, index and cache stay exact, and it ends at the target, or on an error at a window's end |
| FeederSync.HistoryExact | tools/zkmsg/gateway/src/lib.rs:167-229 | after any failures, crashes and cache reloads index and cache hold exactly their contract's events from the first block to their position |
| FeederSync.PastTheTarget | tools/zkmsg/gateway/src/lib.rs:213-229 | a cache past the target holds what a pass to the target would if and only if no event came in between |
| FeederSync.OpenFits | tools/zkmsg/gateway/src/lib.rs:177-191 | an index is opened for the contract and first block asked for, at the cache's position if that fits and at the first block otherwise |
| FeederSync.CheckpointSurvives | tools/zkmsg/gateway/src/lib.rs:177-191 | after a checkpoint and a crash the next process goes on where the last one was |
| SpillAlloc.NeverUnderflows | tools/snip36-phone-ffi/src/spill_alloc.rs:291-300 | no counter goes below zero, and every block is released by the allocator that made it, in every interleaving |
| SpillAlloc.RoutedExactly | tools/snip36-phone-ffi/src/spill_alloc.rs:74-78 | in every interleaving, what is spilled was asked for, is at least 256 KiB and aligned to at most 4096; what is not, was not |
| SpillAlloc.StepsForward | tools/snip36-phone-ffi/src/spill_alloc.rs:291-300 | every step takes its block further: an allocation returns after at most six, a release after at most five more |
| SpillAlloc.QuietCounters | tools/snip36-phone-ffi/src/spill_alloc.rs:259-263 | with no thread inside, the counters are the page-rounded total and count of live mappings and the peak is the highest value the live counter had |
| SpillAlloc.HighestIsMaximum | tools/snip36-phone-ffi/src/spill_alloc.rs:259-261 | that highest value bounds every earlier one and was reached |
| SpillAlloc.PageCeil | tools/snip36-phone-ffi/src/spill_alloc.rs:80-83 | the rounded size is the whole number of pages that holds the request and less than a page more |
| PackCodec.Pack | scripts/pack_proof.py:24-41 | the packing loops compute the format, and refuse in version 1 what exceeds 64 bits |
| PackCodec.EncodesAs | scripts/pack_proof.py:27-35 | the limbs of a value by its size, escapes and version 1's refusal included |
| PackCodec.Unpack | scripts/pack_proof.py:44-62 | the unpacking loops compute the reading, an index past the limbs being an error |
| PackCodec.PacksExactly | scripts/pack_proof.py:27-35 | version 2 packs everything, version 1 exactly what fits 64 bits |
| PackCodec.RoundTripExactly | scripts/pack_proof.py:24-62 | what packs comes back if and only if every value fits 256 bits, across straddling escapes and padding |
| PackCodec.SlotsFit | scripts/pack_proof.py:37-40 | every slot is below 2^224 |
| FieldPacker.PackV2 | tools/privacy-prove-cairo-bridge/src/main.rs:391-430 | the Rust packer, from 64-bit words and in field arithmetic, yields the Python packer's slots |
| LayerChunks.ChunkLayers | tools/privacy-prove-cairo-bridge/src/main.rs:614-631 | the loop computes the greedy cut |
| LayerChunks.GreedyIsBest | tools/privacy-prove-cairo-bridge/src/main.rs:584-631 | the greedy cut keeps all layers in order, each chunk fits 4300 slots or is one layer, and no partition within the budget has fewer chunks |
| LayerChunks.GreedyWithinBudget | tools/privacy-prove-cairo-bridge/src/main.rs:584-631 | when every single layer fits, every chunk does |
| LayerChunks.CostGrows | tools/privacy-prove-cairo-bridge/src/main.rs:391-430 | a stretch of a chunk never costs more slots than the chunk |
| LayerChunks.ChunkProgram | tools/privacy-prove-cairo-bridge/src/main.rs:538-557 | the program is cut into parts of the given number of entries, the last one shorter, each serialized with its length, and they reproduce the program section, so the self-check passes |
| ByteArrays.BytearrayCalldata | tools/zkmsg/core/src/chain.rs:376-389 | the calldata encoder computes the layout |
| ByteArrays.BytearrayFelts | tools/zkmsg/core/src/crypto.rs:100-111 | the content hash's encoder computes the same layout |
| ByteArrays.BytearrayDecode | tools/zkmsg/core/src/chain.rs:391-405 | the decoder computes its specification, errors and panics included |
| ByteArrays.DecodesExactly | tools/zkmsg/core/src/chain.rs:391-405 | exactly which inputs decode, to how many bytes, and which are a panic instead of an error |
| ByteArrays.RoundTrip | tools/zkmsg/core/src/chain.rs:376-405 | decoding an encoding followed by anything gives the bytes and the felts consumed |
| ByteArrays.ReencodesExactly | tools/zkmsg/core/src/chain.rs:391-405 | what was read encodes back to itself if and only if it was canonical |
| ByteArrays.EncodedFits | tools/zkmsg/core/src/chain.rs:416-420 | every felt of an encoding is below the prime |
| MessagePadding.Pad | tools/zkmsg/core/src/crypto.rs:422-433 | a message pads, to the smallest bucket that fits, if and only if it has at most 4094 bytes; the padded form is its big-endian length, the message, zeros |
| MessagePadding.Unpad | tools/zkmsg/core/src/crypto.rs:435-447 | each refusal has its own condition: another length than a bucket's, a length prefix past the end, a byte behind the message that is not zero |
| MessagePadding.OneFormPerBucket | tools/zkmsg/core/src/crypto.rs:435-447 | in each bucket a message has exactly one padded form that unpads to it |
| MessagePadding.PadRoundTrip | tools/zkmsg/core/src/crypto.rs:422-447 | unpadding a padded message gives it back |
| InvokeCalldata.ExecuteCalldata | tools/zkmsg/core/src/invoke_v3.rs:101-110 | the loop writes the layout |
| InvokeCalldata.UniquelyDecodable | tools/zkmsg/core/src/invoke_v3.rs:99-110 | the calldata, whatever follows it, determines the calls |
| InvokeCalldata.PackedDetermines | tools/zkmsg/core/src/invoke_v3.rs:38-47 | for names of up to eight bytes the packed felt gives resource, amount and price back if and only if the packed integer is below the prime, so for every name of seven bytes |
| TxPolicy.RoundUp2sf | tools/zkmsg/core/src/txpolicy.rs:71-77 | the loop computes the rounding |
| TxPolicy.RoundDown2sf | tools/zkmsg/core/src/txpolicy.rs:80-86 | the loop computes the rounding |
| TxPolicy.RoundUpLeast | tools/zkmsg/core/src/txpolicy.rs:70-77 | it is the least number of two significant figures not below x |
| TxPolicy.RoundDownGreatest | tools/zkmsg/core/src/txpolicy.rs:79-86 | it is the greatest number of two significant figures not above x |
| TxPolicy.PublishBounds | tools/zkmsg/core/src/txpolicy.rs:116-147 | for a nonzero L2 price it succeeds if and only if tip and gas conditions hold and some two-significant-figure price of at least 1.1 times the current one fits the fee cap; each price is the least number of two significant figures that is at least one and a half times the current one, but the L2 price, where the cap does not allow that, the greatest it allows; the amounts, the total fee and each refusal are stated, and the last fee check cannot fail |
| TxPolicy.PriceBoundIsShared | tools/zkmsg/core/src/txpolicy.rs:88-91 | the shared price rule gives the least number of two significant figures that is at least one and a half times the price |
| TxPolicy.FreeGasCanFailLast | tools/zkmsg/core/src/txpolicy.rs:145 | at an L2 price of 0 it can |
| TxPolicy.BaseBlock | tools/zkmsg/core/src/txpolicy.rs:160-163 | the base is a multiple of 32, 10 to 41 blocks behind the head |
| TxPolicy.PublishAfter | tools/zkmsg/core/src/txpolicy.rs:165-168 | the publish waits 90 blocks and the jitter, which is cut off at 20 |
| TxPolicy.ScheduleHides | tools/zkmsg/core/src/txpolicy.rs:148-168 | clients share a base block exactly while within its window, and publish well after it |

## Left out

- TraceReread.SplitPreserves: a tail statement that binds one of the fixed names again (`sum`, `random_coeff`, `component`, `log_size`, `claimed_sum`, `column_size`), or updates anything but `sum` and the accumulators, is not covered: the generator's text never has one. Any other name may be bound again.
- LookupSplit.HalvesPreserve: assumes the telescoping constraints' names are those of the unpacked columns, numerators and sums, as the generator writes them.
- RegistryTree.FromRegistrations: a tree of more than 2^20 leaves is a panic of the source and is excluded by a precondition.
- Tickets.FromEvents: parsing of event keys and felts comes before and is not modelled; so is the hex of a ticket's secret.
- PrepareSend.Prepare: the rate limit, the quota slot, the sealing, the calldata and the reservation that end the preparation are not part of it (the slot is `QuotaLog`'s, the reservation `TicketLedger`'s).
- TxPolicy.PublishBounds: prices whose products leave 128 bits are excluded by a precondition; the source would panic or wrap there.
- SpillAlloc.QuietCounters: a failed mapping aborts the process and is not modelled; the environment variable does not change.
- FeederSync.Blocks: the feeder, when it answers for block n, answers with block n; retries and pacing are not modelled, nor is a chain reorganization; a checkpoint is the cache file's atomic replacement.
- AppLock.AttemptsTakeTime: the writes of `set_pin` and `change_pin`, which happen outside the attempt lock, are not modelled.
- VaultCreation.OneKey: shredding, and the wrapping of keys under the PIN's master key, are not modelled.
- TicketMove.NothingLostExactly: an unreadable send file counts as never submitted, as in the source; a bought ticket's random secret is new; the deleted profile's own processes buy tickets one at a time and do not overwrite one another's purchases (that is `TicketLedger`'s matter), and whether a send has a submission on record does not change meanwhile.
- Publishing, the ticket ledger, vault creation, the PIN counter and the allocator are state machines on values rather than classes: their point is the interleaving and the crashes, which a method's contract cannot show.
- Publishing assumes: what feeder and RPC both call dropped is not held and never lands; a final refusal of the pool's validation means the gateway does not hold the transaction; a file is written atomically; the proof file does not change; one process at a time runs a send.
- Two transactions of a send with the same nonce and bounds are one: the hash of an unsigned invoke is a function of its inputs.
- Cairo source text, regular expressions and import headers of the splitter: its statements are lists with the names they bind, update and mention.
- The store contracts, the vendored verifier, the prover, the virtual OS, Poseidon, blake2s, ML-KEM, HKDF, AES-GCM and Argon2.
- The gateway crate's own `Registry::rebuild`: the same loop as the ticket tree's.
- GUI, command line, HTTP, Tor, setup wizard, profile migration, configuration files.
