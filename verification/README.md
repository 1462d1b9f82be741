# A verified model of PaddleDTX

PaddleDTX stores encrypted files on storage nodes (`xdb`) and trains and evaluates models over data that
several parties keep to themselves (`dai`). This project models the stateful parts of both in Dafny and proves
what they promise. `dafny verify dfyconfig.toml` checks all of it.

| module | what it models |
|---|---|
| `Ring`, `Gateway` | the consistent-hash gateway to IPFS hosts: a clockwise walk as the reference, and the sorted clients, successor table and binary search that refine it |
| `WritePipeline`, `WriteProgress`, `WriteConservation`, `WriteStandstill` | the goroutines of a file write with the real channel capacities, as a state machine: progress, termination, where every copy ends up, and the run that stands still |
| `Placement`, `Packing` | the sequential rest of a write: moving refused copies to other nodes, the joint shuffle, the numbering per node |
| `ReadBack`, `RoundTrip` | reading through the sliding window with fallback to other replicas, by both readers, and the round trip from the run of a write to a read |
| `PsiSets`, `PsiParty`, `PsiRun`, `PsiRehearsal` | the private set intersection: local work on symbolic ciphertexts, one party (both implementations), all parties together under any order of messages, and runs that reach a result |
| `TaskIds`, `Trainers`, `EventLoop` | structured IDs and their routing, who holds which training or prediction, and the event loop with its callers and workers |
| `Folds`, `FoldRows`, `LiveEvaluators` | cross validation completing, rows and predictions matched up, and staged evaluation |
| `TaskPool` | the executor's pool, with counting and inserting in separate lock sections |
| `Challenge`, `FileLife` | challenge rounds in concurrent segments, and the life of a file and its material through extensions, each of which can fail at every step |
| `FileHealth`, `Heartbeat` | grades of slices, files and the system, and of one node |
| `Signing` | the canonical text that is signed |
| `Text`, `Sequences`, `Copies`, `Crypto`, `Integers`, `Wrappers` | sorting, lists as multisets, copies of slices, the contract of encryption, Go's integer division, results and options |

## How to read it

What the source updates step by step is a class or a method with loops, proved against a function or predicate
that says what is meant; the lemmas are about those. Goroutines are state machines: `Enabled` and `Next` (or
`Step`) give one atomic action, `Run` a sequence of them from the start, and the theorems speak of every run.
Ranging over a Go map, random numbers and the arrival order of concurrent results are nondeterministic choices,
so what is proved holds for each.

What the visible code does not contain enters as a contract. Selecting nodes returns `replica` different ones.
The slicer cuts fixed blocks and pads the last one with zeros. Recovering undoes encrypting under the same key
and accepts nothing else; hashes do not collide (`Crypto.Suite.Sound`). MD5 is any hash that the constructor
accepts for the given hosts. A ciphertext of the set intersection is an ID with a multiset of keys. Whether a
learner, model or evaluator can be built, whether a push or a pull succeeds, and what a node or the chain answers
are parameters. A request that is signed is a map from field names to text. Health reports during one call come from one snapshot of the chain.

## Where the code does something else than one would expect

- `UpdateFileExpireTime` moves the expiry on the chain before it extends the material of the copies. If that fails
  for a copy (its node is offline, a pull, a calculation or a push fails) the file lives on, and all live moments are
  covered there if and only if every round of the spans so missed lies in some span that was brought
  (`FileLife.CoverageExact`). A later extension repairs at most the round in which a span ends
  (`FileLife.RoundsThatComeBack`, `FileLife.RepairsOneRound`; `FileLife.OfflineGap`, `FileLife.CoveredAnyway` and
  `FileLife.RepairedByNext` are three such lives).
- In binary classification one prediction calls the evaluated learner back twice, unless it failed or a party with
  the tag did not get to the end of its scores (`LiveEvaluators.OneCallback`, `LiveEvaluators.CalledBackTwice`).
- `RearrangeFileWithIntersectIDs` sorts the ID list in place, so the intersection is handed out in ascending
  order and not in the order of the party's own list (`PsiRun.OwnOrder` says exactly when the two agree,
  `PsiRehearsal.OwnOrderRun` is a run where they do not). It also refuses an empty intersection, so such a run
  never completes (`PsiRun.AttemptFinishes`).
- `Write` comes to a standstill when an eleventh first push fails, and only then
  (`WriteProgress.StuckMeansTooManyFailures`; `WriteStandstill.StandsStill` is such a run).
- `Engine.Read` trims zeros off every block, `recoverFile` only off the last; both conditions on the ciphertext
  are exact (`RoundTrip.ReadersExact`).
- A trainer keeps a live evaluator although its learner could not be built; exactly which runs leave one behind
  is `Trainers.OrphansExactly`.
- Cross validation calls the trainer back once if and only if no other goroutine was counting when the last fold
  was recorded and no result is recorded later (`Folds.CalledBackOnce`; twice in `Folds.CalledBackTwice`).
- A node registered exactly when its seven-day window begins is measured by six days while seven are counted, so
  its heartbeat rate can reach 7/6 and it can be yellow where others are red (`Heartbeat.SevenDaysBySix`,
  `Heartbeat.UnprovedButYellow`). A younger node can exceed 1 by one heartbeat and no more
  (`Heartbeat.YoungNodeBeats`, `Heartbeat.OneBeatMore`).
- A pool with several concurrent callers can exceed its limit (`TaskPool.BoundReached`).
- No signed message that names a field determines its request (`Signing.ValueConfuses`,
  `Signing.DeterminedExactly`), nor does one with a separator in a name (`Signing.KeyConfuses`). Among requests
  without "=" in names and "&" in values every message does (`Signing.MessageDeterminesFields`).

## Model

| member | source | states |
|---|---|---|
| `Ring.WalkOrdered` | xdb/storage/ipfs/gateway.go:121-144 | The reference order: a clockwise walk lists every host exactly once, by growing hash from the key on and round the circle. |
| `Ring.WalkUnique` | xdb/storage/ipfs/gateway.go:91-117 | A listing of the hosts in clockwise order is the walk: there is no other. |
| `Ring.WalkGrows` | xdb/storage/ipfs/gateway.go:91-117 | Adding a host changes the walk only by inserting the host at its clockwise place. |
| `Ring.SuccessorsGrow` | xdb/storage/ipfs/gateway.go:104-117 | After adding a host a key's successor list is the old one with the host inserted at its place and cut to min(4, n + 1), or unchanged if the place is beyond its reach. |
| `Ring.StillListed` | xdb/storage/ipfs/gateway.go:104-117 | A host at position p of a key's list is still listed after any m additions with p + m < 4, at most m positions later. |
| `Gateway.NewGateway` | xdb/storage/ipfs/gateway.go:57-118 | Fails exactly for no hosts or two hosts with one hash; otherwise the sorted clients and the successor table are valid for exactly the given hosts. |
| `Gateway.CreateClients` | xdb/storage/ipfs/gateway.go:73-90 | Fills one client a host and reports a host exactly when two hashes collide. |
| `Gateway.FillSuccessors` | xdb/storage/ipfs/gateway.go:97-115 | The row of each client is itself and the clients that follow it round the circle, min(4, n) in all. |
| `Gateway.TableIsWalk` | xdb/storage/ipfs/gateway.go:121-144 | The row at the position found, wrapped to 0 past the end, is the first min(4, n) hosts of the clockwise walk from the key's hash. |
| `Gateway.IpfsGateway.GetShells` | xdb/storage/ipfs/gateway.go:121-144 | Binary search with wrap-around and table lookup return the first min(4, n) hosts of the walk, pairwise distinct. |
| `Gateway.IpfsGateway.Add` | xdb/storage/ipfs/gateway.go:147-156 | The first successor that accepts the content answers, none exactly if all refuse. |
| `Gateway.IpfsGateway.Cat` | xdb/storage/ipfs/gateway.go:160-171 | The first successor that serves the content answers, none exactly if none does. |
| `Gateway.IpfsGateway.PinLs` | xdb/storage/ipfs/gateway.go:176-220 | "Not pinned" is reported exactly if every host of the gateway says so; the first other reply of a successor wins. |
| `Gateway.CatAfterGrowth` | xdb/storage/ipfs/gateway.go:147-171 | Content accepted at position p is found after any m additions of hosts with p + m < 4, while that one host serves it. |
| `Gateway.OrderIrrelevant` | xdb/storage/ipfs/gateway.go:57-118 | Neither acceptance nor the set of hosts depends on the order of the hosts argument. |
| `Gateway.ShellsAgree` | xdb/storage/ipfs/gateway.go:57-144 | Two gateways made from the same hosts in different orders are both refused or list the same hosts in the same order for every key. |
| `WriteProgress.RunInv` | xdb/engine/handler_write.go:129-209 | In every state of every run the queue bounds, the order in which stages leave and close, and the count of failures hold. |
| `WriteProgress.QueuesStaySmall` | xdb/engine/handler_write.go:129-190 | In every state of every run each queue holds at most as much as its channel was made for, and at most four workers of a stage are busy. |
| `WriteProgress.NoWorkerIdles` | xdb/engine/handler_write.go:256-473 | No worker stays idle while there is something to take, be it the last one that is idle. |
| `WriteProgress.NeverSendsOnClosed` | xdb/engine/handler_write.go:256-473 | No reachable action sends on a closed channel. |
| `WriteProgress.RunsAreFinite` | xdb/engine/handler_write.go:129-209 | No run takes more actions than a measure of the initial state, whatever the interleaving. |
| `WriteProgress.StuckMeansTooManyFailures` | xdb/engine/handler_write.go:160-190 | A run that can go no further has ended exactly when at most ten first pushes failed: failedQueue is drained only after finishedQueue is closed. |
| `WriteStandstill.StandsStill` | xdb/engine/handler_write.go:160-190 | For any file of eleven slices kept once there is a run in which all eleven first pushes fail and nothing can move any more, with the main goroutine still waiting for finishedQueue. |
| `WriteConservation.StepConserved` | xdb/engine/handler_write.go:256-473 | Every action keeps the count of every slice and of every copy over all queues, workers and lists. |
| `WriteConservation.WritePlacesEverySlice` | xdb/engine/handler_write.go:160-209 | After any error-free run the finished entries are exactly `replica` copies of every slice, on pairwise distinct nodes, and the slice metas are in file order. |
| `WriteConservation.LocationsOffered` | xdb/engine/handler_write.go:256-330 | In every run every location chosen is `replica` different nodes of those offered. |
| `WriteConservation.FinishedOffered` | xdb/engine/handler_write.go:256-473 | In every run, until twice-failed copies are moved, every finished copy is on a node that was chosen for its slice, and so was offered. |
| `Copies.MovedPlacement` | xdb/engine/handler_write.go:476-555 | Moving twice-failed copies to other nodes completes the placement of every slice on distinct nodes. |
| `Placement.RearrangeNodes` | xdb/engine/common/health.go:373-381 | Random in-place swaps permute the nodes. |
| `Placement.FindNewNodes` | xdb/engine/common/health.go:59-83 | Returns every healthy node not selected, green ones first; fails exactly if there is none. |
| `Placement.Remember` | xdb/engine/handler_write.go:483-495 | alreadySelected knows the nodes of all finished copies, and only nodes that are out of the question. |
| `Placement.PushToOne` | xdb/engine/handler_write.go:496-552 | Tries the candidates in order after re-encryption for each; a success is a genuine copy on the first candidate that accepts, all before it having refused. |
| `Placement.PushToOtherNode` | xdb/engine/handler_write.go:476-555 | On success every failed copy is replaced by a genuine copy of its slice on a node with no copy of it, and on a yellow one only if every green node was spent for the slice at that moment; failure means every healthy node was spent for some slice. |
| `Packing.RearrangeEncSlices` | xdb/engine/internal.go:146-155 | The joint swaps keep every slice paired with its storage index: the pairs are permuted. |
| `Packing.PackSlices` | xdb/engine/internal.go:36-63 | Each published entry describes the copy at its position, with its number on its node in Pairing mode and none otherwise. |
| `Packing.PairingNumbers` | xdb/engine/internal.go:52-63 | In Pairing mode the numbers of each node are a bijection onto 1 up to the count of its copies. |
| `Packing.GetSlicesIdxMap` | xdb/engine/common/challenge.go:442-450 | The map holds exactly the published slice and node pairs, each with its number when pairs are distinct. |
| `Packing.IndexesSeparate` | xdb/engine/common/challenge.go:442-450 | Two different copies on one node have different indexes. |
| `ReadBack.MakeSlicesPool` | xdb/engine/handler_read.go:267-279 | The pool holds for each slice its replicas in recorded order. |
| `ReadBack.PullSlice` | xdb/engine/handler_read.go:166-222 | Returns the plaintext of the slice exactly if some replica is on an online node and has the recorded length and hash. |
| `ReadBack.ReadableExactly` | xdb/engine/handler_read.go:166-222 | A slice can be read exactly if a node that is online gives back, for the recorded index, the very copy that was encrypted for it. |
| `ReadBack.Fetch` | xdb/engine/handler_read.go:160-231 | A slice is fetched exactly if it is recorded and has a usable replica, and then it is its plaintext. |
| `ReadBack.Slide` | xdb/engine/handler_read.go:121-231 | Up to ten slices beyond the last one delivered are pulled at a time and finish in any order, and are delivered in file order; it succeeds exactly if every slice has a usable replica, and otherwise names one that has none. |
| `ReadBack.Read` | xdb/engine/handler_read.go:131-244 | If every slice has a usable replica: out of range exactly if the joined bytes and the rest of the buffer are too few; else what the first length + 16 of them are the encryption of under the file's key, and not recovered exactly if they are the encryption of nothing. Otherwise it names a slice without a usable replica. |
| `ReadBack.RecoverFile` | dai/executor/handler/file.go:198-302 | The same for the executor's reader, which trims only the last slice and cuts nothing: what the joined bytes are the encryption of, or not recovered. |
| `ReadBack.JoinTrimmedExact` | xdb/engine/handler_read.go:233-234 | Trimming every block rejoins the ciphertext exactly if no block of it ends in a zero byte, and otherwise falls short. |
| `ReadBack.JoinLastTrimmedExact` | dai/executor/handler/file.go:285-296 | Trimming the last block alone rejoins the ciphertext exactly if it does not end in a zero byte. |
| `RoundTrip.Publish` | xdb/engine/internal.go:36-93 | Shuffling and packing publishes every finished copy once, with the storage index its own push returned, and nothing else. |
| `RoundTrip.PublishedPermutes` | xdb/engine/internal.go:146-155 | Permuting the pairs of copy and index permutes what is published of them. |
| `RoundTrip.MoveTwiceFailed` | xdb/engine/handler_write.go:192-209 | What moving twice-failed copies achieves is the last action of the run: it completes the finished copies with genuine ones, and giving up ends the write with an error. |
| `RoundTrip.WroteAll` | xdb/engine/handler_write.go:129-209 | After any run that ended without error, whatever the interleaving, the structure is the file's slices in order and every slice has its copies on `replica` distinct nodes. |
| `RoundTrip.ReadersExact` | xdb/engine/handler_read.go:233-244 | The two readers are right, over every buffer, exactly under their conditions on zero bytes. |
| `RoundTrip.WriteThenRead` | xdb/engine/handler_read.go:131-244 | After any error-free run of the write, with one online replica a slice that answers to the index its push returned, Read returns the original bytes if no block ends in a zero byte; otherwise, for any rest of the buffer, what the cut bytes are the encryption of, or the error that applies. |
| `RoundTrip.WriteThenRecover` | dai/executor/handler/file.go:198-302 | After any error-free run, under the same assumption on the nodes, recoverFile returns the original bytes exactly if the ciphertext does not end in a zero byte. |
| `PsiSets.EncryptSampleIdSet` | crypto/core/machine_learning/linear_regression/gradient_descent/mpc_vertical/psi.go:75-93 | The set holds each ID under the own key, with the last index at which it stands. |
| `PsiSets.ReEncryptIdSet` | crypto/core/machine_learning/linear_regression/gradient_descent/mpc_vertical/psi.go:98-118 | One more key on every ciphertext, indexes kept, nothing else. |
| `PsiSets.ReEncryptsHonestly` | crypto/core/machine_learning/linear_regression/gradient_descent/mpc_vertical/psi.go:98-118 | Re-encrypting an honest set gives an honest set under both keys. |
| `PsiSets.Intersect` | crypto/core/machine_learning/linear_regression/gradient_descent/mpc_vertical/psi.go:121-143 | Whatever the map order: the local IDs that common ciphertexts point at, each once if no two point at one. |
| `PsiSets.HonestChoice` | crypto/core/machine_learning/linear_regression/gradient_descent/mpc_vertical/psi.go:121-143 | Between honest sets under the same keys the filter keeps exactly the IDs of both lists. |
| `PsiSets.GetIntersection` | dai/mpc/psi/psi_bypairs.go:150-162 | The first list read at ascending positions, which are exactly those whose ID is in the second list. |
| `PsiSets.RetrieveIds` | dai/crypto/vl/common/psi.go:77-101 | The column of that name, or an error exactly for an empty file or a missing column. |
| `PsiSets.ReorderIds` | dai/crypto/vl/common/psi.go:150-157 | Maps each sorted ID to its last position. |
| `PsiSets.RearrangeFile` | dai/crypto/vl/common/psi.go:107-147 | Sorts the IDs and lists a sample for each in that order, each row less the cell of the ID column: the cells before it as they are, those behind it one further left. Each error exactly for no rows, no IDs or no ID column. |
| `PsiSets.ColumnGone` | dai/crypto/vl/common/psi.go:120-132 | The header keeps every name but the ID column's, and loses that one if it occurs once. |
| `PsiSets.SampleExists` | dai/crypto/vl/common/psi.go:133-144 | Every ID of the file has a sample to list. |
| `PsiParty.Answer` | dai/mpc/psi/psi_bypairs.go:66-83 | Re-encrypts for parties and strangers alike; bytes that do not parse are an error for parties only. |
| `PsiParty.IntersectTwoParts` | dai/crypto/vl/common/psi.go:61-72 | Fails exactly if one of the sets does not parse. |
| `PsiParty.IntersectAll` | dai/mpc/psi/psi_bypairs.go:115-131 | Whatever the order of the parties: the IDs common to all pairwise intersections. |
| `PsiParty.Concludes` | dai/mpc/psi/psi_bypairs.go:133-147 | The arranged file is right, and there is one exactly when some ID is common. |
| `PsiParty.VlPsiByPairs.constructor` | dai/mpc/psi/psi_bypairs.go:183-208 | A party starts with nothing stored. |
| `PsiParty.VlPsiByPairs.EncryptSampleIdSet` | dai/mpc/psi/psi_bypairs.go:39-52 | Reads the file, and returns the own IDs under the own key. |
| `PsiParty.VlPsiByPairs.SetReEncryptIdSet` | dai/mpc/psi/psi_bypairs.go:54-63 | Stores the first set of a known party, ignores later ones and strangers. |
| `PsiParty.VlPsiByPairs.ReEncryptIdSet` | dai/mpc/psi/psi_bypairs.go:66-83 | Answers a request without storing anything. |
| `PsiParty.VlPsiByPairs.SetOtherFinalReEncryptIdSet` | dai/mpc/psi/psi_bypairs.go:85-92 | Stores the first final set of a known party. |
| `PsiParty.VlPsiByPairs.IntersectByPairs` | dai/mpc/psi/psi_bypairs.go:101-114 | Fills in the pairwise intersections until a set is missing or does not parse. |
| `PsiParty.VlPsiByPairs.IntersectParts` | dai/mpc/psi/psi_bypairs.go:95-148 | A result appears exactly when all sets are there and have an ID in common, is the sorted common list with its samples, and never changes. |
| `PsiParty.VlTwoPartsPsi.constructor` | dai/mpc/psi/psi.go:195-217 | The two-party variant starts with nothing stored. |
| `PsiParty.VlTwoPartsPsi.SetReEncryptIdSet` | dai/mpc/psi/psi.go:93-103 | The latest set of the other party is the one worked with. |
| `PsiParty.VlTwoPartsPsi.IntersectParts` | dai/mpc/psi/psi.go:135-174 | The same contract as for any number of parties. |
| `PsiRun.StepInv` | dai/mpc/learners/dnn_paddlefl_vl/dnn_paddlefl_vl.go:152-256 | Every step of the protocol, with strangers sending anything, keeps stored sets honest and results right. |
| `PsiRun.CommonIsShared` | dai/mpc/psi/psi_bypairs.go:95-148 | What is common to all pairs is what all parties share, and the local sets are in range and unambiguous. |
| `PsiRun.ResultIsIntersection` | dai/mpc/psi/psi_bypairs.go:95-148 | In every run, whatever the order and repetition of messages, a result is the sorted list of the IDs all parties share with the party's own samples, and stays for good. |
| `PsiRun.AttemptFinishes` | dai/mpc/psi/psi_bypairs.go:95-148 | An attempt ends with a result exactly if all sets have come and some ID is shared by all. |
| `PsiRun.PartiesAgree` | dai/crypto/vl/common/psi.go:107-147 | All parties hold the same list, and row k + 1 of each belongs to its k-th ID. |
| `PsiRun.OwnOrder` | dai/crypto/vl/common/psi.go:150-157 | The result is in a party's own order exactly if that order is ascending without repetition. |
| `PsiRun.OwnOrderLost` | dai/crypto/vl/common/psi.go:150-157 | A file whose shared IDs are not ascending, so that its own order is lost. |
| `PsiRehearsal.Rehearse` | dai/mpc/learners/dnn_paddlefl_vl/dnn_paddlefl_vl.go:152-256 | For any parties with an ID that all share, and any of them, some run gives it the right result: driven through the methods of the class, each of which is a step of the protocol. |
| `PsiRehearsal.OwnOrderRun` | dai/crypto/vl/common/psi.go:150-157 | A run of two parties whose files list b before a, and whose result is a before b. |
| `Text.SortsUnique` | dai/crypto/vl/common/psi.go:150-157 | A set of strings has one ascending list. |
| `Text.LessBytewise` | xdb/pkgs/strings/strings.go:62-84 | The order of strings is by the first place where they differ, whatever their lengths, and a string comes after what it begins with. |
| `EventLoop.StepInv` | dai/mpc/mpc.go:280-322 | Every step of callers, loop, workers and stoppers keeps each call answered at most once by exactly one of loop and worker. |
| `EventLoop.OneReplyEach` | dai/mpc/mpc.go:118-322 | In every run an accepted request gets one reply, owed by exactly one of loop and workers until it is sent; others get none. |
| `EventLoop.NeverBlocks` | dai/mpc/mpc.go:280-322 | Neither loop nor worker ever waits for room to reply, and the loop always has its next step, is idle or has stopped. |
| `EventLoop.AllAnswered` | dai/mpc/mpc.go:118-322 | In every run in which only new calls and new stops are still possible, each accepted request has had its one reply and every other call was refused. |
| `EventLoop.ServesUntilStopped` | dai/mpc/mpc.go:118-322 | In every run at rest: without a Stop every call was accepted and answered; with one the loop has stopped and every Stop has returned. |
| `EventLoop.CallReturns` | dai/mpc/mpc.go:118-322 | From any state of any run in which the loop is idle a further call of any kind can be made and is answered in six steps. |
| `EventLoop.StopComesBack` | dai/mpc/mpc.go:196-206 | From any such state a Stop can be asked for and returns in four steps. |
| `EventLoop.RequestsRouted` | dai/mpc/mpc.go:280-322 | In every run a request to train, validate or predict goes to a worker exactly if its learner, evaluator, live evaluator or model is held when it is handled, and is answered "not found" exactly if it is not. |
| `EventLoop.TrainStarted` | dai/mpc/mpc.go:280-322 | In every run a training is started without an error exactly if there is room, it is not held and can be built, and then it is held; else the error is the first that applies and nothing is started. |
| `EventLoop.PredictStarted` | dai/mpc/mpc.go:280-322 | The same for predictions. |
| `EventLoop.StopHandled` | dai/mpc/mpc.go:280-322 | Stopping is answered without an error, and the task is gone. |
| `EventLoop.HeldUntilStop` | dai/mpc/mpc.go:280-322 | In every run a task or model that is held stays held until a request to stop it is handled. |
| `EventLoop.RepliesArrive` | dai/mpc/mpc.go:118-322 | In every run the reply of loop or worker is the one the call returns with. |
| `EventLoop.LimitsHold` | dai/mpc/mpc.go:379-390 | Learners never exceed 21 T + 600 and models never exceed P + 21 T + 600. |
| `EventLoop.NothingAfterStop` | dai/mpc/mpc.go:196-206 | Once a Stop has returned nothing is accepted any more; whoever offers or comes later can only be refused. |
| `Trainers.Trainer.constructor` | dai/mpc/trainer/trainer.go:520-530 | A trainer starts empty. |
| `Trainers.Trainer.NewLearner` | dai/mpc/trainer/trainer.go:154-193 | Refuses a full trainer, a known task and an unbuildable learner, in that order; the live evaluator is stored before the learner is built. |
| `Trainers.Trainer.NewLiveEvaluator` | dai/mpc/trainer/trainer.go:467-481 | Stores a live evaluator if one is asked for. |
| `Trainers.Trainer.DeleteLearner` | dai/mpc/trainer/trainer.go:196-222 | Deletes the learner, and of evaluators, live evaluators and results those the origin of its ID allows. |
| `Trainers.Trainer.SaveResult` | dai/mpc/trainer/trainer.go:288-370 | The model of a fold goes to the evaluator of its source and ends its training, a staged model to the live evaluator of its source, a user's model to storage unless it is to be evaluated, which is when its result is kept. |
| `Trainers.Predictor.constructor` | dai/mpc/predictor/predictor.go:254-264 | A predictor starts empty. |
| `Trainers.Predictor.NewModel` | dai/mpc/predictor/predictor.go:87-113 | Refuses a full predictor, a known task and an unbuildable model. |
| `Trainers.Predictor.DeleteModel` | dai/mpc/predictor/predictor.go:116-122 | Removes the model and no other. |
| `Trainers.RunInv` | dai/mpc/trainer/trainer.go:154-370 | After any starts, results and stops: the limit is kept, evaluators belong to present tasks of users, kept results to tasks with an evaluator, live evaluators to no live evaluator's own task. |
| `Trainers.StartsExactly` | dai/mpc/trainer/trainer.go:154-193 | In every run a start with room for a task that is not held stores a live evaluator asked for, and, if the learner can be built, the learner and an evaluator asked for; else and otherwise it changes nothing. |
| `Trainers.OrphansExactly` | dai/mpc/trainer/trainer.go:154-222 | In every run a live evaluator is without its learner exactly if the learner could not be built after the live evaluator was, and was neither stopped nor started successfully since. |
| `Trainers.AfterStop` | dai/mpc/trainer/trainer.go:196-222 | In every run, from the stop of a user's task until it is started again, nothing of the task is there, its folds and staged tasks were left as they were, and what they still report is lost. |
| `Trainers.ModelsComeBack` | dai/mpc/trainer/trainer.go:288-370 | In every run the model of a fold reaches the evaluator that asked for it under its fold number, a staged model the live evaluator of its task. |
| `TaskIds.ParseItoa` | dai/mpc/predictor/predictor.go:205-208 | A formatted fold number parses back exactly if it fits the integer size. |
| `TaskIds.ParseSigned` | dai/mpc/predictor/predictor.go:205-208 | A signed number parses back exactly if it fits, the range reaching one further down than up. |
| `TaskIds.ParsesOnly` | dai/mpc/predictor/predictor.go:205-208 | Nothing parses but digits after at most one sign. |
| `TaskIds.EvaluatorsOwn` | dai/mpc/trainer/trainer.go:407-429 | Any longer training ID that ends in _Eva comes from its first piece. |
| `TaskIds.LiveEvaluatorsOwn` | dai/mpc/trainer/trainer.go:407-429 | Any that ends in _LEv comes from all of it but its last twelve letters. |
| `TaskIds.UsersOwn` | dai/mpc/trainer/trainer.go:407-429 | Every other training ID is a user's. |
| `TaskIds.WrittenInPieces` | dai/mpc/predictor/predictor.go:193-235 | The pieces an ID of each shape splits into. |
| `TaskIds.WrittenInjective` | dai/mpc/evaluator/evaluator.go:334-336 | No two shapes of ID collide, with each other or with a plain user ID, and neither do two sources or folds. |
| `TaskIds.TrainRouted` | dai/mpc/trainer/trainer.go:407-429 | Training IDs of every shape parse back to their source and, for folds, to their number. |
| `TaskIds.PredictRouted` | dai/mpc/predictor/predictor.go:193-235 | Prediction IDs of every shape parse back to their source, fold and kind of evaluator; folds of 2^31 and more do not. |
| `TaskIds.NeedsNoUnderscore` | dai/mpc/trainer/trainer.go:407-429 | A fold's training ID leads back to its source exactly if the source has no underscore. |
| `Folds.StepInv` | dai/mpc/evaluator/evaluator.go:527-541 | Recording and counting as separate steps keep: callbacks only after all folds, and somebody still counts until one is made. |
| `Folds.CalledBackWhenComplete` | dai/mpc/evaluator/evaluator.go:527-594 | The trainer is called back only when all folds are recorded, and it has been once they are and nothing is at work. |
| `Folds.CallbacksCounted` | dai/mpc/evaluator/evaluator.go:527-594 | In every run, from the first moment all folds are recorded, callbacks made and pending are the goroutines counting at that moment and the results recorded since. |
| `Folds.CalledBackOnce` | dai/mpc/evaluator/evaluator.go:527-594 | For every run and number of folds: at rest there was one callback if and only if nobody else was counting when the last fold was recorded and no result was recorded later. |
| `Folds.CalledBackTwice` | dai/mpc/evaluator/evaluator.go:527-541 | A run in which each fold is reported once and the trainer is called back twice. |
| `Folds.CallbacksBounded` | dai/mpc/evaluator/evaluator.go:527-594 | There are at most as many callbacks as results that came in. |
| `FoldRows.RebuildFile` | dai/mpc/evaluator/evaluator.go:208-222 | Puts the row number in front of every row, the ID name in front of the header. |
| `FoldRows.RemoveIds` | dai/mpc/livaluator/livaluator.go:394-402 | Removes the first column of every row. |
| `FoldRows.NumberedRows` | dai/mpc/livaluator/livaluator.go:377-402 | Added IDs are distinct, and removing them from any choice of rows restores exactly those rows of the file. |
| `FoldRows.AlignPredictions` | dai/mpc/evaluator/evaluator.go:490-525 | Lists for each validation row the last prediction of its ID, 0 where there is none, with the errors in the order of the checks. |
| `FoldRows.PredictionsMatchRows` | dai/mpc/evaluator/evaluator.go:490-525 | For any order of predictions covering the fold the list matches the validation rows position by position. |
| `LiveEvaluators.LiveEvaluator.constructor` | dai/mpc/livaluator/livaluator.go:745-783 | A live evaluator starts before round one. |
| `LiveEvaluators.LiveEvaluator.Trigger` | dai/mpc/livaluator/livaluator.go:167-216 | Entered exactly if the round is larger than any before: then it is stored and the results are forgotten, even if starting fails; accepted, without splitter or failed exactly as splitting and starting go; otherwise nothing changes. |
| `LiveEvaluators.LiveEvaluator.SaveModel` | dai/mpc/livaluator/livaluator.go:424-474 | Takes exactly the first training result of a round; a prediction is started exactly for a successful one whose model parses and whose prediction set is there, and lacking either is a failure. |
| `LiveEvaluators.LiveEvaluator.SavePredictOut` | dai/mpc/livaluator/livaluator.go:500-518 | Takes exactly the first prediction of a round, and calls the learner back for it: twice exactly if it succeeded in binary classification and the party has no tag or its scores were calculated to the end, once otherwise. |
| `LiveEvaluators.LiveEvaluator.CalMetricScoresCaseRegression` | dai/mpc/livaluator/livaluator.go:520-595 | One callback, however the calculation ends. |
| `LiveEvaluators.LiveEvaluator.CalMetricScoresCaseBinClass` | dai/mpc/livaluator/livaluator.go:614-716 | One callback exactly if the party has the tag and the calculation stops early, and two otherwise. |
| `LiveEvaluators.RoundsEnteredOnce` | dai/mpc/livaluator/livaluator.go:167-216 | Whatever is called when, rounds are entered in ascending order, so none twice. |
| `LiveEvaluators.OneResultARound` | dai/mpc/livaluator/livaluator.go:424-518 | Between two training results, or two predictions, that are taken a new round was entered. |
| `LiveEvaluators.CallbacksOfRound` | dai/mpc/livaluator/livaluator.go:500-716 | In every run and round the callbacks so far are those of the one prediction taken: none before it, then one or two. |
| `LiveEvaluators.OneCallback` | dai/mpc/livaluator/livaluator.go:500-716 | A round with a prediction calls back once if and only if the prediction failed, or the case is regression, or the party has the tag and its scores were not calculated to the end. |
| `LiveEvaluators.CalledBackTwice` | dai/mpc/livaluator/livaluator.go:614-716 | A run in which one prediction makes two callbacks, whether or not the party has the tag. |
| `LiveEvaluators.CallbacksBounded` | dai/mpc/livaluator/livaluator.go:167-716 | In every run: as many callbacks as predictions taken, those that double counted twice; so at most one for each round entered, and one before the first, if none doubles, and at most twice as many in any case. |
| `TaskPool.MpcModelHandler.constructor` | dai/executor/handler/mpc.go:84-97 | The pool starts empty. |
| `TaskPool.MpcModelHandler.GetAvailableTasksNum` | dai/executor/handler/mpc.go:118-142 | The room left for training and for everything else, 0 exactly if the limit is reached. |
| `TaskPool.MpcModelHandler.AddTaskIntoMpcHandler` | dai/executor/handler/mpc.go:147-165 | Alone it refuses a training exactly if as many trainings are held as allowed, a prediction exactly if as many other tasks are, and then the known task; else it stores the deadline and nothing else. |
| `TaskPool.MpcModelHandler.StopLocalMpcTask` | dai/executor/handler/mpc.go:234-250 | Removes that entry and no other, and notifies exactly if it was there. |
| `TaskPool.MpcModelHandler.CheckMpcTimeOutTasks` | dai/executor/handler/mpc.go:205-219 | Removes exactly the tasks whose time is up. |
| `TaskPool.AddedThenScanned` | dai/executor/handler/mpc.go:147-219 | A task added is there after a scan exactly if the scan comes before its time is up. |
| `TaskPool.StepInv` | dai/executor/handler/mpc.go:118-165 | Counting and inserting as separate sections, with stops in between, keep the bound on pool and inserts in flight. |
| `TaskPool.PoolBounded` | dai/executor/monitor/task.go:245-297 | With at most C concurrent callers pool size and inserts in flight never exceed limit + C - 1. |
| `TaskPool.BoundReached` | dai/executor/handler/mpc.go:147-165 | For every limit and number of callers some run ends with limit + C - 1 tasks. |
| `TaskPool.HeldOnce` | dai/executor/handler/mpc.go:156-164 | Adds of a task that succeed exceed its removals by one while it is held and not at all otherwise; its entry does not change. |
| `TaskPool.LeavesAndReturns` | dai/executor/handler/mpc.go:147-250 | A run in which a task is added, stopped and added again. |
| `Challenge.SegmentsPartition` | xdb/engine/common/challenge.go:229-234 | The segments partition the rounds from the first to the last: none missed, none twice, none beyond. |
| `Challenge.SegmentLength` | xdb/engine/common/challenge.go:229-234 | Every segment but the last has a hundred rounds, the last one to a hundred. |
| `Challenge.GenerateRounds` | xdb/engine/common/challenge.go:272-311 | However the segments interleave: all rounds have their sigma on top of what there was, or some calculation failed. |
| `Challenge.GenerateSigmas` | xdb/engine/common/challenge.go:226-311 | The same for the rounds from start / interval to end / interval. |
| `Challenge.RoundsOfPeriod` | xdb/engine/common/challenge.go:229-232 | The rounds of a period are exactly those of its moments. |
| `FileLife.AddSlice` | xdb/engine/common/challenge.go:240-339 | The material of one copy: it grows by exactly the rounds of the span if its node is listed, every sigma can be calculated and the push goes through, and otherwise the first step that fails is the error. |
| `FileLife.ExtendCopy` | xdb/engine/common/challenge.go:358-425 | The same after the slice and its old sigmas have been pulled from a listed node and the nodes were listed again. |
| `FileLife.ExtendAll` | xdb/engine/common/challenge.go:347-429 | In any order of the copies each attempt changes its own material only; there is an error exactly if some attempt failed, and it is one of theirs. |
| `FileLife.StoredFile.UpdateFileExpireTime` | xdb/engine/handler_file.go:154-213 | Refused, with nothing changed, exactly if the new expiry is not beyond now and the old one, or the chain does not take it; else the file lives on from the old expiry or from now, each copy has the material of the new span exactly if its own attempt succeeded, and the call succeeds exactly if all did. |
| `FileLife.LivesOn` | xdb/engine/handler_file.go:154-196 | An extension beyond now and the old expiry that the chain takes is accepted, also that of an expired file: it lives from now, or without a break if it had not expired, to the new expiry. |
| `FileLife.PublishFile` | xdb/engine/handler_write.go:223-251 | A write succeeds exactly if the nodes can be listed, every copy's sigmas can be calculated and pushed to a listed node, and the chain takes it; then every copy has exactly the rounds of the first span. |
| `FileLife.MaterialExact` | xdb/engine/handler_file.go:137-213 | After a write and any extensions, whatever fails in them, the material of a copy is exactly the rounds of the spans that were brought to it. |
| `FileLife.NothingDropped` | xdb/engine/common/challenge.go:253-257 | No round is ever dropped and no sigma changes, whatever fails. |
| `FileLife.CoverageExact` | xdb/engine/handler_file.go:137-213 | Every moment the chain holds the file live has its round at a copy, if and only if every round of every accepted span whose material did not reach the copy lies in some span whose material did. |
| `FileLife.RoundsThatComeBack` | xdb/engine/handler_file.go:190-196 | Of a span that was missed exactly these rounds are there: the first if a span before it ended there, the last if a later extension that succeeds starts in it. |
| `FileLife.RepairsOneRound` | xdb/engine/handler_file.go:190-196 | An extension brings a round missed earlier exactly if it is the one in which the file was to expire and the extension starts in it. |
| `FileLife.CoveredByNeighbours` | xdb/engine/handler_file.go:137-213 | The same condition by the edges: every missed span has one round, given on either side, or two, given on both. |
| `FileLife.OfflineGap` | xdb/engine/handler_file.go:172-211 | All sigmas can be calculated, the node is offline in one extension, and a live moment stays without its round. |
| `FileLife.CoveredAnyway` | xdb/engine/handler_file.go:172-211 | An extension whose push failed, and every live moment is covered. |
| `FileLife.RepairedByNext` | xdb/engine/handler_file.go:190-196 | An extension whose push failed and left a gap, which the next one fills. |
| `FileHealth.GetSliceAvgHealth` | xdb/engine/common/health.go:214-240 | Red if all nodes are red, green if there are several and all are green, yellow otherwise; fails exactly for an unknown node. |
| `FileHealth.GetFileNodesHealth` | xdb/engine/common/health.go:328-358 | The health of all nodes, or an error exactly if one is unknown. |
| `FileHealth.GroupSlices` | xdb/engine/common/health.go:149-160 | The nodes of each slice in recorded order, and the set of all nodes. |
| `FileHealth.GradeSlices` | xdb/engine/common/health.go:167-187 | The grades of all slices, in any order. |
| `FileHealth.GetFileHealth` | xdb/engine/common/health.go:142-211 | The grade of the file whatever the order of slices; fails exactly for no slices or an unknown node. |
| `FileHealth.RedFile` | xdb/engine/common/health.go:194-199 | A file is red exactly if some slice has all its copies on red nodes. |
| `FileHealth.GreenFile` | xdb/engine/common/health.go:194-211 | A file is green exactly if several copies are wanted, there are as many for its slices, and every slice has several, all on green nodes. |
| `FileHealth.GetNsFilesHealth` | xdb/engine/common/health.go:86-139 | Counts files by grade; green, yellow and red add up to all files. |
| `FileHealth.SumPermutes` | xdb/engine/common/health.go:293-299 | Totals do not depend on the order in which counts arrive. |
| `FileHealth.CountNodes` | xdb/engine/common/health.go:275-322 | Counts the listed nodes by grade in any order of reports; fails exactly for an unknown node. |
| `FileHealth.GetFileSysHealth` | xdb/engine/common/health.go:243-325 | The totals over all namespaces and the nodes by grade, both of which add up, and the grade of the system; fails exactly if a file cannot be graded or a listed node is unknown. |
| `FileHealth.SystemIs` | xdb/engine/common/health.go:303-309 | The system is red exactly if some file is, and yellow exactly if some file is yellow and none red. |
| `FileHealth.SliceMonotone` | xdb/engine/common/health.go:214-240 | Worsening nodes never improves a slice. |
| `FileHealth.FileMonotone` | xdb/engine/common/health.go:142-211 | Worsening nodes never improves a file. |
| `FileHealth.SystemMonotone` | xdb/engine/common/health.go:303-309 | Worsening nodes never improves the system. |
| `Signing.CollectKeys` | xdb/pkgs/strings/strings.go:62-66 | All field names, once each, in any order. |
| `Signing.GetSigMessage` | xdb/pkgs/strings/strings.go:56-84 | The message is the kept fields in ascending order of their names. |
| `Signing.OrderAndSignatureDoNotMatter` | xdb/pkgs/strings/strings.go:62-84 | The message is the same for requests that differ in field order, nil fields or signature only. |
| `Signing.MessageDeterminesFields` | xdb/pkgs/strings/strings.go:70-84 | If no value has an "&" and no name an "=", the message determines the kept fields. |
| `Signing.ValueConfuses` | xdb/pkgs/strings/strings.go:70-84 | Every request with a kept field has the message of another: the last value with an "&" more. |
| `Signing.KeyConfuses` | xdb/pkgs/strings/strings.go:70-84 | Two different requests with one message, by a separator in a name. |
| `Signing.DeterminedExactly` | xdb/pkgs/strings/strings.go:70-84 | Among all requests a message determines its kept fields exactly if there are none. |
| `Heartbeat.ListDays` | xdb/engine/common/nodes.go:100-108 | The loop ends, and lists exactly the days from start to end, once each and in order. |
| `Heartbeat.DaysListed` | xdb/engine/common/nodes.go:100-108 | The days asked for are exactly those with moments from start to end, each once and in order. |
| `Heartbeat.Lengths` | xdb/engine/common/nodes.go:87-125 | A day is 24 hours and 1440 heartbeats, a window seven days. |
| `Heartbeat.SevenDays` | xdb/engine/common/nodes.go:87-97 | A node registered when its window begins or before is asked for exactly seven days, the last one yesterday. |
| `Heartbeat.HeartBeatTotalNumByTime` | xdb/engine/common/nodes.go:49-114 | The sum of the heartbeats of those days. |
| `Heartbeat.GetNodeHealth` | xdb/blockchain/xchain/nodes.go:200-248 | The grade from both rates, with the defaults where there is nothing to divide by. |
| `Heartbeat.RateWithinOne` | xdb/engine/common/nodes.go:117-125 | For heartbeats at least a minute apart from the registration on, the rate is at most 1 for sure exactly if the node was registered strictly before its window. |
| `Heartbeat.OldNodeBeats` | xdb/engine/common/nodes.go:49-114 | A node registered by the beginning of its window has at most 10080 heartbeats in it. |
| `Heartbeat.YoungNodeBeats` | xdb/engine/common/nodes.go:87-125 | A younger node has at most one heartbeat more than the minutes it is measured by. |
| `Heartbeat.OneBeatMore` | xdb/engine/common/nodes.go:87-125 | A younger node that sends one every minute has exactly one more. |
| `Heartbeat.SevenDaysBySix` | xdb/engine/common/nodes.go:87-125 | A node registered exactly when its window begins has seven days counted and six measured. |
| `Heartbeat.UnprovedIsRed` | xdb/blockchain/xchain/nodes.go:200-248 | A node registered strictly before its window that proved less than 3/7 of its challenges is red whatever its heartbeats. |
| `Heartbeat.ProvedIsNotRed` | xdb/blockchain/xchain/nodes.go:200-248 | With a heartbeat every minute since before the window, 3/7 proved is enough not to be red. |
| `Heartbeat.ProvedIsGreen` | xdb/blockchain/xchain/nodes.go:200-248 | With a heartbeat every minute since before the window a node is green exactly if it proved at least 11/14 of its challenges. |
| `Heartbeat.UnchallengedNode` | xdb/blockchain/xchain/nodes.go:200-248 | A node without challenges is green with such heartbeats, and red without any. |
| `Heartbeat.Newcomer` | xdb/blockchain/xchain/nodes.go:200-248 | A node registered less than a minute ago is green exactly if it has no challenges or proved 85 in 100. |
| `Heartbeat.UnprovedButYellow` | xdb/blockchain/xchain/nodes.go:200-248 | A node registered exactly when its window begins is yellow with 42 of 100 challenges proved. |
| `Heartbeat.GradeMonotone` | xdb/blockchain/xchain/nodes.go:240-247 | More proofs and more heartbeats never make a node worse. |

## Left out

- HTTP and gRPC servers and clients, command lines, configuration, logging, containers and generated code: plumbing.
- The blockchain drivers except `GetNodeHealth`, and all transitions of states on the chain: the contracts are not part of this model.
- Cryptography itself (AES-GCM, ECDSA, pairings, elliptic curves, Paillier): inverse and injective functions or symbolic ciphertexts.
- The copier, slicer, splitters, learners and models, and CSV and JSON texts: the contracts above.
- Readers reused across attempts (`retryRoutine`, `gateway.Add`): a failed push is taken to leave the content whole, and the attempts of one retry count as one outcome.
- Cancelled writes, errors of the slicer, of node selection and of encryption: runs of the pipeline are uncancelled and only pushes fail.
- The unsynchronised collection of slice metas in `Write`: what was collected and what is still queued together are in file order; packing takes the queue to be drained.
- Encrypting the structure of a file: `packChainFileStructure` and `recoverChainFileStructure` are inverse by the contract of recovering, and the readers are given the list of slices.
- ReadBack.Read: does not model an empty structure, on which the source waits for ever; every written file has a slice.
- ReadBack.RecoverFile: does not model an empty structure, for the same reason.
- The goroutines of the sliding window: a slice in the window is pulled in one step, which is all that its mutex lets others see.
- Merkle challenges, migration of slices and expansion of replicas: further callers of the placement and challenge code that is modelled.
- `Unpin`: the same scan as `PinLs`.
- PsiParty.VlPsiByPairs.IntersectParts: does not model a known party's set that points beyond the own list, on which the source panics; its precondition excludes it, and honest parties never send one (PsiRun.CommonIsShared).
- PsiParty.VlTwoPartsPsi.IntersectParts: the same.
- Ciphertexts that are not on the curve, and parties of the intersection that do not follow the protocol: the theorems about runs take all parties to be honest and strangers to be anything.
- With only one other party, sorting the result in place also reorders the stored pairwise intersection, which is not read again.
- `Evaluator.Stop`: its goroutines capture the loop variable, so which folds are stopped is not determined.
- Failing metric scores in the evaluators, where the callback is not made although all folds are recorded.
- Prediction and training steps themselves, and callbacks into the node's loop from them: a worker of the event loop ends with some answer.
- Times read repeatedly while one scan of time-outs runs: one reading is used.
- Rates in the system report, and grading against health reports that change during a call.
- Floating-point rounding of rates: real numbers.
- Days of unequal length and time zones: days have a fixed length.
- Trainers.Trainer.DeleteLearner: does not model IDs that end in `_LEv`, or split into seven pieces, but are too short for the suffix that is cut off, on which `checkOrigin` panics; its precondition excludes them.
- Trainers.Trainer.SaveResult: excludes the same IDs, for the same reason.
- Negative times: times of challenges are natural numbers.
- Signing.ValueConfuses: does not model the types of a request's fields: the partner has an "&" more in its last value, which in Go needs that field to be a string.
- Signing.DeterminedExactly: is about requests as maps of text for the same reason.
- Signing.MessageDeterminesFields: does not tell a string from a number or a bool that prints alike, because values are modelled as their printed text.
- Two extensions of one file at the same time, cancelled ones, and nodes that return other bytes than they were sent: the calls for a file come one after the other, a copy's sigma is a function of the round, and a push that fails leaves the old material.
- Heartbeats the contract would take outside of the registration or closer together than the program sends them: a node's heartbeats are times from its registration to now, at least a minute apart.
