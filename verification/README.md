# ShannonNet: a verified model

ShannonNet moves secret files from a server to a client. Both nodes hold the same secret files and
derive from them, with a common random seed, the same running key A. The server encrypts a new secret
under A with an LWE scheme, chunk by chunk; the client pulls the chunks with concurrent requests,
decrypts them, puts them together, checks a checksum and reports the secret VALID or INVALID. Only
VALID secrets feed the next running key, so one wrong step would make the nodes drift apart for good.

The project proves that they do not: `Agreement.AgreementOverHistories` follows both stores through
any sequence of transfers, `TransferTheorems` and `TransferProgress` say what one transfer does under
every interleaving, and the modules below them prove what the transfer relies on.

| file | what it is about |
|---|---|
| `arith.dfy`, `sequences.dfy`, `bits.dfy`, `buffers.dfy`, `wrappers.dfy` | remainders, permutations, bits and bytes, GF(2), reads into a buffer |
| `config.dfy` | the constants of the configuration as parameters, and the deployed values |
| `lwe.dfy` | encryption and decryption of one message, 16-bit CPU path and tensor path |
| `secret_file.dfy` | the secret file with its checksum trailer |
| `tiling.dfy` | how the threads of both nodes cut a chunk, and their loops |
| `keygen.dfy`, `schedule.dfy`, `tasks.dfy`, `linearity.dfy`, `selection.dfy`, `running_key.dfy`, `generated_key.dfy` | key generation: extraction, the closed form, overlapping pool tasks, linearity, seeded choices, one whole message, and its key in the source's own arithmetic |
| `transfer.dfy` | one transfer as a state machine; every access to a file, to Redis or to a response is a step |
| `transfer_proof.dfy`, `transfer_theorems.dfy`, `transfer_client.dfy`, `transfer_progress.dfy`, `damage_example.dfy`, `overlap.dfy` | its invariant, what follows from it, requests in flight and leftover chunk files, termination, runs that break agreement, and when gather overlaps a request |
| `nodes.dfy`, `client_node.dfy`, `dispatch.dfy`, `end_to_end.dfy` | the handlers and loops as imperative code, proved to be runs of that state machine |
| `init.dfy`, `agreement.dfy`, `issued.dfy` | the first secrets, whole histories, and histories together with the issuing of indices |
| `index_cycle.dfy` | how indices are issued while the generator works |
| `thread_pool.dfy`, `pool_methods.dfy`, `pool_schedule.dfy`, `pool_progress.dfy` | the thread pool as a state machine, its members as imperative code, the generator's script on the pool, and why it can always be completed |

Sizes, thread counts, Q and the checksum are parameters; `Config.DeployedOk` checks the deployed
constants against what the proofs need. Bytes are integers 0..255, bits are sequences of booleans with
the most significant bit first, and `uint16_t` arithmetic is written out modulo 2^16.

Results that a reader of the source may not expect:

- A transfer in which a request failed can still be reported VALID. `gather` starts from a zeroed buffer,
  so a missing chunk of zeros goes unnoticed by the checksum, while the server, one increment short,
  never moves the secret out of the waiting directory. gather's buffer is always the secret with the
  pieces zeroed that had not arrived (`TransferTheorems.BufferIsWhatArrived`), so agreement holds exactly
  if no request failed or the checksum rejects the secret zeroed in that way (`TransferTheorems.AgreesIff`).
  It can break in every configuration with more than one chunk and in no other (`DamageExample.CanBreakIff`).
- The loop that joins a batch stops at the first failed request, so `gather` can start while another
  request of the last batch is still under way: exactly if the last batch has more than one request
  (`Overlap.CanOverlapIff`), as with the deployed constants. Chunk files written too late stay behind
  (`TransferClient.ChunkFilesLeft`); a last chunk that comes too late or only in part is always noticed
  (`TransferTheorems.LastChunkIncomplete`).
- A report of INVALID never finds a file to remove on the server (`TransferTheorems.NothingToRemove`): a
  secret is only moved when every request succeeded, and then the checksum is right.
- The decrypting threads cover a chunk only if EACH_NUM modulo RUNNING_THREAD_NUM is 0 or 1
  (`Tiling.DecryptCoversIff`); the encrypting threads always do.
- The tensor decryption relies on the remainder having the divisor's sign
  (`Lwe.TruncationWouldMisread`).
- The copying loops of the initialisation exchange the number of nodes and the number of files; they are
  right for two files and for no others (`Initial.CopyCoversIff`).

Where comments and code of the source disagree the model follows the code. `ceil(Q / 2)` divides integers
and is the floor of Q/2. CPU noise is drawn from 0 to Q/2 - 1 but tensor noise only from 0 to Q/2 - 2. The
comment on READ_NUM speaks of a 128-bit key where 1024 reads give 1024 bits.

## Model

| member | source | states |
|---|---|---|
| Config.DeployedOk | src/config/config.h:21-57 | the deployed constants satisfy everything that key generation and transfers rely on |
| Lwe.AnyAccumulationOrder | src/LWE.hpp:153 | the 16-bit dot product equals the exact sum modulo 2^16 whatever the order and grouping of its terms |
| Lwe.WrappedIsExact | src/LWE.hpp:153 | wrapping every product and every partial sum loses nothing modulo 2^16 |
| Lwe.MaskIsDot | src/LWE.hpp:153 | what is called A*s is the sum of the products row[i]*s[i] modulo 2^16 |
| Lwe.CipherRow | src/LWE.hpp:153 | every element of b is that sum plus its noise plus half of Q under a 1 bit, modulo Q |
| Lwe.RowDecodesIff | src/LWE.hpp:195-206 | a row decodes to its bit if and only if the noise is below Q/2 for a 0 and below Q - Q/2 for a 1 |
| Lwe.NoiseBoundIsTight | src/LWE.hpp:76-84 | the drawn noise is harmless, noise Q/2 turns a 0 into a 1, and no sum other than the dot product wraps |
| Lwe.CpuRoundTrip | src/LWE.hpp:135-215 | decrypt inverts encrypt for every matrix, every s, all drawn noise and every message |
| Lwe.Encrypt | src/LWE.hpp:135-156 | s and then e are what the source of random numbers gives, in their ranges; b is made of them, and the strings sent decrypt to the message |
| Lwe.Decrypt | src/LWE.hpp:180-216 | the decrypting loop computes, for any received strings, the packed threshold decisions that the round trip is about |
| Lwe.GenerateSecret | src/LWE.hpp:72-87 | m*n values, all below Q, or below Q/2 for noise, and they are those drawn, in order |
| Lwe.Message2Bin | src/LWE.hpp:121-133 | the bits of all characters in order, most significant first, as words 0 and 1 |
| Lwe.Assemble | src/LWE.hpp:199-214 | one character per decision, one byte per eight characters, an incomplete byte dropped |
| Lwe.DecodersAgree | src/LWE.hpp:230-231 | thresholding b - x with the divisor-signed remainder and thresholding b + Q - x decide the same bit |
| Lwe.TorchIsEuclidean | src/LWE.hpp:231 | the remainder with the divisor's sign is the one between 0 and Q - 1, for negative differences too |
| Lwe.TruncationWouldMisread | src/LWE.hpp:231 | with C's truncated remainder the same threshold would misread bits |
| Lwe.GpuRoundTrip | src/LWE.hpp:158-246 | decryptGPU inverts encryptGPU for any product that both sides compute alike |
| Lwe.GpuRowDecodesIff | src/LWE.hpp:172-231 | an element of the tensor path decodes to its bit if and only if the noise is below Q/2 for a 0 and below Q - Q/2 for a 1 |
| Lwe.GpuCipherRow | src/LWE.hpp:172 | every element sent is the product plus its own noise plus half of Q under a 1 bit, modulo Q |
| Lwe.AnyProductDecrypts | src/LWE.hpp:158-246 | bit by bit, what a block decrypts to when the other side's product is a different one |
| Tiling.HalfOffDecrypts | src/LWE.hpp:158-246 | where the other product is half of Q off, a block decrypts to the other bit whatever the noise |
| Lwe.DecryptGpu | src/LWE.hpp:218-246 | the loop over the decisions yields the message that the round trip is about |
| Bits.PackUnpack | src/LWE.hpp:121-133 | packing the bits of a byte string gives the string back |
| Bits.BitInOrder | src/LWE.hpp:126-130 | bit i of the n bits of v is v / 2^(n-1-i) mod 2: most significant first |
| Bits.PackedAll | src/LWE.hpp:236-243 | flushing a byte every eight bits packs the whole bit string |
| SecretFile.TrailerReadsBack | src/LWE.hpp:88-92 | every 32-bit checksum prints to exactly ten digits that read back to it |
| SecretFile.TrailerInjective | src/LWE.hpp:88-92 | different checksums print differently |
| SecretFile.CrcOkIffWritten | src/main/Decrypt.cc:128-137 | gather's check accepts exactly the buffers that are some bytes followed by the trailer of their checksum |
| SecretFile.TrailerDamageDetected | src/main/Decrypt.cc:128-137 | damage confined to the trailer is always detected |
| SecretFile.ZeroTailRejected | src/main/Decrypt.cc:128-137 | a buffer that ends in a zero byte is rejected whatever the checksum function is |
| SecretFile.GenerateSecretFile | src/LWE.hpp:62-105 | the file has exactly the asked size, holds the words drawn, all below Q, and passes gather's check |
| Tiling.EncryptRangesPartition | src/main/Encrypt.cc:26-31 | the encrypting ranges follow one another without gap or overlap from 0 to EACH_NUM |
| Tiling.DecryptCoversIff | src/main/Decrypt.cc:29-34 | the decrypting counts reach the end of the chunk iff EACH_NUM mod R is at most 1, else miss exactly (EACH_NUM mod R) - 1 blocks |
| Tiling.EncryptGpu | src/LWE.hpp:158-178 | s of n bytes below Q and then the noise below Q/2 - 1 are drawn, the block is made of exactly these, and it decrypts to the message |
| Tiling.EncryptSecretsGpu | src/main/Encrypt.cc:23-41 | one thread encrypts the blocks of its range in order, numbered consecutively, each with a public s of 8*S_LEN bytes below Q |
| Tiling.EncryptChunk | src/main/Encrypt.cc:94-105 | all threads together encrypt every block of the chunk once, in order, numbered progress*EACH_NUM + k, each with a public s of 8*S_LEN bytes below Q |
| Tiling.DecryptSecretsGpu | src/main/Decrypt.cc:26-48 | one thread decrypts its count of blocks from its offset in order |
| Tiling.DecryptChunk | src/main/Decrypt.cc:84-99 | the chunk file holds the decrypted blocks in order, as far as the threads reach |
| Tiling.ChunkRoundTripIff | src/main/Decrypt.cc:84-99 | the client's chunk file equals the server's chunk iff EACH_NUM mod R is at most 1 |
| KeyGen.FirstBit | src/scripts/generateSecretFile.cc:115-124 | folding a window to a byte and the byte to a bit is the parity of all its bits |
| KeyGen.ProcessRandom | src/scripts/generateSecretFile.cc:110-131 | one random number yields the packed parities of its READ_NUM windows |
| KeyGen.ProcessTmpSecret | src/scripts/generateSecretFile.cc:96-132 | the tmp file is those rows one after another |
| KeyGen.TmpBitAt | src/scripts/generateSecretFile.cc:110-131 | bit r*READ_NUM + i of a tmp file is the parity of window i of random number r |
| KeyGen.ProcessBinSecret | src/scripts/generateSecretFile.cc:209-217 | the loops merge the tmp files byte by byte into the exclusive or |
| KeyGen.MergeSecretsBit | src/scripts/generateSecretFile.cc:209-217 | each bit of a merged file is the exclusive or of that bit of every input |
| Schedule.KeyMeetsClosedForm | src/scripts/generateSecretFile.cc:353-397 | every bit of the running key is the exclusive or over the files of the parity of one window of the thread's share |
| Schedule.WindowInFile | src/scripts/generateSecretFile.cc:97-115 | every window lies inside the thread's share of the secret file, at bufferSize*t plus the offset |
| Tasks.NextKeeps | src/scripts/generateSecretFile.cc:173-217 | every step of the overlapping tmp and merge tasks keeps their files what they should be |
| Tasks.NeverStuck | src/scripts/generateSecretFile.cc:353-373 | until all futures are ready some task can go on; no merge ever misses an input |
| Tasks.AnySchedule | src/scripts/generateSecretFile.cc:353-373 | however the tasks overlap within their phase, no tmp file is left and the part files are those of the key |
| Tasks.KeyUnderAnySchedule | src/scripts/generateSecretFile.cc:353-397 | under any schedule, bit r*READ_NUM + i of part t is the exclusive or over the secret files of the parity of the window at bufferSize*t plus the offset |
| PoolSchedule.NextIsStep | src/scripts/generateSecretFile.cc:350-373 | seen from the files, every step of the script, the pool and the task bodies is a step of the overlapping tasks |
| PoolSchedule.ReadyMeansWritten | src/scripts/generateSecretFile.cc:359-361 | when all futures of the first phase are ready, every tmp file has been written |
| PoolSchedule.FuturesMeanKey | src/scripts/generateSecretFile.cc:350-373 | when all futures are ready, the tasks that the pool accepted have left exactly the part files of the key |
| PoolProgress.KeyIsReachable | src/scripts/generateSecretFile.cc:350-373 | from every state that script, pool and tasks reach with workers and without a stop, the run can be continued until all futures are ready and the parts are those of the key |
| Linearity.ExtractionIsLinear | src/scripts/generateSecretFile.cc:110-132 | extracting from the exclusive or of two buffers gives the exclusive or of the two outputs |
| Linearity.TmpFileIsLinear | src/scripts/generateSecretFile.cc:96-132 | the same for a thread's share of two secret files |
| Linearity.MergePermutation | src/scripts/generateSecretFile.cc:209-217 | merging does not depend on the order of the files |
| Linearity.KeyIsOrderFree | src/scripts/generateSecretFile.cc:353-397 | the running key does not depend on the order of the (file, offsets) pairs |
| Selection.PickIsFirstSeen | src/scripts/generateSecretFile.cc:30-41 | the rejection loop returns the first FILE_NUM distinct residues and uses no draw more |
| Selection.PickPositions | src/scripts/generateSecretFile.cc:30-41 | the draws at which the loop takes a position: each is the first with its value, all others repeat one, and the last of them ends the loop |
| Selection.PickFinishesIff | src/scripts/generateSecretFile.cc:30-41 | it finishes iff enough different residues are ever drawn, and its positions are distinct and in range |
| Selection.ShortListNeverFinishes | src/scripts/generateSecretFile.cc:342-344 | without the guard on the list's size it would spin for ever |
| Selection.DrawFresh | src/scripts/generateSecretFile.cc:31-40 | one round draws until a position comes up that was not taken, and returns it |
| Selection.GenerateRandomFile | src/scripts/generateSecretFile.cc:26-42 | the files at those positions, with the generator left after the draws used |
| Selection.OffsetAt | src/scripts/generateSecretFile.cc:54-64 | offset j of row i is draw i*num + j, moved back so that READ_LEN more fit |
| Selection.GenerateRandom | src/scripts/generateSecretFile.cc:50-66 | the loops fill the rows from consecutive draws |
| RunningKey.SelectIs | src/scripts/generateSecretFile.cc:336-348 | at most FILE_NUM files are used as they are without a draw; of more, exactly those at the first FILE_NUM different values of rand() % size, in that order, with no draw after the last of them |
| RunningKey.SelectSomeIff | src/scripts/generateSecretFile.cc:336-348 | there is a choice iff the list is not empty and, if it is longer than FILE_NUM, enough different values are drawn |
| RunningKey.SeededReplay | src/scripts/generateSecretFile.cc:332-348 | equal draws and equally long lists lead both nodes to the same distinct positions and the same number of draws |
| RunningKey.JobIsOk | src/scripts/generateSecretFile.cc:377-397 | the parts fill exactly SECRET_FILE_SIZE bytes |
| RunningKey.RunJob | src/scripts/generateSecretFile.cc:353-397 | tasks, merges and concatenation produce the key of the closed form |
| RunningKey.Collect | src/scripts/generateSecretFile.cc:380-397 | reading the parts into one buffer at their offsets concatenates them |
| RunningKey.GenerateKey | src/scripts/generateSecretFile.cc:332-411 | one message from the seeded draws to the saved key: a function of the draws and of the VALID files' contents |
| GeneratedKey.KeyBitIs | src/scripts/generateSecretFile.cc:50-132 | every bit of that key, from the configuration's own numbers: the exclusive or, over the chosen files, of the parity of the READ_LEN bits at share*t + random*i % (share - READ_LEN/8), random being the draw for that file, thread and number |
| ThreadPool.NextKeeps | src/utils/thread.h:47-106 | every step of workers, enqueue and destructor keeps the pool's invariant |
| ThreadPool.NothingDropped | src/utils/thread.h:47-106 | popped then queued tasks are the accepted ones in order, none runs twice, and when all workers have left every accepted task has run |
| ThreadPool.NeverStranded | src/utils/thread.h:51-65 | if all workers sleep, every queued task still has an enqueue that owes its notification |
| ThreadPool.ClosedForEver | src/utils/thread.h:55-57 | once any worker has left, the queue stays empty and nothing more is accepted |
| PoolMethods.Pool.Enqueue | src/utils/thread.h:90-106 | appends the task unless the pool is stopped, as a run of the pool's steps |
| PoolMethods.Pool.WorkerRound | src/utils/thread.h:48-66 | one round waits, leaves, or runs the oldest task and marks it finished, as a run of the pool's steps |
| PoolMethods.Pool.Stop | src/utils/thread.h:79-81 | sets the flag and wakes everyone, as a run of the pool's steps |
| PoolMethods.Pool.constructor | src/utils/thread.h:47-75 | an empty running pool whose workers are all about to look at the queue: the state that its runs start from |
| IndexCycle.NeverReissuedIff | src/controller/SecretController.hpp:46-57 | no interleaving issues an index twice, exactly if lock is read before time and time is written before the lock is deleted |
| IndexCycle.NextKeeps | src/scripts/generateSecretFile.cc:423-432 | every issued index is locked or in the time zset after every Redis command |
| IndexCycle.WorkingIsNew | src/scripts/generateSecretFile.cc:283-290 | the generator works on an index only while the zset of the node that asked lacks it |
| IndexCycle.NoMessageLost | src/scripts/generateSecretFile.cc:283-432 | a queued message stays queued, in the generator's hands or answered in its own node's zset, unless the generator gave up while it worked on it |
| IndexCycle.EveryMessageAnswered | src/scripts/generateSecretFile.cc:283-432 | with nothing queued and the generator idle, the index of every such message is in the zset of the node that asked, server or client |
| IndexCycle.IssuedIsGenerated | src/controller/SecretController.hpp:46-78 | without failures every issued index is generated for the server in the end |
| IndexCycle.LocksAreReleased | src/scripts/generateSecretFile.cc:423-432 | without failures no index has two server messages or is timed before its message is handled, and in the end every lock that genSecret set is deleted |
| IndexCycle.IssuedAreNew | src/controller/SecretController.hpp:46-57 | an issued index is none of those in the time zset at the start |
| IndexCycle.DeleteFirstReissues | src/scripts/generateSecretFile.cc:423-432 | a generator that deleted the lock first would let an index be issued again |
| IndexCycle.TimeReadFirstReissues | src/controller/SecretController.hpp:48-49 | so would an issuer that read the time first |
| IndexCycle.GenSecret | src/controller/SecretController.hpp:46-54 | the loop stops at the first candidate that is neither locked nor timed |
| Dispatch.Client.PullSecret | src/ClientApp.cc:108-144 | whatever fails, each remaining chunk is launched once in order, in those batches, gather is called once, and the loops end |
| Dispatch.BatchesAreBounded | src/ClientApp.cc:117-126 | no batch has more than CLIENT_THREAD_NUM requests, each but the last has that many, and together they are what was missing |
| Dispatch.PullFreshSecret | src/ClientApp.cc:108-144 | from a fresh counter exactly the chunks 0 to PROGRESS - 1 are launched and gather gets PROGRESS |
| TransferInvariant.NextKeeps | src/main/Encrypt.cc:58-157 | every step of every request and of the client keeps the transfer's invariant |
| TransferInvariant.MoveStatus | src/main/Encrypt.cc:121-157 | while a request moves, it is the only mover, the waiting file is there and the client is still pulling |
| TransferInvariant.ResponseCarries | src/main/Encrypt.cc:94-105 | an encrypted chunk decrypts block by block under the same key |
| TransferInvariant.WriteExtends | src/main/Decrypt.cc:93-99 | each decrypted block extends the chunk file by the next piece of the chunk |
| TransferInvariant.SegmentsEqual | src/main/Decrypt.cc:115-128 | a buffer whose chunk segments all agree with the secret is the secret |
| TransferTheorems.TransferCorrect | src/main/Decrypt.cc:110-160 | if every request succeeds, gather's buffer is the server's secret, the report is VALID and both stores hold the file |
| TransferTheorems.WaitingFilePresent | src/controller/SecretController.hpp:153-183 | no guard of getData or move ever fires on a fresh index: the file is there whenever it is checked or read |
| TransferTheorems.FailsUntilCounted | src/main/Encrypt.cc:58-125 | a request may fail at any step before its increment, afterwards only when move finds a status |
| TransferTheorems.MoveOnceAfterAllReads | src/main/Encrypt.cc:106-157 | at most one request moves, and only after every request has read its chunk and made its increment |
| TransferTheorems.VerdictIsFinal | src/main/Encrypt.cc:147-149 | VALID is never overwritten by move's INVALID, and the mover never changes |
| TransferTheorems.FailedNeverMoves | src/main/Encrypt.cc:106-112 | if some request failed before its increment, the secret is never moved |
| TransferTheorems.BufferIsWhatArrived | src/main/Decrypt.cc:115-128 | at every moment gather's buffer is the secret with the pieces zeroed that it has not found; it has found whole blocks, and none of a failed chunk |
| TransferTheorems.OneLook | src/main/Decrypt.cc:117-128 | what ends up in the buffer from a chunk is what its file held when gather came to it |
| TransferTheorems.LastChunkIncomplete | src/main/Decrypt.cc:115-153 | if the last chunk file is missing or incomplete when gather comes to it, the report is INVALID and nothing is stored, whatever the checksum and whatever becomes of the request |
| TransferTheorems.LastChunkMissing | src/main/Decrypt.cc:115-153 | the same in particular when the request for the last chunk failed |
| TransferTheorems.NothingToRemove | src/controller/SecretController.hpp:246-271 | an INVALID report never finds a secret file on the server; the waiting file is still there |
| TransferTheorems.AgreesIff | src/main/Decrypt.cc:128-153 | a finished transfer leaves the nodes in agreement iff no request failed or the checksum rejects the secret with the lost pieces zeroed; it is VALID iff the checksum accepts that |
| TransferTheorems.LostZerosBreak | src/main/Decrypt.cc:115-153 | if some request failed and all that was lost was zeros, every checksum passes and only the client keeps the secret |
| TransferTheorems.ValidMeansStored | src/main/Decrypt.cc:140-153 | without failures, VALID implies at every moment that the server holds the secret and the client holds it or is about to write it |
| TransferTheorems.WrongKeyFlips | src/main/Decrypt.cc:26-48 | a client with another running key decrypts the other bit wherever its product is half of Q away from the server's |
| TransferClient.InFlightBounded | src/ClientApp.cc:117-126 | in every state of every run at most CLIENT_THREAD_NUM requests are under way |
| TransferClient.ChunkFilesLeft | src/main/Decrypt.cc:117-128 | a finished transfer leaves exactly the chunk files that were first written after gather had passed them, and none when no request failed |
| Overlap.CanOverlapIff | src/ClientApp.cc:117-142 | gather can start while a request is under way iff the last batch has more than one request, (PROGRESS - 1) mod CLIENT_THREAD_NUM not 0 |
| TransferProgress.RunsAreBounded | src/ClientApp.cc:114-144 | no transfer takes more than a fixed number of steps, whatever fails |
| TransferProgress.NextDecreases | src/ClientApp.cc:114-144 | every step brings the transfer closer to its end |
| TransferProgress.NoDeadlock | src/ClientApp.cc:114-144 | a transfer that has not finished always has a next step that needs no fault |
| TransferProgress.FaultFreeNeverFails | src/controller/SecretController.hpp:127-190 | without faults from outside no request ever fails |
| TransferProgress.LeftAloneItSucceeds | src/main/Decrypt.cc:110-160 | a fault-free transfer that can go no further is finished and VALID with the secret in both stores |
| DamageExample.AgreementCanBreak | src/main/Decrypt.cc:117-140 | for every configuration with more than one chunk, a secret and a run in which the index is VALID, the client has the secret and the server has not |
| DamageExample.CanBreakIff | src/main/Decrypt.cc:117-140 | a finished transfer can break agreement iff a secret has more than one chunk |
| Nodes.Server.Move | src/main/Encrypt.cc:121-157 | copies, marks and removes unless the index has a status, as a run of the transfer's steps |
| Nodes.Server.Process | src/main/Encrypt.cc:58-113 | every outcome of the request: open failure, progress error with its odd payload, encrypted chunk with a public s of N bytes below Q in every block, and the move of the last one |
| Nodes.Server.GetData | src/controller/SecretController.hpp:107-197 | the guards refuse without any change, otherwise as Process |
| Nodes.Server.ResultReport | src/controller/SecretController.hpp:204-280 | VALID marks, anything else marks INVALID and removes, with the answers for an unknown index, a missing file and a failed removal |
| Nodes.PathsAreRuns | src/controller/SecretController.hpp:107-197 | what a handler does on its own extends any run of the whole transfer |
| ClientNode.Client.Process | src/main/Decrypt.cc:67-108 | appends all decrypted blocks in order to the chunk file, as a run of the transfer's steps |
| ClientNode.Client.GatherChunk | src/main/Decrypt.cc:117-128 | a chunk file goes to its place in the buffer, an absent one leaves it alone |
| ClientNode.Client.Report | src/main/Decrypt.cc:128-153 | reports VALID and stores the buffer iff its checksum is right, else reports INVALID and stores nothing, with the server removing its file if it can |
| ClientNode.Client.Gather | src/main/Decrypt.cc:110-160 | from gathering to closing as a run of the transfer's steps |
| EndToEnd.TransferSecret | src/ClientApp.cc:108-144 | the pulling loop and the handlers of both nodes put together, whichever requests fail, are a run of the transfer; the client keeps what arrived iff its checksum is right, the server moves the secret iff all requests succeeded |
| Initial.Run | init/init.cc:11-116 | two proper secrets, identical on both nodes and VALID: the state that histories start from |
| Initial.CopyCoversIff | init/init.cc:67-82 | the copying loops stay in bounds and copy everything iff there are two files or none |
| Agreement.ReadFileSize | src/utils/utils.cc:42-87 | the loop with its skips lists the VALID files, up to the entry at which an exception ends it |
| Agreement.ListingOne | src/utils/utils.cc:62-80 | an entry counts iff it is no directory, ends in .bin, has the score 1 and leads to a file |
| Agreement.ListingConcat | src/utils/utils.cc:59-86 | the entries count one by one and in order |
| Agreement.ListingIff | src/utils/utils.cc:59-80 | a file's content is listed iff it belongs to a VALID .bin entry |
| Agreement.DirectoryListsIff | src/utils/utils.cc:59-80 | from a node's own directory exactly the files that are stored and VALID are listed |
| Agreement.SameKey | src/utils/utils.cc:59-80 | nodes that agree on the VALID files derive the same key from the same draws |
| Agreement.CommitAgreesIff | src/controller/SecretController.hpp:232-263 | a finished transfer keeps agreement iff no request failed or the checksum rejects the secret with the lost pieces zeroed |
| Agreement.NextKeeps | src/scripts/generateSecretFile.cc:336-432 | starting, advancing and finishing a transfer keep agreement and the common key |
| Agreement.AgreementOverHistories | src/controller/SecretController.hpp:232-263 | at every moment of every history the index of every completed transfer that is VALID has the same file on both nodes, and the transfer under way uses one key |
| Agreement.CurrentAgrees | src/main/Decrypt.cc:140-153 | while a transfer without failures is under way and VALID, the server holds the secret and the client holds it or is about to write it |
| Agreement.CanStart | src/scripts/generateSecretFile.cc:336-432 | between transfers, whenever the draws give a key, a new secret under a new name can be transferred |
| Agreement.FailedTransferIsDropped | src/main/Decrypt.cc:129-153 | in every history a transfer with a failed request and detected damage leaves both stores alone and its index INVALID |
| Issued.UnusedIsNew | src/controller/SecretController.hpp:46-57 | an issued index under which no transfer has started is new to both nodes |
| Issued.NextIsStep | src/ClientApp.cc:41-144 | issuing, generating and transferring under issued indices is a step of the histories or changes nothing on the nodes |
| Issued.AgreementOfIssued | init/init.cc:67-113 | with genSecret and the generator interleaved, and every transfer under an unused issued index, both nodes agree on every completed VALID secret at every moment |
| Agreement.SuccessfulTransferIsKept | src/main/Decrypt.cc:129-153 | in every history a transfer without failures ends VALID with the secret in both stores |

## Left out

- Agreement.AgreementOverHistories: assumes that in a transfer with a failed request the checksum rejects the secret with the lost pieces zeroed; CommitAgreesIff shows that nothing weaker suffices.
- Agreement.AgreementOverHistories: assumes that both nodes list their secrets completely and in the same order, and generate from the same seed; the source takes the order of the directory.
- Issued.AgreementOfIssued: transfers follow one another, as the client's loop makes them, each under an issued index of its own.
- TransferTheorems.TransferCorrect: starts after the generator has set the counters to 0; a generator that resets them during a transfer, as src/scripts/generateSecretFile.cc:423-429 allows for a moment, is not modelled.
- TransferTheorems.TransferCorrect: a request fails before its increment or not at all; a response lost after the increment and a crash of a node are not modelled.
- Dispatch.Client.PullSecret: std::async is a launch with an open outcome; EndToEnd.TransferSecret runs the same loop on the state machine, and the concurrency of the requests is in module Transfer.
- IndexCycle.GenSecret: the random candidates are a given list; two genSecret handlers at the same time are not modelled, since their check and set are not atomic.
- Selection.GenerateRandomFile: rand() is the list of values it is going to return, and None stands for a loop that is still drawing.
- ClientNode.Client.Process: the chunk file comes into being with the first block written to it, and the stream's buffering is not modelled; Decrypt.cc opens it empty a moment earlier.
- RunningKey.RunJob: runs the tasks one after another (PoolSchedule and Tasks let them overlap), and the error exits of the tasks, which leave a tmp file missing, are not modelled.
- ThreadPool.NothingDropped: only the locked sections, the flag and the notifications; that a stopped pool shuts down in the end, waitAndStop and spawn are not claimed, since the destructor notifies without the lock and nothing signals cvWait_.
- Thread pool, index cycle and transfer are state machines on values, because their point is interleaving; the methods beside them show that the code's statements are their steps.
- The processor-path tiling (encryptSecrets, decryptSecrets) has the same ranges as the tensor path that is in use.
- Loading A through generateSecretA, which reads twice the size of the file that is generated; matrices are quantified over instead.
- Redis, Eigen, the tensor library and CRC-32C themselves: atomic maps and counters, an exact wrapped sum, a deterministic product shared by both sides, and an arbitrary function into 32 bits.
- HTTP, JSON, logging, paths, timers, genRandomStr and time formatting: plumbing that would add only easy members.
- Quality of the random numbers and cryptographic strength: a source of random numbers gives any values of the asked range, and its history records them.
