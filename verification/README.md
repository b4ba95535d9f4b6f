# A verified model of the deduplicated storage system

The repository is an encrypted deduplication prototype: a client cuts a file into chunks, encrypts them
with keys derived from their contents and uploads them; a server stores every distinct chunk once and
restores files from recipes. Threads are connected by a lock-free queue. This project models the parts
whose correctness spans several functions and unbounded runs, and proves what they promise.

* **The queue** (`SpscQueue`, `SpscInvariant`, `SpscQueueOps`, `SpscIndexSteps`, `SpscSlotSteps`,
  `SpscSafety`, `SpscTheorems`, `SpscCapacity`, `SpscProgress`, `SpscEmptyQueue`, `RingArithmetic`,
  `PowerOfTwo`): the single-producer/single-consumer `ReaderWriterQueue` as a two-process step machine with
  program counters, one shared access per step, over every interleaving and every length of run. A wild
  block pointer, a read of a slot without an object, a construction over a live object and a failing
  `assert` are all `Fault`.
* **The pipelines** (`Pipeline`, `PipelineProgress`): the `done_ && IsEmpty()` loops on that same step
  machine, with `size_approx` walking the blocks one access at a time; safety, and that no state is a dead
  end.
* **Backup and restore** (`Chunker`, `Codec`, `DataSender`, `DedupStore`, `DedupSessions`, `StorageServer`,
  `LruCache`, `Recency`, `ReadCache`, `RecvDecoder`, `DataRetriever`, `EndToEnd`, `RestoreWaits`, with
  `Sequences`, `Bytes` and `Framing`): imperative classes whose buffers are arrays updated in place, each
  proved against value-level functions, and those functions proved to bring every file back. Hash, cipher
  and LZ4 are function values with explicit hypotheses.
* **Start of a restore** (`RestoreLogin`): the login thread, the decoder thread and the client as a
  three-process machine over a shared file handle.
* **Key generation** (`ModularPower`, `RsaKeys`, `BlindRsa`, `DupLess`, `TedSketch`): DupLESS blind RSA,
  from the definition of an RSA key pair, through fixed-width big-endian strings (I2OSP and OS2IP, sections
  4.1 and 4.2 of RFC 8017; the key manager's step is RSASP1, section 5.2.1 of RFC 8017), and the TED key
  manager's count-min sketch with 32-bit counters.
* **Encode and decode** (`IndexDump`, `JsonStrings`, `JsonText`, `JsonParser`, `JsonNumbers`,
  `JsonRoundTrip`, `JsonSound`, `JsonCode`): the index file, and the JSON printer and recursive-descent
  parser (string escapes as in section 7 of RFC 8259, except that `\u` is kept literally).

Where a promise is false of the code, the model keeps the code, shows inputs on which the promise fails, and
proves exactly when it holds:

* a queue constructed for zero elements and used with the allocating `enqueue` fails the assertion at
  readerwriterqueue.h:351 (`EmptyQueueFaults`); all others are safe (`SafeIffNonEmpty`); in a pipeline over
  such a queue `Push` spins forever, over all others the consumer can always finish (`FinishesIff`);
* the decoder sends no FINAL message, and may leave chunks unsent, when the last recipe entry takes the
  sixteenth container id or the recipe is empty, and the client then waits forever (`Decoder.Run`,
  `Restore`): so do the restore of every file of sixteen different chunks that were each backed up before
  (`SixteenChunkFileWaits`, a concrete one in `WaitingBackup`) and of every empty file (`EmptyFileWaits`),
  while recipes of one to fifteen entries always finish (`ShortRecipesFinish`);
* a read buffer smaller than the maximum chunk keeps the chunker at the start of a file that fills it
  (`StuckWhenTooSmall`); the loop is left iff the buffer suffices or has no bytes (`TerminatesIff`);
* the strict FastCDC mask is without influence iff the average size is at most about 2.5 times the minimum or
  the gear table is zero (`StrictMaskUnusedIff`, with two masks that differ otherwise in
  `StrictMaskMatters`); with the shipped sizes it is without influence (`ShippedSizes`);
* a chunk that was stored raw and happens to decode as LZ4 data is lost (`RawChunkCanBeLost`,
  `RecoveredIffRecoverable`), and so is one whose fingerprint an older, different chunk has
  (`CollisionLosesChunk`, `RestoredIffFirst`);
* inserting a container that is already cached breaks the cache unless the cache is full and that container is
  the least recently used one (`ReadCache.InsertToCache`); the decoder never does;
* an index with an empty key is not rebuilt (`RebuiltIffNoEmptyKey`);
* a JSON text that is a bare number parses as null, an object key that is not in escaped form does not come
  back, and a floating-point number comes back rounded to six decimals (`RoundTripIff`).

`dafny verify dfyconfig.toml` checks the whole project.

## Model

| member | source | states |
|---|---|---|
| `SpscTheorems.NeverFaults` | Baseline/include/messageQueue/readerwriterqueue.h:285-376 | on every schedule neither thread follows a wild pointer, reads an unwritten slot, overwrites a live element or fails the assertions at 351 and 588, despite stale `localFront` and `localTail`, and the global invariant holds |
| `SpscTheorems.FirstInFirstOut` | Baseline/include/messageQueue/readerwriterqueue.h:285-644 | on every schedule, enqueued = dequeued ++ the elements in the blocks from `frontBlock` round to `tailBlock`; dequeued is a prefix of enqueued |
| `SpscTheorems.RunExists` | Baseline/include/messageQueue/readerwriterqueue.h:285-644 | every schedule has a run, a sequence of states one step apart, that ends where the schedule ends |
| `SpscTheorems.FalseDequeueSawEmpty` | Baseline/include/messageQueue/readerwriterqueue.h:285-376 | `try_dequeue` returns false only if the queue was empty at some moment of that call |
| `SpscTheorems.ConstructGood` | Baseline/include/messageQueue/readerwriterqueue.h:105-161 | the constructed queue satisfies the invariant, for every size and block limit |
| `SpscTheorems.StepGood` | Baseline/include/messageQueue/readerwriterqueue.h:285-644 | no step faults from a state that satisfies the invariant, and every step keeps it |
| `SpscSafety.ConsumerKeeps` | Baseline/include/messageQueue/readerwriterqueue.h:285-376 | a consumer step from an invariant state does not fault and keeps ring order, occupancy, slots and history |
| `SpscSafety.ProducerKeeps` | Baseline/include/messageQueue/readerwriterqueue.h:535-644 | the same for a producer step, with and without allocation |
| `SpscCapacity.FalseEnqueueSawFull` | Baseline/include/messageQueue/readerwriterqueue.h:535-644 | an enqueue that returns false failed to get memory, or at least `size` elements were queued at some moment of that call |
| `SpscCapacity.InitialBlocksSuffice` | Baseline/include/messageQueue/readerwriterqueue.h:114-157 | the constructor's block count and size hold `size` elements even with a spare block |
| `SpscCapacity.MaskingIsAdvancing` | Baseline/include/messageQueue/readerwriterqueue.h:308-369 | in every reachable state `(i + 1) & sizeMask` is the next index of the block |
| `SpscEmptyQueue.EmptyQueueFaults` | Baseline/include/messageQueue/readerwriterqueue.h:318-356 | for every block limit, a schedule on a queue made for zero elements after which the consumer evaluates the assertion at 351 with `nextBlockFront` equal to `nextBlockTail` |
| `SpscEmptyQueue.SafeIffNonEmpty` | Baseline/include/messageQueue/readerwriterqueue.h:105-157 | all schedules are safe iff the queue was made for at least one element |
| `SpscProgress.DequeueIsWaitFree` | Baseline/include/messageQueue/readerwriterqueue.h:285-376 | in every run, fourteen steps of the consumer contain the return of a `try_dequeue` call, whatever the producer does in between |
| `SpscProgress.EnqueueIsWaitFree` | Baseline/include/messageQueue/readerwriterqueue.h:535-644 | in every run, twelve steps of the producer contain the return of an enqueue call, whatever the consumer does in between |
| `RingArithmetic.MaskedIncrement` | Baseline/include/messageQueue/readerwriterqueue.h:329-331 | masking with size - 1 advances an index cyclically on every power-of-two size |
| `PowerOfTwo.MaskedDifference` | Baseline/include/messageQueue/readerwriterqueue.h:493-507 | `(tail - front) & sizeMask` with 64-bit wrap-around is the number of elements between the indices |
| `PowerOfTwo.SmearDoubles` | Baseline/include/messageQueue/readerwriterqueue.h:658-663 | one shift-and-or round doubles the run of leading ones |
| `PowerOfTwo.CeilToPow2Word` | Baseline/include/messageQueue/readerwriterqueue.h:654-666 | the shift-and-or cascade computes the least power of two from x on, for every 64-bit x; zero where that is 2^64 or x is zero |
| `RingArithmetic.CeilToPow2` | Baseline/include/messageQueue/readerwriterqueue.h:654-666 | the result is a power of two r with x <= r < 2x |
| `Pipeline.PipeIsSafe` | Baseline/include/messageQueue.h:70-114 | in every interleaving of pusher and popper nothing faults and the pipeline invariant holds |
| `Pipeline.ConsumesEverything` | Baseline/src/Client/dataSender.cc:94-133 | a consumer that leaves its loop on `done_ && IsEmpty()` has consumed every pushed item, in order |
| `Pipeline.PopperKeeps` | Baseline/src/Server/dataWriter.cc:53-76 | every step of the drain loop, including each access of the emptiness walk, keeps the invariant |
| `PipelineProgress.NoDeadEnd` | Baseline/include/messageQueue.h:70-114 | with a queue made for at least one element, every state of every interleaving can be continued until the consumer leaves its loop |
| `PipelineProgress.FinishesIff` | Baseline/include/messageQueue.h:70-76 | a pipeline with something to push can finish iff its queue was made for at least one element; otherwise `Push` never succeeds |
| `PipelineProgress.PromisingStep` | Baseline/include/messageQueue/readerwriterqueue.h:285-376 | undisturbed, a `try_dequeue` call on a queue with an element goes on or takes one |
| `PipelineProgress.FittingStep` | Baseline/include/messageQueue/readerwriterqueue.h:535-644 | undisturbed, a `try_enqueue` call on an empty queue goes on or succeeds |
| `Bytes.U32RoundTrip` | Baseline/src/Client/dataSender.cc:295-306 | a 32-bit length written into a buffer reads back |
| `Bytes.FrameAt` | Baseline/src/Index/plainIndex.cc:57-64 | in a message of framed chunks, frame i is found at the running offset with its length and content |
| `Chunker.CutPoint` | Baseline/src/Client/chunker.cc:574-594 | a cut is within the buffer, at most the maximum size, and beyond the minimum size unless the data ends first |
| `Chunker.CutIsFirstBoundary` | Baseline/src/Client/chunker.cc:574-594 | a cut is the first position behind the minimum size whose masked fingerprint is zero (strict mask up to the normal size), else the maximum size or the end of the data |
| `Chunker.FindCutPoint` | Baseline/src/Client/chunker.cc:574-594 | the two scanning loops compute the recursive cut point |
| `Chunker.CutLocal` | Baseline/src/Client/chunker.cc:574-594 | a cut depends on the next `maxChunkSize_` bytes only |
| `Chunker.NormalizationIsOff` | Baseline/src/Client/chunker.cc:574-594 | when the normal size is not behind the minimum, the strict mask does not influence any cut |
| `Chunker.StrictMaskMatters` | Baseline/src/Client/chunker.cc:574-594 | otherwise, for every gear table with a word that is not zero, two strict masks and a source they cut differently |
| `Chunker.StrictMaskUnusedIff` | Baseline/src/Client/chunker.cc:542-553 | no strict mask changes any cut iff the average is at most 2 min + ceil(min / 2) or the gear table is zero modulo 2^32 |
| `Chunker.ShippedSizes` | Baseline/include/constVar.h:38-40 | with 4096, 8192 and 16384 the normal size is 2048 and no strict mask changes any cut |
| `Chunker.ChunksCover` | Baseline/src/Client/chunker.cc:476-532 | the chunks concatenate to the file |
| `Chunker.ChunkSizes` | Baseline/src/Client/chunker.cc:476-532 | all chunks are non-empty and at most the maximum; all but the last exceed the minimum |
| `Chunker.ChunksAfterCut` | Baseline/src/Client/chunker.cc:476-532 | the chunks after a cut are the chunks of the bytes after it |
| `Chunker.Resynchronizes` | Baseline/src/Client/chunker.cc:476-532 | files that cut at points with equal remaining bytes chunk identically from there |
| `Chunker.FastCDC` | Baseline/src/Client/chunker.cc:476-520 | whenever the buffered read-and-seek loop terminates, it emits exactly the chunks of the whole-file recursion (nothing with a buffer of no bytes) |
| `Chunker.StuckWhenTooSmall` | Baseline/src/Client/chunker.cc:483-517 | with a buffer that is too small, after any number of passes the loop stands at the start of the file and has not been left |
| `Chunker.TerminatesIff` | Baseline/src/Client/chunker.cc:483-517 | the loop is left after finitely many passes iff the buffer holds a maximal chunk or more than the file, or no byte at all |
| `Chunker.ChunkOfChunk` | Baseline/src/Client/chunker.cc:476-532 | a chunk on its own is one chunk |
| `Codec.RecoveredIffRecoverable` | Baseline/src/Server/recvDecoder.cc:103-124 | decoding a stored chunk gives it back iff it was compressed or its raw bytes do not decode as something else |
| `Codec.RawChunkCanBeLost` | Baseline/src/Server/recvDecoder.cc:109-120 | the LZ4 laws alone do not exclude that a raw chunk is lost |
| `DataSender.Sender.constructor` | Baseline/src/Client/dataSender.cc:20-62 | the initial state of the sender is valid |
| `DataSender.Sender.ProcessBatchChunk` | Baseline/src/KeyGen/mleDaE.cc:36-70 | the plaintext frames become ciphertext frames under their own hashes; keys go to the key file and the recipe rows in order |
| `DataSender.Sender.GenerateRecipe` | Baseline/src/Client/dataSender.cc:218-243 | row i of the key recipe pairs the key and the ciphertext hash of chunk i |
| `DataSender.Sender.SendRecipes` | Baseline/src/Client/dataSender.cc:250-265 | the buffered rows move to the connection and the buffer is empty |
| `DataSender.Sender.SendChunks` | Baseline/src/Client/dataSender.cc:272-287 | the buffered ciphertexts move to the connection and the buffer is empty |
| `DataSender.Sender.AddChunkToPlainBuffer` | Baseline/src/Client/dataSender.cc:295-306 | a chunk is framed at the end of the plaintext buffer, which never overflows |
| `DataSender.Sender.ProcessChunkBatch` | Baseline/src/Client/dataSender.cc:192-210 | a full batch is encrypted and sent, rows only when the recipe batch is full |
| `DataSender.Sender.AddChunk` | Baseline/src/Client/dataSender.cc:102-114 | one chunk keeps the accounting of everything sent and buffered |
| `DataSender.Sender.FlushBuffers` | Baseline/src/Client/dataSender.cc:315-327 | everything buffered is encrypted and sent |
| `DataSender.Sender.ProcessRecipeEnd` | Baseline/src/Client/dataSender.cc:313-341 | all three buffers are flushed, then the only recipe end is sent |
| `DataSender.Sender.Run` | Baseline/src/Client/dataSender.cc:86-139 | every chunk is framed and sent exactly once in order, in messages of 1 to `sendChunkBatchSize_` chunks; the recipe bytes are the rows of all chunks; the key file holds all keys |
| `DedupStore.PutKeeps` | Baseline/src/Index/plainIndex.cc:66-93 | one chunk, new or duplicate, keeps the store invariant: fresh names, container sizes, counters, index, tiling; nothing stored changes |
| `DedupStore.AppendKeeps` | Baseline/src/Server/storageCore.cc:44-93 | appending a new chunk keeps the address ranges a tiling without gap or overlap |
| `DedupStore.FlushKeeps` | Baseline/src/Server/storeOCall.cc:25-33 | pushing the container and drawing a new name keeps the store invariant |
| `DedupStore.FlushNames` | Baseline/src/Server/storeOCall.cc:25-33 | the pushed container joins those on disk and the new name is unused |
| `DedupSessions.PutAllAppend` | Baseline/src/Index/plainIndex.cc:45-98 | batch boundaries do not change the store or the recipe |
| `DedupSessions.PutAllKeeps` | Baseline/src/Index/plainIndex.cc:45-98 | after any chunks the invariant holds and every recipe entry leads to the oldest chunk with its fingerprint |
| `DedupSessions.UploadKeeps` | Baseline/src/Server/dataReceiver.cc:44-116 | a finished upload leaves nothing in the current container and its recipe resolves |
| `DedupSessions.EveryStateIsSound` | Baseline/src/Server/storageCore.cc:44-93 | in every reachable upload state: tiling, `currentSize` below the maximum, no empty container flushed, `_compressedDataSize` = `writtenDataSize_` = flushed sizes + current size, `_uniqueChunkNum` = index size |
| `DedupSessions.DiskOnlyGrows` | Baseline/src/Server/dataWriter.cc:90-102 | no later upload changes what an address in a container file resolves to, nor any earlier recipe |
| `DedupSessions.UploadsResolve` | Baseline/src/Index/plainIndex.cc:66-93 | after any sequence of uploads every entry of every recipe resolves in the container files to the stored form of the oldest chunk with its fingerprint |
| `DedupSessions.FirstIsItself` | Baseline/src/Index/plainIndex.cc:66-93 | without fingerprint collisions the oldest chunk with a fingerprint is the chunk itself |
| `DedupSessions.RestoredIffFirst` | Baseline/src/Server/recvDecoder.cc:103-124 | an entry decodes to the uploaded chunk iff no older, different chunk has its fingerprint |
| `StorageServer.Server.constructor` | Baseline/src/Util/clientVar.cc:72-118 | the server starts as the empty store |
| `StorageServer.Server.PushContainer` | Baseline/src/Server/storeOCall.cc:25-33 | the container goes to the writer's queue and is reset |
| `StorageServer.Server.WriteContainer` | Baseline/src/Server/storageCore.cc:44-71 | the bytes go to the end of the body, after a flush if they do not fit, and the address says where |
| `StorageServer.Server.SaveChunk` | Baseline/src/Server/storageCore.cc:81-93 | the chunk is placed and the written size grows by its length |
| `StorageServer.Server.ProcessUniqueChunk` | Baseline/src/Index/absIndex.cc:108-130 | the compressed form is stored if there is one, else the chunk, and counted |
| `StorageServer.Server.UpdateFileRecipe` | Baseline/src/Index/absIndex.cc:139-150 | the entry is appended to the recipe, whether the buffer is written out or not |
| `StorageServer.Server.Locate` | Baseline/src/Index/plainIndex.cc:66-88 | a known fingerprint gives its address, a new one is stored and indexed |
| `StorageServer.Server.ProcessOneBatch` | Baseline/src/Index/plainIndex.cc:45-98 | all chunks of a message are deduplicated in order |
| `StorageServer.Server.ProcessTailBatch` | Baseline/src/Index/plainIndex.cc:105-113 | the buffered entries reach the recipe file |
| `StorageServer.Server.StartSession` | Baseline/src/Util/clientVar.cc:72-118 | a session starts with a container of its own and an empty recipe |
| `StorageServer.Server.Drain` | Baseline/src/Server/dataWriter.cc:53-76 | every pushed container is written to disk |
| `StorageServer.Server.FinishSession` | Baseline/src/Server/dataReceiver.cc:101-105 | a non-empty container is flushed, an empty one is not, and the disk is complete |
| `StorageServer.Server.Handle` | Baseline/src/Server/dataReceiver.cc:66-95 | a chunk message extends store and recipe by its chunks, a recipe message the key recipe, a recipe end writes out the buffered entries and the header |
| `StorageServer.Server.Receive` | Baseline/src/Server/dataReceiver.cc:44-116 | for every message sequence until the connection closes, the session is the upload of all chunks: store, recipe entries, key recipe and disk; after a recipe end all entries and the header are in the recipe file |
| `LruCache.Cache.Insert` | Baseline/include/lruCache.h:116-128 | the key moves to the front with its value, and pruning drops from the back |
| `LruCache.Cache.Get` | Baseline/include/lruCache.h:144-151 | the value of the key, which moves to the front; nothing for an absent key |
| `LruCache.Cache.PruneValue` | Baseline/include/lruCache.h:183-189 | the value of the least recently used key |
| `Recency.MruIsByLastAccess` | Baseline/include/lruCache.h:116-205 | the list order is the order of last accesses |
| `ReadCache.ReadCache.KeysByLastAccess` | Baseline/src/Util/readCache.cc:48-85 | in every valid cache the live keys are in the order of their last accesses, and every other container was asked for before all of them |
| `ReadCache.EvictsLast` | Baseline/src/Util/readCache.cc:48-62 | the slot from `pruneValue` belongs to exactly the key that the following `insert` evicts |
| `ReadCache.ReplacedSlot` | Baseline/src/Util/readCache.cc:48-62 | taking over that slot leaves all live keys with distinct, correct slots |
| `ReadCache.ReadCache.InsertToCache` | Baseline/src/Util/readCache.cc:48-62 | the cache stays valid (distinct, correct slots in recency order) iff the name was not cached, or the cache was full and the name its last key |
| `ReadCache.ReadCache.ReadFromCache` | Baseline/src/Util/readCache.cc:83-85 | the buffer starts with the container's bytes |
| `RecvDecoder.Decoder.constructor` | Baseline/src/Util/clientVar.cc:143-178 | the initial state of a restore is valid |
| `RecvDecoder.Decoder.LoadContainer` | Baseline/src/Server/recvDecoder.cc:260-303 | from the cache or from the file, the buffer starts with the container's bytes; false iff the file is missing or too large |
| `RecvDecoder.Decoder.GetReqContainers` | Baseline/src/Server/recvDecoder.cc:251-305 | every requested buffer holds its own container, as if always read from the file |
| `RecvDecoder.Decoder.RecoverOneChunk` | Baseline/src/Server/recvDecoder.cc:103-124 | the decoded chunk is framed at the end of the send buffer, which never overflows |
| `RecvDecoder.Decoder.SendBatchChunks` | Baseline/src/Server/recvDecoder.cc:183-189 | the buffered chunks move to the connection |
| `RecvDecoder.Decoder.RecoverPending` | Baseline/src/Server/recvDecoder.cc:170-190 | all buffered entries are decoded in order, in the tail call the last one closing the only FINAL; or it exits with nothing more sent, iff a container cannot be loaded |
| `RecvDecoder.Decoder.BufferEntry` | Baseline/src/Server/recvDecoder.cc:148-166 | every buffered id is below `idNum` and names the container of its entry, across read batches |
| `RecvDecoder.Decoder.AddEntry` | Baseline/src/Server/recvDecoder.cc:148-198 | an entry reuses its id, takes a new one, or closes the group with the sixteenth |
| `RecvDecoder.Decoder.ProcessRecipeBatch` | Baseline/src/Server/recvDecoder.cc:133-200 | a read batch is taken in and the ids in use are those of the counting function, or the program exits |
| `RecvDecoder.Decoder.ProcessRecipeTailBatch` | Baseline/src/Server/recvDecoder.cc:207-244 | with entries pending everything is sent and one FINAL comes last; with none nothing is sent |
| `RecvDecoder.Decoder.Run` | Baseline/src/Server/recvDecoder.cc:63-78 | for every recipe and read-batch split: it exits iff a container cannot be loaded, with a prefix sent; else sent ++ unsent = the recipe's chunks in order, messages hold 1 to `sendChunkBatchSize_` chunks, and exactly one FINAL, last and with nothing unsent, iff ids are in use at the end |
| `RecvDecoder.SixteenContainers` | Baseline/src/Server/recvDecoder.cc:169-196 | sixteen chunks in sixteen containers leave no id in use for every batch size, hence no FINAL |
| `RecvDecoder.ShortRecipesFinish` | Baseline/src/Server/recvDecoder.cc:148-198 | a recipe of one to fifteen entries leaves ids in use for every batch size, hence a FINAL |
| `DataRetriever.Retriever.ProcessChunkBatch` | Baseline/src/Client/dataRetriever.cc:209-245 | the i-th chunk received so far is decrypted with the i-th key of the key file, as far as it goes |
| `DataRetriever.Retriever.Run` | Baseline/src/Client/dataRetriever.cc:160-197 | everything up to the first FINAL is decrypted in order; the client waits forever iff there is none; the chunk count is checked |
| `DataRetriever.DecryptedPrefix` | Baseline/src/Client/dataRetriever.cc:209-245 | recorded keys decrypt any prefix of the ciphertexts to the chunks |
| `EndToEnd.EveryFileComesBack` | README.md:163-167 | after any sequence of uploads, every file's recipe and keys give its chunks, and these concatenate to the file |
| `EndToEnd.EntryComesBack` | Baseline/src/Server/recvDecoder.cc:103-124 | every recipe entry of every upload is readable and decodes to its ciphertext chunk |
| `EndToEnd.BackUp` | Baseline/src/Client/chunker.cc:476-532 | chunker, sender and server together perform the upload of the file's encrypted chunks, and return its keys, recipe and header |
| `EndToEnd.Restore` | Baseline/src/Client/dataRetriever.cc:160-197 | decoder and retriever together deliver all chunks and finish iff ids are in use at the end of the recipe; otherwise a prefix with less than a batch missing |
| `EndToEnd.BackUpAllRestoreOne` | README.md:163-167 | back up any files in sequence, restore any of them with other batch sizes: the bytes are the original's if the client finishes, and it finishes iff ids are in use at the end |
| `RestoreWaits.OwnContainers` | Baseline/src/Util/clientVar.cc:72-118 | chunks uploaded one by one lie in different containers, and a later recipe of all of them names one container each |
| `RestoreWaits.SixteenChunkFileWaits` | Baseline/src/Server/recvDecoder.cc:169-196 | every file of sixteen different chunks, each backed up before as a file, ends its recipe with no id in use, for every batch size |
| `RestoreWaits.EmptyFileWaits` | Baseline/src/Server/recvDecoder.cc:212-212 | the recipe of an empty file ends with no id in use |
| `RestoreWaits.WaitingBackup` | Baseline/src/Client/dataRetriever.cc:160-191 | a concrete setting that satisfies all hypotheses of the end-to-end theorem and whose restore waits forever |
| `RestoreWaits.CollisionLosesChunk` | Baseline/src/Index/plainIndex.cc:66-88 | a concrete hash collision under which the second chunk is restored as the first |
| `RestoreLogin.StepKeeps` | Baseline/src/Server/serverOptThread.cc:206-227 | every step of login thread, decoder thread and client keeps the protocol invariant |
| `RestoreLogin.HeaderBeforeEntries` | Baseline/src/Server/recvDecoder.cc:46-67 | in every interleaving the header is read before any entry, the threads never race on the file handle, no message is unexpected, and the decoder reads exactly the bytes behind the header |
| `ModularPower.PowOfPow` | Baseline/src/KeyManager/dupLESSKM.cc:88-95 | (b^e)^d = b^(ed) |
| `RsaKeys.Fermat` | Baseline/src/KeyManager/dupLESSKM.cc:88-95 | a^p = a modulo every prime p |
| `RsaKeys.RsaIsIdentity` | Baseline/src/KeyManager/dupLESSKM.cc:88-95 | for every RSA key with primes p and q, r^(ed) = r modulo pq, for every r |
| `BlindRsa.PaddingIsI2OSP` | Baseline/src/KeyGen/duplessDaE.cc:177-184 | zero-padding the minimal string on the left is I2OSP, and fits iff the number is below 256^w |
| `BlindRsa.NumberRoundTrip` | Baseline/src/KeyGen/duplessDaE.cc:197-211 | OS2IP undoes I2OSP |
| `BlindRsa.StringRoundTrip` | Baseline/src/KeyManager/dupLESSKM.cc:88-95 | I2OSP undoes OS2IP |
| `BlindRsa.BlindingVanishes` | Baseline/src/KeyGen/duplessDaE.cc:174-211 | blind, sign, unblind is h^d mod n when r·inv = 1 and r^(ed) = r modulo n |
| `BlindRsa.RightForAllIff` | Baseline/src/KeyGen/duplessDaE.cc:174-211 | for an invertible r, the key is right for every fingerprint iff r^(ed) = r modulo n |
| `DupLess.PutNumber` | Baseline/src/KeyGen/duplessDaE.cc:177-184 | the slot holds the number, other bytes stay |
| `DupLess.SignBatch` | Baseline/src/KeyManager/dupLESSKM.cc:88-95 | every slot of the buffer is replaced in place by its signature |
| `DupLess.Client.BlindBatch` | Baseline/src/KeyGen/duplessDaE.cc:73-96 | slot i holds the blinded fingerprint of chunk i |
| `DupLess.Client.UnblindBatch` | Baseline/src/KeyGen/duplessDaE.cc:116-144 | keys in the key file and in the recipe rows, and ciphertext frames of all chunks, in order |
| `DupLess.Client.ProcessBatchChunk` | Baseline/src/KeyGen/duplessDaE.cc:64-156 | through both conversions and the key manager, for every RSA key pair, chunk i gets the key hash(h^d mod n) of its own fingerprint, whatever invertible blinding value was drawn, so equal chunks get equal keys |
| `DupLess.DupDecrypts` | Baseline/src/Client/dataRetriever.cc:209-245 | the recorded keys decrypt the DupLESS ciphertexts |
| `TedSketch.CellVersusExact` | Baseline/src/KeyManager/tedKM.cc:89-98 | a counter is at least the exact count of the hash, and equals it iff no other seen hash shares the cell |
| `TedSketch.Sketch.RowSumIsRequests` | Baseline/src/KeyManager/tedKM.cc:89-98 | every row of the table sums to the number of requests since the last reset modulo 2^32, and exactly iff no counter of the row has wrapped around, as with fewer than 2^32 requests |
| `TedSketch.Sketch.Update` | Baseline/src/KeyManager/tedKM.cc:91-98 | below 2^32 requests the estimate is at least the exact count and equals it iff some row has no collision |
| `TedSketch.Sketch.Serve` | Baseline/src/KeyManager/tedKM.cc:86-109 | the same for every request of a batch |
| `TedSketch.Sketch.Reset` | Baseline/src/KeyManager/tedKM.cc:73-77 | a disconnect clears every counter |
| `IndexDump.LoadAfterDump` | Baseline/src/Database/inMemoryDatabase.cc:54-102 | for every iteration order the pairs before an empty key come back, and the loop stops at the end of the file iff there is none |
| `IndexDump.RebuiltIffNoEmptyKey` | Baseline/src/Database/inMemoryDatabase.cc:28-102 | loading the dumped file rebuilds the map iff no key is empty |
| `IndexDump.InMemoryDatabase.Persist` | Baseline/src/Database/inMemoryDatabase.cc:28-45 | the destructor's loop writes the length-prefixed stream |
| `IndexDump.InMemoryDatabase.OpenDB` | Baseline/src/Database/inMemoryDatabase.cc:54-102 | the read loop is the loading function on every file, including short reads over the strings of the pair before |
| `JsonStrings.JsonEscape` | Prototype/include/IAS/json.h:28-59 | the loop computes the escaped form |
| `JsonStrings.EscapeIsEscaped` | Prototype/include/IAS/json.h:28-59 | escaped forms are recognised and unescape to the original |
| `JsonStrings.UnescapeThenEscape` | Prototype/include/IAS/json.h:28-59 | every recognised form is the escaped form of its unescaping |
| `JsonCode.Print` | Prototype/include/IAS/json.h:457-502 | the recursive printer with its loops produces the text function |
| `JsonCode.Parser.ParseString` | Prototype/include/IAS/json.h:644-698 | the loop computes the string function on every text, or runs off its end |
| `JsonCode.Parser.ParseArray` | Prototype/include/IAS/json.h:613-642 | the loop computes the array function on every text |
| `JsonCode.Parser.ParseObject` | Prototype/include/IAS/json.h:575-611 | the loop computes the object function on every text |
| `JsonCode.Parser.ParseNumber` | Prototype/include/IAS/json.h:700-749 | the two loops and the conversions compute the number function on every text |
| `JsonCode.Parser.ParseBool` | Prototype/include/IAS/json.h:751-764 | true, false, or null without advancing |
| `JsonCode.Parser.ParseNull` | Prototype/include/IAS/json.h:766-775 | null, advancing over the word only |
| `JsonCode.Parser.ParseNext` | Prototype/include/IAS/json.h:777-800 | the dispatch, for every text and offset |
| `JsonRoundTrip.QuotedStringParses` | Prototype/include/IAS/json.h:644-698 | quoting and parsing any string is the identity |
| `JsonNumbers.NumberParses` | Prototype/include/IAS/json.h:700-749 | a printed integer before a delimiter parses back |
| `JsonNumbers.FloatParses` | Prototype/include/IAS/json.h:700-749 | a printed floating-point number before a delimiter parses as the nearest multiple of 10^-6 |
| `JsonNumbers.NearestIff` | Prototype/include/IAS/json.h:492-493 | printing loses nothing iff the number is a multiple of 10^-6 |
| `JsonRoundTrip.ValueParses` | Prototype/include/IAS/json.h:569-800 | inside any text, a printed value parses back with its floating-point numbers rounded, and the offset stops behind it |
| `JsonRoundTrip.RoundedIff` | Prototype/include/IAS/json.h:492-493 | rounding changes nothing iff all floating-point numbers are multiples of 10^-6 |
| `JsonSound.InsertIsUpdate` | Prototype/include/IAS/json.h:595-595 | inserting into the sorted members is a map assignment |
| `JsonSound.NextSound` | Prototype/include/IAS/json.h:777-800 | every parse result has sorted, escaped keys and integers in range |
| `JsonSound.BareNumberIsLost` | Prototype/include/IAS/json.h:734-737 | a text that is only an integer or a floating-point number parses as null |
| `JsonSound.ParsedBack` | Prototype/include/IAS/json.h:457-502 | every printed value with escaped keys that is not a bare number comes back rounded, and the parser stops at the end |
| `JsonSound.RoundTripIff` | Prototype/include/IAS/json.h:457-502 | for every value, parsing the printed text returns it and stops at the end iff all keys are escaped, all floating-point numbers are multiples of 10^-6, and it is not a bare number |

## Left out

- Weak memory ordering, fences and semaphores: the queue is modelled under sequential consistency.
- `BlockingReaderWriterQueue`, `peek`, `pop`, move and assignment of queues, destructors, alignment: not part of this model.
- Fairness of the thread scheduler: the model says that every state can be continued to the end, not that a scheduler does so.
- The key derivation of the TED key manager after the frequency estimate: a random draw and a hash.
- `GenerateFastCDCMask` and the number of mask bits: floating-point logarithms; the cut-point results hold for all masks.
- Fixed-size and trace-driven chunkers, MurmurHash, the data generator, statistics, logging, timing, argument parsing.
- OpenSSL, LZ4, LevelDB and SSL connections: function values with stated laws, in-memory maps and message sequences.
- SGX enclaves, remote attestation and the Prototype's own variants of the Baseline code.
- Several clients at once on the unlocked index or sketch: finished sessions follow each other.
- Encryption modes other than convergent encryption on the whole end-to-end path; DupLESS is modelled up to its ciphertext frames.
- The simulator in Sim: only headers are available.
- Iterators inside the LRU cache's hash map: the map is modelled by the key list it points into.
- Binary rounding, infinities and negative zero of `double`, and exceptions of std::stod for magnitude: a `double` in a JSON value is a real number.
- DupLess.Client.ProcessBatchChunk: the blinding values and their inverses are parameters; a value without an inverse, for which BN_mod_inverse fails, is excluded.
- RecvDecoder.Decoder.Run: requires that an entry of a container that is there lies inside it; recipe entries are records, so the partial entry of a truncated recipe file is not modelled.
- DataRetriever.Retriever.Run: requires messages of at most as many chunks as the key buffer has room for.
- Chunker.FastCDC: requires that the loop terminates, which `TerminatesIff` decides.
