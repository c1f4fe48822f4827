# Hercules/IMSS: what its data path keeps

Hercules keeps files in the memory of data servers. A file is cut into blocks of one size; block 0 is its
stat header, data starts at block 1. Every block is placed on one server by a policy and copied to others,
and servers may join while files exist. Three readers put the blocks together again. This project models
that data path and the bookkeeping around it in Dafny and proves what it keeps.

The main results:

* **One array of bytes.** `Run.Execute`: writes, reads and any joins of servers on the striped, replicated file
  are answered exactly as by a reference that is one flat array together with what each server has of it. Every
  read of a run is answered: result and memory are what comes of the replies of the servers asked. `Run.ReadMeans`
  says what that is: a read fails if a block of it is lost, and otherwise returns what the first holders of its
  blocks have, which is right if and only if that is the array's. The other limits are part of the statement:
  `Clips` says when a read past the end of the file is right, and `Run.OverMeans` what it gives when not, a count
  that is too large; `Unmasked` and `AllUnmistakable` say when data is told apart from the text of the no-key
  message. `StripedFile`, `Reader`, `Replies`, `Store`, `ReadPlan`, `Intervals` and `Placement` build up to it.
* **What joins do.** `Joins`: a block of a settled file can be read after joins if and only if the servers then
  asked for it meet those it was written to (`FoundIffMeets`, `ReadAfterJoins`), always so with copies on a
  majority of the servers (`MajorityMeets`). The blocks of the first write, which the interval table records, stay
  up to date where they are asked for first over any run of joins, overwrites and copies (`PinnedRun`), so reads
  of them stay right (`PinnedReadRight`). Without copies a join loses exactly the blocks it moves (`OneCopyJoin`),
  under round robin always some (`JoinLoses`), and reads of those fail (`JoinThenRead`); but once a moved block is
  written in part, reads of it return the full count with whatever the memory of its new record held
  (`JoinWriteRead`).
* **Three readers agree.** `Readers.ReadThreeWays`, whenever the blocks of the range are on some server asked and
  no server has an outdated record of it, and `Readers.ReadFileThreeWays` for every file and every such range:
  all ranges while no server joins (`SettledFresh`), and after joins exactly those whose copies are still met
  (`JoinedFresh`). The asynchronous reader (`AsyncLines`, `AsyncRead`) is a table of slots driven by an arbitrary
  network; the prefetching reader (`Prefetch`) unpacks what a server packed.
* **What turned out false.** The asynchronous reader's handles are never handed back, so it copies replies that
  have not arrived (`AsyncLines.StaleFirstPiece`) and late ones land in buffers that are used again; what it reads
  is right if and only if the network leaves the pieces in the buffers (`AsyncRead.RightIffShown`), and for data
  of first servers whose pieces can be told apart if and only if no reply is late (`AsyncRead.PromptIff`). A late
  answer of a server that does not have the block is copied as data, and the other copies are not asked
  (`AsyncRead.LateNoKeyWrong`). The prefetching reader trusts whatever record a server packs
  (`Prefetch.NeighbourFromSameServer`); it is right if and only if every block's source, which is computed from
  the servers and the request, is up to date (`Prefetch.PrefetchRead`). Renaming in the front end's index loses
  the entry when the directory changes or the name is taken (`PathIndex.Index.Rename`). Saved configurations come
  back changed when an entry does not fit a plain line (`Config.SaveLoadIff`).
* **Bookkeeping.** The window of asynchronous sends (`SendWindow`), table-driven CRCs against bit-serial
  division (`Crc`), the configuration list as a dictionary and its text format (`Config`, `ConfigList`,
  `ConfigRun`), the slot allocator (`SlotTable`), path prefixes and metadata servers (`Paths`), the front end's
  index and the dataset pool against flat maps (`Tables`, `PathIndex`, `DatasetPool`), and the messages that
  carry structures with lists (`Wire`).

How things are modelled:

* A data server is a map from block number to the bytes of the record, for one file. A first write to a block
  allocates it with arbitrary contents (`leftover`); a request past a record's end gets arbitrary bytes
  (`beyond`). Server and client limits on memory are not modelled.
* The reference of a run (`Run.Flat`) keeps, beside the bytes of the file, which servers hold a record of each
  block and what each server has at each position, or would start a record with.
* Reading is done on a `Reader.View`, the values a reader looks at, since reads change nothing on the servers.
  What a client makes of replies is a function of the replies and of memory (`Replies.ReadAll`); memory is the
  caller's buffer and what lies behind it, as far as the array that is passed reaches.
* A temporary buffer of the asynchronous reader (`AsyncLines.Line`) holds bytes, the receives posted on it, which of
  them have not landed, and the one that landed last. What the network does is given turn by turn, slot by slot
  and server by server.
* Predicates such as `OnByte`, `OnBlock` or `OnPiece` are always true. They are markers: a quantified fact is
  used only where a proof mentions the marker.
* The network, clocks and other processes are parameters: what a fresh buffer contains, how a request goes out,
  which replies arrive in which turn, which sends complete.
* Integers are unbounded except where the code's width matters: 32-bit block ids in prefetch packets, the
  32-bit hash, 16- and 64-bit CRCs, 32-bit integers in messages.

Verify everything with `dafny verify dfyconfig.toml`.

## Model

| member | source | states |
|---|---|---|
| `Run.Execute` | fuse/imss_posix_api.c:1696-1846 | Any sequence of writes without gaps, reads and joins, run on the striped and replicated file, is answered exactly as by the reference: one array of bytes, and what each server has of it; the servers then hold exactly what the reference says, byte by byte |
| `Run.DoWrite` | fuse/imss_posix_api.c:1696-1846 | A write changes exactly its own range of the array, the size becomes the larger of the old size and the end of the write, and the reference tells which servers then have a record of each block and what every server has at every position |
| `Run.DoRead` | fuse/imss_posix_api.c:749-913 | Result and all of memory of every read are exactly what comes of the replies of the servers asked, in their order, whether the range is clipped right at the end of the file or not |
| `Run.ReadMeans` | fuse/imss_posix_api.c:749-913 | What that answer means in every state: a read of a lost block fails; any other read of bytes that cannot be mistaken returns what the first holders have, and is right if and only if that is what the file holds |
| `Run.OverMeans` | fuse/imss_posix_api.c:780-913 | A read past the end that is not clipped right never returns the count read() promises: it fails, always when a block it asks for is lost, or returns all n bytes: what the first holders have before its last block, and then that block and whatever lies behind its record |
| `Run.OverFront` | fuse/imss_posix_api.c:780-913 | The file's bytes are in front of these if their blocks are found |
| `Run.FoundMeans` | fuse/imss_posix_api.c:749-913 | A read is right when the first holder of each of its blocks is up to date |
| `Run.AtFirstMeans` | fuse/imss_posix_api.c:749-913 | When the servers asked first are up to date, a read returns the slice and leaves the rest of memory alone if no piece, in front of what memory holds, is mistaken for the no-key message; if one is and no server has fallen behind, it fails |
| `Run.DoJoin` | src/imss.c:1565-1687 | A join moves no byte, and the file keeps standing for the same array with one more server, whatever blocks can then be found |
| `Run.NewTracks` | src/imss.c:2405-2420 | A new file stands for the empty array |
| `Joins.FoundIffMeets` | src/imss.c:4561-4611 | A block of a file no server had joined is found after any number of joins if and only if the servers then asked for it meet those it was written to, and is lost otherwise |
| `Joins.ReadAfterJoins` | fuse/imss_posix_api.c:749-913 | A read after joins, of data that cannot be mistaken, returns the file's bytes if and only if every block of the range is still met, and fails otherwise |
| `Joins.MajorityMeets` | src/imss.c:5396 | With copies on more than half of all servers no join loses a block |
| `Joins.PinnedRun` | src/imss.c:3729-3746 | Over any run of writes, reads and joins, every block recorded in the interval table stays up to date at the server it is asked for first |
| `Joins.PinnedReadRight` | fuse/imss_posix_api.c:749-913 | So after any run a read of recorded blocks, not mistaken for the no-key message, returns the file's bytes and leaves the rest of memory alone |
| `Joins.UpToDateThen` | src/imss.c:5354-5396 | A server that gets all writes of a block stays up to date with it |
| `Joins.OneCopyJoin` | src/imss.c:3729-3746 | Without copies a join loses no block if and only if no unrecorded block changes its placement; a block that does is lost |
| `Joins.OneCopyRun` | fuse/imss_posix_api.c:1696-1846 | Over any run whose joins are harmless a file without copies keeps every block up to date where it is looked up, and no outdated record anywhere |
| `Joins.JoinLoses` | src/policies.c:116-130 | Under round robin a join always loses a block once more blocks than servers were written after the interval table was recorded |
| `Joins.JoinThenRead` | src/imss.c:1565-1687 | On the file itself: after a join that moves a block, the next read that touches it returns -1 |
| `Joins.JoinWriteRead` | src/imss.c:5354-5396 | On the file itself: after a join that moves a block and a write of a part of it, a read inside it returns the full count; the bytes that were not written again are what the memory of the new record held |
| `Joins.StaleSent` | src/workers.c:2163-2620 | What the servers then send is exactly the new bytes in front of that memory |
| `Joins.SettledRun` | fuse/imss_posix_api.c:1696-1846 | While no server joins, every block is up to date on all servers of its copies and there is nothing of it elsewhere |
| `Joins.NewSettled` | src/imss.c:2405-2420 | A new file is settled, and without copies it is one-copy, whatever its servers' memory holds |
| `StripedFile.File.Write` | fuse/imss_posix_api.c:1696-1846 | imss_write: returns the number of bytes; the servers of the copies of each touched block have exactly the new bytes in the range, every other byte of every server is what it was, and a new record is otherwise what its memory held; the interval table is recorded once |
| `StripedFile.File.SetData` | src/imss.c:5354-5396 | set_data: the block's part goes to the servers of its copies; no other byte of any server changes |
| `StripedFile.File.SendTo` | src/imss.c:5391-5396 | The replica loop stores the block on every server of the list and changes nothing else |
| `StripedFile.File.GetDataLocation` | src/imss.c:3729-3746 | get_data_location: placement under the recorded server count, or the current one |
| `StripedFile.File.Grow` | src/imss.c:1603-1687 | A server joins: no byte moves, an empty server is appended, and recorded blocks keep their servers |
| `StripedFile.File.GrowBy` | src/imss.c:1603-1687 | Any number of servers join: pinned blocks are asked for where they were written |
| `StripedFile.File.Read` | fuse/imss_posix_api.c:749-913 | imss_sread on the file: exactly what comes of the replies of the servers asked, clipped right or not; the interval table stays |
| `StripedFile.File.CountBounds` | src/imss.c:4561-4577 | Looking a block up always gives one of the servers |
| `StripedFile.File.constructor` | src/imss.c:2405-2420 | A new dataset: copies is the smaller of replication factor and servers, nothing stored, nothing recorded |
| `Reader.Sread` | fuse/imss_posix_api.c:749-913 | imss_sread, result and memory for every range: nothing at or past the end; where `Clips` holds, the pieces up to the end of the file one after the other; where it does not, the pieces before the last block, and then all that is left of the n bytes at once from that block on; a failure exactly when one of the requests is not delivered |
| `Reader.GetNData` | src/imss.c:4538-4843 | get_ndata: for any replies, which of them ends up in the buffer or that the request fails, and what is then in memory |
| `Reader.AskInTurn` | src/imss.c:4628-4843 | Servers are asked in order until a reply does not look like the no-key message |
| `Reader.ReplicaServers` | src/imss.c:4595-4611 | The servers asked are exactly those of the block's copies, the first one first |
| `Reader.AskOne` | src/imss.c:4654-4843 | One request: what lands in the buffer, and how the 22-byte comparison judges it |
| `Reader.ReadLoop` | fuse/imss_posix_api.c:806-900 | The block loop, for any plan of block reads: it computes whatever function of memory is determined by its requests one after the other, and fails as soon as one cannot be had |
| `Replies.TakeSure` | src/imss.c:4765-4843 | The first data sent is delivered if it cannot be mistaken for the no-key message, whatever was in the buffer |
| `Replies.TakeNone` | src/imss.c:4765-4843 | A request fails when no server asked has the block |
| `Replies.TakeFooled` | src/imss.c:4765-4775 | It fails when what all servers send, in front of what memory holds, looks like the no-key message |
| `Replies.ReadFirst` | fuse/imss_posix_api.c:806-900 | If the first servers send the bytes and none is mistaken, exactly these are read and the rest of memory stays |
| `Replies.ReadSent` | fuse/imss_posix_api.c:806-900 | If bytes that cannot be mistaken are what the first servers that have the blocks send, they are what is read |
| `Replies.ReadMissing` | fuse/imss_posix_api.c:806-900 | A read fails when no server asked has one of its blocks |
| `Replies.ReadFooled` | fuse/imss_posix_api.c:806-900 | A read fails when a piece that all servers agree on is mistaken |
| `ReadPlan.ReadTotal` | fuse/imss_posix_api.c:806-913 | The loop reads exactly what read() promises if and only if `Clips` holds |
| `ReadPlan.ReadStep` | fuse/imss_posix_api.c:808-866 | Each turn asks for a non-empty stretch inside one block and moves on to the next |
| `ReadPlan.EndBounds` | fuse/imss_posix_api.c:762-783 | The last block visited is the one where the range ends, or would end if it were no longer than the file |
| `ReadPlan.OverStep` | fuse/imss_posix_api.c:806-866 | The requests of a read that is not clipped right: the pieces before its last block, and then all the rest at once |
| `ReadPlan.CutPiece` | fuse/imss_posix_api.c:682-692 | The k-th request of the asynchronous and prefetching readers is the k-th piece of the range and never empty |
| `ReadPlan.CutLast` | fuse/imss_posix_api.c:949-951 | The pieces of all blocks together are the whole range |
| `ReadPlan.InsidePiece` | fuse/imss_posix_api.c:808-866 | No piece starts inside another |
| `Store.PieceStep` | fuse/imss_posix_api.c:1770-1812 | Each turn of the write loop handles a non-empty piece that lies in its block; the skip of a finished last block never happens |
| `Store.FirstPiece` | fuse/imss_posix_api.c:1772-1781 | The first piece ends at the block's or the range's end, whichever comes first |
| `Store.StoreEffect` | src/workers.c:2163-2620 | Storing part of a block changes these bytes on the servers given, and no other byte of any record; a record that was not there is otherwise what its memory held |
| `Store.EffectExtends` | fuse/imss_posix_api.c:1770-1812 | The write loop's turns add up to one write of all bytes |
| `Store.UpdateFound` | src/imss.c:5246-5328 | Recording the interval table moves no block |
| `Intervals.Dataset.GetValueFromInterval` | src/imss.c:4410-4428 | The value of the first entry that contains the block, or -1 |
| `Intervals.Dataset.GetIntervalPointer` | src/imss.c:4440-4460 | The first entry that contains the range |
| `Intervals.Dataset.SetInterval` | src/imss.c:4479-4523 | What recording a range does to the table |
| `Intervals.Dataset.UpdateDataset` | src/imss.c:5278-5287 | Only the first update records anything: block zero and the range written so far |
| `Intervals.RecordKeepsAnswers` | src/imss.c:4479-4523 | A range no entry contains never changes the answer for a block already known |
| `Intervals.RerecordEffect` | src/imss.c:4479-4523 | A contained range changes all of its entry's blocks up to its right end, and drops those behind it |
| `Intervals.UpdateMovesNothing` | src/imss.c:5278-5287 | The update does not change the server count any block is looked up with |
| `Placement.ReplicasDistinct` | src/imss.c:3077-3081 | For 1 <= r <= n the servers of the copies are pairwise distinct |
| `Placement.ReplicaNext` | src/imss.c:5396 | Copy 0 is on the first server, and each next copy n / r servers further around the ring |
| `Placement.ReplicasSpread` | src/imss.c:5396 | Copy j is (j - i) * (n / r) servers ahead of copy i, so any two are at least n / r apart, both ways around |
| `Placement.HolderCount` | src/imss.c:5396 | The copies are on exactly as many servers, the first one among them |
| `Placement.ReplicaOrder` | src/imss.c:3077-3091 | The local-first loop yields a permutation of the replica servers, with the local one first whenever it is among them |
| `Placement.LocalFirstPermutes` | src/imss.c:3083-3090 | Moving the local server to the front keeps the same servers, each once |
| `Placement.CountExact` | src/policies.c:116-130 | How many of any m consecutive blocks a server gets, in closed form, wherever the file's name starts the count |
| `Placement.RoundRobinBalanced` | src/policies.c:116-130 | Over any m consecutive blocks the numbers per server differ by at most one |
| `Placement.RoundRobinCovers` | src/policies.c:116-130 | Any n consecutive blocks hit every server exactly once |
| `Placement.RoundRobinMoves` | src/policies.c:116-130 | One more server moves at least one of any n + 1 consecutive blocks |
| `Placement.HashClosed` | src/policies.c:163-187 | The hash of a key is the sum of its characters, each times the product of all later multipliers 63689 * 378551^j, modulo 2^32: cutting every step to 32 bits changes nothing |
| `Placement.BlockKeyReads` | src/policies.c:163-170 | The key of a block is the name, a dollar sign, and the block number in decimal, which reads back |
| `Placement.HashServer` | src/policies.c:163-187 | The HASH policy's server is that sum over the block's key, modulo 2^32, modulo the servers |
| `Placement.RoundRobinServer` | src/policies.c:116-130 | RoundRobin: the CRC-16 of the name plus the block number, modulo the servers |
| `Placement.FindServerBy` | src/policies.c:250-330 | find_server dispatches on the policy to these two |
| `Placement.BlockKeyInjective` | src/policies.c:163-187 | The key that is hashed tells file and block apart |
| `Crc.Crc16` | src/crc.c:4-37 | The table-driven loop is bit-serial division by 0x1021, for every byte string |
| `Crc.Crc64` | src/crc.c:170-186 | The table-driven loop is bit-serial division by the reflected 0x95ac9329ac4bc9b5, from any starting value |
| `Crc.Crc64Streams` | src/crc.c:170-186 | Continuing from a first part's result is the same as one pass over both parts |
| `Crc.Step16` | src/crc.c:4-37 | One table step is eight single-bit steps |
| `Crc.Step64` | src/crc.c:39-186 | One table step is eight single-bit steps |
| `AsyncRead.ReadAsync` | fuse/imss_posix_api.c:915-1082 | imss_read_async against any network: refuses ranges past the end and otherwise returns the size or does not end; as it is, it ends exactly when all requests go out, and has the file's bytes if and only if the network left them in the temporary buffers; with the handles handed back, whenever the first servers send them and they cannot be mistaken |
| `AsyncRead.AsyncReader.ReadAll` | fuse/imss_posix_api.c:980-1081 | For every order of completions: all blocks launched and completed once, and each piece of the buffer is what its slot's temporary buffer held when it was copied, as a function of the network's turns; never stuck while first servers send data |
| `AsyncRead.AsyncReader.GetNData` | src/imss.c:4625-4843 | get_ndata on a temporary buffer: receives are posted for one server after the other, each judged by whatever is in the buffer at that moment |
| `AsyncRead.AsyncReader.Launch` | fuse/imss_posix_api.c:1010-1031 | A free slot takes the next block if get_ndata succeeds, and only keeps what the attempts left in its buffer if not; launched equals completed plus in flight, no block is in two slots, no request is empty |
| `AsyncRead.AsyncReader.TryLaunch` | fuse/imss_posix_api.c:989-1031 | A slot in use, or with nothing left to ask for, is passed over |
| `AsyncRead.AsyncReader.TryComplete` | fuse/imss_posix_api.c:1034-1068 | A slot without a handle, or whose receive has landed, is copied out and freed; other pieces stay |
| `AsyncRead.AsyncReader.Land` | src/imss.c:4693-4733 | Receives land in a slot's temporary buffer, also those of requests it was used for before |
| `AsyncRead.AsyncReader.Step` | fuse/imss_posix_api.c:984-1072 | With data of first servers a turn in which nothing is refused and everything arrives completes at least one block; without handles the turn leaves what the network makes of it |
| `AsyncRead.RightIffShown` | fuse/imss_posix_api.c:1056-1062 | Without handles a finished read has the file's bytes if and only if each slot's temporary buffer held its piece when it was copied |
| `AsyncRead.PromptIff` | fuse/imss_posix_api.c:1036-1055 | With data of first servers and pieces that can be told apart, that is so if and only if every reply arrives before the completion check of the turn its request went out in |
| `AsyncRead.PromptRight` | fuse/imss_posix_api.c:1036-1055 | Data of first servers that is never late is copied right, whatever the file holds |
| `AsyncRead.InstantRight` | src/imss.c:4625-4843 | When no receive has to wait, data is copied right from whichever copy has it first |
| `AsyncRead.InstantEnds` | fuse/imss_posix_api.c:984-1072 | When no receive is refused either, a read of data that some server asked has ends exactly after as many turns as it takes to hand all its pieces to the slots |
| `AsyncLines.InstantAsk` | src/imss.c:4625-4843 | When no receive has to wait, get_ndata takes what it would take synchronously, and if none is refused succeeds if and only if it would then, with whichever copy |
| `AsyncLines.AtOnceNumber` | fuse/imss_posix_api.c:984-1031 | Then after t turns and i slots exactly min(count, 100 t + i) pieces are out |
| `AsyncRead.LateNoKeyWrong` | src/imss.c:4765-4843 | A server without the block whose answer is late: the message is copied as data, the other copies are never asked, and the finished read is wrong |
| `AsyncLines.NoKeyAsData` | src/imss.c:4709-4843 | What is copied then is the no-key message in front of what the buffer held |
| `AsyncLines.FailsOnTheWay` | src/imss.c:4765-4843 | A first copy that answers at once that it does not have the block, and a second whose data is on its way: the message is still in the buffer, the request fails, and its receive stays posted |
| `AsyncLines.StaleFirstPiece` | src/imss.c:4538-4546 | The handle stays NULL: a first reply still on its way is replaced by the old contents of the temporary buffer, whatever the file holds |
| `AsyncLines.PlainAsk` | src/imss.c:4625-4843 | With data of first servers that cannot be mistaken a request asks one server only, and succeeds unless its receive is refused, whatever late replies land in between |
| `AsyncLines.PlainTakes` | fuse/imss_posix_api.c:989-1031 | So, over any number of turns, a free slot takes a piece unless its receive is refused |
| `AsyncLines.PromptShown` | fuse/imss_posix_api.c:1036-1062 | A piece whose receive, like all before it, landed in its own turn is copied right |
| `AsyncLines.ShownInTime` | fuse/imss_posix_api.c:1036-1062 | When pieces can be told apart, a piece that had to wait is copied right only if its receive landed in its own turn |
| `AsyncLines.InstantShown` | src/imss.c:4625-4843 | When no receive has to wait, the first data sent for a piece is what is copied |
| `AsyncLines.TakenSomewhere` | fuse/imss_posix_api.c:989-1031 | Every piece that is out was taken by one slot in one turn |
| `AsyncRead.CompleteKeeps` | fuse/imss_posix_api.c:1056-1066 | Completing a slot keeps the table and its counts |
| `AsyncRead.LaunchKeeps` | fuse/imss_posix_api.c:1014-1029 | Launching into a free slot keeps the table and its counts |
| `AsyncRead.FollowsFits` | fuse/imss_posix_api.c:949-955 | The requests cover the range piece by piece |
| `AsyncRead.FollowsFirst` | fuse/imss_posix_api.c:1010-1019 | The replies are the file's bytes when the first servers asked have them |
| `AsyncRead.FollowsSent` | fuse/imss_posix_api.c:1010-1019 | The first data sent is the file's bytes when any server asked has them |
| `Prefetch.Pack` | src/hierarchical_records.cpp:351-413 | Packs exactly the longest run of whole blocks start, start + stride, ... that is present and fits |
| `Prefetch.Parse` | fuse/imss_posix_api.c:579-605 | The parser's loop reads one record after the other, later ones replacing earlier ones |
| `Prefetch.ParsePacked` | fuse/imss_posix_api.c:579-605 | Parsing a packed buffer gives exactly the packed ids with their data on top of what was known, also when ids wrap at 2^32 |
| `Prefetch.IdsAt` | src/hierarchical_records.cpp:384-409 | The packed ids are start plus multiples of the stride |
| `Prefetch.IdWraps` | src/hierarchical_records.cpp:384-409 | The i-th packed id is the first plus i strides, modulo 2^32 |
| `Prefetch.SameServer` | src/policies.c:116-130 | With the server count as stride every packed id has the round-robin server of the first |
| `Prefetch.PackedLooksMissing` | src/imss.c:5012-5021 | A packed reply is mistaken for the no-key message only if it starts with block 0x52524524 and that block's data goes on like the message |
| `Prefetch.Answer` | src/workers.c:1624-1725 | A server's reply is the longest run that fits the buffer, starting with the block asked for, or the no-key message when it has no whole record of that |
| `Prefetch.ShareFits` | src/imss.c:4916-4918 | The buffer asked for has room for a server's share of the range with its ids, when that is made of whole blocks |
| `Prefetch.GetPrefetch` | src/imss.c:4846-5037 | get_ndata_prefetch: the packed reply of the first server asked that has the block and whose reply is taken for data, or none |
| `Prefetch.FindData` | fuse/imss_posix_api.c:607-623 | find_data_on_prefetch copies the stretch asked for, or nothing |
| `Prefetch.FetchBlock` | fuse/imss_posix_api.c:694-728 | A block comes from what was unpacked before, or from the first hit among its servers, and the servers everything unpacked came from are known |
| `Prefetch.PrefetchRead` | fuse/imss_posix_api.c:625-747 | imss_sread_prefetch_v2: refuses ranges past the end; every block's source is a function of the servers, the range, the stride and the buffer size; if all blocks have one it returns the size, and the bytes are the file's if and only if every source sends its piece; otherwise it stops at the first block without one, and counts it |
| `Prefetch.HeldHasSource` | src/imss.c:4846-5037 | A block some server asked has, and that is not the one id that can be mistaken, has a source |
| `Prefetch.RightSent` | fuse/imss_posix_api.c:694-728 | When no server has an outdated record, the sources send the file's bytes |
| `Prefetch.NeighbourFromSameServer` | fuse/imss_posix_api.c:697-712 | The block one stride after the first is taken from the first one's server, as many turns later as the stride is long, if that has any record of it, outdated or not, whatever its own first server holds |
| `Readers.ReadThreeWays` | fuse/imss_posix_api.c:625-1082 | The synchronous, asynchronous and prefetching reader give the same count and bytes for every non-empty range inside the file whose blocks are on some server asked, of which no server has an outdated record, where the asynchronous one can be relied on; it ends when no receive is refused or has to wait |
| `Readers.ReadFileThreeWays` | fuse/imss_posix_api.c:625-1082 | So they do on every file, at any moment of any run, for ranges whose blocks are found and have no outdated record: all return the slice of the array the file stands for |
| `Readers.SettledFresh` | fuse/imss_posix_api.c:625-1082 | Such are all ranges of files that no server joined, and of files without copies after harmless joins |
| `Readers.JoinedFresh` | fuse/imss_posix_api.c:625-1082 | After joins on a replicated file such are exactly the ranges where the servers asked now meet those the blocks were written to |
| `Readers.FileSent` | fuse/imss_posix_api.c:749-913 | Where all blocks are found, the first data the servers asked send is the file's bytes |
| `Readers.FileFirst` | fuse/imss_posix_api.c:949-1019 | Where the servers asked first are up to date, their replies are the file's bytes |
| `Readers.FileRight` | fuse/imss_posix_api.c:625-747 | Where no record is outdated, whoever has a block sends the file's bytes |
| `SendWindow.Window.Write` | fuse/imss_posix_api.c:1770-1821 | The counter equals the sends in flight throughout, and never exceeds the largest server count plus one; on normal return every send was posted and none is in flight; after a failed set_data every send posted before it, left pending and not completed by the network still refers to the buffer, and none that it completed after a later send does; one of the two happens if every wait gets a turn in which all sends complete |
| `SendWindow.Window.SetData` | src/imss.c:5504-5537 | Waits, posts, and counts only a pending send |
| `SendWindow.Window.Wait` | src/imss.c:5330-5348 | Ends exactly when at most the limit is outstanding, and does so once everything in flight completes |
| `SendWindow.Window.Progress` | src/comms.c:264-291 | Progress completes exactly the sends the network completes, in any order |
| `Config.LoadSaveLoad` | src/cfg_parse.c:175-254 | For every text, loading, saving and loading again gives the same keys, values and order |
| `Config.SaveLoadIff` | src/cfg_parse.c:226-254 | A saved list is loaded back unchanged if and only if every entry fits on one plain line of 256 characters |
| `Config.LoadFits` | src/cfg_parse.c:175-215 | Whatever is loaded has unique normal keys and trimmed values, and fits on lines |
| `Config.LoadSavedEntry` | src/cfg_parse.c:187-204 | A saved line is read back as its entry, also when its line end falls into the next read |
| `Config.CommentedValueLost` | src/cfg_parse.c:189-192 | A value with a comment sign is never read back |
| `Config.SetOk` | src/cfg_parse.c:344-396 | cfg_set keeps keys unique, non-empty and normal, and values trimmed |
| `Config.TrimTrims` | src/cfg_parse.c:57-77 | Trimming leaves no space at either end and adds nothing |
| `Config.TrimParts` | src/cfg_parse.c:57-77 | All that trimming drops is white space at both ends |
| `Config.TrimAround` | src/cfg_parse.c:57-77 | Whatever white space is put around a trimmed text, trimming gives the text back |
| `Config.SameKey` | src/cfg_parse.c:81-106 | Two keys name the same entry if and only if they differ only in case and in white space around them |
| `Config.LowerSame` | src/cfg_parse.c:103-104 | Two characters have the same small letter if and only if they are the same letter |
| `Config.LoadsLine` | src/cfg_parse.c:187-204 | A line sets its key to its value, whatever the case of the key, white space around both, and comment behind |
| `Config.LoadsText` | src/cfg_parse.c:175-215 | So does a line of a text, up to 256 characters |
| `ConfigList.TrimSpaces` | src/cfg_parse.c:57-77 | The loops of cfg_trim |
| `ConfigList.NormalizeKey` | src/cfg_parse.c:81-106 | The loops of cfg_norm_key |
| `ConfigList.List.Set` | src/cfg_parse.c:344-396 | On the linked list: an existing key changes in place, a new one goes to the end, a missing value deletes |
| `ConfigList.List.Get` | src/cfg_parse.c:263-293 | The value under the normalised key, or none |
| `ConfigList.List.Delete` | src/cfg_parse.c:423-469 | The entry is unlinked, all others stay in order |
| `ConfigList.List.Prune` | src/cfg_parse.c:499-570 | Exactly the entries with the given keys stay, in order; nothing happens when no key names anything |
| `ConfigList.List.Load` | src/cfg_parse.c:175-215 | The list after loading a text |
| `ConfigList.List.Save` | src/cfg_parse.c:226-254 | The text written for the list |
| `ConfigList.PutLookup` | src/cfg_parse.c:344-396 | Setting is a map update that keeps the insertion order |
| `ConfigList.RemoveLookup` | src/cfg_parse.c:423-469 | Deleting removes one key of the map and no other |
| `ConfigList.RemoveKeys` | src/cfg_parse.c:423-469 | Deleting keeps the order of the other keys |
| `ConfigList.KeptLookup` | src/cfg_parse.c:499-570 | Pruning restricts the map to the given keys |
| `ConfigList.KeptOk` | src/cfg_parse.c:499-570 | Pruning keeps the list's invariant |
| `ConfigRun.RunAll` | src/cfg_parse.c:263-570 | Any sequence of set, get, delete and prune is answered as by an insertion-ordered dictionary and leaves the list standing for it |
| `ConfigRun.LastSetWins` | src/cfg_parse.c:263-396 | A key keeps its value over any operations that do not concern it |
| `SlotTable.Table.Insert` | src/imss.c:530-566 | GInsert: the position was not in use, the other elements stay, a free position outside the array is the one right behind it, and the table grows when none is free |
| `SlotTable.Table.Release` | src/imss.c:1953-1956 | The position is freed once, the other elements stay |
| `SlotTable.Table.constructor` | src/imss.c:762-767 | At first every position is free |
| `SlotTable.Partition` | src/imss.c:530-566 | Used and free positions share out the table |
| `SlotTable.TakeHead` | src/imss.c:541-563 | The head of the free list is inside the array or right behind it |
| `SlotTable.RunAll` | src/imss.c:530-566 | Any sequence of insertions and releases acts as on a map, every insertion taking a position that is not in use |
| `SlotTable.HandleStays` | src/imss.c:530-566 | Over any run an element stays at its position until that is released |
| `Paths.FindFirstParentDir` | src/imss.c:5768-5794 | The loop finds the first '/' after the root |
| `Paths.FindLastParentDir` | src/imss.c:5802-5868 | The loop finds the last '/', a trailing one aside |
| `Paths.ParentOf` | src/imss.c:5802-5868 | The parent of an entry in a directory is that directory, with or without a trailing '/' |
| `Paths.TopParent` | src/imss.c:5802-5868 | The parent of a top-level entry is the root |
| `Paths.FindMetaServer` | src/imss.c:3582-3585 | The metadata server is the server of block 0 of the top-level directory |
| `Paths.ParentKeepsFirst` | src/imss.c:5802-5868 | A parent with non-zero offset has the same top-level directory |
| `Paths.ParentShorter` | src/imss.c:5802-5868 | Parents get strictly shorter until the root |
| `Paths.ChainOnOneServer` | src/imss.c:3582-3585 | All directories above a path, the root aside, have its metadata server |
| `PathIndex.RunAll` | fuse/hierarchical_map.cpp:42-91 | Any sequence of allowed operations leaves the tables standing for the flat map, every path in its parent's table |
| `PathIndex.Index.Put` | fuse/hierarchical_map.cpp:42-91 | Adds an entry unless the path has one |
| `PathIndex.Index.Search` | fuse/hierarchical_map.cpp:174-192 | Finds exactly what the flat map has |
| `PathIndex.Index.Update` | fuse/hierarchical_map.cpp:194-208 | Changes the stat of one entry |
| `PathIndex.Index.Erase` | fuse/hierarchical_map.cpp:214-228 | Removes one entry |
| `PathIndex.Index.Rename` | fuse/hierarchical_map.cpp:234-250 | The entry is found under its new name if and only if that name is free and in the same directory; otherwise it is lost |
| `DatasetPool.RenameAll` | src/imss.c:473-502 | After any number of renames, across directories too, the record is found under the last name and every block keeps its server |
| `DatasetPool.ServedWhereWritten` | src/imss.c:3729-3746 | The server a renamed file's block is looked up on is the one the striped file has under its original name |
| `DatasetPool.Pool.Rename` | src/imss.c:473-502 | The record moves to its new uri and nothing else changes |
| `DatasetPool.Pool.Add` | src/imss.c:268-325 | Adds or replaces a record; a directory forgets what the pool had below it |
| `DatasetPool.Pool.Find` | src/imss.c:176-206 | Finds exactly what the flat map has |
| `DatasetPool.Pool.Release` | src/imss.c:2709-2720 | Removes one record |
| `Wire.Transfer` | src/comms.c:1050-1302 | A structure and its list arrive as sent, unless the structure starts like the no-key message |
| `Wire.RoundTrip` | src/comms.c:1225-1302 | Received equals sent if and only if the structure does not start with the no-key text |
| `Wire.DatasetRoundTrip` | src/comms.c:1270-1301 | A dataset with any number of intervals: both sides find the same server count for every block |
| `Wire.Send` | src/comms.c:1050-1156 | The message size computed beforehand is exactly what is written |
| `Wire.Receive` | src/comms.c:1225-1302 | What the receiving loop makes of any message, also one shorter than the count in it announces: the rest is whatever lies behind it in memory |
| `Wire.BehindUnread` | src/comms.c:1225-1302 | A message at least as long as it announces is read without anything behind it |
| `Wire.IntervalRoundTrip` | src/comms.c:1137-1147 | An interval entry survives its 12 bytes: value, left and right bound, in this order |

## Left out

- Run.Execute: writes that are empty or leave a gap past the end are not part of a run; an empty write makes set_data send a whole block (src/imss.c:5400-5403), and the bytes of a gap are whatever a fresh record held.
- StripedFile.File.Write: the failure of a write on a server (no space, an error reply) is not modelled; sends are taken to arrive.
- Run.ReadMeans: the exact condition is for bytes that cannot be mistaken for the no-key message; for others the answer is still fixed by `Replies.ReadAll`, but when a mistaken piece leads on to a server with an outdated record its meaning is not spelled out.
- Reader.AskOne: the 22-byte comparison (src/imss.c:4765) sees memory behind the caller's buffer as far as the array that is passed reaches; where that ends, data is never mistaken.
- Reader.AskInTurn: what a reply longer than the caller's buffer would overwrite is not modelled.
- Reader.Sread: `ceil` on doubles (fuse/imss_posix_api.c:762) is exact division rounded up, so offsets stay below 2^53.
- AsyncRead.ReadAsync: with the handles handed back, only data of first servers that cannot be mistaken is said to be read right, and so is the promise that a read ends; without handles both are exact for all replies. A reply is taken to land whole.
- Readers.ReadThreeWays: data that could be mistaken for the no-key message is excluded, as is block 0x52524524, whose packed id reads "$ERR"; the asynchronous reader is relied on for data of first servers when its handles are handed back or no reply is late, and for data of later copies when no receive waits and blocks have at least 22 bytes. What each reader returns otherwise is stated for it alone.
- Prefetch.GetPrefetch: data ids are passed on as 32-bit signed; the model takes block numbers below 2^32 as they are, and the number of servers a server was started with (its stride) is a parameter.
- SendWindow.Window.Write: completions run only while the worker is given the chance, in the sending thread.
- PathIndex.Index.Update: updating a path without an entry in a known directory dereferences an end iterator and is excluded, as is renaming one.
- ConfigList.List.Set: NULL configurations and NULL keys are not modelled, nor allocation failures and errors while writing a file.
- Paths.FindLastParentDir: paths shorter than the root prefix are excluded; the code's length arithmetic has no meaning for them.
- The CRC16 and CRC64 placement policies hash a buffer that is never filled from the file name; the LOCAL and zero-copy branches place like round robin and their shared-memory transfer is not modelled.
- Block 0 and the stat header, truncation, deletion of blocks and directories, and directory-to-directory renames.
- The readers and writers over several requests at once (imss_vread_*, imss_split_readv, imss_split_writev), and servers that leave.
- UCX endpoints, threads and locks; metrics, logging and timing; the directory tree in src/directory.c.
