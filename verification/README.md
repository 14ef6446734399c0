# PROV-IO: verified model

PROV-IO records the provenance of HDF5 I/O. Its C core has three pieces with state that must stay
consistent over a whole execution, and one with a text format. This project models all four and
proves what they keep.

1. **The registry of open objects** of the HDF5 VOL connector (`RegistrySpec`, `RegistryInvariant`,
   `RegistryRuns`, `RegistryOpens`, `RegistryFaults`, `RegistryHeap`, `RegistryClient`,
   `RegistryExamples`, `DatasetStats`, `RegistryStats`). A hand-linked, reference-counted, two-level structure: open files, and for each
   file four lists of open objects. `RegistrySpec` is its meaning as a value, with every C assertion and every use of a freed record as a `Fault`.
   `RegistryInvariant` is the counting invariant, against two multisets of outside owners.
   `RegistryRuns` is the state machine over the callbacks, `RegistryOpens` says where its opens end and
   `RegistryFaults` when its assertions fire. `RegistryHeap` has the classes with the
   `next` pointers and counters spliced in place; each callback's contract is one step of the machine, and
   `RegistryClient` calls them as HDF5 may. `DatasetStats` and `RegistryStats` follow the statistics of a
   dataset from its open through any run.
2. **The duration table** (`CMachine`, `Bits`, `FunctionHash`, `Probing`, `DurationTable`, `DurationRuns`,
   `DurationCapacity`, `DurationSession`). SDBM hash in 64-bit arithmetic, linear probing with a mask of any width, cells that are written as
   `int`, accumulated as `unsigned long` and printed as `int`; proved against a plain map and, over
   whole sessions, against the true sums.
3. **The provenance graph** (`ProvGraph`, `ProvContents`, `ProvEmitter`, `Decimal`). The statements that a session adds,
   as a function of the switches and the records; the emitter that adds them one by one; which links
   of the finished graph lead to something declared (sections 5.3.2 to 5.3.4 of PROV-DM).
4. **The connector's configuration text and order** (`TextScan`, `InfoString`, `InfoText`, `InfoOrder`). Printing,
   parsing and comparing connector information, for stacks of connectors of any depth.

Where addresses are chosen by `calloc`, numbers by HDF5, UUIDs by libuuid or bytes by uninitialised
memory, they are parameters. HDF5 object tokens are compared by equality, file numbers are not zero,
the RDF store is the sequence of statements added.

## What the code does not keep

These are stated as results, each with the exact condition or a concrete run.

- Opening a dataset that lives in another open file takes a reference on that file that no callback
  gives back (`c/vol-provenance/H5VLprovnc.c:1292`). A run in which everything is released is clean
  if and only if there was no such open (`RegistryRuns.BalancedRunEndsClean`), as a run of six callbacks
  shows (`RegistryExamples.ExternalOpenLeaks`); the home file is never freed early
  (`RegistryRuns.HomeFileStaysOpen`).
- Opening a dataset whose file is not open puts it on a record that is in no list
  (`c/vol-provenance/H5VLprovnc.c:1323`). This, and nothing else, breaks the counting invariant
  (`RegistryRuns.StepIsSafe`), and a run of four callbacks then frees a file under a live handle
  (`RegistryExamples.HomelessOpenFreesEarly`).
- A scalar dataset gets an element count only from a refresh (`c/vol-provenance/H5VLprovnc.c:1611-1616`),
  so each transfer of it as a whole counts zero bytes until then; and a transfer that selects its points
  in the file only counts the whole dataset (`c/vol-provenance/H5VLprovnc.c:3297-3298`).
  `RegistryStats.RecordBytes` and `RecordBytesIff` say when a byte total is exact;
  `DatasetStats.ScalarCountsNothing` and `DatasetStats.FileSelectionCountsAll` are the inputs.
- The flags that make agents be declared once are never reset, so the graph of a second session of the
  same process has dangling links (`ProvGraph.ClosedIff`, `ProvGraph.SecondSessionDangles`).
- The number printed for a name is its time modulo 2^32, and exact if and only if the time is below 2^31
  (`DurationRuns.PrintedIsSum`); a lookup of a new name in a full table never ends
  (`Probing.SearchEndsIff`), so a run ends if and only if it has at most `capacity` names
  (`DurationCapacity.RunEndsIff`).
- The parser terminates the text for the connector below one byte too far and leaves that byte
  uninitialised (`c/vol-provenance/H5VLprovnc.c:2366-2369`). `InfoString.RoundTripIff` says for every
  such byte whether the configuration survives; `InfoString.RoundTrip` is the case that the bytes are
  zero.
- Levels are compared by subtraction, which can overflow for levels outside the enumeration
  (`InfoOrder.SignIff`).

## Model

| member | source | states |
|---|---|---|
| RegistryRuns.StepIsSafe | c/vol-provenance/H5VLprovnc.c:904-1414 | From any state with the counting invariant, every callback HDF5 may make goes through: no assertion fires, no freed record is used, no removal misses its node; and the invariant is kept if and only if the callback does not open a dataset whose file is not open. |
| RegistryRuns.RunIsSafe | c/vol-provenance/H5VLprovnc.c:1442-1579 | Any legal run, of any length and interleaving, files closed before their objects included, goes through and keeps the invariant; the references leaked are as many as the external opens. |
| RegistryRuns.BalancedRunEndsClean | c/vol-provenance/H5VLprovnc.c:1554-1579 | After a run in which all was released: `ptr_cnt` is 0, no object record is left, files still open are held by external opens only, and the registry is empty if and only if there were none. |
| RegistryRuns.HomeFileStaysOpen | c/vol-provenance/H5VLprovnc.c:1283-1358 | A file with external opens is in the list from then on in every run, and its count is its handles, contexts, linked objects and the number of those opens. |
| RegistryRuns.LeaksAreOpens | c/vol-provenance/H5VLprovnc.c:1283-1300 | Over any run the references leaked on a file grow by exactly the external opens of its datasets. |
| RegistryRuns.RefreshKeepsStatistics | c/vol-provenance/H5VLprovnc.c:3494-3565 | Whatever is closed and reopened during a refresh, it goes through; if the object has an owner afterwards it is the same record with the old transfer counters, the extent last measured and a count equal to its owners, and otherwise its record is gone. |
| RegistryRuns.HeldRecordSurvives | c/vol-provenance/H5VLprovnc.c:5457-5522 | A record with a refresh hold is neither freed nor changed by any run of other callbacks. |
| RegistryRuns.ReleaseHold | c/vol-provenance/H5VLprovnc.c:5508-5522 | Dropping the hold removes the record exactly when no wrapper and no other hold is left. |
| RegistryRuns.HomelessBreaks | c/vol-provenance/H5VLprovnc.c:1320-1341 | Opening a dataset whose file is not open goes through but leaves a file record that is in no list. |
| RegistryExamples.HomelessOpenFreesEarly | c/vol-provenance/H5VLprovnc.c:1320-1341 | A concrete run of four callbacks that HDF5 may make, after which it may close a live file handle and that faults. |
| RegistryExamples.ExternalOpenLeaks | c/vol-provenance/H5VLprovnc.c:1283-1358 | A concrete legal run: two files are opened and a dataset of the second through the first, all is closed, and the second file is still open with one reference. |
| RegistryRuns.LeakCount | c/vol-provenance/H5VLprovnc.c:1283-1300 | A step leaks one reference if it is an external open and none otherwise. |
| RegistryOpens.OpenedThrough | c/vol-provenance/H5VLprovnc.c:1442-1552 | A group, datatype or attribute opened through a file, object or wrap context belongs to that file, to the file of that object, or to the file of that context; the record with the new handle is meant, new or known. |
| RegistryOpens.DatasetOpened | c/vol-provenance/H5VLprovnc.c:1302-1358 | A dataset belongs to the open file with its number, whatever it was opened through, is on that file's list of datasets, and leaks a reference on that file exactly when opened through another one. |
| RegistryOpens.ObjOpened | c/vol-provenance/H5VLprovnc.c:1302-1358 | The record with the new handle has the kind and token asked for and is on its list; a known one counts one more, a new one is in front with one reference; no other record changes. |
| RegistryOpens.FileOpened | c/vol-provenance/H5VLprovnc.c:1189-1226 | The new file handle is on the file with that number; a new record is in front of the list with one reference, a known one counts one more. |
| RegistryOpens.WrapCtxHolds | c/vol-provenance/H5VLprovnc.c:2438-2499 | A wrap context takes one reference, on the file of what it was taken from, and changes nothing else. |
| RegistryOpens.HomelessIff | c/vol-provenance/H5VLprovnc.c:1283-1300 | A home is missing exactly when no open file has the dataset's number. |
| RegistryOpens.HomelessOpened | c/vol-provenance/H5VLprovnc.c:1320-1341 | Then the dataset goes on a new record with its number that is in no list, and no open file changes. |
| RegistryFaults.AddFileFaultsIff | c/vol-provenance/H5VLprovnc.c:1189-1226 | For lists in any state: exactly when an assertion of add_file_node fires. |
| RegistryFaults.RmFileFaultsIff | c/vol-provenance/H5VLprovnc.c:1229-1281 | For lists in any state: exactly when an assertion of rm_file_node fires. |
| RegistryFaults.RmObjFaultsIff | c/vol-provenance/H5VLprovnc.c:1361-1414 | For lists in any state: exactly when rm_*_node uses a freed record or fires an assertion, its own or rm_file_node's. |
| RegistryInvariant.RmObjTakes | c/vol-provenance/H5VLprovnc.c:1361-1414 | rm_*_node takes back exactly one reference, never returns -1, and with the last one frees exactly its node and gives up its hold on the file. |
| RegistryInvariant.RemovalIsExact | c/vol-provenance/H5VLprovnc.c:944-998 | Removal by token unlinks the node passed in, at head, middle or tail, keeps the order of the others, and changes nothing else but its file's count. |
| RegistryInvariant.AddObjGives | c/vol-provenance/H5VLprovnc.c:1000-1035 | add_*_node gives out one reference to the one record with that token, new or known, and keeps the invariant, distinct tokens included. |
| RegistryInvariant.RmFileTakes | c/vol-provenance/H5VLprovnc.c:1229-1281 | rm_file_node takes back one reference to the file with that number, with the last one the record; all its sanity checks hold. |
| RegistryInvariant.AddFileGives | c/vol-provenance/H5VLprovnc.c:1189-1226 | add_file_node gives out one reference to the file with that number and keeps numbers distinct. |
| RegistryInvariant.LastReferenceIsAlone | c/vol-provenance/H5VLprovnc.c:1255-1266 | When a file's count reaches its last reference, its four lists are empty. |
| RegistryInvariant.TokenIndexExact | c/vol-provenance/H5VLprovnc.c:1382-1411 | The search by token meets the record that is to be removed and none before it. |
| RegistryHeap.ProvHelper.AddFileNode | c/vol-provenance/H5VLprovnc.c:1189-1226 | The linked list and counts after the call are those of AddFile on the value. |
| RegistryHeap.ProvHelper.RmFileNode | c/vol-provenance/H5VLprovnc.c:1229-1281 | The list spliced in place and the counts are those of RmFile on the value. |
| RegistryHeap.ProvHelper.SearchHomeFile | c/vol-provenance/H5VLprovnc.c:1283-1300 | Finds the open file with the number if there is one, and takes a reference on it. |
| RegistryHeap.ProvHelper.AddDatasetNode | c/vol-provenance/H5VLprovnc.c:1302-1358 | Local, external and homeless datasets end on the lists AddDataset says; the node returned has the token asked for and belongs to a file with the dataset's number. |
| RegistryHeap.ProvHelper.AddObjNode | c/vol-provenance/H5VLprovnc.c:904-942 | Found nodes are counted, new ones pushed in front, as AddObj says. |
| RegistryHeap.ProvHelper.RmObjNode | c/vol-provenance/H5VLprovnc.c:1361-1414 | Counting down, splicing by token and the cascade into rm_file_node are RmObj, return value included. |
| RegistryHeap.ProvHelper.SpliceObj | c/vol-provenance/H5VLprovnc.c:1388-1407 | Relinking `next` or the head takes out one node and keeps the chain of the others. |
| RegistryHeap.ProvHelper.FileOpenCommon | c/vol-provenance/H5VLprovnc.c:1669-1681 | Is the step OpenFile, and returns the record with that number, known or new, which has the new handle. |
| RegistryHeap.ProvHelper.ObjWrapUnder | c/vol-provenance/H5VLprovnc.c:1442-1552 | Is the step OpenObj, for an object, a file or a wrap context above, and returns the record with that token, known or new, which has the new handle; its file is that of what is above, and for a dataset the one with its number. |
| RegistryHeap.ProvHelper.CloseFileHandle | c/vol-provenance/H5VLprovnc.c:4617-4654 | Is the step CloseFile. |
| RegistryHeap.ProvHelper.CloseObjHandle | c/vol-provenance/H5VLprovnc.c:3629-3666 | Is the step CloseObj; unwrap_object does the same. |
| RegistryHeap.ProvHelper.TakeWrapCtx | c/vol-provenance/H5VLprovnc.c:2438-2499 | Is the step GetWrapCtx, and holds the file of what it is taken from. |
| RegistryHeap.ProvHelper.DropWrapCtx | c/vol-provenance/H5VLprovnc.c:2636-2665 | Is the step FreeWrapCtx. |
| RegistryHeap.ProvHelper.HoldForRefresh | c/vol-provenance/H5VLprovnc.c:3494-3505 | Is the step BeginRefresh. |
| RegistryHeap.ProvHelper.ReleaseAfterRefresh | c/vol-provenance/H5VLprovnc.c:3560-3565 | Is the step EndRefresh. |
| RegistryHeap.ProvHelper.RecordOperation | c/vol-provenance/H5VLprovnc.c:3275-3305 | Is the step Operate: the record's statistics change by the operation and nothing else does. |
| RegistryHeap.ProvHelper.NewRequestHandle | c/vol-provenance/H5VLprovnc.c:1943-1966 | Is the step NewRequest. |
| RegistryHeap.ProvHelper.FreeRequestHandle | c/vol-provenance/H5VLprovnc.c:5837-5861 | Is the step FreeRequest. |
| RegistryClient.Serve | c/vol-provenance/H5VLprovnc.c:1442-1579 | On the linked records: any callback on live handles is a step that HDF5 may make, returns the record with the new handle, which has the number or kind, token and file asked for and is at the head of its list when new, and keeps the invariant unless a home file was missing, so that any other may follow. |
| RegistryClient.NothingLeft | c/vol-provenance/H5VLprovnc.c:1554-1579 | When all handles are released, `ptr_cnt` is 0 and the pointer to the open files is null, unless external opens leaked references. |
| RegistryHeap.ObjInfo.SetExtent | c/vol-provenance/H5VLprovnc.c:3514-3534 | The loop over the new extent ends with the new dimensions and their product modulo 2^64. |
| RegistryStats.RunStats | c/vol-provenance/H5VLprovnc.c:3275-3305 | Over any run of callbacks that does not free a dataset's record, its statistics are those of the operations on it, in their order, whatever else happens. |
| RegistryStats.RecordCounts | c/vol-provenance/H5VLprovnc.c:3366-3396 | From the open of a dataset over any run, each counter is the number of successful transfers in its direction and mode. |
| RegistryStats.RecordBytes | c/vol-provenance/H5VLprovnc.c:3275-3305 | From the open over any run, on any dataset, a byte total is the sum of the true transfer sizes modulo 2^64 if and only if the bytes missed are zero modulo 2^64. |
| RegistryStats.RecordBytesIff | c/vol-provenance/H5VLprovnc.c:1593-1624 | Without selections in the file only: if and only if the dataset is not scalar, or its whole transfers before the first refresh come to nothing modulo 2^64. |
| RegistryStats.RecordKnown | c/vol-provenance/H5VLprovnc.c:3514-3558 | At the end of the run the dimensions are those last set or measured, and the element count is known of them unless the dataset is scalar and was not refreshed. |
| RegistryStats.RecordOk | c/vol-provenance/H5VLprovnc.c:3275-3305 | The element count known is that of the dataspace modulo 2^64; transfers are independent plus collective, and broken at most collective. |
| RegistryStats.OpenMakesStats | c/vol-provenance/H5VLprovnc.c:1593-1624 | The open of a dataset that is not registered makes its record from what HDF5 reports. |
| DatasetStats.RunTotals | c/vol-provenance/H5VLprovnc.c:3275-3305 | The same of any record and any run of operations, for all three classes of dataspace. |
| DatasetStats.RunTotalsIff | c/vol-provenance/H5VLprovnc.c:3366-3396 | Without selections in the file only, the condition as a caller can test it: the dataset is measured, or its whole transfers before the first refresh come to nothing modulo 2^64. |
| DatasetStats.TransferIff | c/vol-provenance/H5VLprovnc.c:3297-3300 | One transfer is counted right if and only if the elements it moves and those it is believed to move come to the same size modulo 2^64. |
| DatasetStats.ScalarCountsNothing | c/vol-provenance/H5VLprovnc.c:1611-1616 | A scalar dataset of eight bytes, read whole: nothing is counted. |
| DatasetStats.FileSelectionCountsAll | c/vol-provenance/H5VLprovnc.c:3297-3300 | One point of ten selected in the file only: all ten are counted. |
| DatasetStats.RunCounts | c/vol-provenance/H5VLprovnc.c:3366-3396 | Every successful transfer is counted once in its direction, and once as independent or collective; every broken collective one as broken. |
| DatasetStats.ProductGrows | c/vol-provenance/H5VLprovnc.c:3514-3534 | Reducing modulo 2^64 in each round loses nothing of the final product. |
| DatasetStats.ProductOfParts | c/vol-provenance/H5VLprovnc.c:3514-3534 | The product of two runs of sizes is that of their products, and of one size that size. |
| DatasetStats.OperationEffects | c/vol-provenance/H5VLprovnc.c:3275-3305 | What each operation does to a record: which total it adds to and how much, and which dimensions and element count it sets. |
| DatasetStats.TrueBytesAddUp | c/vol-provenance/H5VLprovnc.c:3366-3396 | The true bytes of runs one after the other add up. |
| DatasetStats.TrueBytesOfOne | c/vol-provenance/H5VLprovnc.c:3297-3300 | Those of one operation are the size of an element times the elements it moves, in its own direction. |
| FunctionHash.RoundMultiplies | c/provio/stat.c:39-57 | One round of shifts and a subtraction, wrapping, is multiplication by 65599 plus the signed character, modulo 2^64. |
| FunctionHash.PolynomialIsPositional | c/provio/stat.c:39-57 | The polynomial is positional: the first of n characters counts 65599 to the power n-1. |
| FunctionHash.Sdbm | c/provio/stat.c:39-57 | The loop computes the base-65599 polynomial of a string of any length modulo 2^64. |
| FunctionHash.FuncDic.GenHash | c/provio/stat.c:39-57 | Returns the hash index; a name in the dictionary hashes to its position and is never overwritten. |
| CMachine.AndAtMost | c/provio/stat.c:92-98 | `hash & (capacity-1)` is at most capacity-1, power of two or not. |
| Bits.AndBits | c/provio/stat.c:92-98 | Bit i of `a & b` is the product of bit i of `a` and bit i of `b`. |
| Bits.AndMask | c/provio/stat.c:92-98 | `h & (2^k - 1)` is h modulo 2^k. |
| Probing.HomeBits | c/provio/stat.c:113-117 | The slot where a search starts has the bits that the hash, modulo 733, and capacity-1 have in common; for a capacity of 2^k it is the hash modulo 733 modulo 2^k. |
| DurationCapacity.NewNameSlot | c/provio/stat.c:113-145 | In any table a new name takes the first free slot going round from there. |
| DurationCapacity.FirstNameSlot | c/provio/stat.c:113-145 | The first name of a new table of 2^k slots takes the slot of its hash modulo 733 modulo 2^k. |
| Probing.SearchEndsIff | c/provio/stat.c:92-132 | Going round with wrap-around, the search for a key ends if and only if the key is stored or a slot is free. |
| Probing.EmptyMeansAbsent | c/provio/stat.c:92-111 | The first empty slot met proves that the key is nowhere in the table. |
| Probing.FillKeepsOk | c/provio/stat.c:113-132 | Filling the slot where the search ended keeps keys distinct and every stored key reachable from its home slot. |
| Probing.ReplaceKeepsOk | c/provio/stat.c:121-125 | Giving a stored key another value keeps every key reachable. |
| Probing.FullIffAllUsed | c/provio/stat.c:113-132 | The number of entries is the capacity if and only if no slot is free. |
| DurationTable.Search | c/provio/stat.c:92-111 | The probing loop, under the exact condition that it ends, starts at the slot whose bits the hash and capacity-1 have in common and finds the key, or else the first empty slot. |
| DurationTable.DurationTable.Get | c/provio/stat.c:92-111 | Finds a cell if and only if the name is in the map, and then that name's cell. |
| DurationTable.DurationTable.SetEntry | c/provio/stat.c:113-145 | The map changes in one entry: a stored name gets the new cell in its slot, any other name a slot of its own, where its search ended, and one more in `length`; names may share a cell. |
| DurationTable.DurationTable.Accumulate | c/provio/stat.c:178-200 | The table as a map changes as a plain map would, in one entry; the slots change for a new name only, where its search ended. |
| DurationRuns.WordIsSum | c/provio/stat.c:178-200 | After any run of calls exactly the names called are stored, and the low half of each word is the true sum modulo 2^32, whatever malloc left in the high half. |
| DurationRuns.CallWrites | c/provio/stat.c:178-200 | One call writes an int over the low half of a new word, or the sum modulo 2^64 over a stored one, and no other word. |
| DurationRuns.SumsAddUp | c/provio/stat.c:178-200 | The true sums of runs one after the other add up. |
| DurationRuns.SumOfOne | c/provio/stat.c:178-200 | A single call sums to its duration, for its own name. |
| DurationRuns.PrintedIsSum | c/provio/stat.c:283-295 | The printed number is the sum modulo 2^32, and is the sum if and only if that is below 2^31. |
| DurationRuns.NamesComplete | c/provio/stat.c:153-175 | Going over the slots meets each stored name once, as many as `length`. |
| DurationRuns.NamesInOrder | c/provio/stat.c:153-175 | The names come in the order of their slots. |
| DurationRuns.Iterator.Next | c/provio/stat.c:159-175 | Moves to the next used slot, skipping empty ones only, and ends only after the last slot. |
| DurationRuns.PrintRows | c/provio/stat.c:283-295 | The row loop writes `length` rows, one for each name, in the order of the slots. |
| DurationRuns.PrintingConserves | c/provio/stat.c:283-295 | The printed rows sum to all time ever accumulated, modulo 2^32. |
| DurationSession.Fill | c/provio/stat.c:59-77 | With at most `capacity` distinct names every call of the run ends; the slots are those of the run with the cells allocated in it, and the table is the map of the run. |
| DurationSession.EndsOnTable | c/provio/stat.c:178-200 | What accumulate_duration asks of the table is exactly that its search ends. |
| DurationCapacity.RunEndsIff | c/provio/stat.c:92-132 | In a new table every call of a run ends if and only if the run has at most `capacity` distinct names, whatever is stored for them. |
| DurationCapacity.AllEndIff | c/provio/stat.c:92-132 | From any table in order: if and only if those names and the stored ones come to no more than the slots. |
| DurationCapacity.OneMoreEnds | c/provio/stat.c:92-132 | A run ends with one more call if and only if the search of that call ends on the slots that the run leaves. |
| DurationSession.Session | c/provio/stat_test.c:33-52 | Create, accumulate, print: one row for each distinct name with its sum modulo 2^32, and the rows add up to everything accumulated. |
| ProvEmitter.Session | c/provio/provio.c:501-580 | The statements added one by one over a session are Graph of the switches, names, flags and records, and the flags left are FlagsAfter. |
| ProvEmitter.Emitter.AddApiRecord | c/provio/provio.c:409-440 | Appends the UUID to the API field in place and adds 1, 2 or 3 statements about the node of that name. |
| ProvEmitter.Emitter.AddProvRecordRedland | c/provio/provio.c:491-498 | Agents not yet tracked, then the operation, then the object linked to the operation's extended name. |
| ProvEmitter.Emitter.AddProvRecord | c/provio/provio.c:501-575 | Adds statements for file output in RDF format only. |
| ProvEmitter.Emitter.Teardown | c/provio/provio.c:361-407 | The program is declared once per process, its end time at every teardown, whatever the level. |
| ProvGraph.ClosedIff | c/provio/provio.c:305-407 | For any names, flags, switches and records: every delegation, association and attribution of a session's graph leads to a declared agent if and only if the agents it links to are among those it declares itself. |
| ProvGraph.StaleFlags | c/provio/provio.c:25-28 | With distinct names that is so if and only if no flag is left from an earlier session for an agent linked to, and a rank that the program acts for is declared by a record. |
| ProvGraph.FirstSessionCloses | c/provio/provio.c:305-498 | A first session with at least one record emitted is closed under every setting of the switches, for any names, if no record's own relation is one of the three for agents. |
| ProvGraph.SecondSessionDangles | c/provio/provio.c:25-28 | A later session of the process that links a record to its program is not closed, the program's name being neither the user's nor the rank's. |
| ProvContents.GraphIs | c/provio/provio.c:305-483 | A statement is in a session's graph if and only if it is one of those written out for the user, the rank, an operation, an object whose type is switched on, or the program, under the switches and flags of each. |
| ProvContents.TypesRecorded | c/provio/provio.c:442-483 | The object of a record is an entity and a member of its class if and only if the switch of its type is on: files, groups, datasets, attributes and datatypes each by their own; no other type is recorded. |
| ProvContents.ProgramTimes | c/provio/provio.c:361-407 | The only start of the program is the start time, when it is declared; its only end is the end time. |
| ProvContents.AgentClasses | c/provio/provio.c:305-407 | User, thread and program are each members of their own class, and nothing else is. |
| ProvContents.DeclaredOnce | c/provio/provio.c:25-28 | What a session declares the next one does not, and what it did not the next one does on the same terms. |
| ProvGraph.OperationDeclared | c/provio/provio.c:442-483 | The target of the relation between an object and an operation is always declared. |
| ProvGraph.AgentsOf | c/provio/provio.c:305-407 | Exactly who is declared an agent in a session. |
| ProvGraph.GraphSize | c/provio/provio.c:409-483 | The number of statements of a first session: per record 1+[program]+[duration] for an operation and 2+[api]+[program] for an enabled object, and the agents once. |
| ProvGraph.OneMoreRecord | c/provio/provio.c:491-498 | A record adds its own statements, and the agents if it is the first. |
| ProvGraph.DurationRecoverable | c/provio/provio.c:409-440 | With distinct UUIDs, an operation's node has exactly one elapsed time in the graph, the one recorded. |
| ProvGraph.ApiNodeInjective | c/provio/provio.c:75-82 | Operation nodes are equal only for the same call and UUID. |
| InfoString.RoundTripIff | c/vol-provenance/H5VLprovnc.c:2263-2398 | For stacks of any depth, any opaque text with braces and semicolons, and any uninitialised bytes: parsing the printed text gives the same information if and only if the settings survive at every level. |
| InfoString.RoundTrip | c/vol-provenance/H5VLprovnc.c:2345-2398 | With those bytes zero: if and only if the paths and formats are free of ";", "}" and white space and fit the fixed buffers. |
| InfoString.SettingsIff | c/vol-provenance/H5VLprovnc.c:2306-2332 | Any settings after the last brace are read back by tokens and scanf if and only if they are free of ";" and white space and fit the fixed buffers, with what follows them. |
| InfoString.ParsePrinted | c/vol-provenance/H5VLprovnc.c:2345-2398 | First and last brace found in a printed text are the outer ones, so the nested text and settings are those printed. |
| InfoString.StrayByteBreaks | c/vol-provenance/H5VLprovnc.c:2366-2369 | Every stray byte but NUL, ";" and white space loses the configuration of a nested connector. |
| InfoString.ParsedIsClean | c/vol-provenance/H5VLprovnc.c:2306-2332 | Whatever text is parsed, the path and format read have no ";", "}" or white space. |
| InfoString.PrintFitsIff | c/vol-provenance/H5VLprovnc.c:2263-2304 | The text and its NUL fit the allocation of 64 plus the lengths if and only if the two numerals have at most 18 characters. |
| InfoString.PrintFits | c/vol-provenance/H5VLprovnc.c:2263-2304 | They do for every level of the enumeration. |
| InfoText.PrintForm | c/vol-provenance/H5VLprovnc.c:2263-2304 | The text printed, character by character, with the numbers in decimal. |
| InfoText.SetupReads | c/vol-provenance/H5VLprovnc.c:2306-2332 | What provenance_file_setup makes of any text: when it can be read, and the path, level and format that it gives. |
| InfoText.NumberRead | c/vol-provenance/H5VLprovnc.c:2306-2332 | White space, sign and digits read by %d: exact in an int, -1 and 0 beyond the range of a long. |
| InfoText.NoNumberRead | c/vol-provenance/H5VLprovnc.c:2306-2332 | A level without digits is 0. |
| InfoText.ValueRead | c/vol-provenance/H5VLprovnc.c:2345-2398 | The number read by %u, up to and beyond 64 bits. |
| InfoText.ValueRefused | c/vol-provenance/H5VLprovnc.c:2345-2398 | Exactly which texts have no number to read. |
| InfoText.OpaqueGetsStray | c/vol-provenance/H5VLprovnc.c:2366-2369 | A connector of another kind gets its text and the uninitialised byte behind it. |
| InfoText.NextLevelGetsNext | c/vol-provenance/H5VLprovnc.c:2366-2369 | Each level of nesting has a byte of its own. |
| InfoText.WordBetween | c/vol-provenance/H5VLprovnc.c:2306-2332 | %s reads the first run of characters that are not white space. |
| InfoText.Spaces | c/vol-provenance/H5VLprovnc.c:2306-2332 | White space is the six characters of isspace. |
| InfoText.SeparatorsSkipped | c/vol-provenance/H5VLprovnc.c:2306-2332 | strtok skips separators in front. |
| InfoText.LastDigit | c/vol-provenance/H5VLprovnc.c:2263-2304 | Numerals are decimal. |
| TextScan.JoinedTokens | c/vol-provenance/H5VLprovnc.c:2306-2332 | strtok gives back the four parts of a text joined by ";". |
| Decimal.ReadsBack | c/vol-provenance/H5VLprovnc.c:2345-2398 | A printed numeral is read back as the same number. |
| InfoOrder.InfoCmp | c/vol-provenance/H5VLprovnc.c:2154-2208 | The comparison that overwrites its result and returns early is the lexicographic one, nested connectors included, for any comparison by other connectors. |
| InfoOrder.BelowDecides | c/vol-provenance/H5VLprovnc.c:2154-2208 | Below connectors of the same class missing information comes first; of two texts the other connector's comparison decides, in this order and with its sign; of two provenance connectors their own. |
| InfoOrder.FirstDifferenceDecides | c/vol-provenance/H5VLprovnc.c:2154-2208 | The class decides first; when it and what is below are equal, path, format and level decide in this order. |
| InfoOrder.InfoCmpIsTotalPreorder | c/vol-provenance/H5VLprovnc.c:2154-2208 | The corollary for levels of the enumeration: antisymmetric by sign and transitive, given that the other connectors' comparisons are. |
| InfoOrder.ZeroIffEqual | c/vol-provenance/H5VLprovnc.c:2154-2208 | Zero means equal in every part at every depth, for levels of any value, if it does for the other connectors. |
| InfoOrder.InfoCopy | c/vol-provenance/H5VLprovnc.c:2111-2139 | The structure filled field by field is the copy down the stack, for any copying by other connectors. |
| InfoOrder.CopyIsEqual | c/vol-provenance/H5VLprovnc.c:2111-2139 | A copy, as info_copy makes it, compares equal to its original if the copies of other connectors do. |
| InfoOrder.SignSwapsIff | c/vol-provenance/H5VLprovnc.c:2154-2208 | For levels of any value, swapping the arguments swaps the sign if and only if the deciding levels, if any, do not differ by 2^31 exactly. |
| InfoOrder.TransitiveUnlessOverflow | c/vol-provenance/H5VLprovnc.c:2154-2208 | For levels of any value, transitive wherever no deciding difference overflows. |
| InfoOrder.SignIff | c/vol-provenance/H5VLprovnc.c:2199-2203 | The result has the sign of the order on numbers if and only if no deciding difference of levels overflows. |
| InfoOrder.OrderChain | c/vol-provenance/H5VLprovnc.c:2154-2208 | With levels compared as numbers the comparison is transitive for all information, given that the other connectors' are preorders. |
| InfoOrder.OrderSignSwaps | c/vol-provenance/H5VLprovnc.c:2154-2208 | With levels compared as numbers, swapping the arguments swaps the sign. |
| InfoOrder.LevelsOverflow | c/vol-provenance/H5VLprovnc.c:2199-2203 | Two levels that the parser accepts and the comparison puts in the wrong order. |
| InfoOrder.StrCmpMeans | c/vol-provenance/H5VLprovnc.c:2187-2197 | Of two strings, a proper prefix comes first and otherwise the first difference decides. |

## Left out

- The block that rank 0 runs in file create and open to store provenance in the HDF5 file itself
  (`c/vol-provenance/H5VLprovnc.c:4094-4162` and `4290-4358`): it adds nodes that nothing removes.
- Group and datatype refresh (`4882-4891`, `3879-3888`), which use the wrapper after setting it to NULL,
  and a refresh of a file handle; the two refresh paths that save the underlying object first are
  modelled.
- Wrapper structs: a handle is represented by the record it leads to; callbacks that only pass through
  are one event, a new request handle. That HDF5 calls each callback with a live handle and releases it
  once is the condition `Enabled`.
- Names of files and objects, access times, `ds_accessed` and the counters that only move together with
  the modelled ones; overflow of the `int` counters.
- Builds without H5_HAVE_PARALLEL, which keep no counts of independent and collective transfers.
- `DatasetStats` holds the dimensions as a sequence instead of an array of 32 entries, and takes the
  rank of a new extent to be that of the dataset, as HDF5 requires.
- DurationTable.DurationTable.Get: asks that the name is stored or a slot is free, because the C loop
  does not end otherwise (`Probing.SearchEndsIff`); the same for SetEntry and Accumulate. Accumulate
  also asks that no two names share a cell, which it keeps: it allocates the cells that it stores.
- Freeing of value cells and stat_destroy; a table of capacity 0, whose first probe is out of bounds.
- The out-of-bounds NUL that str_to_info writes; the byte left uninitialised before it is modelled.
- NULL path or format in info_to_str and info_cmp; white space and signs that scanf accepts in front of
  the connector's number; the allocations of info_copy.
- The sizes of the prov_fields buffers, loading of an earlier graph file, output other than RDF, and
  provio_init, whose results are the names.
- Comparing connector classes beyond their number, and information of other connectors that has no text.
- Time measurement, MPI, files, printing, `c/provio/config.c`, the syscall wrapper, the benchmarks and
  the Python tools: input and output, or thin layers over libraries.
