# Verified model of the Apache httpd 2.4.25 core

This project models parts of the core of Apache httpd 2.4.25 and proves what they promise: the network
filters of a connection, the end-of-request bucket, the configuration reader, the module table, the
listening sockets, the generations of children and the provider registry. Every result holds for all
inputs, and most for all runs. `dafny verify dfyconfig.toml` checks the whole project.

Where the source changes state step by step, there are two layers: functions on values that say what a
step does, with the theorems about them, and classes whose methods do the work in place (loops, cursors,
linked nodes, arrays) and are proved to do what the functions say.

- `Buckets`, `OutputModel`, `OutputProofs`, `OutputRuns`, `OutputExact`, `OutputOrder`, `OutputCalls`, `OutputFilter`: the output filter. A brigade is
  a sequence of buckets, held in a mutable object; the socket is a list of answers, one for each system
  call, that may accept any part of what it is given. The relation `Drains` says that going from one state
  to another neither loses, repeats nor reorders a byte and ends no request early; each function of
  `core_filters.c` is shown to keep it, up to the invariant of the whole connection over every run.
  `OutputExact` shows that the one condition this needs is exact. `OutputOrder` follows what does not need it, the
  order of request ends, through the same functions when vector and brigade are out of step. `OutputCalls` lists the
  socket calls, reads and polls of a call to the filter, and says by them when a connection is given up.
- `InputFilter`: the modes READBYTES and SPECULATIVE. `EorBucket`: buckets, pools and cleanups.
  `RequestEnds`: output filter and EOR buckets together, from brigade to request log.
- `ConfigModel`, `ConfigProofs`, `ConfigErrors`: builder and skipper on tokenised lines, next to a recursive-descent reading and
  a one-pass judge of errors.
  `ConfigTree`, `ConfigBuilder`: the same builder on nodes linked by `next`, `first_child` and `parent`.
- `Includes`: the expansion of an Include name. `ModuleTable`, `CommandIndex`: modules, slots, commands.
  `LogLevels`: merging of log levels.
- `Listeners`, `Generations`, `Providers`: small state machines over lists, rings and hashes.
- `Wrappers`, `Sequences`: the option type, and how concatenations are taken apart.

What the model takes as given:

- A successful send of a positive number of bytes takes at least one; `sendv` may take bytes and report an
  error as well; a `sendfile` that fails takes none. When the list of answers is used up, calls fail, so
  that every finite behaviour of a socket is covered.
- `ap_save_brigade` is concatenation, as its documentation says.
- An unknown-length bucket delivers chunks of at least one byte, may say that it would block, and reads as
  an empty bucket when it ends. Conservation then needs a condition on the brigade that a caller can check
  by its buckets alone: between two unknown-length buckets there is a byte, or there are at least 15 data
  buckets (`OutputModel.Safe`, a safe shape below). `SafeIsExact` shows that it is needed: otherwise the vector can be
  hollow, `writev_nonblocking` removes nothing, and at the retry of a read that would block the vector and the
  brigade fall out of step, so that bytes are sent twice.
- A section run on read is a conditional one (`<IfModule>`, `<IfDefine>`, core.c:2702-2738); whether its
  condition holds is part of the token.
- What the resolver finds, which sockets bind, which are dual-stack, which files have errors and which
  names a wildcard matches are parameters.

Where code and comments differ, the model follows the code (core_filters.c:430-470 and 482-540): rule 2c
speaks of fewer than the maximum of requests in a pipeline, while the code flushes only when there are more
than 5, so that 5 EOR buckets may stay; rules 2b and 2c name a connection state the code does not look at; and
rule 2d speaks of reading a morphing bucket to see whether it fits, while the code flushes up to it.

## Model

| member | source | states |
|---|---|---|
| `OutputRuns.BytesConserved` | RESEAU/httpd-2.4.25/server/core_filters.c:371-570 | Over every run of calls (new brigades, all of a safe shape, and write completions) against any socket answers: bytes on the wire followed by bytes buffered are exactly the bytes passed in; after an abort the wire is a prefix of them |
| `OutputRuns.RunKeeps` | RESEAU/httpd-2.4.25/server/core_filters.c:371-603 | After every run of calls with brigades of a safe shape the whole connection invariant holds: what every brigade keeps, and conservation |
| `OutputRuns.RunKeepsOrder` | RESEAU/httpd-2.4.25/server/core_filters.c:371-603 | After every run of calls, whatever the brigades: requests have ended in order, none early and none more often than its EOR bucket was queued, aborts included, and the buffer is bounded |
| `OutputRuns.CallKeepsOrder` | RESEAU/httpd-2.4.25/server/core_filters.c:371-603 | One call keeps that, whatever the brigade, the socket and the outcome |
| `OutputRuns.FilterKeeps` | RESEAU/httpd-2.4.25/server/core_filters.c:371-603 | One call with a brigade of a safe shape keeps the whole invariant, whatever the socket and the outcome |
| `OutputRuns.EndsInOrder` | RESEAU/httpd-2.4.25/server/core_filters.c:785-812 | Whatever the brigades, also those for which bytes are repeated: without an abort, EOR buckets are destroyed in the order they were queued, and none before the wire was as long as all that was queued ahead of it, which it then still is |
| `OutputRuns.EndsAccounted` | RESEAU/httpd-2.4.25/server/core_filters.c:371-603 | Over every run, whatever the brigades, aborts included: for every request, the ends seen and the EOR buckets still held are together as many as the EOR buckets queued |
| `OutputCalls.AbortsExactly` | RESEAU/httpd-2.4.25/server/core_filters.c:371-570 | A call on a live connection aborts it, and returns an error, if and only if one of the socket calls, reads and polls it made ended in something other than success or, for all but a poll, would-block (an interrupted poll is made again; the first failure of a write counts) |
| `OutputCalls.SlowIsKept` | RESEAU/httpd-2.4.25/server/core_filters.c:470-479 | When every socket call made succeeds or would block, every poll succeeds, and no stream is broken, the call succeeds and the connection is kept: a slow client is never dropped |
| `OutputCalls.AbortedStays` | RESEAU/httpd-2.4.25/server/core_filters.c:384-389 | A connection given up stays so, and the socket is not touched again |
| `OutputCalls.AnswersInTurn` | RESEAU/httpd-2.4.25/server/core_filters.c:615-887 | The calls made are those the socket answered, one answer each, in order and none passed over |
| `OutputCalls.EverySendBrings` | RESEAU/httpd-2.4.25/server/core_filters.c:761-887 | The wire grows by at least a byte for every send that succeeded |
| `OutputCalls.WriteIsTried` | RESEAU/httpd-2.4.25/server/core_filters.c:470-479 | A send is made, or a call ends in something other than success, at write completion whenever anything is buffered, and with a brigade whenever what follows the part that must go holds 4096 bytes |
| `OutputRuns.BufferBounded` | RESEAU/httpd-2.4.25/server/core_filters.c:403-603 | Over every run, whatever the brigades: between calls the buffer holds no FLUSH and no unknown-length bucket, at most 5 EOR buckets and fewer than 65536 bytes not from files; it is empty or starts with a byte to send, and without an abort `data_in_output_filters` is set exactly when it is not empty |
| `OutputRuns.FlushIsHonoured` | RESEAU/httpd-2.4.25/server/core_filters.c:482-556 | A successful call with a brigade of a safe shape has put on the wire everything up to and including the last FLUSH or unknown-length bucket |
| `OutputRuns.SmallOutputIsKept` | RESEAU/httpd-2.4.25/server/core_filters.c:482-570 | Without a reason to write and below the minimum, everything is kept and the socket is not touched |
| `OutputRuns.HollowVectorStays` | RESEAU/httpd-2.4.25/server/core_filters.c:761-825 | A successful write of the vector removes the vectored buckets if and only if the vector holds a byte |
| `OutputExact.SafeIsExact` | RESEAU/httpd-2.4.25/server/core_filters.c:371-713 | The condition on brigades is exact: whatever the futures of its unknown-length buckets and the answers of the socket, a call with a brigade of the shape conserves bytes, if and only if between any two unknown-length buckets there is a byte or there are at least 15 data buckets |
| `OutputExact.UnsafeShapeFails` | RESEAU/httpd-2.4.25/server/core_filters.c:656-700 | For every brigade that is not of such a shape: one that differs only in what the unknown-length buckets will deliver, and a socket that takes all it is given, for which the call ends without abort with bytes repeated |
| `RequestEnds.LoggedWhenSent` | RESEAU/httpd-2.4.25/server/core_filters.c:371-603 | Output filter and EOR buckets together, over every run without an abort, whatever the brigades, with one EOR bucket for a request: the requests logged are the first of those queued, in order, each logged once and its pool destroyed once, when the wire was as long as all that was queued ahead; all others have their pool still |
| `RequestEnds.AllLogged` | RESEAU/httpd-2.4.25/server/core_filters.c:371-603 | Once nothing is buffered after such a run, every request whose EOR bucket was queued has been logged, in order, and no pool is left |
| `RequestEnds.AtMostOnce` | RESEAU/httpd-2.4.25/server/eor_bucket.c:22-92 | Over every run, aborts included, and with pools destroyed by themselves at any time in between: a request is logged once and its pool destroyed once if its EOR bucket or its pool has been destroyed, and otherwise neither |
| `RequestEnds.TableAfter` | RESEAU/httpd-2.4.25/server/eor_bucket.c:22-92 | After every such run the buckets and pools alive are those of the EOR buckets still queued, each pool with the cleanup of its bucket |
| `OutputOrder.RetireFollows` | RESEAU/httpd-2.4.25/server/core_filters.c:785-815 | The inner loop, in step or out of step: no request is ended before the wire is as long as what lay ahead of it |
| `OutputOrder.GatherLeads` | RESEAU/httpd-2.4.25/server/core_filters.c:615-713 | From any point of the loop over any brigade, the pass ends requests in order and none early |
| `OutputOrder.SendPassFollows` | RESEAU/httpd-2.4.25/server/core_filters.c:615-713 | So does a whole nonblocking pass over any brigade |
| `OutputOrder.SendAllFollows` | RESEAU/httpd-2.4.25/server/core_filters.c:724-759 | So does the blocking send of any brigade |
| `OutputProofs.RetireKeepsStep` | RESEAU/httpd-2.4.25/server/core_filters.c:785-815 | Through any partial send the unsent tail of the vector stays, in order, the contents of the first data buckets of the brigade; metadata behind the last of them is never touched |
| `OutputProofs.WriteLoopDrains` | RESEAU/httpd-2.4.25/server/core_filters.c:761-825 | The write loop loses and repeats nothing; success removes exactly the vectored buckets and the metadata before the last of them, unless the vector is hollow, and then nothing |
| `OutputProofs.SendFileAndStopDrains` | RESEAU/httpd-2.4.25/server/core_filters.c:829-887 | Sending from a file loses and repeats nothing |
| `OutputProofs.GatherDrains` | RESEAU/httpd-2.4.25/server/core_filters.c:615-713 | From any point of the loop over a brigade of a safe shape, the pass loses, repeats and reorders nothing |
| `OutputProofs.SendPassDrains` | RESEAU/httpd-2.4.25/server/core_filters.c:615-713 | So does a whole nonblocking pass, and the brigade stays one it may be called with |
| `OutputProofs.SendAllDrains` | RESEAU/httpd-2.4.25/server/core_filters.c:724-759 | So does the blocking send; on success all of the brigade is on the wire |
| `OutputProofs.StripDrains` | RESEAU/httpd-2.4.25/server/core_filters.c:715-722 | Removing leading empty and metadata buckets loses no byte and ends requests only when they are due |
| `OutputFilter.Connection.CoreOutputFilter` | RESEAU/httpd-2.4.25/server/core_filters.c:371-570 | On any brigade, the filter on mutable brigades and counters does what the specification says, keeps order of request ends and bounds of the buffer, and `bytes_written` stays the length of the wire; with a brigade of a safe shape it keeps conservation |
| `OutputFilter.Connection.ScanBrigade` | RESEAU/httpd-2.4.25/server/core_filters.c:482-534 | The scan for what must be written now |
| `OutputFilter.Connection.SetAsideRemaining` | RESEAU/httpd-2.4.25/server/core_filters.c:576-603 | What is kept for later, and the flag |
| `OutputFilter.Connection.SendBrigadeNonblocking` | RESEAU/httpd-2.4.25/server/core_filters.c:615-713 | The pass with its vector and cursor over the mutable brigade |
| `OutputFilter.Connection.RemoveEmptyBuckets` | RESEAU/httpd-2.4.25/server/core_filters.c:715-722 | In place |
| `OutputFilter.Connection.SendBrigadeBlocking` | RESEAU/httpd-2.4.25/server/core_filters.c:724-759 | The loop around pass and poll |
| `OutputFilter.Connection.WritevNonblocking` | RESEAU/httpd-2.4.25/server/core_filters.c:761-825 | The vector advanced and buckets taken from the brigade as the specification says, in step or, behind a hollow vector, not |
| `OutputFilter.Connection.SendfileNonblocking` | RESEAU/httpd-2.4.25/server/core_filters.c:829-887 | The file bucket shortened or deleted |
| `OutputFilter.Serve` | RESEAU/httpd-2.4.25/server/core_filters.c:371-570 | Any series of calls with any brigades on one connection ends in the state the specification says, with requests ended in order and the buffer bounded, and with bytes conserved if the brigades are of a safe shape |
| `InputFilter.InputConserved` | RESEAU/httpd-2.4.25/server/core_filters.c:229-328 | Over any run of reads and peeks: what was handed out, followed by what is pending and what the socket has still to bring, is what the socket had to bring |
| `InputFilter.CallKeeps` | RESEAU/httpd-2.4.25/server/core_filters.c:117-328 | One call hands out at most `readbytes` bytes; a peek leaves all bytes pending and shows a prefix of them |
| `InputFilter.PeekThenRead` | RESEAU/httpd-2.4.25/server/core_filters.c:229-328 | A READBYTES after a SPECULATIVE of the same size returns a string that starts with the peeked bytes |
| `InputFilter.GivesExactly` | RESEAU/httpd-2.4.25/server/core_filters.c:229-328 | A call that asks for bytes gets at least one if and only if bytes have been read already or the socket brings some, for a blocking call once it has waited |
| `InputFilter.ReplyIs` | RESEAU/httpd-2.4.25/server/core_filters.c:117-328 | Status, bytes and EOS of every call, from what is pending alone: end of file when no piece is left; an error when the socket is met first and is broken, for a blocking call once waited for; as many bytes as are asked for of those that can be had without waiting, but for the first wait of a blocking call, what is in memory and what the socket has ready joined; EOS only for a blocking read that meets the end first |
| `InputFilter.StatusIs` | RESEAU/httpd-2.4.25/server/core_filters.c:237-241 | An error if and only if the socket is met first and is broken; a call that would block returns success without a byte and without EOS, and leaves all as it was |
| `InputFilter.EndIsTheEnd` | RESEAU/httpd-2.4.25/server/core_filters.c:229-258 | EOS and end of file are reported only when nothing is left; a blocking read that gets no byte leaves none, and one that succeeds without EOS gets one |
| `InputFilter.EndComesLast` | RESEAU/httpd-2.4.25/server/core_filters.c:117-258 | Over any run from a fresh connection, EOS and end of file are reported only when all that the socket had to bring has been handed out |
| `InputFilter.EndIsKept` | RESEAU/httpd-2.4.25/server/core_filters.c:229-328 | No call changes whether the connection ends in an error: none is taken for an end, nor forgotten once reported |
| `InputFilter.EndAsItCame` | RESEAU/httpd-2.4.25/server/core_filters.c:229-258 | After any run that leaves nothing to come, a blocking read reports an error if the socket was to end in one, and otherwise end of stream or end of file |
| `InputFilter.ReadsDeliver` | RESEAU/httpd-2.4.25/server/core_filters.c:229-328 | Any number of blocking reads hands out as many bytes at least, or all there are |
| `InputFilter.CoreInput.CoreInputFilter` | RESEAU/httpd-2.4.25/server/core_filters.c:93-328 | The filter on its mutable brigade does what the specification says |
| `InputFilter.CoreInput.RemoveEmpty` | RESEAU/httpd-2.4.25/server/core_filters.c:60-74 | The loop that drops empty buckets |
| `InputFilter.CoreInput.CountMore` | RESEAU/httpd-2.4.25/server/core_filters.c:263-293 | The greedy count of further bytes |
| `EorBucket.LoggedOnce` | RESEAU/httpd-2.4.25/server/eor_bucket.c:22-102 | Over every history of buckets created, copied and destroyed and pools destroyed: once its pool has gone, whichever way, a request has been logged as often as buckets were created for it, before that not; the pool has been destroyed once, and once more for every copy destroyed after it had gone |
| `EorBucket.LoggedOnceExactly` | RESEAU/httpd-2.4.25/server/eor_bucket.c:22-82 | No request is logged twice if and only if none whose pool has gone had a second bucket created for it |
| `EorBucket.DestroyedOnceExactly` | RESEAU/httpd-2.4.25/server/eor_bucket.c:84-102 | No pool is destroyed twice if and only if no copy outlives the pool of its request and is then destroyed |
| `EorBucket.Memory.EorCleanup` | RESEAU/httpd-2.4.25/server/eor_bucket.c:22-41 | The cleanup clears the bucket and logs |
| `EorBucket.Memory.EorCreate` | RESEAU/httpd-2.4.25/server/eor_bucket.c:61-82 | A bucket is made and its cleanup registered; the state stays that of the history |
| `EorBucket.Memory.BucketCopy` | RESEAU/httpd-2.4.25/server/eor_bucket.c:94-102 | A simple copy holds the same request and has no cleanup of its own |
| `EorBucket.Memory.BucketDestroy` | RESEAU/httpd-2.4.25/server/eor_bucket.c:84-92 | Destroying a bucket destroys the pool it still holds, and runs the cleanups registered there |
| `EorBucket.Memory.RequestEnd` | RESEAU/httpd-2.4.25/server/eor_bucket.c:22-41 | A pool destroyed by itself; the state stays that of the history |
| `ConfigProofs.ParsePrintRoundTrip` | RESEAU/httpd-2.4.25/server/config.c:1096-1228 | Without sections run on read: the builder succeeds with a forest if and only if the lines, without blanks and the case of closing names, are the print of that forest |
| `ConfigErrors.ErrorsExactly` | RESEAU/httpd-2.4.25/server/config.c:1096-1445 | Builder and skipper, with all their recursion, accept a file if and only if one pass with a stack of what is open does, and otherwise give its error: a closing line with nothing open, or of another name than the innermost open section but for the case of letters (a closing line without a section, inside one run on read); a section passed over that the file does not end; or the sections left open, innermost first, but for those inside one run on read |
| `ConfigProofs.BuilderIsDescent` | RESEAU/httpd-2.4.25/server/config.c:1369-1445 | With conditional sections: the builder with its two cursors gives what recursive descent gives, if and only if every conditional section is closed |
| `ConfigProofs.UnclosedConditionalAccepted` | RESEAU/httpd-2.4.25/server/config.c:1233-1278 | A conditional section, and a section in it, that the file never closes are accepted |
| `ConfigProofs.SkipperAgreesWithBuilder` | RESEAU/httpd-2.4.25/server/config.c:1611-1660 | The skipper succeeds if and only if the builder, run on the same section, succeeds and sees its end, and then both consume the same lines, conditional sections inside included |
| `ConfigProofs.SoakIsDescend` | RESEAU/httpd-2.4.25/server/config.c:1611-1660 | The skipper succeeds exactly when a balanced block and its matching close come next |
| `ConfigProofs.FilesAppend` | RESEAU/httpd-2.4.25/server/config.c:1385-1405 | A file read behind any tree already there is accepted or refused as it would be by itself, and its forest comes behind what is there, conditional sections that run into the end of the file included |
| `ConfigProofs.SameNameIs` | RESEAU/httpd-2.4.25/server/config.c:1208-1214 | Two names are the same if and only if they are of one length and, at each index, equal or one ASCII letter in its two cases |
| `ConfigProofs.SkippedCloseIs` | RESEAU/httpd-2.4.25/server/config.c:1625-1642 | A closing line for the skipper: the end of the section if the name is like its own, else an error with both names |
| `ConfigProofs.OneSectionIs` | RESEAU/httpd-2.4.25/server/config.c:1096-1228 | A file of one section and a closing line is accepted if and only if the names are alike, as in `<Directory>` and `</directory>` |
| `ConfigProofs.UnclosedAre` | RESEAU/httpd-2.4.25/server/config.c:1426-1441 | The sections reported as not closed are the open ones, innermost first |
| `ConfigTree.Plan` | RESEAU/httpd-2.4.25/server/util_cfgtree.c:20-44 | Adding a node gives pointers of the forest with that node at the builder's place |
| `ConfigTree.PlanSplice` | RESEAU/httpd-2.4.25/server/config.c:1148-1176 | Splicing a whole sub-forest gives pointers of the forest with those trees at the builder's place |
| `ConfigTree.PlanClose` | RESEAU/httpd-2.4.25/server/config.c:1218-1220 | Moving up a level changes no pointer |
| `ConfigTree.ParentOfOpen` | RESEAU/httpd-2.4.25/server/config.c:1218-1220 | The parent chain of the builder is the stack of open sections |
| `ConfigTree.ReachedOnce` | RESEAU/httpd-2.4.25/server/config.c:1096-1228 | Every node is in one list of siblings only, in one place, under its own parent |
| `ConfigTree.ReachedExactlyOnce` | RESEAU/httpd-2.4.25/server/config.c:1096-1228 | Every node of the tree is reached from the top level along `first_child` and `next`, and by one way only |
| `ConfigBuilder.AddNode` | RESEAU/httpd-2.4.25/server/util_cfgtree.c:20-44 | The pointers are written as planned, and the cursors moved |
| `ConfigBuilder.TakeIn` | RESEAU/httpd-2.4.25/server/config.c:1148-1176 | The splice: hung behind `current` or under the parent, then walked to its end with `parent` set on the way |
| `ConfigBuilder.BuildConfigSub` | RESEAU/httpd-2.4.25/server/config.c:1096-1228 | One line on the pointer tree does what the specification says, and the pointers keep the shape of a forest |
| `ConfigBuilder.BuildContConfig` | RESEAU/httpd-2.4.25/server/config.c:1233-1278 | The lines of a section run on read, in a fresh forest |
| `ConfigBuilder.BuildConfig` | RESEAU/httpd-2.4.25/server/config.c:1369-1445 | A whole file behind what the tree holds; the `last` shortcut stays on the chain of top-level nodes, which only grows |
| `ConfigBuilder.FindLast` | RESEAU/httpd-2.4.25/server/config.c:1385-1405 | The `last` shortcut and the walk from it end at the last top-level node |
| `ConfigBuilder.ListUnclosed` | RESEAU/httpd-2.4.25/server/config.c:1426-1441 | The walk up names the open sections, innermost first |
| `ConfigBuilder.SoakEndContainer` | RESEAU/httpd-2.4.25/server/config.c:1611-1660 | The skipper on the file does what the specification says |
| `ConfigBuilder.Flatten` | RESEAU/httpd-2.4.25/include/util_cfgtree.h:46-67 | An observer of this project, not a function of the source: following the fields `next` and `first_child` gives the print of the forest |
| `ConfigBuilder.ReadBack` | RESEAU/httpd-2.4.25/server/config.c:1369-1445 | A file built into pointers and read back by that observer gives its lines again |
| `Includes.ExpansionExact` | RESEAU/httpd-2.4.25/server/config.c:1885-2064 | Without an error, the files gone through are exactly those the name with its wildcards stands for |
| `Includes.ExpansionSucceeds` | RESEAU/httpd-2.4.25/server/config.c:1885-2064 | There is no error if and only if, along every way the parts allow, each literal part is there, each wildcard is in a directory that can be opened and matches or is optional, and all that the parts stand for can be read |
| `Includes.VisitSucceeds` | RESEAU/httpd-2.4.25/server/config.c:1885-1956 | A directory is gone through without an error if and only if every directory that can be reached in it can be opened and lies fewer than 128 levels deep, and every file can be read |
| `Includes.ExpansionOrdered` | RESEAU/httpd-2.4.25/server/config.c:1885-2064 | They come in the order of their paths, part by part, so none comes twice |
| `Includes.CycleIsAnError` | RESEAU/httpd-2.4.25/server/config.c:1885-1956 | A directory that can be reached from itself ends in an error |
| `Includes.NoneTooDeep` | RESEAU/httpd-2.4.25/server/config.c:1903-1908 | Without an error no directory lies 128 levels deep or more |
| `Includes.ErrorTells` | RESEAU/httpd-2.4.25/server/config.c:1885-2064 | The error of an expansion is that of something the name leads to: a literal part that is not there, a wildcard in what cannot be opened, a required wildcard without a match, or a fault in what is gone through |
| `Includes.VisitErrorTells` | RESEAU/httpd-2.4.25/server/config.c:1885-1956 | The error of a directory gone through is the fault of a file or directory in it: a bad file, a directory that cannot be opened, or one 128 levels deep |
| `Includes.LessIs` | RESEAU/httpd-2.4.25/server/config.c:1785-1791 | The order of names is that of `strcmp`: at the first index where they differ the smaller character, or the end, comes first |
| `Includes.RealIs` | RESEAU/httpd-2.4.25/server/config.c:1918-1926 | All entries but `.` and `..` are gone through |
| `Includes.PickedIs` | RESEAU/httpd-2.4.25/server/config.c:2006-2022 | The entries picked are those that match, and in the middle of a path only directories |
| `Includes.ExpansionStops` | RESEAU/httpd-2.4.25/server/config.c:1935-1951 | The first error ends it: every file gone through is one the name stands for, only the last can be one with an error, and the error reported is that of a file exactly when it is; what is gone through is the beginning of what would be without such files, and all of it, with the same outcome, if and only if none of them has an error |
| `Includes.Loader.ProcessNoFnmatch` | RESEAU/httpd-2.4.25/server/config.c:1885-1956 | The recursion over directories |
| `Includes.Loader.ProcessFnmatch` | RESEAU/httpd-2.4.25/server/config.c:1958-2064 | The recursion over the parts of the name |
| `ModuleTable.TableSound` | RESEAU/httpd-2.4.25/server/config.c:549-807 | After the set-up and any loading and unloading last in first out: slots are 0 to total-1 without repeat, vectors are long enough for all modules and the end mark, and every linked module with a symbol name, and no other slot, has its merge function in the cache |
| `ModuleTable.TableStands` | RESEAU/httpd-2.4.25/server/config.c:549-752 | Under such operations the whole table is a function of the modules loaded |
| `ModuleTable.MergeByCache` | RESEAU/httpd-2.4.25/server/config.c:286-310 | The merge loop over slots equals a merge along the linked list, if and only if the module at the slot has no merge function or a symbol name was known for it when it was added |
| `ModuleTable.ChainIs` | RESEAU/httpd-2.4.25/server/config.c:286-310 | Merging a chain of directories, outermost first: a slot none of them sets stays empty; without a cached function it holds the last value set; with one it is that function folded over the values set, the older always as base and the newer as override |
| `ModuleTable.UnloadOutOfOrder` | RESEAU/httpd-2.4.25/server/config.c:645-692 | In the table as it is after the set-up and any run: one module unloaded and another loaded, two modules share a slot if and only if the one unloaded was not the last loaded |
| `ModuleTable.LoadsUpToLimit` | RESEAU/httpd-2.4.25/server/config.c:564-579 | After the set-up and any run: a new module is refused, for the limit, if and only if as many are loaded as the limit allows, a known one never, and the slots never run out |
| `ModuleTable.LoadedAgain` | RESEAU/httpd-2.4.25/server/config.c:653-752 | In the table as it is after the set-up and any run: a loaded module unloaded and loaded again is in the list of modules if and only if it was the last loaded, or the first with no module in the list from the start |
| `ModuleTable.Registry.AddModule` | RESEAU/httpd-2.4.25/server/config.c:549-643 | Slot, list and, for a module with a symbol name, cache updated; a module that is in the list, and not its last, stays where it is |
| `ModuleTable.Registry.AddLoadedModule` | RESEAU/httpd-2.4.25/server/config.c:694-722 | The module added and put behind those loaded; the table stays that of the run so far, and sound |
| `ModuleTable.Registry.RemoveLoadedModule` | RESEAU/httpd-2.4.25/server/config.c:724-752 | Any module taken out of the table and of the list of loaded modules |
| `ModuleTable.Registry.UnloadLast` | RESEAU/httpd-2.4.25/server/config.c:724-752 | For the module loaded last the table stays that of the run so far, and sound |
| `ModuleTable.Registry.RemoveModule` | RESEAU/httpd-2.4.25/server/config.c:653-692 | The module found and taken out |
| `ModuleTable.CloseUp` | RESEAU/httpd-2.4.25/server/config.c:724-752 | The loaded modules moved up over the first occurrence |
| `ModuleTable.Registry.MergePerDirConfigs` | RESEAU/httpd-2.4.25/server/config.c:286-310 | The loop over slots: the base where the override sets nothing, the override where the base sets nothing or no function is cached, and otherwise the cached function of base and override in that order |
| `CommandIndex.IndexIsComplete` | RESEAU/httpd-2.4.25/server/config.c:517-544 | Under every lower-cased name the hash lists exactly the commands of that name, newest module first |
| `CommandIndex.HashAgreesWithScan` | RESEAU/httpd-2.4.25/server/config.c:1039-1066 | Hash and linear search name the same module for every name, and the same command if and only if that module does not repeat the name with another one |
| `CommandIndex.FindIsFirst` | RESEAU/httpd-2.4.25/server/config.c:1039-1050 | The command found is the first whose name is alike but for the case of letters, and none is found if and only if there is none |
| `CommandIndex.FiledUnder` | RESEAU/httpd-2.4.25/server/config.c:517-544 | A command is filed under the lower case of a name if and only if its own name is alike but for the case of letters |
| `CommandIndex.RepeatedNameDiffers` | RESEAU/httpd-2.4.25/server/config.c:517-544 | A module with two commands of one name: the hash gives the second, the search the first |
| `CommandIndex.ConfigHash.AddModuleCommands` | RESEAU/httpd-2.4.25/server/config.c:517-544 | The hash as a module's commands are added |
| `CommandIndex.FindCommandInModules` | RESEAU/httpd-2.4.25/server/config.c:1052-1066 | The search |
| `Listeners.EveryListenerServed` | RESEAU/httpd-2.4.25/server/listen.c:397-520 | For a list without a hazard, a successful open leaves only active records, as many as counted, none made up or doubled; every record is among them, or is a 0.0.0.0 covered by a dual `::`, or a `::` that did not bind and whose port keeps its 0.0.0.0 |
| `Listeners.CoverageIsExact` | RESEAU/httpd-2.4.25/server/listen.c:397-520 | That holds whatever binds and whatever is dual-stack, if and only if the list has no hazard: no open `::` before which the swaps bring an idle 0.0.0.0 of its port, and no idle `::` next to such a 0.0.0.0 with another `::` of the port ahead of it |
| `Listeners.PlainOpens` | RESEAU/httpd-2.4.25/server/listen.c:397-520 | Without wildcard addresses: the open succeeds if and only if every record that is not open binds, and then all are open, in order |
| `Listeners.OpensExactly` | RESEAU/httpd-2.4.25/server/listen.c:397-520 | For a list without a hazard, in terms of addresses alone: the open succeeds if and only if every record that is not open binds, but for a 0.0.0.0 with a dual `::` of its port that is open in the end ahead of it or in the run of `::` next to it, and a `::` with a 0.0.0.0 of its port next to it or, idle, ahead of a run of `::` |
| `Listeners.StayExactly` | RESEAU/httpd-2.4.25/server/listen.c:397-520 | After such an open exactly those records are in the list that were open or bind, but for each 0.0.0.0 that a dual `::` takes in |
| `Listeners.AllBindOpens` | RESEAU/httpd-2.4.25/server/listen.c:397-520 | Where every socket binds the open succeeds |
| `Listeners.AllocIs` | RESEAU/httpd-2.4.25/server/listen.c:280-381 | The outcome of a Listen directive: a slave clash if and only if old records have its address and the last of them has another slave; a failed set-up if and only if none has its address, and the resolver fails or an address lacks a socket it cannot do without |
| `Listeners.AllocAdds` | RESEAU/httpd-2.4.25/server/listen.c:335-379 | A new address that succeeds adds behind the list one idle record for each candidate with a socket, in the order of the resolver, with its address, its socket and the slave of the directive |
| `Listeners.UnchangedIsFine` | RESEAU/httpd-2.4.25/server/listen.c:280-381 | When every directive has an old record of its address, all of its slave, and no address is asked for twice, all directives succeed, and no record is made or lost |
| `Listeners.RestartHandsOver` | RESEAU/httpd-2.4.25/server/listen.c:280-381 | After any Listen directives, old records are divided between the two lists, those moved lie ahead of all new ones, and those no directive asks for stay, in order |
| `Listeners.RestartKeepsSockets` | RESEAU/httpd-2.4.25/server/listen.c:522-524 | After a restart whose open succeeds, an old record still configured is open with its socket as it was, and the others are those closed |
| `Listeners.ListenerTable.AllocListener` | RESEAU/httpd-2.4.25/server/listen.c:280-381 | The walk through the old listeners and the creation of new ones |
| `Listeners.ListenerTable.OpenListeners` | RESEAU/httpd-2.4.25/server/listen.c:397-558 | The loop with its `previous` cursor, and the old listeners closed |
| `Listeners.ListenerTable.CloseFormer` | RESEAU/httpd-2.4.25/server/listen.c:728-735 | Every socket of the list closed once, in order |
| `Listeners.ListenerTable.Restart` | RESEAU/httpd-2.4.25/server/listen.c:280-761 | A restart as a whole (lists exchanged, directives, open): records still configured stay open on their sockets, the sockets closed are those no directive asks for, in order and once, and without a hazard all that is configured is served |
| `Generations.EndsOnce` | RESEAU/httpd-2.4.25/server/mpm_common.c:426-534 | In every run in which no child starts in a generation that is over and has none alive: the end of a generation has been announced exactly once if it had a child, is over and all its children have exited, and otherwise not at all |
| `Generations.NoneAlive` | RESEAU/httpd-2.4.25/server/mpm_common.c:426-534 | Never with a child alive |
| `Generations.RecordsArePeak` | RESEAU/httpd-2.4.25/server/mpm_common.c:493-507 | Records are neither lost nor doubled, and are as many as the most generations ever tracked at one time |
| `Generations.AnnouncedRightExactly` | RESEAU/httpd-2.4.25/server/mpm_common.c:426-534 | In a complete run with matched exits and each generation over at most once, the announcements are right at every moment if and only if no child starts in a generation that is over and has none alive |
| `Generations.LateChildNeverEnds` | RESEAU/httpd-2.4.25/server/mpm_common.c:435-463 | Over every run: a generation that is said to be over only before its first child starts is never announced |
| `Generations.Tracker.ChildStatus` | RESEAU/httpd-2.4.25/server/mpm_common.c:471-534 | A child starts, exits or loses its slot |
| `Generations.Tracker.GenerationOver` | RESEAU/httpd-2.4.25/server/mpm_common.c:435-463 | A generation is marked done |
| `Generations.Follow` | RESEAU/httpd-2.4.25/server/mpm_common.c:426-534 | Any run of events |
| `Providers.IndexesAgree` | RESEAU/httpd-2.4.25/server/provider.c:35-129 | The names listed and the names found agree if and only if what was last registered is not NULL; a lookup finds what was last registered |
| `Providers.PopulatedAre` | RESEAU/httpd-2.4.25/server/provider.c:167-197 | The groups and versions listed are exactly those something was registered for, and each has a name |
| `Providers.ProviderTable.RegisterProvider` | RESEAU/httpd-2.4.25/server/provider.c:35-101 | Both hashes updated, and still those of all that was registered |
| `Providers.ProviderTable.ListProviderNames` | RESEAU/httpd-2.4.25/server/provider.c:131-165 | Every name once |
| `Providers.ProviderTable.ListProviderGroups` | RESEAU/httpd-2.4.25/server/provider.c:167-197 | The two nested loops list every populated group and version once |
| `LogLevels.MergeAssociative` | RESEAU/httpd-2.4.25/server/config.c:2294-2315 | A chain of log configurations can be merged in either grouping |
| `LogLevels.EffectiveIsLastWord` | RESEAU/httpd-2.4.25/server/config.c:2294-2315 | The level in force after merging a chain is what was last said about the module, a main level forgetting module levels further out |
| `LogLevels.MergeLogConfig` | RESEAU/httpd-2.4.25/server/config.c:2294-2315 | The merge with its loop |

## Left out

- ConfigBuilder.BuildConfigSub: on an error nothing is said of the tree; the source still hangs in what it has, and then gives up.
- ModuleTable.Registry.AddModule: the last module of the list, added once more, makes the list a ring in the source; here it is put on top once more, and the list still ends.
- Listeners.ListenerTable.OpenListeners: a record without an address counts as no wildcard; the source would dereference it. Lists are sequences, and a `previous` that is no longer in the list is a flag.
- Listeners.CoverageIsExact: every record has a socket of its own, as `alloc_listener` makes them.
- EorBucket.LoggedOnce: histories in which an EOR bucket is created for a request whose pool has been destroyed already are not considered.
- LogLevels.MergeLogConfig: configurations are values; the source may share a vector of module levels between two of them.
- What lies in the brigades after an abort, beyond the wire being a prefix; the failure path of `ap_save_brigade` (util_filter.c); logging and `mod_logio`; the deferred write pool; poll timeouts and blocking reads that time out.
- The input modes GETLINE, EATCRLF and EXHAUSTIVE, and bucket copies that fail in SPECULATIVE mode.
- Tokenising of configuration lines, environment expansion, the texts of error messages, `.htaccess` caching and the calling of directives with their arguments.
- Nested Include directives inside the files gone through, and the special case of a missing main configuration file.
- Symbols, versions and short names of modules; trimming of the configuration vectors after start-up; hooks.
- Non-blocking options and accept filters of listening sockets, duplicated listener buckets, slaves beyond their clash with a listener.
- `main.c`, `connection.c`, `eoc_bucket.c`, `error_bucket.c`, the utilities and the PHP pages of the repository: they hold little state of their own, and nothing above depends on them.
