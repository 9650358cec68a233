# Verified models of OSNS

OSNS mounts remote filesystems over SSH: a FUSE client that browses a network, opens SSH connections and talks SFTP.
What can go wrong in it sits in a few small protocols between threads and in the formats it reads from the other side.
This project models those in Dafny and proves what they keep over every run and every input.

- **The lock on service contexts** (`ContextLock`). A packed word counts read units and two bits, for a write
  reservation and for write access. Proved for every interleaving of any number of threads: the word is exactly what the
  tokens hold, a reservation is not bypassed and leads to write access, and what a return value of 1 stands for.
- **Matching replies to requests** (`RequestTable`, `SftpExchange`, `SftpOperations`). Hash tables refine one list in order
  of arrival; waiting threads and receivers are steps of one state machine; every operation on a path or a handle
  ends in exactly one callback, and this is carried over every run of the state machine.
- **Reading a directory in the background** (`NameReply`, `DirectoryStream`). From the bytes of NAME replies to the queue
  of names, over any way the run ends, and with the start and end of the run by any number of threads.
- **Negotiation and packets of SFTP** (`Wire`, `Framing`, `VersionMessage`, `Extensions`), sections 4 and 5 of
  draft-ietf-secsh-filexfer-13.
- **The local wire format** (`OsnsBuffer`, `OsnsRecord`): two passes over the same writes, typed fields read back, lists of
  records.
- **Paths below a prefix** (`PathPrefix`), **the tree of contexts** (`ContextTree`) and **user authentication by the client**
  (`UserAuth`, sections 5.1 and 5.2 of RFC 4252).

Code that updates fields, lists or buffers in place is a class or a method on an array. Each such method is tied by its
`ensures` to a function on values, and the properties of runs are lemmas about these functions. Sending, receiving,
clocks, memory that may be missing and the choices of other threads are parameters, so that a lemma for all
parameters is a lemma for all environments.

To check the proofs use `dafny verify dfyconfig.toml` (Dafny 4.11).

## Where the code does not do what it is meant to

Each of these is shown by a run or an input, or a family of them, with a lemma that says for all runs or inputs exactly
when the code does what is meant.

- A write attempt that finds readers returns 1 although the caller holds a reservation only
  (`ContextLock.GrantedWrite`, `ContextLock.GrantedWriteBesideReader`).
- A read granted twice on one token leaves a unit in the word that nobody can release (`ContextLock.ReleasedLockIsFree`,
  `ContextLock.DoubleReadLeaks`).
- A wait for write access that fails does not give its reservation back (`ContextLock.FailedWaitKeepsReservation`,
  `ContextLock.FailedButReserved`). The only caller gives no time to expire (src/lib/context/lock.c:426), so that today the
  wait can fail by an error but not by a timeout.
- A reader that asks for write access on its own token reserves, is told 1, and from then on stands in its own way
  (`ContextLock.ReaderNeverUpgrades`, `ContextLock.ReaderAsksForWrite`).
- A request enters the table after it was sent, so a reply that is faster is dropped, and without a second one the request never
  finishes: it ends by timeout, interrupt, lost connection or error (`SftpExchange.ReplyReachesItsRequest`,
  `SftpExchange.EarlyReplyIsDropped`, `SftpExchange.NoAnswerNoFinish`).
- The table is shared by all clients, and every client counts its ids from 0: replies can cross
  (`SftpExchange.ReplyReachesExactly`, `SftpExchange.RepliesCrossClients`).
- A receiver can still hold a request whose thread has left, be it by timeout, interrupt, lost connection or sequence
  error (`SftpExchange.HeldAtReturn`, `SftpExchange.HeldAfterLeaving`).
- A thread whose request has failed, and that finds itself interrupted at its next check, goes back to sleep and is not
  woken: the status of a failed request still says that a reply is being handled (`SftpExchange.NoLostWakeup`,
  `SftpExchange.SleepsOnExactly`, `SftpExchange.FailureSleptThrough`).
- The length test of a packet is made in 32 bits and has no lower bound (`Framing.AcceptedLengths`).
- A VERSION message with a name that does not fit keeps the reading loop going for ever, and a last pair of at most 9
  bytes is not seen (`VersionMessage.StuckRunsForever`, `VersionMessage.WellFormedIsVisited`).
- Data of an announced extension that does not fit keeps its length without having memory, and is copied or read all the
  same (`VersionMessage.TruncatedDataFaults`, `VersionMessage.VisitIsTheRun`).
- An OSNS record that lacks one byte is handed over without data (`OsnsRecord.OneByteShort`).
- The macros of the flags of an open directory have no parentheses. Clearing the flag of the thread clears all lower
  flags too, among them the two that say that the listing broke off (`DirectoryStream.RemovedAlthoughBrokenOff`,
  `DirectoryStream.TimedOutAtOnce`).
- When an entry cannot be made its attributes stay unread, and the entry behind it is lost
  (`DirectoryStream.StepPassesOneRecord`, `DirectoryStream.FailedEntryHidesTheNext`).
- With the root as prefix the leading slash of a translated path is lost; a prefix with a slash at its end accepts none of
  its ordinary descendants; a prefix that is not absolute cannot be found back (`PathPrefix.RootLosesSlash`,
  `PathPrefix.TrailingSlash`, `PathPrefix.CustomRoundTrip`).
- A failure message that cannot be read, as the answer to the first authentication request, is taken for success, and a
  password that was accepted can be followed by one that is refused (`UserAuth.AcceptedWithoutSuccess`,
  `UserAuth.OneByteFailure`, `UserAuth.PasswordsDecided`, `UserAuth.AcceptedThenRefused`).

## Model

| member | source | states |
|---|---|---|
| `ContextLock.WordConservation` | src/lib/context/lock.c:49-235 | After any interleaving of attempts and releases the word is READ times the reading tokens plus the bits of at most one reserver and one writer, plus one unit per double read; a writer excludes readers |
| `ContextLock.RunKeepsAccounts` | src/lib/context/lock.c:49-235 | The same from any state whose word agrees with its tokens: every step of every run keeps that agreement |
| `ContextLock.ReleasedLockIsFree` | src/lib/context/lock.c:183-235 | With all tokens released the word is 0 if and only if no read was taken twice on one token |
| `ContextLock.DoubleReadLeaks` | src/lib/context/lock.c:151-203 | A run of two reads and one release on one token that leaves a unit in the word |
| `ContextLock.DoubleReadBlocksWriters` | src/lib/context/lock.c:171-177 | After a double read no later write attempt by anybody gets write access |
| `ContextLock.ReservationEnds` | src/lib/context/lock.c:69-145 | A reservation ends only by the release of its own thread or by its turning into write access |
| `ContextLock.ReservationIsNotBypassed` | src/lib/context/lock.c:69-145 | While a reservation stands, over any steps of any threads, the holders are those from before that did not release: nobody gains READ or WRITE and the readers never grow |
| `ContextLock.ReservedAttempt` | src/lib/context/lock.c:94-117 | The reserving thread gets write access if and only if no reader and no other writer is left |
| `ContextLock.ReservationLeadsToWrite` | src/lib/context/lock.c:69-145 | Once all holders from the time of the reservation have released, the next attempt of the reserving thread gets write access, whatever others do |
| `ContextLock.ReaderNeverUpgrades` | src/lib/context/lock.c:94-117 | A thread that holds READ and a reservation is refused at every attempt as long as it keeps both, over any steps of any threads |
| `ContextLock.ReaderAsksForWrite` | src/lib/context/lock.c:135-143 | A run of a read and a write attempt by one thread that ends there |
| `ContextLock.GrantedWrite` | src/lib/context/lock.c:135-143 | A write attempt that returns 1 owns write access if and only if the word did not show readers and neither bit; otherwise it holds a reservation beside all readers |
| `ContextLock.GrantedWriteBesideReader` | src/lib/context/lock.c:135-143 | A run in which 1 is returned to a writer while a reader is in |
| `ContextLock.SecondAttempt` | src/lib/context/lock.c:376-410 | A failed attempt that is repeated fails again and changes nothing more |
| `ContextLock.ReadGranted` | src/lib/context/lock.c:151-181 | A read is granted if and only if nobody has reserved or writes, however many read; then the readers are those from before and this thread, else nothing has changed |
| `ContextLock.WriteGranted` | src/lib/context/lock.c:49-149 | A write attempt returns 1 if and only if the caller writes already, or nobody has reserved or writes, or only the caller has reserved and nobody reads or writes; and who holds what after it, in every case |
| `ContextLock.ReadersTogether` | src/lib/context/lock.c:171-177 | Any number of threads can read at the same time |
| `ContextLock.WaitLoopOutcome` | src/lib/context/lock.c:370-419 | Through the whole wait loop, with any steps of others in between, the word agrees with the tokens, and result 1 means what one granted attempt means |
| `ContextLock.WaitLoopExactly` | src/lib/context/lock.c:370-419 | The wait returns 1 if and only if some attempt is granted before an error has ended it, -1 if and only if the error that ends it is a timeout, -2 if and only if it is another |
| `ContextLock.FailedWaitKeepsReservation` | src/lib/context/lock.c:386-410 | A wait that ends with -1 or -2 keeps what its last attempt did: nothing for read; for write the reservation, if and only if no other thread had it |
| `ContextLock.FailedButReserved` | src/lib/context/lock.c:386-410 | For every error a run in which the wait has failed with it and its reservation still shuts out others |
| `ContextLock.ServiceLock.GetWriteAccess` | src/lib/context/lock.c:49-149 | The in-place attempt for write does what the attempt on values does, in new state and result |
| `ContextLock.ServiceLock.GetReadAccess` | src/lib/context/lock.c:151-181 | The same for read |
| `ContextLock.ServiceLock.ReleaseAccess` | src/lib/context/lock.c:183-235 | The same for the release |
| `ContextLock.ServiceLock.CheckConflict` | src/lib/context/lock.c:237-369 | The kind of access selects the attempt |
| `ContextLock.ServiceLock.LockContexts` | src/lib/context/lock.c:370-419 | The wait loop with two attempts per wakeup gives the outcome of the loop on values: granted, timed out, failed or still waiting |
| `RequestTable.Table.Add` | src/sftp/request-hash.c:76-84 | Adding to a row of 64 adds at the end of the one list of all pending requests, and every request stays in the row of its id |
| `RequestTable.Table.Remove` | src/sftp/request-hash.c:86-98 | Removing from a row removes from the list; a request that is not linked changes nothing, neither list nor rows |
| `RequestTable.Table.Lookup` | src/sftp/request-hash.c:100-132 | The search in one row finds the earliest pending request with the id in the whole list, at its index, and takes out just that one; nothing if and only if no pending request has the id |
| `RequestTable.FirstInFilter` | src/sftp/request-hash.c:100-132 | The first match of a list is the first match of any part of it that keeps all matches, such as a row |
| `RequestTable.WithoutInFilter` | src/sftp/request-hash.c:86-98 | Taking an element out of the list takes it out of its row and leaves all other rows |
| `RequestTable.FirstExactly` | src/sftp/request-hash.c:100-132 | What is found is the element at the first index that matches, nothing if and only if none does |
| `RequestTable.WithoutAt` | src/sftp/request-hash.c:86-98 | Taking out leaves the elements in front of it and those behind it, in order |
| `RequestTable.FuseInterface.TargetExactly` | src/interface/fuse.c:129-175 | The target of an interrupt is at the first index with its unique and this interface, nothing if and only if there is none |
| `RequestTable.FuseInterface.SignalInterrupted` | src/interface/fuse.c:129-175 | An interrupt marks the earliest pending request with its unique on this interface, and no other request |
| `SftpExchange.StepKeeps` | src/sftp/request-hash.c:76-368 | Every step of a waiting thread or a receiver keeps: table without repeats, each request linked or taken out once, status agreeing with its history, at most one receiver per request |
| `SftpExchange.RunKeeps` | src/sftp/request-hash.c:76-368 | The same over every interleaving |
| `SftpExchange.TakenOutOnce` | src/sftp/request-hash.c:86-132 | In every run a request is taken out of the table at most once, and when its wait has returned it is in no row |
| `SftpExchange.ReturnsOne` | src/sftp/request-hash.c:256-262 | The wait returns 1 only after WAITING, RESPONSE and FINISH in this order, with a valid reply that carries the id of the request |
| `SftpExchange.ReturnsZero` | src/sftp/request-hash.c:264-358 | The wait returns 0 only with the request in no row and taken out once, with a flag and a code that agree on the reason: timeout, interrupt, lost connection or error |
| `SftpExchange.CheckReturns` | src/sftp/request-hash.c:256-332 | In every run a check returns 1 if and only if a receiver has finished the request; and each way to return 0, with its code, if and only if its reason is the first that holds |
| `SftpExchange.LeaveReturns` | src/sftp/request-hash.c:264-358 | In every run a thread that leaves returns 0 with the code of its reason, and its request is in no row |
| `SftpExchange.WakeReturns` | src/sftp/request-hash.c:334-358 | In every run a wait that ends with an error returns 0 with that error; a wakeup leads to the next check and changes nothing |
| `SftpExchange.ReplyReturnsOne` | src/sftp/request-hash.c:134-188 | After any run: once a receiver has found the request and handed its reply over, the next check returns 1 if and only if the reply is valid, and the request holds that very reply |
| `SftpExchange.ARunThatReturnsOne` | src/sftp/request-hash.c:233-262 | A run of sending, adding, receiving and checking that returns 1 |
| `SftpExchange.ReplyWasReceived` | src/sftp/request-hash.c:100-161 | In every run the reply that a wait returns with is one that was received |
| `SftpExchange.RunPlaced` | src/sftp/request-hash.c:76-368 | Over every interleaving a request that is waited for is in the table, or with a receiver, or finished or failed by one |
| `SftpExchange.HeldWhenLeaving` | src/sftp/request-hash.c:264-358 | In every run a thread that leaves leaves its request with a receiver if and only if the request is no longer in the table and no receiver has finished or failed it |
| `SftpExchange.HeldAtReturn` | src/sftp/request-hash.c:233-368 | Of all steps by which a wait returns only leaving can leave a held request behind, in exactly those cases |
| `SftpExchange.HeldAfterLeaving` | src/sftp/request-hash.c:264-358 | Runs in which the thread has left, by timeout or for any other reason, while a receiver still holds its request |
| `SftpExchange.FinishWakes` | src/sftp/request-hash.c:166-188 | In every run a thread that sleeps on a finished request has been woken |
| `SftpExchange.WokenExactly` | src/sftp/request-hash.c:166-198 | In every run a thread that sleeps has been woken only if its request is over; when no receiver has failed it, if and only if it is finished |
| `SftpExchange.SleepsOnExactly` | src/sftp/request-hash.c:264-278 | In every run a check sends the thread of a request that is over back to sleep if and only if the request failed and is interrupted |
| `SftpExchange.NoLostWakeup` | src/sftp/request-hash.c:166-198 | Over every run a thread sleeps without a wakeup on a request that is over only if the request failed and one of its checks found it interrupted |
| `SftpExchange.FailureSleptThrough` | src/sftp/request-hash.c:190-198 | A run in which that happens |
| `SftpExchange.IdsOfOneWindow` | src/sftp/common.c:44-55 | Two allocations less than 2^32 apart have the same id if and only if they are the same |
| `SftpExchange.RoutedTo` | src/sftp/request-hash.c:100-132 | A reply is delivered to a pending request if and only if it has the id and no earlier pending request has |
| `SftpExchange.ReplyReachesExactly` | src/sftp/request-hash.c:100-161 | With any number of clients a reply reaches a pending request if and only if it has its id and no earlier pending request of another client has it too |
| `SftpExchange.ReplyReachesItsRequest` | src/sftp/request-hash.c:100-161 | With the pending requests of one client within a window of 2^32 allocations, a reply reaches a request if and only if the request is in the table and has its id, over every run |
| `SftpExchange.RepliesCrossClients` | src/sftp/request-hash.c:100-127 | A run in which the reply for one client is delivered to the request of another |
| `SftpExchange.EarlyReplyIsDropped` | src/sftp/request-hash.c:233-252 | A reply that arrives between sending and adding to the table changes nothing |
| `SftpExchange.NoAnswerNoFinish` | src/sftp/request-hash.c:233-368 | Without a further reply with its id a request never finishes, whatever else happens |
| `SftpOperations.Perform` | src/fuse/sftp/path.c:58-497 | Each operation calls exactly one callback once: success if and only if a finished reply of the expected kind (and status 0 where a status answers) came, else an error that is never 0, with its code for every cause, a send that fails included |
| `SftpOperations.OperationOverAnyRun` | src/fuse/sftp/handle.c:45-529 | Over every run of the exchange: a success callback gets a reply with the id of this very request after WAITING, RESPONSE and FINISH; a reply of a foreign kind gives EPROTO, a status the error it stands for, or EIO |
| `SftpOperations.ExpectedKinds` | src/fuse/sftp/path.c:58-497 | Which operations are answered by a reply of which number |
| `Wire.BigEndianRoundTrip` | src/lib/datatypes/ssh-uint.c:35-62 | Reading a number written high byte first gives the number |
| `Wire.FromBigEndianRoundTrip` | src/lib/datatypes/ssh-uint.c:35-62 | Writing a number that was read gives the bytes back |
| `Wire.FourBytes` | src/lib/datatypes/ssh-uint.c:35-62 | Four bytes written out as a number, high byte first and low byte first |
| `Wire.StringRoundTrip` | src/lib/ssh/ssh-string.c:468-500 | A length-prefixed string in front of anything is read back, and the rest is what follows |
| `Wire.StringIsPrefix` | src/lib/ssh/ssh-string.c:468-500 | Whatever is read as a string is the encoding of it, and at least four bytes are consumed |
| `Wire.ReadExactly` | src/lib/ssh/ssh-string.c:468-500 | For any bytes a string is read if and only if they start with a length and as many bytes |
| `Wire.OverrunExactly` | src/lib/ssh/ssh-string.c:468-500 | It runs over if and only if its length is one of the last four, which wrap around in 32 bits, and what is left of the sum fits; what is then passed, and the length a string keeps that does not fit |
| `Framing.DecodeEncode` | src/sftp/recv.c:114-169 | Decoding an encoded packet gives its type, id and payload, whatever bytes follow |
| `Framing.EncodeDecode` | src/sftp/recv.c:114-169 | Whatever is accepted starts with the encoding of what was found |
| `Framing.AcceptedLengths` | src/sftp/recv.c:120-150 | The move in the buffer leaves it if and only if the length is below 5 or wraps around in 32 bits; a packet is taken if and only if 5 <= length <= size - 4 |
| `Framing.LengthZeroIsAccepted` | src/sftp/recv.c:120-150 | A packet with length 0 passes the test |
| `Framing.ReceiveReply` | src/sftp/recv.c:114-169 | In place: the payload ends up at the front, zeros behind it, bytes outside the packet untouched; a refused packet is left as it is; a packet is told apart whose move would leave the buffer |
| `Extensions.FirstOccurrencesNames` | src/sftp/extensions.c:157-210 | Adding announcements one by one keeps every name, each once |
| `Extensions.FirstOccurrencesFound` | src/sftp/extensions.c:157-210 | Every name keeps the data it was announced with first |
| `Extensions.FirstOccurrencesGrow` | src/sftp/extensions.c:157-210 | Further announcements only add at the end |
| `Extensions.SharedInOrder` | src/sftp/extensions.c:477-561 | The shared names are in the order of the client |
| `Extensions.SharedNamesAre` | src/sftp/extensions.c:477-561 | A name is shared if and only if the client lists it and the server announced it |
| `Extensions.Negotiated` | src/sftp/extensions.c:314-356 | After any announcements and completion: the index of a name is positive if and only if both sides have it, the name at that index is the name, and the entry there is its first announcement |
| `Extensions.IndexOfNameAt` | src/sftp/extensions.c:314-356 | With distinct names on the client the index of the name at an index is that index |
| `Extensions.SftpExtensions.FindServer` | src/sftp/extensions.c:112-131 | The search finds the announcement of a name if and only if there is one |
| `Extensions.SftpExtensions.AddServer` | src/sftp/extensions.c:157-210 | A known name changes nothing; a new one is added at the end, whole, or with an empty name or data where a copy has no memory, or not at all; with memory the list stays the first occurrence of every announced name |
| `Extensions.SftpExtensions.Complete` | src/sftp/extensions.c:477-570 | The lookup array is empty or "unsupported" followed by the announcements, found in the list of the server, of the names that the client has too, in the order of the client; -1 and no array if and only if an allocation fails |
| `Extensions.SftpExtensions.GetIndex` | src/sftp/extensions.c:314-339 | The loop gives the first index of the name, or 0 |
| `Extensions.SftpExtensions.GetName` | src/sftp/extensions.c:341-356 | The name at an index of the array, nothing outside it |
| `VersionMessage.WellFormedIsVisited` | src/sftp/init.c:211-247 | A well-formed list of pairs is read to its end, visiting all of them in order except exactly a last pair of at most 9 bytes, if and only if no name inside a visited supported2 ends outside its data |
| `VersionMessage.VisitIsTheRun` | src/sftp/init.c:211-247 | For every input the loop comes to its end, to a use of data it does not have, or goes on for ever, each exactly as the visit on values says |
| `VersionMessage.StuckRunsForever` | src/sftp/init.c:222-243 | The loop goes on for ever if and only if it comes to a name that does not fit with more than 9 bytes left |
| `VersionMessage.TruncatedDataFaults` | src/sftp/extensions.c:187-199 | Data that does not fit is used without memory if and only if its name is ordinary and new, or is supported2 with a length of at least 32 |
| `VersionMessage.WrappedDataFaults` | src/lib/ssh/ssh-string.c:468-500 | Data whose length wraps around in 32 bits is used from outside the message if and only if its name is ordinary and new, or is supported2 from version 6 on |
| `VersionMessage.TruncatedNameRunsForever` | src/sftp/init.c:222-243 | Ten bytes suffice for that |
| `VersionMessage.WellFormedVersion` | src/sftp/init.c:156-247 | From message to list: the announced names of the visited pairs, each once, in order of their first occurrence |
| `VersionMessage.Supported2RoundTrip` | src/sftp/init.c:52-136 | From the data of supported2 as a server writes it, with any attribute extensions and anything behind, just its extension names are read, in order |
| `VersionMessage.Supported2Short` | src/sftp/init.c:105-129 | Of a list of extensions that breaks off or has an empty name, the names in front of that |
| `VersionMessage.Supported2Nothing` | src/sftp/init.c:77-98 | Of a list of attribute extensions that breaks off or has an empty name, nothing |
| `VersionMessage.PartAnnounced` | src/sftp/init.c:156-209 | An extension of its own announces itself, newline and supported nothing, supported2 just its extensions and only from version 6 on, where 0 counts as 6 |
| `VersionMessage.ListFromParts` | src/sftp/init.c:156-247 | From what a server writes to the list: for every version and every message of such parts exactly what they announce, each name once, in order |
| `VersionMessage.ReadPair` | src/lib/ssh/ssh-string.c:468-500 | One round reads a pair, or tells whether it stays where it is or uses data that it does not have |
| `VersionMessage.ProcessExtension` | src/sftp/init.c:156-209 | One pair adds its announcements: none for newline and supported, those inside supported2 from version 6 on, itself otherwise; it tells when a name inside supported2 would be copied from outside its data |
| `VersionMessage.ProcessVersion` | src/sftp/init.c:211-247 | For every payload, of any length: how the loop ends, and when it does not misuse data the list of the server deduplicated in order |
| `OsnsBuffer.ParseImage` | src/osns/utils.c:132-240 | Every typed read gives the value that the matching write put there, signed values and timespecs included |
| `OsnsBuffer.WholeRange` | src/osns/utils.c:90-240 | The signed fields take every value of their C type, and a number has its low byte first |
| `OsnsBuffer.FieldOfMessage` | src/osns/utils.c:132-240 | Each field of any message is read back at the position where it was written |
| `OsnsBuffer.Buffer.WriteField` | src/osns/utils.c:90-185 | A write moves the position by the size of the field in both modes, and changes just those bytes when there is memory |
| `OsnsBuffer.Buffer.WriteAll` | src/osns/utils.c:90-185 | Any sequence of writes ends at the same position with and without memory, fills exactly that part of it and leaves the bytes behind it |
| `OsnsBuffer.Buffer.SetBuffer` | src/osns/utils.c:319-348 | Giving or taking memory restarts at the front and switches between counting and writing, never out of reading |
| `OsnsBuffer.TwoPasses` | src/osns/utils.c:281-348 | Memory of the counted size is exactly filled by the second pass |
| `OsnsBuffer.ReadBack` | src/osns/utils.c:187-257 | Reading with the matching sequence returns the written values |
| `OsnsRecord.ReadEncoded` | src/osns/record.c:42-73 | A written record is read back and just its bytes are consumed |
| `OsnsRecord.OneByteShort` | src/osns/record.c:151-168 | A record with a length comes without data if and only if it lacks exactly one byte |
| `OsnsRecord.AcceptedExactly` | src/osns/record.c:42-73 | For any bytes a record is handed over if and only if its length is below the number of bytes there |
| `OsnsRecord.WriteRecord` | src/osns/record.c:75-111 | Writing puts the encoding at its place and nothing else, and returns its size also without a buffer |
| `OsnsRecord.ProcessRecords` | src/osns/record.c:135-182 | The calls made, in order, and the result for every input: short data, a size field that is too large, a refused record, a callback that stops |
| `OsnsRecord.ListRoundTrip` | src/osns/record.c:42-182 | A list written behind a header with its count and size is processed completely: one call per record, in order, and the count returned |
| `OsnsRecord.CallsForAre` | src/osns/record.c:151-176 | Call i gets the bytes of record i and its index |
| `OsnsRecord.CallsRefused` | src/osns/record.c:151-182 | A list that promises more records than can be handed over: a call for each that can, in order, then an error |
| `OsnsRecord.CallsStopped` | src/osns/record.c:151-182 | A callback that stops: the calls up to that record, then an error |
| `OsnsRecord.AsIntExactly` | src/osns/record.c:173-175 | The count is returned as the signed number of 32 bits that agrees with it |
| `OsnsRecord.WriteList` | src/osns/record.c:75-111 | Sized by a pass without a buffer, header and records written one after the other fill the buffer with the list |
| `OsnsRecord.WriteAndProcess` | src/osns/record.c:75-182 | A list written into a buffer and processed gives one call per record, in order, with its bytes, count and index |
| `NameReply.TakePutAttrs` | src/lib/sftp/attr/read-attr-v03.c:44-115 | Attributes are read as they were sent, for every combination of the flag bits, and the cursor ends right behind them |
| `NameReply.TakePutNames` | src/lib/sftp/attr/read-attr-v03.c:150-160 | Name and long name are read as sent, and the cursor ends right behind them |
| `NameReply.TakePutEntries` | src/lib/datatypes/buffer.c:250-301 | A whole batch of entries is read as it was sent |
| `DirectoryStream.StepPassesOneRecord` | src/fuse/sftp/opendir.c:310-358 | One step moves the cursor past exactly one record if and only if the name is skipped or its entry can be made; else it stays in front of the attributes |
| `DirectoryStream.FailedEntryHidesTheNext` | src/lib/fuse/utils-create.c:231-279 | A failed creation makes the next entry disappear: it is read as the long name of an empty name |
| `DirectoryStream.BatchOfEntries` | src/fuse/sftp/opendir.c:310-358 | The bytes of a batch are entered entry by entry without the unwanted ones, and the cursor ends right behind it |
| `DirectoryStream.EnteredQueue` | src/lib/fuse/opendir.c:99-122 | Names are queued in the order of the server |
| `DirectoryStream.EnteredDirectory` | src/fuse/sftp/opendir.c:105-162 | The directory gains just those names; created counts the new ones, created and found together all of them |
| `DirectoryStream.LastValueCounts` | src/fuse/sftp/opendir.c:105-162 | Each attribute of a name has the value of the last entry of that name that carries it |
| `DirectoryStream.ValueStays` | src/fuse/sftp/opendir.c:105-162 | One that no entry carries has the value it had before, or none for a new name |
| `DirectoryStream.OtherwiseUntouched` | src/fuse/sftp/opendir.c:105-162 | Names that are not entered keep all they had; extended attributes are not kept |
| `DirectoryStream.KeptExactly` | src/fuse/sftp/opendir.c:310-340 | An entry is wanted if and only if it has a name, not "." or "..", and no leading dot where that is asked for |
| `DirectoryStream.ListingOfRun` | src/fuse/sftp/opendir.c:271-374 | Whatever is replied and however the run is cut short, the listing holds exactly the wanted entries of the replies taken in, in order |
| `DirectoryStream.AttributesOfRun` | src/fuse/sftp/opendir.c:271-374 | After any run each attribute of each name is that of the last wanted entry that carries it in the replies taken in, else what it was |
| `DirectoryStream.TakenInExactly` | src/fuse/sftp/opendir.c:271-306 | A run that is stopped takes in just the replies before the stop; one whose list is closed, those up to the closing one |
| `DirectoryStream.StoppedAtOnce` | src/fuse/sftp/opendir.c:271-278 | A directory that is stopped or at its end before the first reply is not touched |
| `DirectoryStream.ErrorEnds` | src/fuse/sftp/opendir.c:279-306 | An error ends the loop at once: interrupted for EINTR and ETIMEDOUT, the end of the list for ENODATA, else failed |
| `DirectoryStream.ResultExactly` | src/fuse/sftp/opendir.c:176-228 | The result of a reply with names is the signed number of 32 bits that agrees with its count |
| `DirectoryStream.AllTakenIn` | src/fuse/sftp/opendir.c:271-374 | Every reply is taken in when nobody asks for an early stop and only the last one closes the list |
| `DirectoryStream.QueueOfWholeRun` | src/fuse/sftp/opendir.c:271-374 | The queue of a whole run is the concatenation of all batches without empty names, ".", ".." and hidden dotfiles |
| `DirectoryStream.QueuedExactly` | src/fuse/sftp/opendir.c:310-358 | After any run a name is queued if and only if a reply taken in has it, and it is not empty, "." or "..", nor a dotfile where those are to be ignored |
| `DirectoryStream.RunKeepsOneBody` | src/fuse/sftp/opendir.c:250-260 | In every interleaving of starts, ends and flag changes by any threads: at most one body, the thread flag set exactly while it runs, the end flag set after it |
| `DirectoryStream.BodyRunsAtMostOnce` | src/fuse/sftp/opendir.c:410-422 | For any number of starts the body is entered at most once per open directory |
| `DirectoryStream.StartsExactly` | src/fuse/sftp/opendir.c:250-260 | In every interleaving a start enters the body if and only if none runs, the end flag is not set and nobody has asked for a stop |
| `DirectoryStream.FirstStartRuns` | src/fuse/sftp/opendir.c:250-260 | A first start runs, a second beside it does not, and none does after its end |
| `DirectoryStream.ClearThreadKeeps` | src/lib/fuse/opendir.h:29-47 | The word used to clear the thread flag keeps bit k if and only if k is at least 15 |
| `DirectoryStream.ClosingWord` | src/fuse/sftp/opendir.c:410-413 | The two assignments on the word at the end of a run are the closing of the set of flags it stands for |
| `DirectoryStream.MarkedUntilTheEnd` | src/fuse/sftp/opendir.c:279-413 | While a body runs the mark that the listing broke off is set if and only if the body has set it; the end of the run takes it away |
| `DirectoryStream.UnseenAlwaysRemoved` | src/fuse/sftp/opendir.c:88-97 | Once no body runs the test in releasedir always holds |
| `DirectoryStream.BrokenOffExactly` | src/fuse/sftp/opendir.c:279-306 | A run marks its listing as broken off if and only if the answer that ended it is an error other than the end of the list |
| `DirectoryStream.RemovedAlthoughBrokenOff` | src/fuse/sftp/opendir.c:410-413 | At the end of a run the test in releasedir holds always, and was meant to hold exactly when the listing had not broken off |
| `DirectoryStream.TimedOutAtOnce` | src/fuse/sftp/opendir.c:289-305 | A run of one answer, a timeout, that marks the listing as broken off and forgets it at its end |
| `DirectoryStream.OpenDir.ReadFromServer` | src/fuse/sftp/opendir.c:176-228 | The answer goes to the attribute buffer; the result is the count as a signed number or the negated error |
| `DirectoryStream.OpenDir.CreateEntry` | src/lib/fuse/utils-create.c:218-283 | A new or a known entry reads its attributes, is counted and queued once; a failed one reads nothing |
| `DirectoryStream.OpenDir.NextEntry` | src/fuse/sftp/opendir.c:310-358 | The body of the inner loop does one step on the bytes at the cursor |
| `DirectoryStream.OpenDir.ReadBatch` | src/fuse/sftp/opendir.c:310-358 | The inner loop does one batch |
| `DirectoryStream.OpenDir.OneRound` | src/fuse/sftp/opendir.c:271-374 | The body of the outer loop: one answer, its batch, the end-of-list byte |
| `DirectoryStream.OpenDir.ReadInBackground` | src/fuse/sftp/opendir.c:237-417 | Nothing happens when a run is on or over; else the loop is run and the flags are closed |
| `PathPrefix.ClassifyIs` | src/interface/sftp.c:232-315 | Which prefix means home, root or a directory of its own, both ways |
| `PathPrefix.AcceptedExactly` | src/interface/sftp.c:94-133 | A path is accepted if and only if it is the directory, a slash and anything; below the root if and only if it is absolute; in home mode also if it is relative |
| `PathPrefix.HomeRoundTrip` | src/interface/sftp.c:57-62 | In home mode the path on the server translates back to the local path if and only if that has one leading slash (and home is absolute or empty) |
| `PathPrefix.CustomRoundTrip` | src/interface/sftp.c:163-192 | In custom mode it does if and only if the prefix is absolute |
| `PathPrefix.AcceptedComesBack` | src/interface/sftp.c:94-192 | What is accepted is sent out again as the path it came from |
| `PathPrefix.RootLosesSlash` | src/interface/sftp.c:135-161 | In root mode no absolute path comes back as it was |
| `PathPrefix.TrailingSlash` | src/interface/sftp.c:173-192 | With a slash at the end of the prefix a path below it is accepted if and only if a second slash follows |
| `PathPrefix.FusePath.PrependNames` | src/lib/fuse/path.c:31-51 | Names prepended one after the other give the path, from the end of the buffer |
| `PathPrefix.FusePath.Complete` | src/interface/sftp.c:163-171 | In place: the text becomes the one that is sent, its length is returned, and no byte outside the prefix changes |
| `PathPrefix.ThereAndBack` | src/interface/sftp.c:57-192 | Names to path to server and back gives the path again, in home mode and for every absolute prefix |
| `PathPrefix.SftpClientData.SetPrefix` | src/interface/sftp.c:232-315 | The prefix is classified and kept, or the client is left as it was without memory |
| `ContextTree.RunProper` | src/client/utils.c:180-268 | Over any calls: children are of the kind that belongs below their parent, siblings have distinct keys, every context has one parent |
| `ContextTree.PathLevels` | src/client/utils.c:186-216 | Every way down from the workspace is network, netgroup, nethost, filesystem, and no longer |
| `ContextTree.LayersOfRun` | src/client/utils.c:186-216 | The same after any calls on a fresh workspace |
| `ContextTree.WayDown` | src/client/utils.c:186-216 | Four calls down from a workspace make a network, a netgroup, a nethost and a filesystem |
| `ContextTree.RunExtends` | src/lib/context/init.c:174-234 | No call changes a context or the order of children that exist |
| `ContextTree.FoundEverAfter` | src/client/utils.c:226-268 | A call that gave a context finds the same one again, after any calls in between and with any service and primary, and changes nothing |
| `ContextTree.NoContextExactly` | src/client/utils.c:219-268 | No context is returned if and only if the parent takes no children, or none matches and none can be made; then nothing has changed |
| `ContextTree.CreatedExactly` | src/client/utils.c:91-268 | A context is made if and only if the parent takes children, none of them has the key, and it is possible; it comes last below its parent and holds kind, number or name, service and primary of the call; nothing else changes |
| `ContextTree.Contexts.Search` | src/lib/context/next.c:193-228 | The walk, which takes each list element at the offset of the kind before it, never takes a wrong one, and finds the first match |
| `ContextTree.Contexts.Create` | src/lib/context/init.c:174-234 | A context that cannot be set up leaves the tree as it was |
| `ContextTree.Contexts.CheckCreateInstall` | src/client/utils.c:180-268 | The call does what the call on values does, and keeps the tree proper |
| `UserAuth.GetRequired` | src/ssh/userauth/utils.c:44-89 | The loop reads a comma separated list as the methods it names |
| `UserAuth.ListedNeverNone` | src/ssh/userauth/utils.c:44-89 | Every list asks for some method and never for "none" |
| `UserAuth.ListedJoin` | src/ssh/userauth/utils.c:44-89 | Any joined list of names is read as the methods it names |
| `UserAuth.MethodsExactly` | src/ssh/userauth/utils.c:44-89 | A list asks for publickey, password or hostbased if and only if it has that name, and for something unknown if and only if it has another |
| `UserAuth.ListEndsAtZero` | src/ssh/userauth/utils.c:44-89 | A list is read up to its first zero byte |
| `UserAuth.WrittenIsRead` | src/ssh/userauth/utils.c:91-98 | What the writing side makes of a set of methods is read as that set |
| `UserAuth.WrittenFits` | src/ssh/userauth/utils.c:91-98 | The size asked for without a buffer is enough: the text, its zero and one more for each name |
| `UserAuth.FailureRoundTrip` | src/ssh/userauth/utils.c:112-131 | A failure message of RFC 4252 is taken into account with its list and its flag |
| `UserAuth.WellFormedShape` | src/ssh/userauth/utils.c:112-131 | A failure message is taken into account if and only if it is a type, a string that is not empty and a flag; its list is that string, and it is a partial success if and only if the flag is not 0 |
| `UserAuth.RefusedExactly` | src/ssh/userauth/utils.c:112-131 | After a failure that lists names exactly the methods of those names are required |
| `UserAuth.PasswordsDecided` | src/ssh/userauth/password.c:60-107 | After the passwords nothing is required if and only if the last word is an acceptance |
| `UserAuth.AcceptedThenRefused` | src/ssh/userauth/password.c:71-100 | A later refusal takes an acceptance back |
| `UserAuth.KeysDecided` | src/ssh/userauth/pubkey.c:257-339 | After the keys nothing is required if and only if the first reply that ends them is an acceptance |
| `UserAuth.KeysExactly` | src/ssh/userauth/pubkey.c:257-339 | The keys complete if and only if some reply is an acceptance or a partial success; what is then required is what the last acceptance or well-formed failure up to that reply says |
| `UserAuth.PasswordsExactly` | src/ssh/userauth/password.c:60-107 | The passwords complete if and only if the last one that was judged was accepted, wholly or in part; what is then required is what the last acceptance or well-formed failure says |
| `UserAuth.NoneAloneChangesNothing` | src/ssh/ssh-userauth.c:166-289 | The loop finds nothing to try if and only if "none" alone is required |
| `UserAuth.OrderOfMethods` | src/ssh/ssh-userauth.c:166-289 | publickey is tried before password, password before hostbased |
| `UserAuth.RoundExactly` | src/ssh/ssh-userauth.c:166-289 | A round goes on if and only if its method is not done, can be tried, completes by the replies, and leaves something required, all of it supported; and the state it leaves, read off the replies |
| `UserAuth.GivesUpExactly` | src/ssh/ssh-userauth.c:166-289 | Over every run of the loop: it ends with supported methods required only if the method of its last round had been done, could not be tried or did not complete, and all rounds before completed one |
| `UserAuth.CompletedIsDone` | src/ssh/ssh-userauth.c:166-289 | The methods completed are just those done at the end and not before |
| `UserAuth.CooperativeServer` | src/ssh/ssh-userauth.c:90-313 | A server that asks for any distinct methods one by one and accepts each is satisfied by just those methods in that order, and nothing is required at the end |
| `UserAuth.PublickeyThenPassword` | src/ssh/ssh-userauth.c:90-313 | One that asks for publickey and then password, and accepts both |
| `UserAuth.NothingTried` | src/ssh/ssh-userauth.c:123-152 | Nothing is tried without an own address, nor when a method is asked for that is not known |
| `UserAuth.RoundKeeps` | src/ssh/ssh-userauth.c:166-289 | A round that goes on completes a method that was not done and leaves the loop fit for the next |
| `UserAuth.CompletedOnce` | src/ssh/ssh-userauth.c:166-289 | Against every server at most three methods are completed, none twice |
| `UserAuth.AcceptedOnlyBySuccess` | src/ssh/ssh-userauth.c:166-313 | The loop ends with nothing required only after an acceptance by the server |
| `UserAuth.AcceptedWithoutSuccess` | src/ssh/ssh-userauth.c:123-142 | Without any acceptance nothing is required at the end if and only if the failure of "none" was malformed |
| `UserAuth.OneByteFailure` | src/ssh/userauth/none.c:62-69 | A failure message of one byte as the answer to "none" leaves nothing required |
| `UserAuth.Client.HandleFailure` | src/ssh/userauth/utils.c:112-131 | The failure message replaces what is required if and only if it is well formed, and counts by its flag |
| `UserAuth.Client.SendKeys` | src/ssh/userauth/pubkey.c:257-339 | The loop over keys |
| `UserAuth.Client.SendPasswords` | src/ssh/userauth/password.c:60-107 | The loop over passwords |
| `UserAuth.Client.TryUserauth` | src/ssh/ssh-userauth.c:166-289 | The loop ends against every server, with the state and the completed methods of the rounds on values |
| `UserAuth.Client.Start` | src/ssh/ssh-userauth.c:90-313 | Returns 0 if and only if the service and "none" were answered and nothing is required at the end; completes at most three methods, none twice |

## Left out

- Sockets, event loop, worker threads, mounting, configuration files, key exchange, key files and cryptography.
- The symlinks found while a directory is read (src/fuse/sftp/opendir.c:376-408) and the waiting of readdir on the queue.
- SFTP attributes of versions 4 and up, mapping of users and groups, and the split of permissions into type and mode.
- The server side of user authentication, and how keys are offered before a signature is asked for.
- The number of read units is not bounded by the width of the lock word, and request ids are the only counter that wraps.
- Removal of contexts, the shared contexts of a workspace, and the fixed size of the name of a filesystem context.
- `write_osns_record` for type 'c', which falls through to 'r', and the control messages of src/osns/control.c.
- CheckConflict: one lock; the choice among the three, the release through the same call and the -1 for a context without list are not modelled.
- ReceiveReply: what happens in memory outside the buffer is not modelled; the method stops where the code would go there.
- ProcessVersion: memory is always there when names are added, what is done with data that is not there is not modelled, and the loop stops before it. The INIT exchange itself, whose request has the id 0xFFFFFFFF outside the counter (src/sftp/recv.c:227-281), is left out.
- ProcessExtension: which names were added before one that would be copied from outside the data is not stated.
- Supported2Names: with fewer than 4 bytes left behind the attribute names the code reads the number of extensions past the data; whatever it finds, no name is added.
- StepKeeps: the thread of a request is a state machine of atomic steps, not a loop over memory; each check under the signal lock is one step.
- WriteField: requires room for the field when there is memory, as the code does not test it; the padding of a timespec is written as zeros, where the code leaves what it finds in memory.
- WriteAll: requires room for the message when there is memory, as the code does not test it.
- WriteRecord: requires room for the record when there is a buffer, as the code does not test it.
- ReadInBackground: the pass over symlinks before the flags are closed is left out; it sets none of the flags.
- OneRound: the end-of-list byte comes with version 6 replies only (src/sftp/recv/recv-v06.c), while the entries are those of version 3; its reading does not depend on what the entries look like.
- CreateEntry: an entry whose place in the queue cannot be allocated (src/lib/fuse/opendir.c:99-117) is created and not queued; memory for the queue is always there.
- SendKeys: the offer of a public key before the signature is left out; the replies are those to signatures.
- Complete: requires room for the prefix in front of the path, and a path that is not empty in home mode, as all callers in src/fuse/sftp/path.c provide; mapping of extension numbers (src/sftp/extensions.c:577-590) is left out.
- Create: the memory of a context whose interface cannot be set up is given back; its number is reused in the model.
