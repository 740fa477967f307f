# MoMail: a verified model

MoMail is a FidoNet mailer. This project models the parts of it on which mail depends
and proves what they promise: the BinkP session engine (FTS-1026, with CRAM-MD5
authentication as in FTS-1027), the outbound scheduler with its Binkley-style directory
(FTS-5005), the nodelist lookup, the log hub, and the addresses they all share.

`dafny verify dfyconfig.toml` checks everything.

## What is modelled

* `GoStrings.dfy`, `Address.dfy`: strings, numerals and the address printer and parser.
* `Frames.dfy`: the wire format and the two directions of a connection.
* `SessionState.dfy`, `Handshake.dfy`, `Receive.dfy`, `Sending.dfy`: what one session does,
  as functions from state to state. A session is its fields, the directories it reads and
  writes, and the frames it has written.
* `Mailboxes.dfy`: whose mail the sender looks for.
* `Session.dfy`: the Session object itself, with the fields, loops and early returns of
  `binkp/session.go`; each method is proved against the functions above.
* `Transfer.dfy`: what the sender writes, the receiver delivers.
* `Agreement.dfy`, `Peers.dfy`: two mailers joined by frame queues, in the handshake and in
  the transfer stage, under every interleaving. `SenderRuns.dfy` shows that everything the
  sequential sender does is among those interleavings, `NameClash.dfy` when send
  names may be shared, `Bytes.dfy` that the frame queues are what the bytes on the connection say.
* `Shutdown.dfy`: the two critical sections that end a session.
* `OutboundNames.dfy`, `OutboundScan.dfy`: the outbound directory, written in one direction
  and read back in the other, and its aggregation into the queue. `QueueStrings.dfy`: which
  strings the queue has for an address.
* `Poll.dfy`: the dialling decisions over a clock, for one visit and one scan.
  `DialLimits.dfy`, `MailDials.dfy`: how often an address is dialled over whole runs, by
  itself and from what lies in the outbound directory.
* `Lookup.dfy`: the nodelist index and the search for something to dial.
* `Hub.dfy`: the log hub as an event machine.

## What the proofs found

Some promises of the code hold only under a condition, and the model says which:

* A zone above 0xFFF gets a directory that the scan does not recognize, so its mail is
  never noticed (`OutboundNames.NamingRoundTrip`).
* The scan accepts names that no session ever looks for: upper-case names, the default zone
  by number, point files with other leading digits, and `.fut` files. Such mail makes the
  scheduler dial again and again (`OutboundNames.ScannedIsServed`). The extension `.lo` is in
  the tables but cannot occur, for a name must have twelve characters.
* A point file with number zero gives its node a second queue entry
  (`OutboundNames.OneStringPerAddress`, `QueueStrings.QueuedStrings`). The retry delay and the
  failure count go by the queue string, so such a node is dialled twice at every scan, without
  a pause, and more often than MaxDialAttempts allows (`MailDials.TwoStringsBreakLimit`). Only
  with MaxDialAttempts one does the hold flag, which both entries share, save the limit.
* A flow file with an overlong line loses everything from that line on
  (`Sending.ScannedLinesSuffice`).
* Two files with one send name can lose the second one (`NameClash.SameNameLosesMail`) or the
  first (`NameClash.LaterFileOverwrites`), and even one file that is listed twice can be
  removed while the other side ends with an empty file (`NameClash.SameFileTwice`): the
  confirmation of the first copy can come between the second M_FILE and the opening of the
  file. Deletion is safe exactly when a file to be deleted has its send name to itself
  (`NameClash.SafeExactlyWhenMarkedAlone`).
* A file name with white space is announced as it is and read as another name, with a wrong
  size, time and offset (`Transfer.NameIsReadExactly`, `Transfer.TwoWordsAreMisread`).
* Dialling is limited exactly as long as hold flags can be looked up and written and, unless
  MaxDialAttempts is one, removed, and the address has one queue string
  (`DialLimits.LimitedExactlyWhen`).
* Unless a session without link is refused, the mail of every address that the other side
  claims is sent, authenticated or not; only the authenticated address is served exactly when
  no other one is presented (`Mailboxes.OnlyOneIsServed`).
* An outgoing session can end with another link than its target: a configured one without a
  password, or with a password that the other side knows, for an address that it presented
  before M_PWD (`Handshake.OutgoingSession`).
* A nodelist entry with IBN but no INA flag is dialled at an empty host name
  (`Lookup.EmptyHost`).
* The log hub survives only because clients never come back
  (`LogHub.PanicsExactlyAfterReturn`).
* The comment in `findLink` says that the point is ignored when links are matched; the code
  compares it (`binkp/session.go:622-627`), and so does the model.

## Model

| member | source | states |
|---|---|---|
| `Frames.Connection.WriteCommand` | binkp/session.go:456-469 | A command goes out as one frame: a big-endian header with the command bit, the command byte, the arguments |
| `Frames.Connection.WriteData` | binkp/session.go:1102-1113 | A data frame goes out with the length, cut to 16 bits, in its header |
| `Frames.Connection.ReadFrame` | binkp/session.go:471-487 | One frame is decoded and removed from the input, and every frame takes at least two bytes |
| `Frames.Connection.ReadFrames` | binkp/session.go:383-418 | A read loop obtains exactly the frames of the stream and stops with the error of the first incomplete one; it terminates because every frame takes bytes |
| `Frames.FrameRoundTrip` | binkp/session.go:456-487 | A frame survives the wire, whatever follows it, exactly when its payload has at most 32767 bytes |
| `Frames.StreamRoundTrip` | binkp/session.go:456-487 | Decoding the encodings of any frame sequence gives back that sequence and a clean end of file |
| `Frames.TruncatedStream` | binkp/session.go:471-487 | A stream cut anywhere is read as its whole frames; the reader sees a clean end of file exactly when the cut is at a frame boundary or just behind a header |
| `Address.PrintParse` | ftn/address.go:19-76 | Parsing the printed form of any 16-bit address returns it, whatever the default zone |
| `Address.PrintInjective` | ftn/address.go:19-25 | Different addresses print differently |
| `SessionState.FindLinkFinds` | binkp/session.go:618-638 | A configured link is found exactly when one has a presented address; otherwise the target of an outgoing session, if any |
| `BinkpSession.Session.FindLink` | binkp/session.go:618-638 | The two nested loops return the link of the first presented address that has one |
| `BinkpSession.Session.SendHandshake` | binkp/session.go:420-454 | Writes the challenge of an incoming session, the information lines and the address, in that order, as far as the connection takes them; only a failing M_ADR write is an error |
| `BinkpSession.Session.FindChallenge` | binkp/session.go:171-181 | The challenge is taken from a bare CRAM-MD5 word or from the first such word of an OPT line |
| `BinkpSession.Session.ParseAddresses` | binkp/session.go:190-200 | The addresses that parse, in order, with their domains cut off |
| `BinkpSession.Session.SendCramResponse` | binkp/session.go:517-532 | A non-empty password is answered with the digest over the stored challenge, and noted as sent |
| `BinkpSession.Session.HandshakeLoop` | binkp/session.go:150-303 | The loop goes on until the address is known and authentication is resolved; it ends early when reading fails, at a data frame, at M_ERR with its text, at M_BSY, and at a refused password |
| `BinkpSession.Session.PerformHandshake` | binkp/session.go:140-307 | The whole handshake over the random bytes of the challenge, the frames that can be read and a connection that can fail at any write: new authentication fields, frames written and outcome are those of the specified conversation |
| `Handshake.ActSetsLink` | binkp/session.go:218-288 | In an incoming session one frame can set the link only to the one found for the presented addresses, and with a password only if the frame presents it |
| `Handshake.IncomingSession` | binkp/session.go:140-307 | For every input of an incoming session: its link is configured, has a presented address, and has no password or was given a matching M_PWD among the frames that the handshake acted upon; so has the link the transfer stage falls back to |
| `Handshake.ChallengeIsHashed` | binkp/session.go:517-538 | A generated challenge is one word of 32 hexadecimal digits, and the digest over it is the keyed hash of exactly its 16 random bytes |
| `Handshake.SettledLinkIsEarned` | binkp/session.go:764-776 | The late fallback to a link without password also authenticates only presented, configured addresses |
| `Handshake.OutgoingSession` | binkp/session.go:140-307 | For every input of an outgoing session: at most one M_PWD is written, and pwdSent holds exactly when one was; it completes with the target or with a configured link that has a presented address, and with the latter exactly when the last frame acted upon is M_PWD and such a link, other than the target, is found; that link has no password or was given the right one |
| `Handshake.OutgoingHandshake` | binkp/session.go:140-307 | The same from any state on: while the handshake runs, the link is set exactly when authentication is done |
| `Handshake.PlainPasswordOnlyUnchallenged` | binkp/session.go:182-217 | A password frame is the digest over the stored challenge if any challenge had been offered by then, and only otherwise the plain password |
| `Agreement.UnderstandGreeting` | binkp/session.go:140-213 | Each line of a mailer's own greeting is understood by the other mailer as meant: challenge first, address last, the rest ignored |
| `Agreement.MatchingSidesAgree` | binkp/session.go:140-307 | Two mailers with matching passwords: under every interleaving neither fails, and when no handshake step is left both are done with their links set |
| `Agreement.HandshakeStepsAreUsedUp` | binkp/session.go:140-307 | Each handshake step uses up exactly one of the steps left, and no other step changes their number |
| `Agreement.HandshakeEnds` | binkp/session.go:140-307 | With matching passwords no run takes more handshake steps than there are at its start, however many transfer frames come in between |
| `Agreement.AgreementExactlyWhenMatching` | binkp/session.go:140-307 | When no handshake step is left, both sides are authenticated exactly when the passwords match or neither side has one |
| `Agreement.MismatchAuthenticatesNobody` | binkp/session.go:234-288 | When the digests differ no side ever sets its link, and both end with an error |
| `Agreement.SamePasswordIsAccepted` | binkp/session.go:252-279 | The same password on both sides is accepted, for every keyed hash and challenge |
| `Agreement.GeneratedChallenge` | binkp/session.go:252-279 | With the challenge that the answering side makes, every meeting is one of those above, and exactly the digests that the server's own password gives over its random bytes, or over the text of the challenge, are accepted |
| `Agreement.ServerLinkHasClientAddress` | binkp/session.go:618-638 | The answering side checks the password of a link with exactly the caller's address, if it has one |
| `BinkpSession.Session.FileReader` | binkp/session.go:383-418 | The read loop runs the receive machine over the frames until one ends the session; a failing read is told apart as an expected close, a lost connection or an error by the two flags and the kind of error |
| `Receive.OpenKeepsCounts` | binkp/session.go:651-713 | Opening a file keeps the byte counter equal to length and write position exactly when the offset is not negative |
| `Receive.RunKeepsCounts` | binkp/session.go:640-811 | In every reachable receive state, with non-negative offsets and any file system: the byte counter is the length and the write position of the open file; files and bytes received are those moved; the M_GOT frames written are, one for one, the moved files with their true lengths |
| `Receive.OneDestination` | binkp/session.go:764-788 | Whatever arrives, all files of one session are moved to one inbound directory |
| `BinkpSession.Session.CopyChunks` | binkp/session.go:1078-1096 | The copy loop writes the file in frames of at most 4096 bytes, in order, up to the first failing write, and counts what went out |
| `BinkpSession.Session.SendFile` | binkp/session.go:1039-1100 | One file: name remembered, announcement and data written up to the first failure, and the outcome of every stat, open, seek, read and write failure |
| `BinkpSession.Session.SendAll` | binkp/session.go:870-887 | A loop over requests or netmail: a missing file is skipped for netmail and ends the session for a request |
| `BinkpSession.Session.SendLines` | binkp/session.go:1006-1032 | A line is blank, a comment, or names a file that a caret marks for deletion; missing files are skipped |
| `BinkpSession.Session.ProcessFlowFile` | binkp/session.go:999-1037 | A flow file is sent line by line and removed when the loop gets to its end |
| `BinkpSession.Session.SendFilesFor` | binkp/session.go:878-897 | One presented address: the packets that are there are sent under made-up names, then the flow files that are there, looked up when the turn of the address comes; the outcome is that of trying every place where its mail may be |
| `BinkpSession.Session.SendFiles` | binkp/session.go:854-903 | The whole sender: link settled, requests, netmail and flow files of each address the other side has presented, M_EOB |
| `BinkpSession.Session.FileSender` | binkp/session.go:363-381 | After a complete send the own flag is set and the connection closed if the other side is done; after a failure it is closed |
| `Sending.SendItemsSucceeds` | binkp/session.go:876-897 | A run of files ends well exactly when the connection takes all their frames and each file can be sent in full or may be skipped as missing |
| `Sending.FlowRemoval` | binkp/session.go:999-1037 | With write failures at any point, a flow file is removed exactly when every line read from it was written in full or named a missing file, and then those frames are on the wire in file order |
| `Sending.ScannedLinesSuffice` | binkp/session.go:1006-1032 | The lines the scanner delivers stand for the whole flow file exactly when no line from the first overlong one on names a file; nothing is left unscanned exactly when every line is shorter than 65536 bytes |
| `Sending.LongLineDropsFlow` | binkp/session.go:1006-1036 | A first line of 65536 bytes or more makes the sender remove the flow file without sending anything |
| `Sending.LongLineExample` | binkp/session.go:1006-1036 | Such a flow file that still names a file exists |
| `Sending.SendFilesWire` | binkp/session.go:854-903 | For every point at which the connection fails: a prefix of the frames of all requests and mail goes out, in order; M_EOB is written at most once and last; a normal end means everything was written |
| `Mailboxes.PlannedForPresented` | binkp/session.go:878-897 | The files that the sender plans to send, besides requests, are exactly the netmail of the presented addresses and what their flow files name |
| `Mailboxes.ServedExactlyWhenPresented` | binkp/session.go:878-997 | The places of an address's mail are looked at exactly when the address is among those presented, whoever has been authenticated |
| `Mailboxes.OnlyOneIsServed` | binkp/session.go:878-997 | Only the authenticated address is served exactly when no other address was presented |
| `Mailboxes.ExistingAreFound` | binkp/session.go:912-953 | The flow files that the sender takes are, place for place and in order, those that FindFlowFiles finds by their paths |
| `Transfer.NameIsReadExactly` | binkp/session.go:647-663 | For every name: the receiver reads from M_FILE exactly the name, size, time and offset that the sender printed, exactly when the name is one word, without a slash, and no dot entry |
| `Transfer.TwoWordsAreMisread` | binkp/session.go:647-663 | A name of two words is received as its first word, with the second word as the size, the size as the time and the time as the offset |
| `Transfer.MisreadExample` | binkp/session.go:1063 | A concrete name with a space for which this happens |
| `Transfer.RunMovesCleanly` | binkp/session.go:640-811 | Whatever arrives, no file is moved to the inbound directory under a name with white space or a slash |
| `Transfer.TransferIsTransparent` | binkp/session.go:489-811 | For any list of files, empty ones included, and any merge of M_GOT, M_NUL, M_SKIP, M_GET or unknown commands into the sender's stream: the receiver moves exactly those names and contents exactly when every name can be read from M_FILE; then all are confirmed one by one with true lengths and no file is open |
| `Transfer.PutAllIs` | binkp/session.go:793-796 | The inbound directory then holds under each name the last file of that name, and nothing else has changed |
| `Transfer.ResumeIsCorrect` | binkp/session.go:674-709 | A transfer from an offset delivers the source unchanged and under its name exactly when the name can be read from M_FILE and the receiver's temporary file is the source's first offset bytes |
| `Transfer.BytesSentGrow` | binkp/session.go:1075-1098 | A file sent in full adds size minus offset to bytesSent and one to filesSent |
| `Peers.ConfirmationDeletes` | binkp/session.go:540-561 | An M_GOT as the other side prints it removes the source file sent under that name, if it was marked for deletion and the removal works, and changes nothing else |
| `Peers.DeletionIsSafe` | binkp/session.go:540-811 | Two mailers, any interleaving of both senders and both readers, one system call or frame at a time, any failures, and every file to be deleted has its send name to itself: once a side has removed a source file, the file was marked for deletion and the other side has a file of the name it was sent under, with exactly its content, in its inbound directory |
| `Peers.CleanEndIsComplete` | binkp/session.go:383-418 | Under the same conditions a reader that has taken M_EOB without error has every file of the other side's plan that has its send name to itself, unless moving it failed or the other side had already removed it; announced files that vanish before they are opened are covered |
| `SenderRuns.SendingIsARun` | binkp/session.go:854-903 | Whatever the sequential sender does with requests at any offset, netmail and flow files, with files that are missing, vanish or cannot be read, refusing, failing at any write or ending well, is one of the interleaved runs and ends in the same state |
| `NameClash.SameNameLosesMail` | binkp/session.go:540-561 | Two files to be deleted under one send name but with different contents: a run in which the confirmation of the first removes the second, which the other side does not have |
| `NameClash.SameFileTwice` | binkp/session.go:1039-1067 | One file listed twice, to be deleted: a run in which the confirmation of the first copy removes the file between the second M_FILE and the open, and the other side is left with an empty file in its place |
| `NameClash.LaterFileOverwrites` | binkp/session.go:540-1067 | A file to be deleted, and later another one under its name that is not: a run in which the first is confirmed and removed, and then overwritten at the other side |
| `NameClash.SafeExactlyWhenMarkedAlone` | binkp/session.go:540-1067 | For every list of send names, all of which M_FILE can carry, with their delete marks: deletion is safe in all runs, whatever the paths and contents of the files, exactly when no marked name occurs twice |
| `Bytes.BytesCarryTheFrames` | binkp/session.go:456-487 | Under every interleaving of two mailers, the bytes a side has written decode to exactly its frames, and any first part of them to the frames that are whole in it |
| `Shutdown.HandleFlags` | binkp/session.go:740-762 | Only M_EOB sets a flag, and the reader ends normally on it exactly when the sender has been through its critical section |
| `Shutdown.SomeoneNotices` | binkp/session.go:363-400 | For every order of the two critical sections: both sides are done exactly when one of the two has seen both flags; with a single M_EOB exactly one has |
| `Shutdown.CleanExit` | binkp/session.go:383-418 | The reader ends through errSessionFinished or an expected close only with both flags set; once both are set and the sender is gone, the reader has stopped or its connection is closed |
| `Shutdown.EarlyCloseIsFailure` | binkp/session.go:363-381 | The sender closes the connection only after both flags were seen or after its own failure |
| `Shutdown.SecondEobIsNoticedTwice` | binkp/session.go:740-762 | With a second M_EOB both critical sections can see both flags |
| `OutboundNames.NamingRoundTrip` | scheduler/scheduler.go:342-415 | For every address and every kind of file the sender looks for, scanning its path gives back the address and the kind exactly when the zone is the default zone or at most 0xFFF; otherwise the scan does not see it |
| `OutboundNames.ZoneDirRoundTrip` | scheduler/scheduler.go:348-362 | A zone directory reads back as its zone exactly when three hexadecimal digits suffice |
| `OutboundNames.PollRoundTrip` | scheduler/scheduler.go:698-717 | A poll file is scanned as its address; its flavour comes back as asked exactly for Crash, Direct, Hold and Normal; the sender looks for it |
| `OutboundNames.BsoPathInjective` | scheduler/scheduler.go:719-741 | Over all 16-bit addresses directory and base name determine the address |
| `OutboundNames.CandidatesAreOwn` | binkp/session.go:912-997 | A file found for one address is never a candidate for another |
| `OutboundNames.FindFlowFiles` | binkp/session.go:912-953 | The loop over the extensions returns the existing candidates in priority order, each with its state |
| `OutboundNames.FlowsAreCandidates` | binkp/session.go:937-952 | Those are exactly the candidates that exist |
| `OutboundNames.ScannedIsServed` | scheduler/scheduler.go:342-415 | A file that makes the scheduler dial an address is one that the session will look for exactly when its name is spelled as getBsoBase spells it and is not a .fut file |
| `OutboundNames.OneStringPerAddress` | scheduler/scheduler.go:371-415 | Two files of one address are queued under one string exactly when both or neither have point number zero inside a point directory |
| `QueueStrings.QueuedStrings` | scheduler/scheduler.go:342-440 | For every directory tree: the queue strings that parse as an address are its printed form, exactly when it has proper files, and that with .0 behind it, exactly when there are files with number zero in its point directory |
| `QueueStrings.BothKindsExist` | scheduler/scheduler.go:371-415 | For every node of a zone that the scan knows, a file of each kind by its path, as outbound/00010002.flo and outbound/00010002.pnt/00000000.flo are for 1:1/2 |
| `GoStrings.PrintParsed` | scheduler/scheduler.go:728-734 | Parsed hexadecimal digits are the padded numeral of their value, in lower case |
| `OutboundScan.ScanZoneDir` | scheduler/scheduler.go:371-413 | The files of a zone directory and of the point directories in it |
| `OutboundScan.ScanRoot` | scheduler/scheduler.go:336-415 | The nested loops over root, zone and point directories aggregate exactly the findings of the tree |
| `OutboundScan.BuildQueue` | scheduler/scheduler.go:417-440 | The queue lists the aggregation, one entry for each address string, in whatever order the map is visited, with the flag states |
| `OutboundScan.ScanOutbound` | scheduler/scheduler.go:297-445 | The queue of a scan is the aggregation of what the tree holds; an unreadable root gives an empty one |
| `OutboundScan.OrderIndependent` | scheduler/scheduler.go:308-415 | Listing the directories in another order, at any level, gives the same aggregation |
| `OutboundScan.AbsorbLowest` | scheduler/scheduler.go:308-322 | An address is aggregated exactly when a file was found for it, under the lowest priority found and the flavour of a file that has it |
| `OutboundScan.QueueConserves` | scheduler/scheduler.go:308-334 | Netmail bytes, bundle bytes and file counts over the queue equal those over all accepted files |
| `OutboundScan.QueueIsSound` | scheduler/scheduler.go:308-440 | The queued strings are distinct, parse as addresses, and carry the flavour of their most urgent file |
| `Poll.Scheduler.ScanAndPoll` | scheduler/scheduler.go:174-294 | The loop over the queue and the clean-up at its end bring the scheduler into the specified state; a muted scheduler does nothing |
| `Poll.DialsExactlyWhenAllowed` | scheduler/scheduler.go:184-281 | A dial is made exactly when the retry delay has passed and the node is not active, not suspended, not busy, has a link, and its mail is not on hold |
| `Poll.NoBusyFlagLeft` | scheduler/scheduler.go:245-273 | A visit leaves no new busy flag behind, unless the flag was created and could not be removed |
| `Poll.OtherStringsUntouched` | scheduler/scheduler.go:184-281 | A visit changes counts, times and log states of its own address string only |
| `Poll.OtherFlagsUntouched` | scheduler/scheduler.go:206-273 | A visit touches the flag files of its own address only |
| `Poll.DialsPerString` | scheduler/scheduler.go:174-281 | One scan dials an address at most once for each of its queue strings: once if all its entries have one string, at most twice if they have two |
| `Poll.DialledForUrgentMail` | scheduler/scheduler.go:174-443 | From directory tree to dial: a scan dials an address at most once for its proper files and once more for files with number zero in its point directory, each time only if there are such files and the most urgent of them is not on hold |
| `DialLimits.DialRateIsLimited` | scheduler/scheduler.go:206-269 | Over any run with a monotonic clock, of the dials under some names of an address: with hold flags that can be looked up, written and, unless MaxDialAttempts is one, removed, and with all counted dials under one name, unless MaxDialAttempts is one, after MaxDialAttempts failed dials in a row the next one comes at least HoldTime after the first of them; the failure count stays below MaxDialAttempts |
| `DialLimits.FailedCallsBreakLimit` | scheduler/scheduler.go:206-269 | Runs of failed calls that break the limit, for every MaxDialAttempts, as soon as that many gaps fit into HoldTime: when the hold flag cannot be looked up or written, when an expired one cannot be removed and the limit is above one, or when the calls are made under two names in turn and the limit is above one |
| `DialLimits.LimitedExactlyWhen` | scheduler/scheduler.go:206-269 | A positive HoldTime, and hold flags that behave alike at every visit: the dials under some names of an address keep to the limit in all runs exactly when the flags can be looked up and written and, unless MaxDialAttempts is one, removed, and there is only one name |
| `MailDials.MailRateIsLimited` | scheduler/scheduler.go:206-415 | From directory trees to dials: in every run an address keeps to the limit if its mail is always of one kind, proper files or files with number zero in its point directory; with MaxDialAttempts one every address does |
| `MailDials.DialsAreSpaced` | scheduler/scheduler.go:187-190 | While an address stays in the queue, and always under one string, its dials are at least RescanPeriod apart |
| `MailDials.MailDialsAreSpaced` | scheduler/scheduler.go:187-415 | From directory trees to dials: an address with mail at every scan, always of one kind, is dialled at least RescanPeriod apart |
| `MailDials.TwoStringsBreakLimit` | scheduler/scheduler.go:184-269 | An address under two queue strings, none of whose calls gets through: each scan dials it twice without a pause, and with working hold flags, for every MaxDialAttempts from three on, it breaks the limit as soon as half as many gaps fit into HoldTime |
| `MailDials.BothKindsBreakLimit` | scheduler/scheduler.go:184-415 | With mail of both kinds in a directory both strings are in its queue, and they break the limit in this way |
| `Lookup.ParseFile` | nodelist/nodelist.go:76-158 | The line loop builds the node map of the lines before the end mark; it fails exactly when the file cannot be opened or an overlong line comes first |
| `Lookup.ParsedIsWellKeyed` | nodelist/nodelist.go:93-155 | Every parsed node is stored under its own address string |
| `Lookup.List.Merge` | nodelist/nodelist.go:31-38 | Merging, in any order of visiting, overrides by key and keeps every node under its own address string |
| `Lookup.LoadedIsSound` | nodelist/nodelist.go:31-155 | After any number of parsed and merged files, a node found under the string of an address has exactly that address |
| `Lookup.GetBinkpAddress` | nodelist/nodelist.go:163-181 | BinkP is supported exactly when a flag begins with IBN; the host is that of the last INA flag, the port always 24554 |
| `Lookup.EmptyHost` | nodelist/nodelist.go:163-181 | The host is empty exactly when there is no INA flag or the last one names nothing |
| `Lookup.FindLink` | scheduler/scheduler.go:447-568 | The lookup by configuration, nodelist and DNS in the configured order, and the fallback by string for an address that does not parse |
| `Lookup.LookupIsSound` | scheduler/scheduler.go:447-568 | A link found for an address has exactly that address, and the password configured for it or none, in whatever order nodelist and DNS are asked |
| `Lookup.OrderFindsTheSame` | scheduler/scheduler.go:541-566 | The lookup method decides which host is dialled but not whether there is one |
| `LogHub.Hub.Broadcast` | logstream/hub.go:63-79 | The next pending message goes to all clients that have room |
| `LogHub.Hub.PushToClients` | logstream/hub.go:64-77 | The loop over the clients, in any order: each open channel with room gets the message, a full one is closed and leaves; it panics exactly when a client's channel is already closed |
| `LogHub.StepServes` | logstream/hub.go:50-80 | Every event but the return of a client that had left keeps the service: gap-free delivery, bounded buffers, closed exactly when out of the map |
| `LogHub.DeliveryIsGapFree` | logstream/hub.go:50-92 | Over every event sequence in which no client returns: no panic, so no channel is closed twice; what a client took and its buffer of at most 256 are a gap-free run of the accepted messages from its registration on |
| `LogHub.PanicsExactlyAfterReturn` | logstream/hub.go:50-80 | Over every sequence of events the loop panics exactly when some client registers again after it had left and later unregisters or has a message broadcast to it |
| `LogHub.ReturnPanics` | logstream/hub.go:50-63 | A client that registers again after it left makes the loop panic at its next departure |

## Left out

- M_GET (`binkp/session.go:563-614`): the reader appends to the request list while the sender reads it once, so no request is guaranteed to be served. The model gives the sender the requests queued when it starts as an argument; M_GET is otherwise a command without effect.
- Sockets, deadlines, partial writes, DNS queries, directory watching, cron, triggers, the monitor, the HTTP interface, logging and colours. Their outcomes enter as arguments: which operations of the file system fail, after how many frames a write fails, how a read fails, the time at each reading of the clock, whether a dial succeeds, whether a node is active.
- MD5 and HMAC: the keyed hash is an arbitrary function from key and message to bytes, and the random bytes of a challenge are an argument.
- Text is a sequence of bytes; white space, case and digits are those of ASCII, and path separators those of Unix.
- The temporary and the inbound directory are assumed to be different, and triggers not to touch them.
- Source files and flow files change only through the session itself while it runs. The two goroutines access `sentFileMap` and `activeLink` without a lock; the model takes each access as atomic, and the reader's handling of one frame as one step.
- Frames above 32767 bytes: `Frames.FrameRoundTrip` gives the exact condition, and `Bytes.BytesCarryTheFrames` shows that mailers whose file names have at most 32000 bytes never write one.
- Liveness: a blocked write is not interrupted by `shutdown`, and a client with a password that meets a link without one waits for its timeout.
- Completeness for arbitrary peers: a partial file is finished by the next M_FILE or M_EOB, and the last frame may overshoot the announced size (`binkp/session.go:641-645`, `binkp/session.go:740-745`). The model keeps this; the completeness results are about two of these mailers.
- The node number rules of `hub` and `region` lines in FTS-5000, the choice of the newest nodelist file and the gob cache of `nodelist/nodelist.go:41-74`.
- That the random packet names of `processNetmail` are distinct: they are the low 32 bits of a clock. Packets are sent to be deleted, so `Peers.DeletionIsSafe` needs their names to be unshared.
- Exclusivity of busy flags between processes: check and creation are not one step.
- BinkpSession.Session.FinishCurrentFile: leaves out the triggers that are started before M_GOT is written.
- BinkpSession.Session.CopyChunks: each read fills the buffer up to the end of the file; `Peers.Copies` lets a read return any positive number of bytes.
- BinkpSession.Session.ProcessFlowFile: removing the finished flow file is taken to succeed.
- BinkpSession.Session.SendFiles: the requests are those queued when it starts, and the packet names an argument.
- Peers.DeletionIsSafe: assumes send names that M_FILE can carry (one word, no slash: `Transfer.NameIsReadExactly`), sizes below 2^63, no M_GET and so offsets of zero, and files that vanish only through the session; that the names of files to be deleted are not shared is exactly what it needs (`NameClash.SafeExactlyWhenMarkedAlone`).
- Peers.CleanEndIsComplete: makes the same assumptions.
- NameClash.SafeExactlyWhenMarkedAlone: is about names that M_FILE can carry, and about all files that can be sent under them; single files may be safe by their contents, as two empty ones are.
- Bytes.BytesCarryTheFrames: adds names of at most 32000 bytes and times of 64 bits, for both sides.
- Receive.RunKeepsCounts: assumes non-negative offsets; `Receive.OpenKeepsCounts` shows that this is exactly what is needed.
- Agreement.MatchingSidesAgree: leaves out failing writes and time-outs, which `BinkpSession.Session.PerformHandshake` has for one side.
- Agreement.HandshakeStepsAreUsedUp: bounds the handshake only when the passwords match; a client with a password that meets no link reads transfer frames without end.
- Poll.Scheduler.ScanAndPoll: the queue with its link lookups and the active states enters as a list of visits; `Poll.DialledForUrgentMail` and `MailDials.MailRateIsLimited` take the queues from directory trees.
- DialLimits.DialRateIsLimited: nobody else touches the hold flags; for the other assumptions `DialLimits.LimitedExactlyWhen` shows that they are needed, where HoldTime is positive.
- OutboundNames.FindFlowFiles: paths are kept as components below the outbound directory; `Mailboxes.ExistingAreFound` joins them.
- LogHub.Hub.PushToClients: clients are identified by numbers, and the log line about a dropped client is one more Write event.
