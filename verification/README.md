# MADAI in Dafny

MADAI is a milter that copies every inbound mail to a second SMTP server. This
project models the two parts of it that are hard to get right, and proves what
they are for.

**The shared daemon.** Any number of sessions pin the current configuration and
drop it again while a SIGHUP thread replaces it; sockets are opened and closed
meanwhile, and the kernel hands closed numbers out again. `Daemon.dfy` is this as
an interleaved step system: one label is one atomic action of one thread, about
one source line. The mutex, the address space (a freed address may be allocated
again), the descriptor table (a closed number may be opened again), the signal
mask, the pending signal and the stack of interrupted activations of `do_hup` are
all in the state. A step that touches what it must not touch is taken and
recorded as a fault. `DaemonInvariant.dfy` is what every step keeps,
`DaemonTheorems.dfy` what that means for every run, `Refinement.dfy` the
simulation by a store without memory management, and `ConfigStore.dfy` the three
configuration calls as imperative code, each tied to its own steps. `DaemonRuns.dfy`
is what the daemon does and not only avoids: how a SIGHUP leads to a reload, a
session to its end, and the mutex back to nobody.

**The copy stream.** `Session.dfy` has `smtp.c` and the callbacks of `milter.c`
as methods of the session object, over the kernel of `Network.dfy`, whose
`write` takes any part of what it is given or fails. A connection's log holds
the bytes accepted and the replies read, in order. `Message.dfy` says what a
message is on the wire as a function of the message alone. `Libmilter.dfy` runs
every message and every session. Three readers written from the standards say
what arrives: a DATA reader (RFC 5321, sections 4.1.1.4 and 4.5.2), a header
reader (RFC 5322, sections 2.2 and 2.2.3), and a whole copy server that insists
on lock step.

**Together.** The copy stream is studied one session at a time, with connections
that are numbered in the order in which they are made, never reused
(`Network.dfy`), and with a fixed configuration. `Composition.dfy` is why that is
enough for the connections: in every interleaving of the daemon, with descriptors
handed out and reused in any way, the connections of a session are those its own
calls leave on a network of its own. `Program.dfy` says which calls those of a
session are. `Refinement.dfy` and `DaemonTheorems.OthersDoNotInterfere` are why it is
enough for the configuration.

## What comes out

- With `debugmode` off (with it on, `thread_control.c:73-75` reads the current
  configuration unprotected), no interleaving uses a freed configuration, frees one
  twice, or touches another session's socket; every retired configuration is held
  or about to be freed by exactly one thread.
- A session sees one configuration from connect to close.
- A SIGHUP stays pending until it is delivered, and then replaces the configuration,
  or leaves everything as it was if the file cannot be read. Whoever has the mutex
  can always give it back by itself.
- Nothing fails without a cause: a message fails, or gets no connection, if and only
  if the kernel refused a call or there is neither a configured HELO name nor a host
  name; else it is aborted where the mail server aborts it, and completed otherwise.
- However the partial writes fall, a message puts one function of its contents
  on the wire, and any failure or abort leaves a proper prefix of it.
- The copy server gets the text back exactly when the text ends in CRLF and no
  line of it starts with a dot, because the code sends the text without
  dot-stuffing (`smtp.c:229-240`); and gets the header fields back exactly when
  every name is non-empty, does not start with white space and holds no colon, CR
  or LF, and every value is without CR and folded after each LF. Where that fails,
  `DotLineEndsText`, `UnendedTextRunsOn` and `LooseValueIsNotRead` are inputs that
  do not arrive.
- After a message that was not aborted, the next message uses the same socket, also
  if the message failed (`milter.c:164-174`). So it is false that a message for
  which `mdfi_eom` gives CONTINUE always reaches the copy server: `ResidueConfuses`
  is such a message. Whatever was sent before and after, a server that insists on
  lock step gets a message as it was sent if and only if all of it was said (at most
  the reply to its final dot is missing), HELO name and recipients are single
  lines, its text needs no dot-stuffing, and every earlier message on the connection
  left the server in step (`HeardExactlyWhen`). A completed message does so when its
  envelope is single lines and its text, read with its final dot, ends at that
  dot; a failed one when it failed on the write of a command, or for lack of a host
  name (`InStepAt`).

## Assumptions about the surroundings

- libmilter runs the callbacks of one session one after another: connect, then
  per message envfrom, envrcpt for each recipient, data, header for each field,
  eoh, body for each piece, eom; then close. It aborts only inside a message and
  runs no further callback of a message after SMFIS_ACCEPT. (The step system
  asks for less: any order of actions between connect and close.)
- `smfi_setpriv` and `smfi_getpriv` succeed. If the former failed in
  `mdfi_connect`, the reference would never be dropped (`milter.c:138-140`).
- `pthread_sigmask` succeeds on its valid arguments; the kernel blocks SIGHUP
  while its handler runs and restores the mask when the handler returns; several
  pending SIGHUPs count as one.
- `write` of a positive length never returns 0.
- Lengths and counts fit in C `int`, host names in 256 bytes and formatted
  commands in 1024.
- `main` has finished start-up before the first reload, because it uses the first
  configuration without a reference (`madai.c:93`, `madai.c:125-131`).
- C strings are their bytes before the NUL; a body piece is any bytes.

## Model

| member | source | states |
|---|---|---|
| DaemonInvariant.StepKeeps | src/config.c:359-455 | every step of every thread keeps the mutex, handler stack, heap, counts, delete flags, pending frees and descriptors consistent, and is no fault |
| DaemonInvariant.RunKeeps | src/config.c:359-455 | so does every run |
| DaemonInvariant.DropKeepsFrees | src/config.c:441-446 | dropping the last reference to a retired set makes that thread, and no other, the one to free it |
| DaemonInvariant.SwapKeepsFrees | src/config.c:374-379 | replacing the current set makes the reload thread the one to free the old set exactly when nobody holds it |
| DaemonInvariant.FreedIsUnused | src/config.c:449-452 | a set about to be freed is retired, has no holder, and no other thread may still follow a pointer to it |
| DaemonInvariant.SocketOpenKeeps | src/smtp.c:54-57 | opening any unused descriptor number keeps descriptors and owners one to one |
| DaemonTheorems.MemorySafe | src/config.c:372-455 | in every reachable state nothing was used or freed outside its life, no foreign or closed descriptor was touched, and every pointer still in use is good |
| DaemonTheorems.EveryAccessIsSafe | src/config.c:372-455 | whatever step comes next, the sets it reads, writes or frees are there and the descriptor it uses is open and its own |
| DaemonEffects.BadAccessIsFault | src/config.c:372-455 | the fault record of the step system misses no access to a set that is not there |
| DaemonTheorems.FreedOnlyUnused | src/config.c:390-394 | a step frees only a retired set with count zero and no holder, and only the one thread that decided to |
| DaemonTheorems.CountsAreExact | src/config.c:416-420 | the count is the number of sessions holding the set; with the mutex free, the flag means published and no longer current |
| DaemonTheorems.RetiredOnlyFalls | src/config.c:372-382 | a retired set is never current again and its count never rises |
| DaemonTheorems.HeldOrDoomed | src/config.c:440-452 | a retired set has holders, or exactly one thread that will free it |
| DaemonTheorems.DoomedUntilFreed | src/config.c:448-452 | the thread that is to free a set does so or still is to, whatever anyone does |
| DaemonTheorems.OnlyCurrentRemains | src/milter.c:378-383 | when all sessions have ended and the reload thread has nothing to free or to publish, only the current set is left |
| DaemonTheorems.OneReloadAtATime | src/thread_control.c:41-78 | for any arrival of SIGHUPs and any nesting, at most one activation is inside reload_config and every interrupted one has passed its unblock |
| DaemonTheorems.SocketsOneToOne | src/smtp.c:48-85 | open descriptors, the sessions that own one and open connections correspond one to one under reuse of numbers |
| DaemonTheorems.ClosedExactlyOnce | src/milter.c:319-346 | no connection is closed twice, and all of a session's are closed when it has ended |
| DaemonTheorems.OthersDoNotInterfere | src/milter.h:25-29 | steps of others, however many, change neither a session's fields nor its configuration's contents nor its connections |
| DaemonRuns.SignalReloads | src/thread_control.c:41-78 | with the mutex free, SIGHUP leads through do_hup to the new set being current and the old one marked or gone, and changes nothing else |
| DaemonRuns.SignalFails | src/thread_control.c:56-62 | with a file that cannot be read, SIGHUP leads back to the state before it |
| DaemonRuns.PendingStays | src/thread_control.c:48-66 | a SIGHUP that was sent stays pending under every step but its delivery |
| DaemonRuns.PendingIsDelivered | src/thread_control.c:66-71 | a SIGHUP that arrived during a reload can be delivered once the signal is unblocked |
| DaemonRuns.LockIsGivenBack | src/config.c:372-455 | no deadlock: in every reachable state, whoever has the mutex can give it back by itself |
| DaemonRuns.SessionMoves | src/milter.c:123-349 | a session that has not ended can move, or waits for a mutex that is taken |
| DaemonRuns.ClientConnects | src/milter.c:123-143 | a new client leads to a session that holds the current set, counted once more, and to no other change |
| DaemonRuns.EstablishedIsExact | src/smtp.c:61-85 | the greeting is read on the connection the session just opened, which it keeps |
| DaemonRuns.WriteIsExact | src/smtp.c:280-296 | what a session writes is added, all of it, to its own open connection and nowhere else |
| DaemonRuns.ReceiveIsExact | src/smtp.c:298-310 | likewise the reply it reads |
| DaemonRuns.AbortIsExact | src/milter.c:309-324 | an abort closes the session's connection once and leaves the session without one |
| DaemonRuns.ClientLeaves | src/milter.c:330-349 | a close leads to the session's end, its connection closed and its reference given back |
| DaemonRuns.ConfigStays | src/config.c:411-455 | from reading which set is current to dropping the reference, a session has that set with the contents it had then, whatever anyone does |
| Refinement.StepSimulates | src/config.c:359-455 | each step is a step of the simple store (record, replace, forget) or invisible to it |
| Refinement.RunSimulates | src/config.c:359-455 | every run shows what a run of the simple store shows, and ends in the matching state |
| Refinement.StoreIsStable | src/milter.c:134-135 | in the simple store, what a session reads is what it recorded when it connected |
| Refinement.SnapshotStable | src/config.c:411-423 | every setting a session reads, in any interleaving, is that of the configuration current when it connected |
| Refinement.NothingIsGarbage | src/config.c:359-455 | in no interleaving does a session or the reload thread read contents of a set that is not there |
| Refinement.NothingIsHidden | src/config.c:359-455 | every taking, reading and dropping of a configuration, and every change of the current one, shows in the trace with the contents concerned |
| Refinement.TakesAndGivesBack | src/milter.c:123-349 | in every run a session takes a configuration only when it has none, and gives back only one it took |
| Refinement.LogIsCurrent | src/config.c:384-388 | what the reload thread reads for its log is the configuration current then |
| ConfigStore.Store.GetConfig | src/config.c:411-423 | gives the current set, which is never a marked one, with one more reference |
| ConfigStore.Store.ReleaseConfig | src/config.c:435-455 | drops one reference; the last one to a retired set frees it |
| ConfigStore.Store.ReloadConfig | src/config.c:359-397 | a failed load changes nothing; otherwise the new set is current and the old one marked, or freed if unheld |
| ConfigStore.GetIsItsSteps | src/config.c:416-422 | the call's effect is that of its steps run without interruption |
| ConfigStore.ReleaseIsItsSteps | src/config.c:440-452 | likewise, to the end of the session |
| ConfigStore.ReloadIsItsSteps | src/config.c:366-394 | likewise, from the load to the free |
| Network.WriteMsg | src/smtp.c:280-296 | for every pattern of partial writes: the first len bytes on success, a proper prefix on failure; fails exactly when the kernel refused a write; terminates |
| Network.ReadMsg | src/smtp.c:298-310 | a read that the kernel does not refuse counts as a reply, whatever it is, end of file included; nothing else fails it |
| Session.SessionData.StartSmtp | src/smtp.c:39-86 | keeps an open socket; else opens one and reads its greeting, or, exactly when a call was refused, leaves none open |
| Session.SessionData.SendFrom | src/smtp.c:88-130 | HELO with the configured name, or if it is empty with the host name, and MAIL, each with its reply; a proper prefix exactly when a call was refused; nothing and a failure if there is no name at all |
| Session.SessionData.SendRcpt | src/smtp.c:132-152 | RCPT and its reply, or a proper prefix |
| Session.SessionData.SendHeader | src/smtp.c:161-212 | the strchr loop writes name, colon, the value with CRLF for LF, CRLF; a proper prefix on failure |
| Session.SessionData.SendBody | src/smtp.c:228-240 | the first bodylen bytes as they are, or a proper prefix |
| Session.SessionData.SendEom | src/smtp.c:242-259 | the final dot and its reply, or a proper prefix |
| Session.SessionData.SendData | src/smtp.c:261-278 | DATA and its reply, or a proper prefix |
| Session.SessionData.SendEoh | src/smtp.c:214-226 | the empty line, or a proper prefix |
| Session.SessionData.MdfiEnvfrom | src/milter.c:153-180 | the message's connection is the old one or a new greeted one, and gains HELO and MAIL; ACCEPT exactly when a call was refused or there is no HELO name |
| Session.SessionData.Dispatch | src/milter.c:187-303 | every other callback adds its part; CONTINUE exactly when it is complete, and exactly when no call was refused |
| Session.SessionData.MdfiAbort | src/milter.c:309-324 | closes the socket and forgets it |
| Session.SessionData.MdfiClose | src/milter.c:330-349 | closes the socket if any and gives the configuration back |
| Session.MdfiConnect | src/milter.c:123-143 | a new session holds the current configuration and no socket; without memory there is none |
| Message.WireRoundTrip | src/smtp.c:154-159 | LF to CRLF and back restores every value |
| Message.HeaderLength | src/smtp.c:170-209 | a field takes name, value, its LF count and three bytes more |
| Message.ScriptIsMail | src/milter.c:153-303 | the callbacks in order put one function of helo name, recipients, headers and body on the connection |
| Message.CutsDoNotShow | src/milter.c:259-280 | two ways of cutting a body give the same connection log |
| Message.MailBytes | src/smtp.c:88-278 | the bytes of a message: HELO, MAIL, RCPT lines, DATA, text, dot |
| Message.MailReplies | src/smtp.c:108-127 | replies read for a message: two, one a recipient, one for DATA, one for the dot |
| Wire.ProgressInBytes | src/smtp.c:280-296 | what a failed call put on the socket is a prefix of what it had to put there, in bytes as in events |
| Wire.LockStep | src/smtp.c:108-127 | at every moment of a conversation all turns but the current one have been answered |
| CopyServer.ConnectionInStep | src/smtp.c:79-83 | the same over a whole connection of several messages, with one greeting first, and the number of replies |
| Libmilter.RunMail | src/milter.c:153-324 | a run of a message leaves its whole conversation when eom gives CONTINUE, else a proper prefix; it fails or gets no connection exactly when a call was refused or there is no HELO name, and otherwise is aborted where it was to be, with exactly the callbacks before that on the connection, or completed |
| Libmilter.RunSession | src/milter.c:123-349 | over any messages of a session, with the configured HELO name or else the host name: every connection lives as LifeOk says, a greeted one is given up for another only after an abort, the messages lie on them in order and none is lost, all are closed at the end, the configurations are as before, the calls made are lawful ones, and without refused calls every message is completed or aborted as planned; without a name nothing is said |
| Libmilter.RanAll | src/milter.c:153-303 | where every message got a connection, what was run is all the messages in order, each with its outcome |
| Libmilter.JobMakesCalls | src/milter.c:153-324 | running a message makes calls that are events of its conversation on its one connection, after the greeting of a new one, and a close if it was aborted |
| Libmilter.SessionLives | src/milter.c:123-349 | conversely, any calls of that shape leave connections that live so and carry the messages with their outcomes in order |
| Libmilter.ReuseIsClean | src/milter.c:164-174 | without a failure left behind, a connection carries complete conversations and at most one prefix at the end |
| Libmilter.CompletedAreHeard | src/milter.c:286-303 | a connection of completed messages gives the copy server every one of them exactly when HELO name and recipients are single lines and no text needs dot-stuffing |
| KeptSocket.SegmentHeard | src/milter.c:164-174 | of any message, stopped anywhere, a server that hears commands gets exactly what it yields, and goes on hearing commands exactly when it is left in step |
| KeptSocket.LostHeard | src/milter.c:164-174 | a server that owes a reply, is inside a text or is out of step gets nothing of whatever part of a message follows, and stays so |
| KeptSocket.ConnectionDelivers | src/milter.c:153-324 | what a strict server gets out of any greeted connection with any messages: what they yield, up to the first that does not leave it in step |
| KeptSocket.EachDelivers | src/milter.c:169-172 | each message adds what it yields if every earlier one left the server in step, and nothing otherwise |
| KeptSocket.HeardExactlyWhen | src/milter.c:169-172 | for any messages: one is got as it was sent if and only if it was finished, needs no dot-stuffing, its envelope is single lines, and every earlier one on the connection left the server in step |
| KeptSocket.YieldsItself | src/smtp.c:228-259 | what a message yields is its own text exactly when it was finished, its envelope is single lines and its text needs no dot-stuffing |
| KeptSocket.InStepAt | src/smtp.c:88-278 | wherever any message with single-line commands stopped: in step exactly when inside a command not all of which was written, or at the end of a text that ended at its dot; so after a failed write of a command, never after a failed read |
| KeptSocket.BetweenTurnsIsInStep | src/smtp.c:88-278 | a message that ended between two turns, before the text, leaves the server in step exactly when its commands so far were single lines |
| KeptSocket.ResidueConfuses | src/milter.c:169-172 | a kept socket on which the HELO reply could not be read: the next message completes and a strict server gets nothing |
| DataReader.DataRoundTrip | src/smtp.c:229-259 | the DATA reader returns exactly the text if and only if it is whole lines and none starts with a dot |
| DataReader.DotLineEndsText | src/smtp.c:228-240 | a body line of a single dot ends the text: the body is lost, and the real final dot is left over as a command |
| DataReader.UnendedTextRunsOn | src/smtp.c:242-259 | a body without a final CRLF makes one line with the final dot, and the text does not end |
| DataReader.DotDropped | src/smtp.c:228-240 | of a line that starts with a dot, the reader drops that dot and nothing else |
| DataReader.StuffedRoundTrip | src/smtp.c:228-240 | if dots were doubled, which the code does not do, exactly the texts of whole lines would arrive |
| DataReader.NotBeforeTheEnd | src/smtp.c:248-251 | such a text is not taken for finished before its last byte |
| FieldReader.LetterRoundTrip | src/smtp.c:161-226 | the header reader returns exactly headers and body if and only if the headers are good |
| FieldReader.ReadIsPrinted | src/smtp.c:161-226 | whatever message the header reader makes of a text, send_header and send_body print that text |
| FieldReader.LooseValueIsNotRead | src/smtp.c:161-212 | a value whose LF white space does not follow: the message cannot be read |
| FieldReader.StrictRoundTrip | src/smtp.c:161-226 | a reader that also wants printable ASCII names returns the message if and only if, besides, the names are so |
| FieldReader.PayloadInjective | src/smtp.c:161-240 | different good messages differ on the wire, for any names that are not empty, do not start with white space and hold no colon, CR or LF |
| FieldReader.PayloadClean | src/smtp.c:228-240 | for good headers the text survives DATA exactly when body and field names need no dot-stuffing |
| FieldReader.CopyRoundTrip | src/smtp.c:161-259 | both readers together recover the message if and only if headers are good and nothing needs dot-stuffing |
| CopyServer.ConnectionHeard | src/smtp.c:79-278 | a strict server that hears a whole connection gets every envelope and text in order if and only if HELO name and recipients are single lines and no text needs dot-stuffing; it is then ready for more |
| CopyServer.CopiesAreFaithful | src/smtp.c:79-278 | the same down to header fields and bodies: all messages are recovered if and only if, besides, their headers are good |
| CopyServer.InsistsOnLockStep | src/smtp.c:108-127 | the strict server is in step only with logs of one greeting and then whole lines or texts, each with exactly one reply, and nothing said while one is owed |
| Composition.SessionsAreAlone | src/smtp.c:48-85 | in every interleaving and under every reuse of descriptors, a session's connections are what its own calls leave on a network of its own |
| Composition.SessionInDaemon | src/milter.c:123-349 | so in every interleaving in which a session's calls are those of messages run in libmilter's order, its connections live as those of a session alone, and carry the same messages with the same outcomes |
| Composition.SessionSoFar | src/milter.c:123-324 | the same after any number of its messages, with the connection still open |

## Left out

- `print_config_data` and debug mode: with `debugmode` set, `do_hup` reads the current configuration once more after the signal is unblocked (`thread_control.c:73-75`), where a nested reload may run; the theorems are about `debugmode` off.
- Reading and checking the configuration file (libdg is not part of this model): a load yields any contents, or fails.
- Allocation failure in `setup_config_set` after the data was read (`config.c:182-186`) leaks that data; here it is a failed load, and only published sets are counted.
- Logging, syslog switching, option parsing and start-up in `main`, except that the reload thread's reads of `cd_syslogfacility` after the unlock are steps.
- Socket addresses, timeouts and `gethostname`: only success or failure, and the name.
- The meaning of SMTP replies: the code ignores them, so nothing is claimed about what the copy server accepts.
- The grammar of single commands: the literals are as the code has them, `MAIL FROM: <>` with its space included.
- The terminator stored behind the body buffer (`milter.c:272`): the bytes sent do not depend on it.
- Sockets whose session's private data was lost: `smfi_setpriv` is assumed to succeed.
- Session.SessionData.Dispatch: stands for the six callbacks after the first, which differ only in the call they make; aliasing of their string arguments is not modelled.
- Reuse of descriptor numbers in the sequential view of `Network.dfy`: it is in the step system, and `Composition.dfy` leads from one to the other.
