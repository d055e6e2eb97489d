# rkcockpit: verified models

rkcockpit is an operations console written with the Python standard library alone. Its hard part is
a set of small state machines, each guarded by one lock, and of bounded buffers that have to stay
correct whatever threads, time-outs and chunk sizes do to them. This project models them in Dafny
4.11 and proves what they promise.

`dafny verify dfyconfig.toml` checks everything.

## How the model is built

* A critical section (`with self._cond`, `with self._lock`) is one atomic step. Where the code gives
  up the lock between two updates, the model has two steps, so that every interleaving of threads
  is a run. A time-out, a failing write, a process that exits: each is a step, or an input, that may
  come at any point.
* What works by changing fields step by step is a `class` with those fields and loops. Its methods
  are proved to make exactly the transition of a specification function; the theorems over all
  runs are proved about those functions. Requests, events and jobs are known by their arrival number.
* Pure computations are functions, with lemmas about them.

| file | models |
|---|---|
| `Counting.dfy`, `Sequences.dfy`, `Text.dfy` | how counts over a ledger move; facts about sequences; classes of characters |
| `SchedulerModel.dfy`, `SchedulerInvariant.dfy`, `SchedulerEffects.dfy`, `SchedulerFairness.dfy` | the SSH admission scheduler as a state machine; what every step keeps; what each comes to for the requests; the no-starvation bound |
| `TransportScheduler.dfy` | the scheduler object with its counters, queues, turn orders and loops |
| `SshChannels.dfy`, `SshTransport.dfy` | leases and the child processes they pay for: all interleavings, and the code that uses them |
| `Utf8.dfy`, `BrokenText.dfy` | UTF-8 (section 4 of RFC 3629), with the replacing and the incremental decoder; what becomes of bytes that are no text |
| `OutputBuffer.dfy`, `PollingClient.dfy`, `RefusedCursors.dfy` | the output ring with absolute cursors; the protocol of the client that polls it; when it is refused |
| `LineRing.dfy` | the numbered line ring of the log follower |
| `AuditRecorder.dfy`, `ExecSlots.dfy`, `HttpAdmission.dfy` | three conservation protocols: audit events, command slots, HTTP requests |
| `History.dfy` | trimming a conversation by rounds |
| `Deploy.dfy`, `DeployRuns.dfy` | the stages of a deployment and the table of jobs; the workers of a plan and their callers in all interleavings |
| `ShellQuote.dfy` | quoting for the remote shell, against a lexer for sections 2.2.1 and 2.2.2 of the POSIX.1-2017 Shell Command Language |
| `KnownHosts.dfy`, `HostTokens.dfy` | append-only pinning of host keys; tokens, lines and listed names |
| `PathGuard.dfy`, `PathMeaning.dfy` | lexical path handling, over models of `normpath`, `join`, `commonpath` and `relpath`; what these mean |

## Where the code keeps less, or more, than it says

Each of these is proved, with the exact condition or a concrete input.

* The polling client is never refused a cursor it was given if and only if the output has no run of
  more than `limit` continuation bytes past its first byte, and every continuation byte that comes while
  nothing is withheld ends a run of `limit` of them, so that it is cut as it comes
  (`RefusedCursors.NeverRefusedExactly`, for all bytes and all limits). From a limit of five on this says
  that no continuation byte is stray (`NeverRefusedWhenLarge`); the two bytes 0x41 0x80 are refused for
  every limit from two on (`StrayByteIsRefused`). The decoder also withholds 0xED 0xA0..0xBF at the end of
  its input, as if a surrogate were a character; so 0xED 0xA0 0x80, which is no text, is refused only
  for a limit of one (`SurrogateIsNeverRefused`). For well-formed output a limit of three is enough, and
  needed (`NeverRefusedIff`). The ring depends on its bytes alone, however chunked, if and only if the
  history has no run of `limit + 1` continuation bytes (`OutputBuffer.ChunkingIndependentIff`).
* The line ring's byte counter keeps the text of lines that the full deque dropped. It is the retained
  size if and only if no push met a ring that was full by count and whose oldest line had a text
  (`LineRing.CounterIsExactIff`). The excess never shrinks; with room for two lines it stays within the
  byte bound (`DriftWithinBound`), and there are runs that reach the bound (`DriftReachesBound`). From then
  on every push of a line with a text leaves that line alone in the ring (`OneLineForGood`); a push of
  an empty line leaves one line exactly if the line before it had a text or is gone
  (`FullDriftLeavesOneIff`). The limit on a line counts characters, not bytes.
* The HTTP server can leave an admitted request behind: if and only if, once it is closed, requests
  are queued and every worker has either left or has found the queue empty and not yet looked at the
  closing flag (`HttpAdmission.StrandsIff`; `StrandingHappens` is such a run). Then no request of the queue
  is ever served, and no `drain` called after closing succeeds (`DoomedNeverDrains`).
* Two places have the same entry in the known-hosts file exactly if one is on port 22 and its host is spelt
  like the token of the other (`HostTokens.SameTokenIff`).
* Trimming keeps every tool result with its call, whatever the budget, if and only if the history has
  a user message or no tool result (`History.PairsKeptIff`, `TrimmedPairsKeptIff`).
* `cancel` answers True for every running job, but decides nothing. The job ends cancelled if and only if
  an earlier call has been noticed, or the flag reaches the worker and the worker looks at it once more
  (`DeployRuns.CancelDecides`, over all runs with restarts). The flag reaches a worker that has taken it
  from the table if the table still has it or an earlier call raised it, and a worker that has not, if the
  table has it until then. The worker does not look again after the last stage, nor after a command that
  ended by its exit code (`CancelCanComeTooLate`), nor when its transport cannot be set up
  (`CancelBeforeNoTransport`). A worker removes the flag of its plan after its job is settled, when a new job
  may have started: that job then succeeds although its cancel answered True (`RestartLosesCancel`). For
  the first job of a plan only the looks decide (`CancelOfFirstJob`).
* The pattern for key types accepts a final line feed. Such a pin writes two lines, of which the second
  passes for an entry of a host named like the key (`KnownHosts.PinAppends`, `PinAddsEntries`,
  `BrokenPinHappens`). Repeating it fails instead of answering False; so does a repetition when the first
  pin took the file over 1 MiB (`RepeatedPin`). A sequence of pins keeps every token to one line if and
  only if each second line is harmless at its turn (`PinsStayUniqueIff`). The one caller in the
  repository, tools/pin_ssh_host.py, takes its key types from `parse_keyscan`, whose fields of a split
  line never end in a line feed (`ScannedTypeIsWhole`), so there the case does not arise.
* A path write can be answered with the home directory itself, although the docstring rules it out:
  exactly for paths that start with "~/", or with two slashes, and whose normal form is the home
  directory (`PathGuard.WriteToHomeItself`, `WriteToHomeItselfHappens`). The text of an answer is the normal
  form exactly when the requested path does not start with two slashes (`PathGuard.WriteResolves`).

## Model

| member | source | states |
|---|---|---|
| SchedulerModel.FirstEligible | host/transport/scheduler.py:144-152 | the device a pass serves is the first in turn that may start a channel; every device passed over may not |
| SchedulerInvariant.InitInv | host/transport/scheduler.py:73-112 | an empty scheduler with admissible limits satisfies the invariant and has nobody to admit |
| SchedulerInvariant.PopServes | host/transport/scheduler.py:141-159 | the waiter popped is the earliest of its device and class, its device may start a channel, and the remaining queues and turns are in order |
| SchedulerInvariant.EnqueueInv | host/transport/scheduler.py:247-255 | joining a queue keeps queues, turn orders, counters, caps and FIFO order |
| SchedulerInvariant.GrantOneInv | host/transport/scheduler.py:161-205 | a grant keeps the invariant, and takes one request from a positive waiting count |
| SchedulerInvariant.ExpireInv | host/transport/scheduler.py:209-229 | a time-out keeps the invariant |
| SchedulerInvariant.FreeInv | host/transport/scheduler.py:273-290 | giving back a channel keeps the invariant |
| SchedulerInvariant.PurgeInv | host/transport/scheduler.py:339-353 | removing a device keeps the invariant |
| SchedulerInvariant.QueuesHoldWaiters | host/transport/scheduler.py:343-353 | the two queues of a device hold exactly its waiting requests, so removing it takes the right number off the counters |
| SchedulerInvariant.CountedWaiter | host/transport/scheduler.py:180-185 | a waiting request is counted in all and for its device, so the counters never go below zero |
| SchedulerInvariant.CountedChannel | host/transport/scheduler.py:275-286 | an active channel is counted in all, for its device and class: the underflow errors cannot be reached from it |
| SchedulerInvariant.GrantAllInv | host/transport/scheduler.py:161-207 | granting ends, keeps the invariant, and leaves no queued request that could be admitted |
| SchedulerInvariant.GrantAllProgress | host/transport/scheduler.py:161-207 | granting changes no request except from waiting to active |
| SchedulerInvariant.StepInv | host/transport/scheduler.py:239-355 | every critical section (acquire, time-out, release, remove_device) keeps the invariant and work conservation |
| SchedulerInvariant.StepProgress | host/transport/scheduler.py:239-355 | a request keeps its device and class and moves on only from waiting to granted, timed out or removed, and from granted to released |
| SchedulerInvariant.RunProgress | host/transport/scheduler.py:239-355 | the same over whole runs: every request has exactly one end |
| SchedulerInvariant.AllRunsSafe | host/transport/scheduler.py:70-355 | in every reachable state the turn orders are distinct and name exactly the devices with waiters, all counters are the sums they summarise, all caps hold, and nobody waits behind a later request of its device and class that was granted |
| SchedulerInvariant.AllRunsConserveWork | host/transport/scheduler.py:131-207 | in every reachable state, if a request waits then the total cap, its device's cap, or its device's background cap is reached |
| SchedulerInvariant.WaiterIsBlocked | host/transport/scheduler.py:131-139 | under the invariant and conservation, no waiting request may be granted |
| SchedulerEffects.AcquireJoinsOrRefuses | host/transport/scheduler.py:239-260 | a request is refused exactly when one of its two queues is full, and then only the refusal is counted; otherwise it waits or is granted; nobody else changes except by a grant |
| SchedulerEffects.TimeoutFails | host/transport/scheduler.py:209-267 | a waiter whose deadline passes has timed out and is in no queue; the others are as they were or granted |
| SchedulerEffects.ReleaseEnds | host/transport/scheduler.py:273-292 | a channel given back is released; the others are as they were or granted |
| SchedulerEffects.RemovalTurnsAway | host/transport/scheduler.py:339-355 | every request that waits on a removed device fails and no other does; the device is in no queue, turn order or waiting counter |
| SchedulerFairness.PopReaches | host/transport/scheduler.py:141-159 | a pass serves a ready device or lowers its place in the turn order |
| SchedulerFairness.GrantLowersPatience | host/transport/scheduler.py:161-177 | every grant that does not serve a ready device lowers the bound on how long it still waits |
| SchedulerFairness.OthersKeepPatience | host/transport/scheduler.py:209-355 | nothing but a grant raises that bound |
| SchedulerFairness.NoStarvation | host/transport/scheduler.py:141-177 | a device at place k that is ready at every grant is served within 9 * (k + 1) grants if background, k + 2 + k / 8 if foreground |
| SchedulerFairness.RunsAreHistories | host/transport/scheduler.py:161-355 | every run of critical sections is a history of single steps, in which each grant is visible, with the same end |
| SchedulerFairness.NoStarvationInRuns | host/transport/scheduler.py:141-355 | the bound for whole runs of critical sections |
| TransportScheduler.Scheduler.constructor | host/transport/scheduler.py:73-112 | the object starts as the machine's initial state |
| TransportScheduler.Scheduler.Scan | host/transport/scheduler.py:141-159 | the loop over the turn order pops exactly the waiter, and leaves exactly the queues and turns, that the closed form says |
| TransportScheduler.Scheduler.PopEligible | host/transport/scheduler.py:141-159 | the same in place, for one of the two classes |
| TransportScheduler.Scheduler.PopNext | host/transport/scheduler.py:164-176 | foreground first, except background after a burst of eight; the streak counts |
| TransportScheduler.Scheduler.Admit | host/transport/scheduler.py:179-204 | a popped waiter moves from the waiting to the active counters |
| TransportScheduler.Scheduler.GrantLocked | host/transport/scheduler.py:161-207 | the loop ends in the machine's state in which nobody can be admitted |
| TransportScheduler.Scheduler.Enqueue | host/transport/scheduler.py:248-255 | joins the queue of the device, which enters the turn order with its first waiter |
| TransportScheduler.Scheduler.Acquire | host/transport/scheduler.py:239-260 | makes the machine's step; the error says which queue was full; the request behind the answer waits, is active, or is rejected accordingly |
| TransportScheduler.Scheduler.RemoveWaiter | host/transport/scheduler.py:209-229 | finds the waiter exactly when it is queued; takes it out of its queue, and its device out of the turn order with its last waiter |
| TransportScheduler.Scheduler.Timeout | host/transport/scheduler.py:261-267 | makes the machine's step for a waiter whose deadline passed; it is found in its queue |
| TransportScheduler.Scheduler.FreeChannel | host/transport/scheduler.py:275-290 | uncounts a channel, or raises exactly when a counter would underflow |
| TransportScheduler.Scheduler.ReleaseChannel | host/transport/scheduler.py:273-292 | makes the machine's step for a channel that is active; neither underflow is raised |
| TransportScheduler.Scheduler.EvictClass | host/transport/scheduler.py:343-353 | turns away exactly the waiters of one class of a device |
| TransportScheduler.Scheduler.EvictDevice | host/transport/scheduler.py:343-353 | every waiting request of the device becomes removed and no other changes; its queues and its waiting counter are gone |
| TransportScheduler.Scheduler.RemoveDevice | host/transport/scheduler.py:339-355 | makes the machine's step: the device's waiters are turned away, it leaves every queue and turn order, and others may be granted |
| SshChannels.EntryKeepsChannels | host/transport/scheduler.py:239-355 | no critical section but a release ends a channel |
| SshChannels.StepTied | host/transport/ssh.py:131-190 | every step of any thread keeps: a granted request is active until the one release of its lease arrives, and the child of a released lease is not running |
| SshChannels.RunTied | host/transport/ssh.py:131-190 | the same over whole runs |
| SshChannels.ReturningNeverUnderflows | host/transport/scheduler.py:55-61 | the second half of a lease's release is always possible and its counters are positive |
| SshChannels.CallReleases | host/transport/ssh.py:131-190 | a call that is not cut short gives the lease back exactly if no child is running, and touches no other lease |
| SshChannels.ExitedChannelComesBack | host/transport/ssh.py:138-147 | from every reachable state, a wait that returns and the rest of its release end the channel of a child that has exited |
| SshChannels.LiveChildrenWithinCaps | host/transport/ssh.py:134-187 | in every reachable state the live children are at most the channels counted, in all, per device and per device's background work, and those are within the caps |
| SshTransport.Lease.Release | host/transport/scheduler.py:55-61 | answers True the first time only, and gives the channel back exactly then |
| SshTransport.TerminateReap | host/transport/ssh.py:69-92 | returns only when the child has exited |
| SshTransport.ScheduledPopen.Poll | host/transport/ssh.py:138-142 | releases the lease exactly when the child has exited |
| SshTransport.ScheduledPopen.Wait | host/transport/ssh.py:144-152 | a wait that returns leaves the lease released and the child exited; one that is cut short leaves the lease alone; the channel is given back exactly when the flag rises |
| SshTransport.ScheduledPopen.SendSignal | host/transport/ssh.py:154-176 | a signal does not release the lease unless the child is gone |
| SshTransport.ScheduledPopen.LeaveContext | host/transport/ssh.py:182-187 | leaving the context releases the lease exactly if a return code is recorded, interrupted or not, and then the child has exited |
| SshTransport.Exec | host/transport/ssh.py:287-305 | returns with the child gone and the lease released |
| SshTransport.OpenCmd | host/transport/ssh.py:311-322 | the lease travels with the child, or is released when starting it raises; without a scheduler the bare process is returned |
| SshTransport.Transfer | host/transport/ssh.py:375-415 | wherever the transfer fails, the child is gone before the lease is released |
| Utf8.DecodeEncoded | host/task/output_buffer.py:85-86 | decoding the encoding of any scalar values gives them back, with no replacement |
| Utf8.EncodeScanned | host/task/output_buffer.py:85-86 | what the decoder takes for a character is the one encoding of its value |
| Utf8.WellFormedConcat | host/task/output_buffer.py:85-86 | decoding well-formed text and what follows it is decoding the two one after the other |
| Utf8.PendingIncremental | host/task/output_buffer.py:54-57 | feeding an incremental decoder in two chunks withholds what feeding it at once does |
| Utf8.TailDecides | host/task/output_buffer.py:51-57 | for arbitrary bytes, the withheld length found in the last four bytes is that of the whole ring |
| Utf8.AtMostThreeContinuations | host/task/output_buffer.py:45-47 | well-formed text has no four continuation bytes in a row |
| Utf8.PendingAfterBoundary | host/task/output_buffer.py:54-57 | from a character boundary on, what is withheld is exactly what follows the last complete character |
| BrokenText.ReplacementIff | host/task/output_buffer.py:85-86 | for all bytes: the text has a replacement character exactly if they are not well-formed |
| BrokenText.BrokenIsReplaced | host/task/output_buffer.py:85-86 | a byte that starts no character, or the longest beginning of one that is there, becomes one replacement character, and decoding goes on behind it |
| BrokenText.FirstBroken | host/task/output_buffer.py:85-86 | bytes that are no text are a well-formed part, one such broken piece, and a rest, so that the two results before determine every decoding |
| OutputBuffer.Buffer.TrimHead | host/task/output_buffer.py:41-50 | deletes the excess, and then up to the next character boundary |
| OutputBuffer.Buffer.Extend | host/task/output_buffer.py:35-57 | makes the specified ring; the withheld tail is that of the whole ring although only four bytes are decoded; the limit holds |
| OutputBuffer.Buffer.Read | host/task/output_buffer.py:59-87 | refuses exactly an offset beyond the visible end or on a continuation byte; otherwise the decoding from the offset, or from the base if it is stale or missing, with the reset |
| OutputBuffer.AppendToRing | host/task/output_buffer.py:35-50 | appending to the ring of a history gives the ring of the longer history |
| OutputBuffer.ClosedForm | host/task/output_buffer.py:35-50 | however chunked, the ring is history from the first boundary at or after `limit` bytes before its end, if no run of continuation bytes is too long |
| OutputBuffer.ChunkingIndependentIff | host/task/output_buffer.py:35-50 | that condition is exact |
| OutputBuffer.WellFormedClosedForm | host/task/output_buffer.py:35-50 | for well-formed text and a limit of at least three, always; the ring is then at most three bytes short of what the limit allows |
| PollingClient.PollKeeps | static/js/pages/term.js:67-82 | a poll keeps the screen a decoded slice that ends at the cursor; after the end it reaches the last byte |
| PollingClient.StepKeeps | host/task/execjob.py:132-149 | so does every arrival, poll and end |
| PollingClient.ClientShowsSlice | static/js/pages/term.js:63-97 | in every interleaving the client is never refused, and shows the decoding of one contiguous well-formed slice ending at its cursor, without replacement characters |
| PollingClient.ClientShowsEnd | static/js/pages/term.js:76-82 | the poll that reports the end delivers the output to its last byte |
| PollingClient.ClientShowsCut | static/js/pages/term.js:63-97 | for well-formed text cut anywhere, as a killed command leaves it: no refusal, and at the end the text to the last byte, with one replacement character at its end exactly if a character was cut, and none before |
| RefusedCursors.NeverRefusedExactly | host/task/output_buffer.py:35-87 | for all bytes and limits: a returned offset is never refused if and only if no run of continuation bytes is too long and every stray one is cut as it comes |
| RefusedCursors.NeverRefusedWhenLarge | host/task/output_buffer.py:35-87 | from a limit of five on: if and only if every continuation byte comes while something is withheld |
| RefusedCursors.StrayByteIsRefused | host/task/output_buffer.py:82-84 | two bytes that are refused for every limit from two on |
| RefusedCursors.SurrogateIsNeverRefused | host/task/output_buffer.py:54-57 | three bytes that are no text, and are refused only for a limit of one |
| RefusedCursors.NeverRefusedIff | host/task/output_buffer.py:76-84 | for well-formed output: a returned offset is never refused if and only if the limit is at least three |
| RefusedCursors.PendingSame | host/task/output_buffer.py:51-57 | what is withheld does not depend on where the ring starts, unless inside a character |
| RefusedCursors.VisibleGrows | host/task/output_buffer.py:66-68 | the visible end never moves back, for any bytes |
| LineRing.LineBuffer.Append | host/service/logcenter.py:45-53 | makes the specified ring |
| LineRing.LineBuffer.EvictOverflow | host/service/logcenter.py:51-53 | evicts from the front while the counter is over the bound and more than one line is left |
| LineRing.LineBuffer.LinesSince | host/service/logcenter.py:59-66 | returns the current number and the specified lines |
| LineRing.SinceIsExact | host/service/logcenter.py:59-66 | the n-th line pushed carries number n; a query returns exactly the retained lines above its number, in order |
| LineRing.PushHolds | host/service/logcenter.py:45-53 | the ring stays a suffix of all lines pushed, within its line bound; the counter is at least the retained size |
| LineRing.PushLosesOnlyExcess | host/service/logcenter.py:45-53 | a line keeps its first 8192 characters; a push loses the oldest line for want of room in count, and lines only while the counter is over the bound |
| LineRing.RetainedTextBounded | host/service/logcenter.py:45-53 | with room for one maximal line, the retained text stays within the byte bound |
| LineRing.ReaderSeesInOrder | host/service/logcenter.py:45-66 | a reader that hands back its cursor sees each line at most once and in order, and misses only lines that are gone |
| LineRing.DriftStep | host/service/logcenter.py:48-53 | every push adds to the excess of the counter exactly the text it drops by count |
| LineRing.DriftIsDropped | host/service/logcenter.py:45-53 | at every point of every run the excess is the text dropped by count so far |
| LineRing.CounterIsExactIff | host/service/logcenter.py:45-53 | the counter is the retained size if and only if no push dropped a text by count |
| LineRing.DriftWithinBound | host/service/logcenter.py:45-53 | with room for two lines the excess never passes the byte bound |
| LineRing.DriftReachesBound | host/service/logcenter.py:45-53 | for all bounds, a run after which the excess is the byte bound |
| LineRing.FullDriftLeavesOneIff | host/service/logcenter.py:51-53 | with the excess at the bound, exactly which pushes leave a single line |
| LineRing.OneLineForGood | host/service/logcenter.py:45-53 | from then on every push of a line with a text leaves that line alone |
| AuditRecorder.NextInv | host/audit/recorder.py:117-146 | every step of any thread keeps: the counters are exact, each event is in the one place its phase says, and a call of close has seen what it relies on |
| AuditRecorder.PendingIsExact | host/audit/recorder.py:117-146 | in every interleaving `pending` is the number of accepted events not finished, and the file holds each saved event once and nothing else |
| AuditRecorder.NothingAfterClose | host/audit/recorder.py:117-119 | once closing has begun no event is accepted |
| AuditRecorder.CleanCloseMeansAllWritten | host/audit/recorder.py:256-271 | close returning True means every accepted event was written exactly once, and none is accepted later |
| AuditRecorder.RecordIsRun | host/audit/recorder.py:117-146 | record, undisturbed, is a run of the machine |
| AuditRecorder.WriteIsRun | host/audit/recorder.py:186-207 | a turn of the writer is a run of the machine, however often the write fails |
| AuditRecorder.CloseIsRun | host/audit/recorder.py:256-271 | close, undisturbed, is a run of the machine |
| AuditRecorder.CodeKeepsInv | host/audit/recorder.py:117-271 | so all three keep the invariant |
| AuditRecorder.Recorder.Record | host/audit/recorder.py:117-146 | accepts unless closing; queues if there is room, else writes once itself; answers whether the event is queued or saved |
| AuditRecorder.Recorder.WriteFallbackOnce | host/audit/recorder.py:221-229 | one attempt; a failure is counted as a loss |
| AuditRecorder.Recorder.WriteWithRetry | host/audit/recorder.py:198-207 | after any number of failures the event is in the file once |
| AuditRecorder.Recorder.WriteNext | host/audit/recorder.py:186-196 | the head of the queue is written and finished |
| AuditRecorder.Recorder.Close | host/audit/recorder.py:256-271 | answers True exactly when nothing is pending or lost and the writer has left |
| ExecSlots.NextInv | host/task/execjob.py:45-111 | every step of any store's threads keeps the slot accounting |
| ExecSlots.SlotsAreConserved | host/task/execjob.py:45-111 | in every interleaving of all stores the slots taken are the runs on their way in plus the jobs with an unreleased slot, at most eight; a job runs exactly while its slot is unreleased, and frees it once |
| ExecSlots.NoOverRelease | host/task/execjob.py:71-74 | giving back a slot never overfills the bounded semaphore |
| ExecSlots.CleanCloseMeansQuiet | host/task/execjob.py:183-209 | close reporting success means no job of that store runs, then or later |
| ExecSlots.RunIsRun | host/task/execjob.py:45-86 | run, undisturbed, is a run of the machine; refused, it leaves the slots as they were |
| ExecSlots.RunDoes | host/task/execjob.py:45-86 | which of the four answers run gives, which jobs it drops, and what it does to the table and the slots |
| ExecSlots.ExecJobStore.DropExpired | host/task/execjob.py:54-58 | drops exactly the finished jobs that are too old |
| ExecSlots.ExecJobStore.Admit | host/task/execjob.py:47-69 | refuses for want of a slot, while closing, or with a full table, in this order; a refusal returns the slot |
| ExecSlots.ExecJobStore.Run | host/task/execjob.py:45-86 | registers a job and starts it, or ends it at once when the command cannot be started |
| ExecSlots.ExecJobStore.ReleaseSlotLocked | host/task/execjob.py:71-74 | gives the job's slot back unless it did before |
| ExecSlots.ExecJobStore.FinishJob | host/task/execjob.py:96-105 | the job has ended and its slot is free |
| ExecSlots.ExecJobStore.Close | host/task/execjob.py:183-216 | closes the store; answers whether no listed job runs and the transport closed |
| HttpAdmission.AdmissionIsBounded | portal/server.py:52-75 | in every interleaving queued plus running requests never exceed the slots taken, nor those the workers; the queue has room whenever it is put into |
| HttpAdmission.DrainedMeansFinished | portal/server.py:101-123 | drain returning True after server_close means every admitted request is finished and every worker gone, and nothing is admitted later |
| HttpAdmission.StrandsIff | portal/server.py:77-123 | over all runs after closing: a queued request can be left behind if and only if every worker has left or found the queue empty without having looked at the flag; then the queue never changes |
| HttpAdmission.DoomedNeverDrains | portal/server.py:101-118 | then no drain called after closing answers True |
| HttpAdmission.StrandedForever | portal/server.py:77-85 | a queue without workers stays as it is in every run |
| HttpAdmission.StrandingHappens | portal/server.py:77-85 | the condition can be met: a run that ends so |
| HttpAdmission.ProcessIsRun | portal/server.py:52-75 | process_request is a run of the machine; a request not admitted leaves no trace |
| HttpAdmission.FreeSlotAdmits | portal/server.py:52-75 | in every reachable state between calls: a request is admitted exactly when the server is open and a slot is free, and joins the queue at its end |
| HttpAdmission.TurnIsRun | portal/server.py:77-99 | a turn of the worker loop is a run of the machine |
| HttpAdmission.DrainIsRun | portal/server.py:101-118 | drain is a run of the machine |
| HttpAdmission.CodeKeepsInv | portal/server.py:52-123 | so all of them keep the invariant |
| HttpAdmission.BoundedServer.ProcessRequest | portal/server.py:52-75 | busy while closing or with all slots taken; queued; or raised, with everything undone |
| HttpAdmission.BoundedServer.WorkerTurn | portal/server.py:77-90 | serves the head of the queue, or leaves if there is none and the server closes |
| HttpAdmission.BoundedServer.Drain | portal/server.py:101-118 | answers whether nothing is active and, if closing, every worker is gone |
| HttpAdmission.NoneAfterClose | portal/server.py:52-54 | once the server is closed, no run admits a request |
| History.EstimateTokens | host/service/llm.py:74-82 | a quarter of each message's JSON length, at least one, and one for what cannot be serialised |
| History.DropOldestRound | host/api/handlers/agent.py:211-225 | keeps what starts at the second user message; drops one message when there is no user message |
| History.SplitSystem | host/api/handlers/agent.py:240-243 | splits off exactly the leading system messages |
| History.DropRounds | host/api/handlers/agent.py:244-248 | the loop over the total with the system messages is trimming to the budget they leave |
| History.TrimHistory | host/api/handlers/agent.py:238-249 | leading system messages, then the trimmed rest |
| History.Session.Trim | host/api/handlers/agent.py:228-235 | in place, to the maximal number of messages |
| History.ShrinkIsBest | host/api/handlers/agent.py:228-249 | trimming keeps the longest suffix that fits among the whole and those starting at the second or later user message, or the last one when none fits |
| History.TrimKeepsLongest | host/api/handlers/agent.py:228-235 | a session keeps the longest suffix of at most 200 messages that starts at a cut, or the last one |
| History.TrimmingIsOptimal | host/api/handlers/agent.py:238-249 | the same for the total with the leading system messages |
| History.PairsKeptIff | host/api/handlers/agent.py:211-249 | whatever the budget, no kept tool message loses the call that produced it, if and only if the history has a user message or no tool message |
| History.TrimmedPairsKeptIff | host/api/handlers/agent.py:238-249 | the same for what the procedure returns, system messages included |
| History.PairsNeedRounds | host/api/handlers/agent.py:218-219 | a history and a budget for which the condition fails |
| ShellQuote.CommandRoundTrip | host/transport/ssh.py:326-420 | every command line of fixed words, redirections and quoted arguments is read by the shell as exactly those |
| ShellQuote.QuotedListRoundTrip | host/transport/ssh.py:100-101 | any list of strings, quoted and joined by spaces, is read as exactly that list |
| ShellQuote.CopyCommands | host/transport/ssh.py:374-420 | the commands that a download and an upload send are read as the word, the redirection and the path, whatever the path is |
| Deploy.BuildStages | host/task/deployjob.py:152-167 | stages 2j and 2j + 1 are about file j, then the command and the restart, if asked for |
| Deploy.Job.Abort | host/task/deployjob.py:327-336 | without a transport every stage has failed |
| Deploy.Job.SettlePending | host/task/deployjob.py:251-261 | every pending stage, and no other, gets the given state |
| Deploy.Job.RunStage | host/task/deployjob.py:194-243 | a stage is done if it worked, skipped if it is a restart or an unsupported chmod, and failed otherwise; uploads and chmods act on the file of their stage |
| Deploy.Job.RunStages | host/task/deployjob.py:190-245 | the loop stops at the first stage that fails or finds itself cancelled, with the stages behind it pending |
| Deploy.Job.Run | host/task/deployjob.py:169-268 | the job and each stage end in exactly the specified states, and these follow from the results and the looks alone |
| Deploy.EndsAsResults | host/task/deployjob.py:190-263 | from the results alone: a job that is not cancelled succeeds exactly if every stage is a restart, worked, or is an unsupported chmod; what each stage becomes; what one that did not run becomes |
| Deploy.RunsEndShaped | host/task/deployjob.py:187-263 | done: all stages done or skipped; error: such a prefix, then only failures; cancelled: such a prefix, at most one failure, then skipped; nothing is left pending or running |
| Deploy.FinalStateExactly | host/task/deployjob.py:187-263 | from the results and the looks alone: exactly when a job succeeds, and exactly when it ends cancelled |
| Deploy.Store.Start | host/task/deployjob.py:101-149 | refused while running; otherwise the plan moves to the front of at most twenty remembered jobs, the others keep their order, and it has a flag of its own; drops exactly the finished jobs no longer remembered |
| Deploy.Store.Cancel | host/task/deployjob.py:340-360 | answers True for every running job; raises its flag if the table has it, and no other |
| Deploy.Store.Leave | host/task/deployjob.py:267-268 | removes the flag of the plan, whichever job it belongs to |
| DeployRuns.RunsEndAsSpecified | host/task/deployjob.py:169-268 | however starts, cancels and older workers' last acts come in between, a settled job is in the states specified for the look at which its flag went up, or all its stages have failed for want of a transport |
| DeployRuns.FlagDecides | host/task/deployjob.py:177-263 | once the flag is up or out of the table, the job ends cancelled exactly if it was noticed, or reaches the worker and the worker looks |
| DeployRuns.CancelDecides | host/task/deployjob.py:340-360 | every call of cancel on an active job, in every run of any number of jobs, answers True; exactly when that job then ends cancelled, when the flag reaches the worker, and when the worker looks once more |
| DeployRuns.CancelOfFirstJob | host/task/deployjob.py:340-360 | for the first job of a plan: it ends cancelled exactly if an earlier call was noticed or the worker looks once more |
| DeployRuns.CancelCanComeTooLate | host/task/deployjob.py:340-360 | for every plan whose stages work, a run in which cancel answers True and the job succeeds |
| DeployRuns.CancelBeforeNoTransport | host/task/deployjob.py:179-183 | for every plan, a run in which cancel answers True before the transport fails, and the job ends in error |
| DeployRuns.RestartLosesCancel | host/task/deployjob.py:263-268 | for every plan whose stages work, runs in which an older worker removes the flag before or after cancel answers True, and the new job succeeds |
| KnownHosts.HasHost | host/transport/ssh_known_hosts.py:88-95 | whether some line lists the token in its first field |
| KnownHosts.File.Pin | host/transport/ssh_known_hosts.py:109-147 | makes the specified outcome; refuses any fingerprint but the expected one, and unsound key types and hosts; the file changes only on success |
| HostTokens.TokenIs | host/transport/ssh_known_hosts.py:22-35 | the token is the host for port 22 only; otherwise the host in brackets, a colon, and the port in decimal, read by an independent function, without a leading zero |
| HostTokens.SameTokenIff | host/transport/ssh_known_hosts.py:35 | exactly when two places have the same token |
| HostTokens.PinRefusedIff | host/transport/ssh_known_hosts.py:109-129 | a wrong fingerprint, key type, host or port is refused; otherwise refused exactly for a file over 1 MiB, or one with an entry for the place but not this line |
| HostTokens.SizeIsEncoded | host/transport/ssh_known_hosts.py:122-124 | the size compared with 1 MiB is the length of the text's encoding |
| HostTokens.ListsNames | host/transport/ssh_known_hosts.py:92-94 | a field lists exactly the names between its commas |
| HostTokens.FirstFieldIsWord | host/transport/ssh_known_hosts.py:92 | the first field of a line is its first word |
| HostTokens.LineByLine | host/transport/ssh_known_hosts.py:91 | a line ends at a line feed, a carriage return, or the two together |
| KnownHosts.PinAppends | host/transport/ssh_known_hosts.py:130-147 | a successful pin keeps the old text as a prefix, and adds one line, or two if the key type ends in a line feed |
| KnownHosts.PinAddsEntries | host/transport/ssh_known_hosts.py:125-147 | what a successful pin adds for each token: the only entry of its own, one for the key data if its line is broken, and none for any other |
| KnownHosts.RepeatedPin | host/transport/ssh_known_hosts.py:119-129 | repeating the pin answers False if and only if the key type has no final line feed and the file is within 1 MiB |
| KnownHosts.OtherKeyRefused | host/transport/ssh_known_hosts.py:125-129 | any other key for a pinned token is refused, and even the same after a broken pin |
| KnownHosts.PinsOnlyAppend | host/transport/ssh_known_hosts.py:109-147 | no sequence of pins moves a line or takes an entry away |
| KnownHosts.PinsStayUniqueIff | host/transport/ssh_known_hosts.py:109-147 | exactly when a sequence of pins leaves every token with one line |
| KnownHosts.FirstPin | host/transport/ssh_known_hosts.py:118-147 | a pin into no file always succeeds, with a sound key and host |
| KnownHosts.BrokenPinHappens | host/transport/ssh_known_hosts.py:14 | a pin whose key type ends in a line feed, and the second entry it leaves |
| KnownHosts.ScannedTypeIsWhole | host/transport/ssh_known_hosts.py:47-63 | no field of a split line ends in a line feed |
| PathGuard.Parts | host/core/pathguard.py:17-27 | the components, or the first reason to refuse them |
| PathMeaning.PartsOrFirstBad | host/core/pathguard.py:17-27 | all components if they are allowed, else the reason of the first that is not |
| PathGuard.NormalIsNormal | host/core/pathguard.py:134-141 | a normal form has no empty, "." or ".." component and is its own normal form |
| PathMeaning.NormalStep | host/core/pathguard.py:141 | the normal form follows a path component by component; ".." takes the last one back, and nothing at the root |
| PathMeaning.JoinedComps | host/core/pathguard.py:139 | an absolute second path replaces the first; any other is read from where the first ends |
| PathMeaning.RequestedIs | host/core/pathguard.py:136-141 | which path a request stands for, in components |
| PathMeaning.StripIs | host/core/pathguard.py:135 | stripping takes the white space at both ends and nothing else |
| PathGuard.CompsJoin | host/core/pathguard.py:156 | joining proper components and taking them apart is the identity |
| PathGuard.RelativeParts | host/core/pathguard.py:149 | the relative path has components exactly when the path is inside, and they are what follows the home directory |
| PathGuard.WriteAllowedIff | host/core/pathguard.py:142-149 | exactly when a write is allowed |
| PathGuard.WriteIsNormalForm | host/core/pathguard.py:142-149 | the parts returned are proper, and after the home directory's they are the components of the requested path's normal form |
| PathGuard.WriteResolves | host/core/pathguard.py:154-156 | as text, the answer is the normal form exactly when the request does not start with two slashes |
| PathGuard.TildeListsHome | host/core/pathguard.py:138-148 | a relative path after "~/" always passes the common-path test |
| PathGuard.WriteToHomeItself | host/core/pathguard.py:131-149 | exactly when a write is answered with the home directory itself |
| PathGuard.WriteToHomeItselfHappens | host/core/pathguard.py:131-149 | it is for "~/" and for a slash put before the home directory |
| PathGuard.ReadIsNormalForm | host/core/pathguard.py:134-156 | exactly when a read is allowed; it is answered with the normal form |
| PathGuard.RootedStaysBelow | host/core/pathguard.py:121-160 | a rooted path is refused exactly for ".." or NUL, and otherwise its components follow those of the root |

## Left out

- Real input and output: subprocesses, sockets, files and their permissions, fsync, `adb`, `ssh-keygen`. A process is running or exited; an append to the audit file is one step that succeeds or fails, so a write that succeeds and then raises while pruning old files is not modelled.
- Clocks, wait statistics, percentiles and peak counters. Deadlines are steps that may come at any time; whether a finished job is old enough to drop is an input.
- Wording of messages, details of stages, and byte progress of uploads.
- Validation of arguments that happens before a lock is taken: the default device name, the workload name, positive time-outs, the contents of an audit event, the checks of a deployment plan and of its source files.
- Notification: a waiting thread may look at its condition at any time, which covers every wake-up.
- ExecSlots.Semaphore.Release: requires a taken slot where the bounded semaphore raises; `ExecSlots.NoOverRelease` shows that this is always met.
- TransportScheduler.Scheduler.Timeout: counts the time-out before it grants, the code after; the lock is held throughout.
- SSH children whose reaping is itself interrupted by an asynchronous exception.
- AuditRecorder.Recorder.Record: the in-memory ring of recent events, the validation counters and `degraded` are not modelled.
- Queries and statistics of the audit log, and its sharding by date.
- The signals that close and kill send to running commands, and the timer that enforces a command's time limit: they only make a process exit, which it may do at any time.
- Errors other than a full queue while a request is being queued are one Boolean input; the reply to a refused client is not modelled.
- KnownHosts: `parse_keyscan`, directory checks, and files that are not UTF-8 text; SHA-256 and base64 are an uninterpreted function that accepts only keys of base64 characters.
- PathGuard: directory descriptors (`DirRoot`) and symbolic links; a missing path is the empty one, as in the code; the current directory is an input, and so is the home directory, which in the code is the configured one if the caller names none or an empty one.
- The line follower's threads and pattern matching, spools, event streams, monitors, discovery and all of the browser code but the polling loop.
