# execpty — a Dafny model of its decision logic

execpty runs a command on a pseudo-terminal. It relays the pty master to its
own stdout and its own stdin to the pty master, so the command sees an
interactive terminal even when execpty's stdio is redirected. Almost all of
`execpty.c` is operating-system plumbing. This project models the discrete
logic inside it and proves properties of that logic. The operating system
appears only through the results it returns: poll events, read chunks, write
counts, success or failure of each call, and the child's wait status.

Modules (one file each):

- `Common` (`common.dfy`): bytes and the program's constants. E_SUCCESS 0,
  E_ERROR 127, BUFFER_SIZE 4096, EOF_TIMEOUT 100 ms. It also defines `Result`,
  the outcome of a step that can end in `error()`, and `Flatten` for chunk
  lists.
- `CommandLine` (`cmdline.dfy`): the option loop of `main` and the display
  name taken from `argv[0]`.
- `TermiosModes` (`termios.dfy`): the line discipline the child gives the pty
  slave, and the parent's echo guard with `terminal_restore`. Flag words are
  `bv32` with Linux bit values (ECHO 0x8; INLCR 0x40, IGNCR 0x80, ICRNL 0x100;
  ONLCR 0x4, OCRNL 0x8, ONLRET 0x20). The proofs depend only on the bits being
  distinct within each word.
- `Transfer` (`transfer.dfy`): the partial-write loop of `data_transfer`, as a
  method with loop invariants.
- `Relay` (`relay.dfy`): the relay loop as a per-round state machine. The
  state is `pollable_fds`, `max_pollable_fds`, `poll_timeout`, and the
  `revents` word left in the stdin slot of the poll array.
- `Lifecycle` (`lifecycle.dfy`): the mapping from wait status to exit status,
  and one whole run composed from the pieces above.

Two behaviours of the code are easy to misread:

- `-b` makes the FIRST poll round cover both fds. By default the first round
  polls only the master (`pollable_fds = 1`, execpty.c:59, 113).
- The zero-length-read rule (execpty.c:267-268) lives in the shared
  `data_transfer`. It therefore applies to a zero-length read from the master
  as well as from stdin.

## Model

| member | source | states |
|---|---|---|
| CommandLine.ClassifyBySpelling | execpty.c:86-116 | `Classify` makes an argument the command exactly when it is none of the twelve recognised spellings. Anything it takes for an option starts with '-'. |
| CommandLine.ParseArgs | execpty.c:84-124 | The command is the first argument from index 1 that is not -q/-e/-2/-b or a long form. The switches set are exactly those named before it. Version is chosen iff -v/--version is the first non-switch. Help is chosen iff -h/--help is the first non-switch or there is no command at all. |
| CommandLine.Scan | execpty.c:84-118 | The same characterisation for the loop from any index `i`, with the switches collected so far. |
| CommandLine.ScanStopsAtCommand | execpty.c:84-118 | When the arguments from `i` are switches up to an operand at `k`, the scan launches the command at `k`. Any other vector that agrees through `k` is scanned alike, because the scan stops at the command. |
| CommandLine.ArgumentsAfterCommandIgnored | execpty.c:116-117 | Replacing everything after the command never changes the options or the command index, so the rest of the line is passed through unparsed. |
| CommandLine.BaseName | execpty.c:81-82 | The display name is the suffix of `argv[0]` that holds no '/' and is preceded by a '/' or starts the string. With no '/' the name is the whole of `argv[0]`. |
| TermiosModes.SlaveMode | execpty.c:144-159 | ECHO is always cleared. Unix mode clears exactly ONLCR and ICRNL. CRLF mode sets ICRNL and ONLCR and clears INLCR, IGNCR, OCRNL and ONLRET. Every other bit of every flag word is unchanged. |
| TermiosModes.SlaveModeIdempotent | execpty.c:144-159 | Applying the slave configuration to a mode it produced changes nothing. |
| TermiosModes.ConfigureSlave | execpty.c:144-160 | A failed `tcgetattr` or `tcsetattr` ends the child through `error()`, naming the call. Otherwise the mode applied is exactly `SlaveMode` of the mode read, so it carries that member's bit-level guarantees: echo off, control flags untouched. |
| TermiosModes.ConfigureSlaveSettled | execpty.c:144-160 | Configuring a slave that was already configured, with both calls succeeding, yields the same mode again. |
| TermiosModes.Arm | execpty.c:185-206 | A snapshot is recorded iff echo suppression was requested, stdin is a terminal and ECHO is on. When recorded, the applied mode is the original with ECHO cleared and the snapshot equals the original. Otherwise the terminal is untouched. The guard fails exactly when one of its terminal calls fails. |
| TermiosModes.ToggleTwice | execpty.c:199-202 | For a mode with ECHO on, the first XOR gives the mode with ECHO cleared, and the second XOR gives back the original. |
| TermiosModes.EchoToggle | execpty.c:200-202 | For a flag word with ECHO set, XOR with ECHO clears exactly that bit, and XOR twice is the identity. |
| TermiosModes.Restore | execpty.c:298-305 | Restore reapplies the snapshot if there is one, provided the unchecked `tcsetattr` takes effect. When it fails, the terminal keeps its current mode. The snapshot is forgotten either way. Without a snapshot nothing changes. |
| TermiosModes.RestoreIdempotent | execpty.c:298-305 | A second restore changes nothing, whether or not either `tcsetattr` takes effect. |
| TermiosModes.ArmThenRestore | execpty.c:185-206 | After arming, a restore whose `tcsetattr` takes effect puts the terminal back in the mode it had before. One whose `tcsetattr` fails leaves the mode the guard applied, with echo off. |
| Transfer.WriteAll | execpty.c:271-281 | Given write counts that never exceed what remains, `wc` stays within 0..`rc`. The written chunks concatenate, in order, to exactly `buffer[0..wc)`. The loop completes iff `wc` reaches `rc`. A stalled loop has `wc` equal to the total of the counts. Without a write failure it never fails. |
| Relay.Step | execpty.c:215-232 | A failed poll is fatal. Master POLLIN is serviced before master POLLHUP is checked, even in the hangup round. The round leaves the loop iff master POLLHUP, unless the master read failed. Stdin is read iff its slot shows POLLIN and the round went on. After the round the slot is cleared. `pollable_fds` returns to the maximum and the timeout to -1, except that an empty read sets 1 fd and EOF_TIMEOUT. Stdin POLLHUP sets the maximum to 1. |
| Relay.StepKeepsInv | execpty.c:217-230 | From a loop state, a continuing round ends in a loop state (1 ≤ polled ≤ max ≤ 2, timeout -1 or 100, 100 only with 1 fd, clean slot), and the maximum never grows. |
| Relay.StdinServicedOnlyWhenPolled | execpty.c:221-231 | In any loop state, stdin is read only in a round whose poll covered both fds and reported POLLIN for stdin. |
| Relay.Relay | execpty.c:215-232 | Over any run of rounds, the loop ends with "child hung up" only if some round's poll reported master POLLHUP. From a loop state it stays in loop states, with a non-increasing maximum. |
| Relay.StdinDropIsPermanent | execpty.c:229-230 | Once the maximum is 1, no later round reads stdin or sends a byte to the master, and the maximum stays 1. |
| Relay.EmptyReadSkipsOneRound | execpty.c:259-269 | After an empty read, the next round polls only the master and does not read stdin. If that round brings no new empty read and stdin was not dropped, the round after polls both fds with an infinite timeout. |
| Relay.InitialState | execpty.c:58-60 | The loop starts in a loop state with maximum 2 and timeout -1. It polls both fds in the first round iff -b was given. |
| Relay.BlindDecidesFirstRound | execpty.c:111-114 | Without -b, stdin is never read in the first round. With -b, stdin POLLIN in the first poll is serviced unless the master hangs up or fails. |
| Relay.InitialStateAsWritten | execpty.c:209-213 | In the initial state as the code sets it up, the stdin slot holds an arbitrary uninitialised value. Every other field matches `InitialState`. It is the corrected state exactly when that value holds no events. Otherwise it is not a loop state. |
| Relay.StaleSlotServicesUnpolledStdin | execpty.c:228-229 | With a stale POLLIN and no -b, a first round woken by master output relays that output, then reads stdin although only the master was polled. A stale POLLHUP can drop stdin for good without stdin ever having been polled. |
| Lifecycle.ExitStatus | execpty.c:236-239 | A normal exit gives the child's own code. A signal death gives 128 plus the signal. Any other status keeps the initial 127. The result always fits in a byte. |
| Lifecycle.ExitStatusAmbiguity | execpty.c:236-239 | The status does not tell its cause apart. Death by signal `s` gives the same status as a normal exit with code 128 + `s`. An unrecognised wait status gives the same status as an exit with 127. Only a status of 128 or less rules out a signal. |
| Lifecycle.Supervise | execpty.c:209-243 | With the guard armed, every exit restores the guard, and a run still relaying keeps the mode the guard applied. The status is 127 or the mapped child status. The loop starts from the uninitialised stdin slot the environment supplies. |
| Lifecycle.Parent | execpty.c:173-243 | After the fork, the program exits with 127 or the mapped child status. An exit leaves the terminal in its original mode when the restoring `tcsetattr` takes effect. Otherwise the terminal is in its original mode or in that mode with echo off. While relaying with -e on an echoing terminal, echo is off. |
| Lifecycle.Execute | execpty.c:120-243 | Help, version or no command gives exit 0 with no fork. A fork only happens for a launch, and it executes exactly `argv[command..]`. Every exit leaves the terminal as `Parent` states. The exit status is 0, 127 or the mapped child status. While relaying with -e on an echoing terminal, echo is off. |
| Lifecycle.EarlyExitIffNoLaunch | execpty.c:84-128 | Exit 0 without a fork happens exactly when the command line asks for help or version or names no command. |
| Lifecycle.ChildStatusPropagates | execpty.c:236-243 | Once the loop ends on master hangup and the child is reaped, the program's status is the child's code, 128 plus its signal, or 127, and nothing else decides it. |

## Findings

| source | as written | input that shows it | evidently intended | confidence | as-written member | corrected member |
|---|---|---|---|---|---|---|
| execpty.c:209-231 | `fds[1].revents` is never initialised. In the first round without -b, `poll` covers only `fds[0]`, yet lines 228-229 read `fds[1].revents`. | Run without -b, with the stack slot of `fds[1].revents` holding POLLIN or POLLHUP. The first poll covers only the master and returns on its first output. After relaying it, the loop reads stdin though stdin was never polled, and blocks if stdin has no data. A stale POLLHUP instead drops stdin for good. | The stdin slot starts with no events, so stdin is read only in rounds that polled it. | medium; not executed (the value depends on prior stack contents) | Relay.StaleSlotServicesUnpolledStdin | Relay.BlindDecidesFirstRound |

`Lifecycle.Execute` runs the loop as written: the stale slot is part of its
environment. An environment whose stale slot holds no events gives exactly the
corrected `Relay.InitialState`, as `Relay.InitialStateAsWritten` states.

## Left out

- Signal handling (`sigaction`, `signal_handler`, `kill`, `raise`, `sigprocmask`, `atexit`): asynchronous, inter-process behaviour. Only the restore it triggers is modelled, as `Restore` and its idempotence.
- The real system calls (`posix_openpt`, `grantpt`, `unlockpt`, `fork`, `setsid`, `open(ptsname)`, `dup2`, `close`, `execvp`, `waitpid`, `isatty`): their results are inputs. Failures of the child's own setup calls reach the parent only as the child's exit status 127, which is part of the wait-status input.
- `poll`, `read` and `write` as blocking primitives: replaced by abstract poll results, read chunks and write attempts.
- Help and version text, and the formatting in `error()` (`sprintf`, `perror`): output with no decisions. `quiet` and the display name affect only these messages, so they are parsed and computed but have no other effect.
- Stack lifetime of `term`/`tio` after `main` returns: a C memory detail. Only the logical snapshot is modelled.
- Relay.Relay: each round treats a chunk's write loop as completed. `Transfer.WriteAll` proves separately what a completed loop delivers. A write loop that never gets POLLOUT (it keeps polling) appears there only as `NotReady` attempts.
- Relay.Relay: read chunks are not constrained to be non-empty or at most BUFFER_SIZE bytes. The loop's decisions do not depend on chunk sizes.
- Lifecycle.Execute: its contract does not restate the relayed bytes, which `Relay.Step` states per round. It assumes that a failed `tcsetattr` in the echo guard leaves the terminal mode unchanged.
- Lifecycle.Execute: death by SIGPIPE is not modelled. A write to a stdout whose reader has gone raises SIGPIPE, which has no handler (only HUP, INT, QUIT and TERM get one, execpty.c:180-183). The process then dies without running `terminal_restore`, so under -e echo stays off. The model turns such a write into a failed transfer, which exits with 127 after the restore.
- CommandLine.ParseArgs: requires `argv[0]` to exist, as the code dereferences it unconditionally.
