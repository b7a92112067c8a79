/**
 The parent's life from argument parsing to its exit status: the early exits,
 the setup calls, the echo guard, the relay loop, reaping the child and
 mapping its wait status, and restoring the terminal on the way out. The
 operating system appears only through the results it hands back.
 */
module Lifecycle {
  import opened Common
  import CommandLine
  import opened TermiosModes
  import Relay

  /** What `WEXITSTATUS` can yield. */
  type ExitCode = c: int | 0 <= c < 256

  /** What `WTERMSIG` can yield for a status that `WIFSIGNALED` accepts. */
  type SignalNumber = s: int | 1 <= s < 127 witness 1

  /** The child's status as `waitpid` reports it: a normal exit, death by a
      signal, or anything else (neither test holds). */
  datatype WaitStatus = Exited(code: ExitCode) | Signaled(signal: SignalNumber) | OtherStatus

  datatype WaitResult = WaitFailed | Reaped(status: WaitStatus)

  /** The mapping of the child's status to the program's exit status:
      `ret_value` starts at E_ERROR and is overwritten by the exit code of a
      normal exit, or by 128 plus the signal number of a signal death. */
  function ExitStatus(w: WaitStatus): (r: int)
    ensures 0 <= r < 256
    ensures w.Exited? ==> r == w.code
    ensures w.Signaled? ==> r == 128 + w.signal
    ensures w.OtherStatus? ==> r == E_ERROR
  {
    var retValue := E_ERROR;
    var afterExit := if w.Exited? then w.code else retValue;
    if w.Signaled? then w.signal + 128 else afterExit
  }

  /** The exit status does not tell its cause apart: a death by signal `sig`
      reads exactly like a normal exit with code 128 + `sig`, and an
      unrecognised wait status like a child that exited with 127. Only a
      status of 128 or less rules a signal out. */
  lemma ExitStatusAmbiguity(sig: SignalNumber, w: WaitStatus)
    ensures ExitStatus(Signaled(sig)) == ExitStatus(Exited(128 + sig))
    ensures ExitStatus(OtherStatus) == ExitStatus(Exited(E_ERROR))
    ensures ExitStatus(w) <= 128 ==> !w.Signaled?
  {
  }

  /** Everything the operating system decides for one run: whether
      `posix_openpt`/`grantpt`/`unlockpt`, `fork` and the four `sigaction`
      calls succeed; the mode of stdin when it is a terminal (None when
      `isatty` is false), whether reading and setting it succeed, and whether
      the unchecked `tcsetattr` of the restore takes effect; the uninitialised
      `revents` of the stdin poll slot; the relay rounds; and what `waitpid`
      returns. */
  datatype Environment = Environment(
    ptyOk: bool,
    forkOk: bool,
    signalsOk: bool,
    terminal: Option<Termios>,
    getModeOk: bool,
    setModeOk: bool,
    restoreOk: bool,
    stale: Relay.Revents,
    rounds: seq<Relay.Round>,
    wait: WaitResult)

  /** The program ended with a status, or the rounds supplied ran out while it
      was still relaying. */
  datatype Exit = ExitWith(status: int) | StillRelaying

  /** What one run amounts to: how it ended, whether a child was created, the
      argument vector handed to `execvp`, the bytes relayed to stdout and to
      the child, and the mode the parent's terminal is left in. */
  datatype Outcome = Outcome(
    exit: Exit,
    forked: bool,
    executed: seq<string>,
    toStdout: seq<byte>,
    toChild: seq<byte>,
    terminal: Option<Termios>)

  /** The parent once the echo guard `g` is armed: relay, reap the child and
      leave through the restore. Every exit restores the guard; only a run
      that is still relaying keeps the mode the guard applied. */
  function Supervise(opts: CommandLine.Options, executed: seq<string>, env: Environment, g: Guard): (r: Outcome)
    ensures r.forked && r.executed == executed
    ensures r.exit.ExitWith? ==> r.terminal == Restore(g, env.restoreOk).terminal
    ensures r.exit == StillRelaying ==> r.terminal == g.terminal
    ensures r.exit.ExitWith? ==>
              r.exit.status == E_ERROR || (env.wait.Reaped? && r.exit.status == ExitStatus(env.wait.status))
  {
    var run := Relay.Relay(Relay.InitialStateAsWritten(opts.blind, env.stale), env.rounds);
    var restored := Restore(g, env.restoreOk).terminal;
    var out := Flatten(run.toStdout);
    var input := Flatten(run.toMaster);
    match run.status
    case Continue(_) => Outcome(StillRelaying, true, executed, out, input, g.terminal)
    case Failed => Outcome(ExitWith(E_ERROR), true, executed, out, input, restored)
    case ChildHungUp =>
      match env.wait
      case WaitFailed => Outcome(ExitWith(E_ERROR), true, executed, out, input, restored)
      case Reaped(w) => Outcome(ExitWith(ExitStatus(w)), true, executed, out, input, restored)
  }

  /** The parent after a successful `fork`: install the signal handlers, arm
      the echo guard, then supervise. Every exit leaves the terminal as it
      found it unless the restoring `tcsetattr` fails, in which case echo may
      stay off. */
  function Parent(opts: CommandLine.Options, executed: seq<string>, env: Environment): (r: Outcome)
    ensures r.forked && r.executed == executed
    ensures r.exit.ExitWith? && env.restoreOk ==> r.terminal == env.terminal
    ensures r.exit.ExitWith? && !env.restoreOk ==>
              r.terminal == env.terminal || (env.terminal.Some? && r.terminal == Some(EchoOff(env.terminal.value)))
    ensures r.exit.ExitWith? ==>
              r.exit.status == E_ERROR || (env.wait.Reaped? && r.exit.status == ExitStatus(env.wait.status))
    ensures r.exit == StillRelaying && opts.noEcho && env.terminal.Some? && EchoOn(env.terminal.value) ==>
              r.terminal == Some(EchoOff(env.terminal.value))
  {
    if !env.signalsOk then Outcome(ExitWith(E_ERROR), true, executed, [], [], env.terminal)
    else
      match Arm(opts.noEcho, env.terminal, env.getModeOk, env.setModeOk)
      case SysError(_) => Outcome(ExitWith(E_ERROR), true, executed, [], [], env.terminal)
      case Ok(g) =>
        ArmThenRestore(opts.noEcho, env.terminal, env.getModeOk, env.setModeOk, env.restoreOk);
        Supervise(opts, executed, env, g)
  }

  /** One run of the program with command line `argv`. */
  function Execute(argv: seq<string>, env: Environment): (r: Outcome)
    requires |argv| >= 1
    ensures !CommandLine.ParseArgs(argv).Launch? ==> r.exit == ExitWith(E_SUCCESS) && !r.forked
    ensures r.forked ==>
              && CommandLine.ParseArgs(argv).Launch? && env.ptyOk && env.forkOk
              && r.executed == argv[CommandLine.ParseArgs(argv).command..]
              && CommandLine.Classify(r.executed[0]) == CommandLine.Operand
    ensures r.exit.ExitWith? && env.restoreOk ==> r.terminal == env.terminal
    ensures r.exit.ExitWith? && !env.restoreOk ==>
              r.terminal == env.terminal ||
              (env.terminal.Some? && r.terminal == Some(EchoOff(env.terminal.value)))
    ensures r.exit.ExitWith? ==>
              r.exit.status == E_SUCCESS || r.exit.status == E_ERROR ||
              (env.wait.Reaped? && r.exit.status == ExitStatus(env.wait.status))
    ensures r.exit == StillRelaying ==>
              && r.forked
              && var opts := CommandLine.ParseArgs(argv).opts;
                 opts.noEcho && env.terminal.Some? && EchoOn(env.terminal.value) ==>
                   r.terminal == Some(EchoOff(env.terminal.value))
  {
    match CommandLine.ParseArgs(argv)
    case ShowHelp => Outcome(ExitWith(E_SUCCESS), false, [], [], [], env.terminal)
    case ShowVersion => Outcome(ExitWith(E_SUCCESS), false, [], [], [], env.terminal)
    case Launch(opts, command) =>
      if !env.ptyOk || !env.forkOk then Outcome(ExitWith(E_ERROR), false, [], [], [], env.terminal)
      else Parent(opts, argv[command..], env)
  }

  /** Exit status 0 with no child is exactly the help/version/no-command case:
      every launch either forks or fails with E_ERROR. */
  lemma EarlyExitIffNoLaunch(argv: seq<string>, env: Environment)
    requires |argv| >= 1
    ensures (Execute(argv, env).exit == ExitWith(E_SUCCESS) && !Execute(argv, env).forked)
            <==> !CommandLine.ParseArgs(argv).Launch?
  {
  }

  /** A child that exits normally passes its own code through; one killed by
      a signal shows as 128 plus the signal; once the loop ended on master
      hangup and the child was reaped, nothing else decides the status. */
  lemma ChildStatusPropagates(argv: seq<string>, env: Environment)
    requires |argv| >= 1
    requires Execute(argv, env).forked
    requires env.signalsOk
    requires Arm(CommandLine.ParseArgs(argv).opts.noEcho, env.terminal, env.getModeOk, env.setModeOk).Ok?
    requires Relay.Relay(Relay.InitialStateAsWritten(CommandLine.ParseArgs(argv).opts.blind, env.stale), env.rounds).status.ChildHungUp?
    requires env.wait.Reaped?
    ensures env.wait.status.Exited? ==> Execute(argv, env).exit == ExitWith(env.wait.status.code)
    ensures env.wait.status.Signaled? ==> Execute(argv, env).exit == ExitWith(128 + env.wait.status.signal)
    ensures env.wait.status.OtherStatus? ==> Execute(argv, env).exit == ExitWith(E_ERROR)
  {
  }
}
