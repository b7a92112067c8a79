/**
 Line-discipline settings: the mode execpty gives the pty slave in the child,
 and the echo guard on the parent's own terminal with its idempotent restore.
 Flag words are 32-bit (`tcflag_t`); bit values are those of Linux.
 */
module TermiosModes {
  import opened Common

  /** The flag words of a `struct termios` (control characters are not used). */
  datatype Termios = Termios(iflag: bv32, oflag: bv32, cflag: bv32, lflag: bv32)

  /** c_lflag: echo input characters. */
  const ECHO: bv32 := 0x8
  /** c_iflag: translate NL to CR on input. */
  const INLCR: bv32 := 0x40
  /** c_iflag: ignore CR on input. */
  const IGNCR: bv32 := 0x80
  /** c_iflag: translate CR to NL on input. */
  const ICRNL: bv32 := 0x100
  /** c_oflag: map NL to CR-NL on output. */
  const ONLCR: bv32 := 0x4
  /** c_oflag: map CR to NL on output. */
  const OCRNL: bv32 := 0x8
  /** c_oflag: do not output CR. */
  const ONLRET: bv32 := 0x20

  predicate EchoOn(t: Termios) {
    t.lflag & ECHO != 0
  }

  /** The same mode with ECHO cleared and every other bit kept. */
  function EchoOff(t: Termios): (r: Termios)
  {
    t.(lflag := t.lflag & !ECHO)
  }

  /** The slave's mode computed from the mode the slave had (child side of
      `main`). Echo is always cleared. Unix mode clears NL->CR-NL on output and
      CR->NL on input; CRLF mode sets those two and clears the reverse
      translations INLCR, IGNCR, OCRNL and ONLRET. No other bit changes. */
  function SlaveMode(t: Termios, crOutput: bool): (r: Termios)
    ensures r.lflag & ECHO == 0 && r.lflag & !ECHO == t.lflag & !ECHO
    ensures r.cflag == t.cflag
    ensures !crOutput ==>
              && r.oflag & ONLCR == 0 && r.oflag & !ONLCR == t.oflag & !ONLCR
              && r.iflag & ICRNL == 0 && r.iflag & !ICRNL == t.iflag & !ICRNL
    ensures crOutput ==>
              && r.iflag & ICRNL == ICRNL && r.iflag & (INLCR | IGNCR) == 0
              && r.iflag & !(ICRNL | INLCR | IGNCR) == t.iflag & !(ICRNL | INLCR | IGNCR)
              && r.oflag & ONLCR == ONLCR && r.oflag & (OCRNL | ONLRET) == 0
              && r.oflag & !(ONLCR | OCRNL | ONLRET) == t.oflag & !(ONLCR | OCRNL | ONLRET)
  {
    var t1 := t.(lflag := t.lflag & !ECHO);
    if !crOutput then
      t1.(oflag := t1.oflag & !ONLCR, iflag := t1.iflag & !ICRNL)
    else
      var i1 := t1.iflag | ICRNL;
      var i2 := i1 & !INLCR;
      var i3 := i2 & !IGNCR;
      var o1 := t1.oflag | ONLCR;
      var o2 := o1 & !OCRNL;
      var o3 := o2 & !ONLRET;
      t1.(iflag := i3, oflag := o3)
  }

  /** Configuring the slave is settled by its own outcome: applying the
      computation to a mode it produced changes nothing. */
  lemma SlaveModeIdempotent(t: Termios, crOutput: bool)
    ensures SlaveMode(SlaveMode(t, crOutput), crOutput) == SlaveMode(t, crOutput)
  {
  }

  /** The child's pts configuration: read the slave's mode, apply
      `SlaveMode`, write it back; either call failing ends the child through
      `error()`. `current` is the result of `tcgetattr` (None when it fails) and
      `setOk` whether `tcsetattr` succeeds. */
  function ConfigureSlave(current: Option<Termios>, setOk: bool, crOutput: bool): (r: Result<Termios>)
    ensures current.None? ==> r == SysError("tcgetattr()")
    ensures current.Some? && !setOk ==> r == SysError("tcsetattr()")
    ensures current.Some? && setOk ==> r == Ok(SlaveMode(current.value, crOutput))
    ensures r.Ok? ==> !EchoOn(r.value) && r.value.cflag == current.value.cflag
  {
    if current.None? then SysError("tcgetattr()")
    else if !setOk then SysError("tcsetattr()")
    else Ok(SlaveMode(current.value, crOutput))
  }

  /** A slave already configured needs nothing more: configuring it again
      (both calls succeeding) yields the same mode. */
  lemma ConfigureSlaveSettled(current: Option<Termios>, setOk: bool, crOutput: bool)
    requires ConfigureSlave(current, setOk, crOutput).Ok?
    ensures ConfigureSlave(Some(ConfigureSlave(current, setOk, crOutput).value), true, crOutput)
            == ConfigureSlave(current, setOk, crOutput)
  {
    SlaveModeIdempotent(current.value, crOutput);
  }

  /** The parent's controlling terminal as the guard sees it: `terminal` is the
      mode in effect on stdin (None when stdin is not a terminal) and `tio` the
      recorded snapshot (None is the NULL pointer). */
  datatype Guard = Guard(terminal: Option<Termios>, tio: Option<Termios>)

  /** Arming the echo guard. Only when echo suppression was asked for, stdin is
      a terminal and that terminal echoes is anything changed: the mode with
      ECHO toggled off is applied and the mode toggled back, i.e. the original,
      is recorded. `getOk`/`setOk` say whether `tcgetattr`/`tcsetattr`
      succeed. */
  function Arm(noEcho: bool, terminal: Option<Termios>, getOk: bool, setOk: bool): (r: Result<Guard>)
    ensures r.SysError? <==>
              noEcho && terminal.Some? && (!getOk || (EchoOn(terminal.value) && !setOk))
    ensures r.Ok? ==> (r.value.tio.Some? <==> noEcho && terminal.Some? && EchoOn(terminal.value))
    ensures r.Ok? && r.value.tio.Some? && terminal.Some? ==>
              && r.value.tio.value == terminal.value
              && r.value.terminal.Some?
              && r.value.terminal.value == EchoOff(terminal.value)
              && !EchoOn(r.value.terminal.value)
    ensures r.Ok? && r.value.tio.None? ==> r.value.terminal == terminal
  {
    if !noEcho || terminal.None? then Ok(Guard(terminal, None))
    else if !getOk then SysError("tcgetattr()")
    else
      var term := terminal.value;
      if term.lflag & ECHO == 0 then Ok(Guard(terminal, None))
      else if !setOk then SysError("tcsetattr()")
      else
        var (applied, saved) := ToggleTwice(term);
        Ok(Guard(Some(applied), Some(saved)))
  }

  /** The guard's XOR sequence on a mode that echoes: the mode applied has ECHO
      toggled, and toggling it back leaves the snapshot equal to the original. */
  function ToggleTwice(term: Termios): (r: (Termios, Termios))
    requires EchoOn(term)
    ensures r.0 == EchoOff(term) && !EchoOn(r.0)
    ensures r.1 == term
  {
    var x := term.lflag;
    var applied := term.(lflag := x ^ ECHO);
    var saved := applied.(lflag := applied.lflag ^ ECHO);
    assert applied == EchoOff(term) && !EchoOn(applied) by { EchoToggle(x); }
    assert saved == term by { EchoToggle(x); }
    (applied, saved)
  }

  /** Toggling ECHO in a word that has it set clears exactly that bit, and
      toggling again gives the word back. */
  lemma EchoToggle(x: bv32)
    requires x & ECHO != 0
    ensures x ^ ECHO == x & !ECHO
    ensures (x ^ ECHO) ^ ECHO == x
    ensures (x ^ ECHO) & ECHO == 0
  {
  }

  /** `terminal_restore`: reapply the snapshot if there is one, then forget it.
      The result of `tcsetattr` is not checked: `applied` says whether it took
      effect, and the snapshot is forgotten either way. */
  function Restore(g: Guard, applied: bool): (r: Guard)
    ensures r.tio.None?
    ensures g.tio.Some? && applied ==> r.terminal == g.tio
    ensures !applied ==> r.terminal == g.terminal
    ensures g.tio.None? ==> r == g
  {
    if g.tio.Some? then Guard(if applied then g.tio else g.terminal, None) else g
  }

  /** A second restore (the normal exit path after the signal path, or the
      reverse) changes nothing, whatever its `tcsetattr` does. */
  lemma RestoreIdempotent(g: Guard, applied1: bool, applied2: bool)
    ensures Restore(Restore(g, applied1), applied2) == Restore(g, applied1)
  {
  }

  /** Restoring after the guard puts the terminal back in the mode it had
      before the guard was armed, provided the restoring `tcsetattr` takes
      effect; when it does not, the mode the guard applied (echo off) stays. */
  lemma ArmThenRestore(noEcho: bool, terminal: Option<Termios>, getOk: bool, setOk: bool, applied: bool)
    requires Arm(noEcho, terminal, getOk, setOk).Ok?
    ensures applied ==> Restore(Arm(noEcho, terminal, getOk, setOk).value, applied).terminal == terminal
    ensures !applied ==> Restore(Arm(noEcho, terminal, getOk, setOk).value, applied).terminal
                         == Arm(noEcho, terminal, getOk, setOk).value.terminal
  {
  }
}
