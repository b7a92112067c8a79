/**
 The relay loop of `main` as a state machine. Its state is the number of fds
 the next poll covers (`pollable_fds`, master first, then stdin), the number it
 returns to after each poll (`max_pollable_fds`), the poll timeout, and the
 `revents` word left in the stdin slot of the poll array. Each round is driven
 by an abstract poll result and by what `data_transfer` read from each side.
 */
module Relay {
  import opened Common

  /** The bits of one `revents` word the loop looks at. */
  datatype Revents = Revents(pollIn: bool, pollHup: bool)

  const NoEvents := Revents(false, false)

  /** What `poll` reports: failure, or the events of the master and of stdin.
      The stdin events reach the loop only when stdin was among the polled fds;
      a poll that timed out reports no events. */
  datatype PollResult = PollFailed | Polled(master: Revents, stdin: Revents)

  /** How one `data_transfer` call ended: the source had nothing more ready,
      a read returned zero bytes, or a read, poll or write failed. */
  datatype TransferEnd = Drained | EmptyRead | IoError

  /** One `data_transfer` call: the chunks read and forwarded in order (each
      one a read of at most BUFFER_SIZE bytes, written out in full by the write
      loop), then how the call ended. */
  datatype DataTransfer = DataTransfer(chunks: seq<seq<byte>>, end: TransferEnd)

  /** The inputs of one loop iteration. `fromMaster` is consulted only when the
      master has POLLIN and `fromStdin` only when the stdin slot has POLLIN. */
  datatype Round = Round(poll: PollResult, fromMaster: DataTransfer, fromStdin: DataTransfer)

  datatype RelayState = RelayState(pollableFds: nat, maxPollableFds: nat, pollTimeout: int, stdinRevents: Revents)

  /** After a round: go on with the next state, leave the loop because the
      master hung up, or end the program through `error()`. */
  datatype Status = Continue(next: RelayState) | ChildHungUp | Failed

  /** A round's status, the chunks written to stdout and to the master (in
      the order they were read), and whether stdin was read. */
  datatype RoundResult = RoundResult(status: Status, toStdout: seq<seq<byte>>, toMaster: seq<seq<byte>>, stdinServiced: bool)

  /** The states the loop can be in between rounds: 1 or 2 fds polled, never
      more than the current maximum; the timeout is infinite, or EOF_TIMEOUT
      while stdin sits out one round; the stdin slot holds no stale events. */
  predicate Inv(s: RelayState) {
    && 1 <= s.pollableFds <= s.maxPollableFds <= 2
    && (s.pollTimeout == -1 || s.pollTimeout == EOF_TIMEOUT)
    && (s.pollTimeout == EOF_TIMEOUT ==> s.pollableFds == 1)
    && s.stdinRevents == NoEvents
  }

  /** The effect of a `data_transfer` call on the poll settings: a zero-length
      read makes the next poll cover the master only, with EOF_TIMEOUT. */
  function AfterTransfer(s: RelayState, t: DataTransfer): (n: RelayState)
  {
    if t.end == EmptyRead then s.(pollableFds := 1, pollTimeout := EOF_TIMEOUT) else s
  }

  /** The `revents` word the loop reads for stdin: the poll writes it only when
      stdin is among the polled fds; otherwise the slot keeps what it held. */
  function StdinSlot(s: RelayState, p: PollResult): (slot: Revents)
    requires p.Polled?
  {
    if s.pollableFds >= 2 then p.stdin else s.stdinRevents
  }

  /** One iteration of the relay loop. A failed poll ends the program.
      Otherwise the master is serviced first, even in the round where it hangs
      up; the loop is left only on master POLLHUP; stdin is read only when its
      slot shows POLLIN; and the next poll covers the maximum number of fds
      with an infinite timeout, except that an empty read in this round limits
      it to the master with EOF_TIMEOUT and stdin POLLHUP lowers the maximum
      to 1. */
  function Step(s: RelayState, round: Round): (r: RoundResult)
    ensures round.poll.PollFailed? ==>
              r.status == Failed && r.toStdout == [] && r.toMaster == [] && !r.stdinServiced
    ensures round.poll.Polled? ==>
              var m := round.poll.master;
              var fds1 := StdinSlot(s, round.poll);
              var masterFailed := m.pollIn && round.fromMaster.end == IoError;
              && r.toStdout == (if m.pollIn then round.fromMaster.chunks else [])
              && (r.status == ChildHungUp <==> m.pollHup && !masterFailed)
              && (r.stdinServiced <==> fds1.pollIn && !m.pollHup && !masterFailed)
              && r.toMaster == (if r.stdinServiced then round.fromStdin.chunks else [])
              && (r.status == Failed <==> masterFailed || (r.stdinServiced && round.fromStdin.end == IoError))
    ensures round.poll.Polled? && r.status.Continue? ==>
              var n := r.status.next;
              var hup := StdinSlot(s, round.poll).pollHup;
              var empty := (round.poll.master.pollIn && round.fromMaster.end == EmptyRead) ||
                           (r.stdinServiced && round.fromStdin.end == EmptyRead);
              && n.stdinRevents == NoEvents
              && n.maxPollableFds == (if hup then 1 else s.maxPollableFds)
              && n.pollTimeout == (if empty then EOF_TIMEOUT else -1)
              && n.pollableFds == (if hup || empty then 1 else s.maxPollableFds)
  {
    match round.poll
    case PollFailed => RoundResult(Failed, [], [], false)
    case Polled(m, _) =>
      var fds1 := StdinSlot(s, round.poll);
      var s1 := s.(pollableFds := s.maxPollableFds, pollTimeout := -1, stdinRevents := fds1);
      var out := if m.pollIn then round.fromMaster.chunks else [];
      var s2 := if m.pollIn then AfterTransfer(s1, round.fromMaster) else s1;
      if m.pollIn && round.fromMaster.end == IoError then RoundResult(Failed, out, [], false)
      else if m.pollHup then RoundResult(ChildHungUp, out, [], false)
      else
        var input := if fds1.pollIn then round.fromStdin.chunks else [];
        var s3 := if fds1.pollIn then AfterTransfer(s2, round.fromStdin) else s2;
        if fds1.pollIn && round.fromStdin.end == IoError then RoundResult(Failed, out, input, true)
        else
          var s4 := if fds1.pollHup then s3.(pollableFds := 1, maxPollableFds := 1) else s3;
          RoundResult(Continue(s4.(stdinRevents := NoEvents)), out, input, fds1.pollIn)
  }

  /** A round started from a loop state ends in a loop state. */
  lemma StepKeepsInv(s: RelayState, round: Round)
    requires Inv(s)
    requires Step(s, round).status.Continue?
    ensures Inv(Step(s, round).status.next)
    ensures Step(s, round).status.next.maxPollableFds <= s.maxPollableFds
  {
  }

  /** Stdin is read only in a round whose poll covered it and reported POLLIN
      for it. */
  lemma StdinServicedOnlyWhenPolled(s: RelayState, round: Round)
    requires Inv(s)
    ensures Step(s, round).stdinServiced ==>
              s.pollableFds == 2 && round.poll.Polled? && round.poll.stdin.pollIn
  {
  }

  /** The outcome of running the loop over a sequence of rounds, with the
      chunks relayed in each direction in order. */
  datatype Run = Run(status: Status, toStdout: seq<seq<byte>>, toMaster: seq<seq<byte>>)

  /** The loop over `rounds`, stopping at the first round that leaves it;
      `Continue` means the rounds ran out with the loop still going. */
  function Relay(s: RelayState, rounds: seq<Round>): (r: Run)
    decreases |rounds|
    ensures r.status.ChildHungUp? ==>
              exists i :: 0 <= i < |rounds| && rounds[i].poll.Polled? && rounds[i].poll.master.pollHup
    ensures Inv(s) && r.status.Continue? ==>
              Inv(r.status.next) && r.status.next.maxPollableFds <= s.maxPollableFds
  {
    if |rounds| == 0 then Run(Continue(s), [], [])
    else
      var rr := Step(s, rounds[0]);
      match rr.status
      case Continue(n) =>
        assert Inv(s) ==> Inv(n) && n.maxPollableFds <= s.maxPollableFds by {
          if Inv(s) { StepKeepsInv(s, rounds[0]); }
        }
        var rest := Relay(n, rounds[1..]);
        assert rest.status.ChildHungUp? ==>
                 exists i :: 1 <= i < |rounds| && rounds[i].poll.Polled? && rounds[i].poll.master.pollHup by {
          if rest.status.ChildHungUp? {
            var i :| 0 <= i < |rounds[1..]| && rounds[1..][i].poll.Polled? && rounds[1..][i].poll.master.pollHup;
            assert rounds[i + 1] == rounds[1..][i];
          }
        }
        Run(rest.status, rr.toStdout + rest.toStdout, rr.toMaster + rest.toMaster)
      case _ =>
        Run(rr.status, rr.toStdout, rr.toMaster)
  }

  /** Stdin POLLHUP drops stdin for good: from a state that no longer polls
      it, no later round reads stdin or sends a byte to the master, and the
      maximum stays 1. */
  lemma {:induction false} StdinDropIsPermanent(s: RelayState, rounds: seq<Round>)
    requires Inv(s) && s.maxPollableFds == 1
    ensures Relay(s, rounds).toMaster == []
    ensures Relay(s, rounds).status.Continue? ==> Relay(s, rounds).status.next.maxPollableFds == 1
    decreases |rounds|
  {
    if |rounds| > 0 {
      var rr := Step(s, rounds[0]);
      StdinServicedOnlyWhenPolled(s, rounds[0]);
      if rr.status.Continue? {
        StepKeepsInv(s, rounds[0]);
        StdinDropIsPermanent(rr.status.next, rounds[1..]);
      }
    }
  }

  /** A zero-length read skips stdin for exactly one round: the next poll
      covers the master only and does not read stdin, and when that round
      brings no new empty read the poll after it covers both fds again with an
      infinite timeout. */
  lemma EmptyReadSkipsOneRound(s: RelayState, r1: Round, r2: Round)
    requires Inv(s)
    requires Step(s, r1).status.Continue? && Step(s, r1).status.next.pollTimeout == EOF_TIMEOUT
    ensures Step(s, r1).status.next.pollableFds == 1
    ensures !Step(Step(s, r1).status.next, r2).stdinServiced
    ensures var n1 := Step(s, r1).status.next;
            var r := Step(n1, r2);
            n1.maxPollableFds == 2 && r.status.Continue? &&
            !(r2.poll.master.pollIn && r2.fromMaster.end == EmptyRead) ==>
              r.status.next.pollableFds == 2 && r.status.next.pollTimeout == -1
  {
    StepKeepsInv(s, r1);
    StdinServicedOnlyWhenPolled(Step(s, r1).status.next, r2);
  }

  /** The state before the first round: the master alone is polled unless
      "-b" asked for both fds; the stdin slot starts with no events. */
  function InitialState(blind: bool): (s: RelayState)
    ensures Inv(s)
    ensures s.maxPollableFds == 2 && s.pollTimeout == -1
    ensures s.pollableFds == 2 <==> blind
  {
    RelayState(if blind then 2 else 1, 2, -1, NoEvents)
  }

  /** Without "-b" stdin is not read in the first round; with it, stdin POLLIN
      in the first poll is serviced unless the master hangs up or fails. */
  lemma BlindDecidesFirstRound(blind: bool, round: Round)
    ensures Step(InitialState(blind), round).stdinServiced ==> blind
    ensures blind && round.poll.Polled? && round.poll.stdin.pollIn && !round.poll.master.pollHup &&
            !(round.poll.master.pollIn && round.fromMaster.end == IoError) ==>
              Step(InitialState(blind), round).stdinServiced
  {
    StdinServicedOnlyWhenPolled(InitialState(blind), round);
  }

  /** The initial state as the program sets it up: the `revents` of the stdin
      slot is never initialised, so before the first poll it holds whatever
      `stale` value the stack had. It is the corrected initial state exactly
      when that value happens to hold no events, and otherwise not a loop
      state at all. */
  function InitialStateAsWritten(blind: bool, stale: Revents): (s: RelayState)
    ensures s.(stdinRevents := NoEvents) == InitialState(blind)
    ensures stale == NoEvents ==> s == InitialState(blind)
    ensures stale != NoEvents ==> !Inv(s)
  {
    RelayState(if blind then 2 else 1, 2, -1, stale)
  }

  /** With the uninitialised slot, a first round without "-b" can read stdin
      although the poll covered only the master: the poll returns on master
      output, that output is relayed, and then stdin is read (blocking when it
      has no data). A stale POLLHUP drops stdin for good without it ever having
      been polled. */
  lemma StaleSlotServicesUnpolledStdin()
    ensures var s := InitialStateAsWritten(false, Revents(true, false));
            var round := Round(Polled(Revents(true, false), NoEvents), DataTransfer([[66]], Drained), DataTransfer([[65]], Drained));
            && s.pollableFds == 1
            && Step(s, round).toStdout == [[66]]
            && Step(s, round).stdinServiced && Step(s, round).toMaster == [[65]]
    ensures var s := InitialStateAsWritten(false, Revents(false, true));
            var round := Round(Polled(Revents(true, false), Revents(true, false)), DataTransfer([[66]], Drained), DataTransfer([], Drained));
            s.pollableFds == 1 && Step(s, round).status.Continue? &&
            Step(s, round).status.next.maxPollableFds == 1
  {
  }
}
