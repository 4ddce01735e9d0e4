/**
  * The message loop of the one-shot command runner (crates/api-server/src/run.rs):
  * bounded collection of both outputs, and the verdict on how the command ended.
  */
module RunCollector {
  import opened Common
  import opened SshChannel

  /** One `wait` on the channel: the deadline passed first, the channel is gone, or a message came. */
  datatype Wait = DeadlinePassed | Gone | Got(msg: Message)

  datatype Outcome = Outcome(exitCode: Option<int>, signal: Option<string>, timedOut: bool,
                             stdout: seq<byte>, stderr: seq<byte>, stdoutTruncated: bool, stderrTruncated: bool)

  // ----- What a run of waits amounts to -----

  predicate Stops(w: Wait) {
    !w.Got? || w.msg.Close?
  }

  /** The messages handled before the loop stops. */
  function Heard(waits: seq<Wait>): seq<Message> {
    if waits == [] || Stops(waits[0]) then [] else [waits[0].msg] + Heard(waits[1..])
  }

  /** The deadline, and not the end of the channel, stopped the loop. */
  predicate DeadlineStopped(waits: seq<Wait>) {
    waits != [] && if Stops(waits[0]) then waits[0].DeadlinePassed? else DeadlineStopped(waits[1..])
  }

  function StdoutOf(msgs: seq<Message>): seq<byte> {
    if msgs == [] then []
    else StdoutOf(msgs[..|msgs| - 1]) + (var m := msgs[|msgs| - 1]; if m.Data? then m.data else [])
  }

  function StderrOf(msgs: seq<Message>): seq<byte> {
    if msgs == [] then []
    else StderrOf(msgs[..|msgs| - 1]) +
         (var m := msgs[|msgs| - 1]; if m.ExtendedData? && m.ext == 1 then m.data else [])
  }

  function LastExitCode(msgs: seq<Message>): Option<int> {
    if msgs == [] then None
    else if msgs[|msgs| - 1].ExitStatus? then Some(AsI32(msgs[|msgs| - 1].status))
    else LastExitCode(msgs[..|msgs| - 1])
  }

  function LastSignal(msgs: seq<Message>): Option<string> {
    if msgs == [] then None
    else if msgs[|msgs| - 1].ExitSignal? then Some(msgs[|msgs| - 1].name)
    else LastSignal(msgs[..|msgs| - 1])
  }

  predicate AnyExit(msgs: seq<Message>) {
    exists i | 0 <= i < |msgs| :: msgs[i].IsExit()
  }

  function ExitCount(msgs: seq<Message>): nat {
    if msgs == [] then 0
    else ExitCount(msgs[..|msgs| - 1]) + if msgs[|msgs| - 1].IsExit() then 1 else 0
  }

  /** The command was still running when it had to be given up or stopped. */
  predicate TimedOut(waits: seq<Wait>, pastTimeout: bool) {
    var msgs := Heard(waits);
    || (DeadlineStopped(waits) && !AnyExit(msgs))
    || (pastTimeout && (LastExitCode(msgs) == Some(124) || LastExitCode(msgs) == Some(137) || LastSignal(msgs) == Some("KILL")))
  }

  // ----- The loop -----

  /** One bounded output. `received` is everything that arrived for it. */
  class KeptOutput {
    var bytes: seq<byte>
    var truncated: bool
    ghost var received: seq<byte>

    ghost predicate Valid(limit: nat)
      reads this
    {
      && bytes == received[..Min(limit, |received|)]
      && (truncated <==> |received| > limit)
    }

    constructor (ghost limit: nat)
      ensures Valid(limit) && received == []
    {
      bytes, truncated, received := [], false, [];
    }

    /** Keeps the first `limit` bytes and notes whether any were lost. */
    method Keep(data: seq<byte>, limit: nat)
      requires Valid(limit)
      modifies this
      ensures Valid(limit) && received == old(received) + data
    {
      var room := if limit >= |bytes| then limit - |bytes| else 0;
      bytes := bytes + data[..Min(|data|, room)];
      if |data| > room {
        truncated := true;
      }
      received := received + data;
    }
  }

  /** The data of a message, to the output it belongs to. */
  method Dispatch(m: Message, stdout: KeptOutput, stderr: KeptOutput, limit: nat)
    requires stdout != stderr && stdout.Valid(limit) && stderr.Valid(limit)
    modifies stdout, stderr
    ensures stdout.Valid(limit) && stderr.Valid(limit)
    ensures stdout.received == old(stdout.received) + if m.Data? then m.data else []
    ensures stderr.received == old(stderr.received) + if m.ExtendedData? && m.ext == 1 then m.data else []
  {
    if m.Data? {
      stdout.Keep(m.data, limit);
    } else if m.ExtendedData? && m.ext == 1 {
      stderr.Keep(m.data, limit);
    }
  }

  lemma Regroup(a: seq<Message>, m: Message, b: seq<Message>)
    ensures a + ([m] + b) == (a + [m]) + b
  {
  }

  lemma OneMore(msgs: seq<Message>, m: Message)
    ensures StdoutOf(msgs + [m]) == StdoutOf(msgs) + if m.Data? then m.data else []
    ensures StderrOf(msgs + [m]) == StderrOf(msgs) + if m.ExtendedData? && m.ext == 1 then m.data else []
    ensures LastExitCode(msgs + [m]) == if m.ExitStatus? then Some(AsI32(m.status)) else LastExitCode(msgs)
    ensures LastSignal(msgs + [m]) == if m.ExitSignal? then Some(m.name) else LastSignal(msgs)
    ensures AnyExit(msgs + [m]) <==> AnyExit(msgs) || m.IsExit()
  {
    assert (msgs + [m])[..|msgs|] == msgs && (msgs + [m])[|msgs|] == m;
    if AnyExit(msgs) {
      var i :| 0 <= i < |msgs| && msgs[i].IsExit();
      assert (msgs + [m])[i].IsExit();
    }
  }

  /**
    * `run_over_within` from the first wait on. A list of waits that runs out stands for a channel
    * that is gone.
    */
  method Collect(waits: seq<Wait>, pastTimeout: bool, maxOutput: nat) returns (o: Outcome)
    ensures var out := StdoutOf(Heard(waits));
            o.stdout == out[..Min(maxOutput, |out|)] && (o.stdoutTruncated <==> |out| > maxOutput)
    ensures var err := StderrOf(Heard(waits));
            o.stderr == err[..Min(maxOutput, |err|)] && (o.stderrTruncated <==> |err| > maxOutput)
    ensures o.timedOut <==> TimedOut(waits, pastTimeout)
    ensures o.timedOut ==> o.exitCode == None && o.signal == None
    ensures !o.timedOut ==> o.exitCode == LastExitCode(Heard(waits)) && o.signal == LastSignal(Heard(waits))
  {
    var stdout := new KeptOutput(maxOutput);
    var stderr := new KeptOutput(maxOutput);
    var exitCode: Option<int>, signal: Option<string> := None, None;
    var exited, abandoned := false, false;
    ghost var msgs: seq<Message> := [];
    var left := waits;
    while left != []
      invariant Heard(waits) == msgs + Heard(left) && (DeadlineStopped(waits) <==> DeadlineStopped(left))
      invariant fresh(stdout) && fresh(stderr) && stdout != stderr
      invariant stdout.Valid(maxOutput) && stdout.received == StdoutOf(msgs)
      invariant stderr.Valid(maxOutput) && stderr.received == StderrOf(msgs)
      invariant exitCode == LastExitCode(msgs) && signal == LastSignal(msgs)
      invariant exited <==> AnyExit(msgs)
      invariant !abandoned
      decreases |left|
    {
      var w := left[0];
      if w.DeadlinePassed? {
        abandoned := !exited;
        break;
      }
      if w.Gone? || w.msg.Close? {
        break;
      }
      OneMore(msgs, w.msg);
      Regroup(msgs, w.msg, Heard(left[1..]));
      msgs := msgs + [w.msg];
      Dispatch(w.msg, stdout, stderr, maxOutput);
      if w.msg.ExitStatus? {
        exitCode, exited := Some(AsI32(w.msg.status)), true;
      } else if w.msg.ExitSignal? {
        signal, exited := Some(w.msg.name), true;
      }
      left := left[1..];
    }
    assert Heard(left) == [] && msgs + [] == msgs;
    var stopped := pastTimeout && (exitCode == Some(124) || exitCode == Some(137) || signal == Some("KILL"));
    if abandoned || stopped {
      exitCode, signal := None, None;
    }
    o := Outcome(exitCode, signal, abandoned || stopped, stdout.bytes, stderr.bytes, stdout.truncated, stderr.truncated);
  }

  // ----- The verdict -----

  lemma {:induction false} ExitsAreSeen(msgs: seq<Message>)
    ensures AnyExit(msgs) <==> LastExitCode(msgs).Some? || LastSignal(msgs).Some?
    ensures AnyExit(msgs) <==> ExitCount(msgs) > 0
    ensures ExitCount(msgs) <= 1 ==> LastExitCode(msgs).None? || LastSignal(msgs).None?
  {
    if msgs != [] {
      var before, last := msgs[..|msgs| - 1], msgs[|msgs| - 1];
      ExitsAreSeen(before);
      assert AnyExit(msgs) <==> AnyExit(before) || last.IsExit() by {
        if last.IsExit() {
          assert msgs[|msgs| - 1].IsExit();
        } else if AnyExit(before) {
          var i :| 0 <= i < |before| && before[i].IsExit();
          assert msgs[i].IsExit();
        }
      }
    }
  }

  /** Number of answers a caller gets to "how did it end": a code, a signal, a timeout. */
  function Answers(o: Outcome): nat {
    (if o.exitCode.Some? then 1 else 0) + (if o.signal.Some? then 1 else 0) + (if o.timedOut then 1 else 0)
  }

  /** The ending part of what `Collect` returns. */
  predicate Judged(o: Outcome, waits: seq<Wait>, pastTimeout: bool) {
    && (o.timedOut <==> TimedOut(waits, pastTimeout))
    && (o.timedOut ==> o.exitCode == None && o.signal == None)
    && (!o.timedOut ==> o.exitCode == LastExitCode(Heard(waits)) && o.signal == LastSignal(Heard(waits)))
  }

  /**
    * With at most one exit message (section 6.10 of RFC 4254) a caller gets exactly one answer,
    * unless the channel ended before any exit message, and then none.
    */
  lemma OneAnswer(o: Outcome, waits: seq<Wait>, pastTimeout: bool)
    requires Judged(o, waits, pastTimeout) && ExitCount(Heard(waits)) <= 1
    ensures Answers(o) == if ExitCount(Heard(waits)) == 0 && !DeadlineStopped(waits) then 0 else 1
  {
    ExitsAreSeen(Heard(waits));
  }

  predicate HeardStatus(msgs: seq<Message>) {
    exists m | m in msgs :: m.ExitStatus?
  }

  predicate HeardSignal(msgs: seq<Message>) {
    exists m | m in msgs :: m.ExitSignal?
  }

  lemma {:induction false} KindsAreKept(msgs: seq<Message>)
    ensures LastExitCode(msgs).Some? <==> HeardStatus(msgs)
    ensures LastSignal(msgs).Some? <==> HeardSignal(msgs)
  {
    if msgs != [] {
      KindsAreKept(msgs[..|msgs| - 1]);
      assert msgs == msgs[..|msgs| - 1] + [msgs[|msgs| - 1]];
    }
  }

  /**
    * For arbitrary messages: a caller gets exactly one answer when it is told of a timeout, or when exit
    * messages of exactly one of the two kinds were heard.
    */
  lemma OneAnswerExactlyWhen(o: Outcome, waits: seq<Wait>, pastTimeout: bool)
    requires Judged(o, waits, pastTimeout)
    ensures Answers(o) == 1 <==>
              TimedOut(waits, pastTimeout) || HeardStatus(Heard(waits)) != HeardSignal(Heard(waits))
  {
    KindsAreKept(Heard(waits));
  }

  /** An ending that `timeout` gives to a command it had to stop. */
  predicate LooksStopped(code: Option<int>, signal: Option<string>) {
    code == Some(124) || code == Some(137) || signal == Some("KILL")
  }

  /**
    * What is returned, by what was heard. Before the time allowed has passed, an ending is returned as it was heard,
    * whatever it is; after that, one that looks like that of a stopped command is a timeout, and any other is returned.
    * A deadline is a timeout exactly when no ending was heard.
    */
  lemma Verdict(o: Outcome, waits: seq<Wait>, pastTimeout: bool)
    requires Judged(o, waits, pastTimeout)
    ensures var code, signal := LastExitCode(Heard(waits)), LastSignal(Heard(waits));
            && (ExitCount(Heard(waits)) > 0 && !pastTimeout ==> !o.timedOut && o.exitCode == code && o.signal == signal)
            && (ExitCount(Heard(waits)) > 0 && pastTimeout && LooksStopped(code, signal) ==>
                  o.timedOut && o.exitCode == None && o.signal == None)
            && (ExitCount(Heard(waits)) > 0 && pastTimeout && !LooksStopped(code, signal) ==>
                  !o.timedOut && o.exitCode == code && o.signal == signal)
            && (ExitCount(Heard(waits)) == 0 ==>
                  o.exitCode == None && o.signal == None && (o.timedOut <==> DeadlineStopped(waits)))
  {
    ExitsAreSeen(Heard(waits));
  }

  /** The code returned is that of the last exit status heard. */
  lemma {:induction false} LastCodeIs(before: seq<Message>, status: nat, after: seq<Message>)
    requires forall m | m in after :: !m.ExitStatus?
    ensures LastExitCode(before + ([ExitStatus(status)] + after)) == Some(AsI32(status))
    decreases after
  {
    var msgs := before + ([ExitStatus(status)] + after);
    if after != [] {
      var shorter := after[..|after| - 1];
      assert msgs[..|msgs| - 1] == before + ([ExitStatus(status)] + shorter);
      assert msgs[|msgs| - 1] == after[|after| - 1] && after[|after| - 1] in after;
      assert forall m | m in shorter :: m in after;
      LastCodeIs(before, status, shorter);
    }
  }

  function Gots(msgs: seq<Message>): seq<Wait> {
    if msgs == [] then [] else [Got(msgs[0])] + Gots(msgs[1..])
  }

  /** Messages are heard until the channel closes or is gone, or the deadline passes; only the last is a stop by deadline. */
  lemma {:induction false} HeardUntil(msgs: seq<Message>, stop: Wait, after: seq<Wait>)
    requires (forall i | 0 <= i < |msgs| :: !msgs[i].Close?) && (stop == DeadlinePassed || stop == Gone || stop == Got(Close))
    ensures Heard(Gots(msgs) + ([stop] + after)) == msgs
    ensures DeadlineStopped(Gots(msgs) + ([stop] + after)) <==> stop == DeadlinePassed
    decreases msgs
  {
    var waits := Gots(msgs) + ([stop] + after);
    if msgs == [] {
      assert waits == [stop] + after;
    } else {
      HeardUntil(msgs[1..], stop, after);
      assert waits[0] == Got(msgs[0]) && waits[1..] == Gots(msgs[1..]) + ([stop] + after);
    }
  }
}
