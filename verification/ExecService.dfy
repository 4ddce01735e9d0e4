/**
  * The stateful side of crates/api-server/src/exec.rs: the background task that fills
  * one row, and the stream that serves it. Both are proved to take steps of the
  * interleaving model in `ExecStream`.
  */
module ExecService {
  import opened Common
  import opened SshChannel
  import opened ExecStream
  import Collector = RunCollector

  datatype Chunk = Chunk(channel: Channel, data: seq<byte>)

  /** The messages read before the channel closes. */
  function Received(messages: seq<Message>): seq<Message> {
    if messages == [] || messages[0].Close? then [] else [messages[0]] + Received(messages[1..])
  }

  function ChunkOf(m: Message): seq<Chunk> {
    if m.Data? then [Chunk(Stdout, m.data)]
    else if m.ExtendedData? && m.ext == 1 then [Chunk(Stderr, m.data)]
    else []
  }

  function Chunks(messages: seq<Message>): seq<Chunk> {
    if messages == [] then []
    else Chunks(messages[..|messages| - 1]) + ChunkOf(messages[|messages| - 1])
  }

  /** The last exit status and the last exit signal. */
  function Ending(messages: seq<Message>): CommandEnd {
    if messages == [] then NO_END
    else EndingAfter(Ending(messages[..|messages| - 1]), messages[|messages| - 1])
  }

  function EndingAfter(end: CommandEnd, m: Message): CommandEnd {
    if m.ExitStatus? then end.(exitCode := Some(AsI32(m.status)))
    else if m.ExitSignal? then end.(signal := Some(m.name))
    else end
  }

  /** `timeout` ends a command it had to stop with 124, or 137 or KILL when it had to insist. */
  predicate StoppedByCeiling(end: CommandEnd, ceilingReached: bool) {
    ceilingReached && (end.exitCode == Some(124) || end.exitCode == Some(137) || end.signal == Some("KILL"))
  }

  /** Chunks as the writer's actions, with the fate of each write. */
  ghost predicate AppendsOf(log: seq<Action>, chunks: seq<Chunk>) {
    && |log| == |chunks|
    && forall i | 0 <= i < |log| :: log[i].Append? && Chunk(log[i].channel, log[i].data) == chunks[i]
  }

  /** Nothing is received after the channel closes, and everything before. */
  lemma ReceivedUntilClose(before: seq<Message>, after: seq<Message>)
    requires forall i | 0 <= i < |before| :: !before[i].Close?
    ensures Received(before + ([Close] + after)) == before && Received(before) == before
  {
    var messages := before + ([Close] + after);
    assert messages[|before|] == Close;
    ReceivedIsPrefix(messages, |before|);
    ReceivedIsPrefix(before, |before|);
    assert messages[..|before|] == before && before[..|before|] == before;
  }

  // ----- What the row is, when no write is lost -----

  /** The bytes of the chunks of a channel, one after the other. */
  function BytesOn(chunks: seq<Chunk>, c: Channel): seq<byte> {
    if chunks == [] then []
    else
      var last := chunks[|chunks| - 1];
      BytesOn(chunks[..|chunks| - 1], c) + if last.channel == c then last.data else []
  }

  lemma {:induction false} BytesSplit(a: seq<Chunk>, b: seq<Chunk>, c: Channel)
    ensures BytesOn(a + b, c) == BytesOn(a, c) + BytesOn(b, c)
    decreases b
  {
    if b == [] {
      assert a + b == a;
    } else {
      assert (a + b)[..|a + b| - 1] == a + b[..|b| - 1];
      BytesSplit(a, b[..|b| - 1], c);
    }
  }

  /** What is written to each channel is what the other runner keeps of the same messages. */
  lemma {:induction false} ChunksAreTheOutput(messages: seq<Message>)
    ensures BytesOn(Chunks(messages), Stdout) == Collector.StdoutOf(messages)
    ensures BytesOn(Chunks(messages), Stderr) == Collector.StderrOf(messages)
  {
    if messages != [] {
      var before, m := messages[..|messages| - 1], messages[|messages| - 1];
      ChunksAreTheOutput(before);
      BytesSplit(Chunks(before), ChunkOf(m), Stdout);
      BytesSplit(Chunks(before), ChunkOf(m), Stderr);
      if ChunkOf(m) != [] {
        assert ChunkOf(m)[..0] == [];
      }
    }
  }

  /** The two runners keep the same endings. */
  lemma {:induction false} EndingIsTheLast(messages: seq<Message>)
    ensures Ending(messages) == CommandEnd(Collector.LastExitCode(messages), Collector.LastSignal(messages), false)
  {
    if messages != [] {
      EndingIsTheLast(messages[..|messages| - 1]);
    }
  }

  /** And judge them alike, once the channel has ended. */
  lemma BothRunnersJudgeAlike(waits: seq<Collector.Wait>, past: bool)
    requires !Collector.DeadlineStopped(waits)
    ensures Collector.TimedOut(waits, past) <==> StoppedByCeiling(Ending(Collector.Heard(waits)), past)
  {
    EndingIsTheLast(Collector.Heard(waits));
  }

  ghost predicate AllStored(log: seq<Action>) {
    forall i | 0 <= i < |log| :: (log[i].Append? || log[i].Finish?) ==> log[i].stored
  }

  /** The row of a command that sent these messages: each output whole, the last code and signal, and how it ended. */
  function RowOf(messages: seq<Message>, ceilingReached: bool): Row {
    var code, signal := Collector.LastExitCode(messages), Collector.LastSignal(messages);
    var stopped := ceilingReached && (code == Some(124) || code == Some(137) || signal == Some("KILL"));
    Row(if stopped then "Timeout" else if signal.Some? then "Killed" else if code.Some? then "Completed" else "Failed",
        code, signal, Collector.StdoutOf(messages), Collector.StderrOf(messages))
  }

  lemma {:induction false} AppendsAreStored(log: seq<Action>, chunks: seq<Chunk>, c: Channel)
    requires AppendsOf(log, chunks) && AllStored(log)
    ensures !Finishes(log) && StoredChunks(log, c) == BytesOn(chunks, c)
  {
    if log != [] {
      AppendsAreStored(log[..|log| - 1], chunks[..|chunks| - 1], c);
    }
  }

  lemma RowAfter(log: seq<Action>, chunks: seq<Chunk>)
    requires log != [] && AppendsOf(log[..|log| - 1], chunks) && AllStored(log) && log[|log| - 1].Finish?
    ensures Run(START, log).row.stdout == BytesOn(chunks, Stdout) && Run(START, log).row.stderr == BytesOn(chunks, Stderr)
    ensures var end := log[|log| - 1].end;
            var row := Run(START, log).row;
            && row.status == (if end.Some? then end.value.Status() else "Failed")
            && row.exitCode == (if end.Some? then end.value.exitCode else None)
            && row.signal == (if end.Some? then end.value.signal else None)
  {
    var before := log[..|log| - 1];
    AppendsAreStored(before, chunks, Stdout);
    AppendsAreStored(before, chunks, Stderr);
    RowIsStoredChunks(before, Stdout);
    RowIsStoredChunks(before, Stderr);
    WritingUntilFinish(before);
  }

  lemma ErrorBytes(error: seq<byte>)
    ensures BytesOn([Chunk(Stderr, error)], Stdout) == [] && BytesOn([Chunk(Stderr, error)], Stderr) == error
  {
    assert [Chunk(Stderr, error)][..0] == [];
  }

  lemma ReceivedIsPrefix(messages: seq<Message>, n: nat)
    requires n <= |messages| && forall i | 0 <= i < n :: !messages[i].Close?
    requires n == |messages| || messages[n].Close?
    ensures Received(messages) == messages[..n]
  {
    if n > 0 {
      ReceivedIsPrefix(messages[1..], n - 1);
      assert messages[..n] == [messages[0]] + messages[1..][..n - 1];
    }
  }

  class Execution {
    var row: Row
    ghost var log: seq<Action>      // what the writer did so far

    ghost predicate Valid()
      reads this
    {
      row == Run(START, log).row
    }

    constructor ()
      ensures Valid() && log == [] && row == NEW_ROW
    {
      row, log := NEW_ROW, [];
    }

    ghost predicate Writing()
      reads this
    {
      Run(START, log).writing
    }

    /** Best effort: a write that fails loses this chunk only. */
    method AppendChunk(c: Channel, data: seq<byte>, ghost chunks: seq<Chunk>)
      requires Valid() && Writing() && AppendsOf(log, chunks)
      modifies this
      ensures Valid() && Writing() && AppendsOf(log, chunks + [Chunk(c, data)])
    {
      assert (log + [Append(c, data, false)])[..|log|] == log;
      assert (log + [Append(c, data, true)])[..|log|] == log;
      if data == [] {
        assert row.Appended(c, data) == row;
        log := log + [Append(c, data, true)];
        return;
      }
      var committed: bool := *;
      if committed {
        row := row.Appended(c, data);
        log := log + [Append(c, data, true)];
      } else {
        log := log + [Append(c, data, false)];
      }
    }

    method Finalize(status: string, end: CommandEnd, ghost outcome: Option<CommandEnd>)
      requires Valid() && Writing()
      requires match outcome
               case Some(e) => status == e.Status() && end == e
               case None => status == "Failed" && end == NO_END
      modifies this
      ensures Valid() && !Writing()
      ensures exists stored :: log == old(log) + [Finish(outcome, stored)]
    {
      assert (log + [Finish(outcome, false)])[..|log|] == log;
      assert (log + [Finish(outcome, true)])[..|log|] == log;
      var committed: bool := *;
      if committed {
        row := row.Finalized(status, end);
        log := log + [Finish(outcome, true)];
      } else {
        log := log + [Finish(outcome, false)];
      }
    }

    /**
      * The whole background task: every chunk received, in order, then one finalisation.
      * `session` is the channel's messages, or why the channel could not be used.
      */
    method RunAndPersist(session: Result<seq<Message>, seq<byte>>, ceilingReached: bool)
      requires Valid() && log == []
      modifies this
      ensures Valid() && !Writing()
      ensures log != [] && log[|log| - 1].Finish?
      ensures session.Ok? ==>
                && AppendsOf(log[..|log| - 1], Chunks(Received(session.value)))
                && var end := Ending(Received(session.value));
                   log[|log| - 1].end == Some(end.(timedOut := StoppedByCeiling(end, ceilingReached)))
      ensures session.Err? ==>
                && AppendsOf(log[..|log| - 1], [Chunk(Stderr, session.error)])
                && log[|log| - 1].end == None
      ensures AllStored(log) ==>
                row == match session
                       case Ok(messages) => RowOf(Received(messages), ceilingReached)
                       case Err(error) => Row("Failed", None, None, [], error)
    {
      if session.Err? {
        AppendChunk(Stderr, session.error, []);
        assert [] + [Chunk(Stderr, session.error)] == [Chunk(Stderr, session.error)];
        Finalize("Failed", NO_END, None);
        if AllStored(log) {
          RowAfter(log, [Chunk(Stderr, session.error)]);
          ErrorBytes(session.error);
        }
        return;
      }
      var end := Receive(session.value);
      end := end.(timedOut := StoppedByCeiling(end, ceilingReached));
      Finalize(end.Status(), end, Some(end));
      if AllStored(log) {
        RowAfter(log, Chunks(Received(session.value)));
        ChunksAreTheOutput(Received(session.value));
        EndingIsTheLast(Received(session.value));
      }
    }

    /** The message loop. */
    method Receive(messages: seq<Message>) returns (end: CommandEnd)
      requires Valid() && Writing() && log == []
      modifies this
      ensures Valid() && Writing()
      ensures AppendsOf(log, Chunks(Received(messages))) && end == Ending(Received(messages))
    {
      end := NO_END;
      var i := 0;
      ghost var chunks: seq<Chunk> := [];
      while i < |messages|
        invariant 0 <= i <= |messages|
        invariant Valid() && Writing() && AppendsOf(log, chunks)
        invariant forall k | 0 <= k < i :: !messages[k].Close?
        invariant end == Ending(messages[..i]) && chunks == Chunks(messages[..i])
      {
        if messages[i].Close? {
          break;
        }
        OneMoreMessage(messages, i);
        end := Handle(messages[i], end, chunks);
        chunks := chunks + ChunkOf(messages[i]);
        i := i + 1;
      }
      ReceivedIsPrefix(messages, i);
    }

    /** One message: what it does to the row, and to the ending. */
    method Handle(m: Message, before: CommandEnd, ghost chunks: seq<Chunk>) returns (end: CommandEnd)
      requires Valid() && Writing() && AppendsOf(log, chunks)
      modifies this
      ensures Valid() && Writing() && AppendsOf(log, chunks + ChunkOf(m)) && end == EndingAfter(before, m)
    {
      end := before;
      match m {
        case Data(data) =>
          AppendChunk(Stdout, data, chunks);
        case ExtendedData(data, ext) =>
          if ext == 1 {
            AppendChunk(Stderr, data, chunks);
          } else {
            assert chunks + [] == chunks;
          }
        case ExitStatus(status) =>
          end := end.(exitCode := Some(AsI32(status)));
          assert chunks + [] == chunks;
        case ExitSignal(name) =>
          end := end.(signal := Some(name));
          assert chunks + [] == chunks;
        case Close =>
          assert chunks + [] == chunks;
        case Other =>
          assert chunks + [] == chunks;
      }
    }
  }

  lemma OneMoreMessage(messages: seq<Message>, i: nat)
    requires i < |messages|
    ensures Chunks(messages[..i + 1]) == Chunks(messages[..i]) + ChunkOf(messages[i])
    ensures Ending(messages[..i + 1]) == EndingAfter(Ending(messages[..i]), messages[i])
  {
    assert messages[..i + 1][..i] == messages[..i];
  }

  /** One SSE connection. `trace` is everything it has sent. */
  class EventStream {
    var stdoutSent: nat
    var stderrSent: nat
    var done: bool
    ghost var trace: seq<Event>

    ghost function View(): Reader
      reads this
    {
      Reader(stdoutSent, stderrSent, done, trace)
    }

    constructor ()
      ensures View() == NEW_READER
    {
      stdoutSent, stderrSent, done, trace := 0, 0, false, [];
    }

    /** One `unfold` step on the row just fetched, if it was found. */
    method Next(fetched: Option<Row>) returns (event: Option<Event>)
      modifies this
      ensures View() == Poll(old(View()), fetched)
      ensures old(done) ==> event == None
      ensures !old(done) ==> event.Some? && trace == old(trace) + [event.value]
    {
      if done {
        return None;
      }
      if fetched.None? {
        done := true;
        event := Some(NotFound);
      } else {
        var row := fetched.value;
        var finished := row.Finished();
        var out := Unsent(row.stdout, stdoutSent, finished);
        var err := Unsent(row.stderr, stderrSent, finished);
        var nothingLeft := out == [] && err == [];
        if out != [] {
          stdoutSent := stdoutSent + |out|;
          event := Some(Output(Stdout, out));
        } else if err != [] {
          stderrSent := stderrSent + |err|;
          event := Some(Output(Stderr, err));
        } else if finished {
          event := Some(Final(row.status, row.exitCode, row.signal));
        } else {
          event := Some(Ping);
        }
        done := StreamIsDone(finished, nothingLeft);
      }
      trace := trace + [event.value];
    }
  }
}
