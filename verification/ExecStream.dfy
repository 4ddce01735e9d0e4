/**
  * The asynchronous command runner (crates/api-server/src/exec.rs): a background
  * writer appends output chunks to a stored row and then finalises it, while any
  * number of readers poll the row and emit server-sent events.
  */
module ExecStream {
  import opened Common
  import opened Utf8

  datatype Channel = Stdout | Stderr

  /** How a command ended, as the SSH channel reported it. */
  datatype CommandEnd = CommandEnd(exitCode: Option<int>, signal: Option<string>, timedOut: bool) {
    function Status(): string {
      if timedOut then "Timeout"
      else if signal.Some? then "Killed"
      else if exitCode.Some? then "Completed"
      else "Failed"
    }
  }

  const NO_END := CommandEnd(None, None, false)

  /** The stored row of one execution. */
  datatype Row = Row(status: string, exitCode: Option<int>, signal: Option<string>,
                     stdout: seq<byte>, stderr: seq<byte>)
  {
    predicate Finished() {
      status != "Running"
    }

    function Buffer(c: Channel): seq<byte> {
      if c == Stdout then stdout else stderr
    }

    /** `stdout_buffer || $1`, or the same for the error stream. */
    function Appended(c: Channel, data: seq<byte>): Row {
      if c == Stdout then this.(stdout := stdout + data) else this.(stderr := stderr + data)
    }

    function Finalized(newStatus: string, end: CommandEnd): Row {
      this.(status := newStatus, exitCode := end.exitCode, signal := end.signal)
    }
  }

  const NEW_ROW := Row("Running", None, None, [], [])

  datatype Event =
    | Output(channel: Channel, bytes: seq<byte>)
    | Final(status: string, exitCode: Option<int>, signal: Option<string>)
    | Ping
    | NotFound
  {
    /** Nothing may follow these. */
    predicate Last() {
      Final? || NotFound?
    }
  }

  // ----- One poll -----

  /** Bytes of the buffer not sent yet; while the command runs, without a character cut in two. */
  function Unsent(buffer: seq<byte>, sent: nat, finished: bool): seq<byte> {
    var rest := if sent <= |buffer| then buffer[sent..] else [];
    if finished then rest
    else
      match Scan(rest)
      case Valid => rest
      case Invalid(v, e) => if e.None? && v <= |rest| then rest[..v] else rest
  }

  predicate StreamIsDone(finished: bool, nothingLeft: bool) {
    finished && nothingLeft
  }

  /** One connection: how far it got, and everything it has emitted. */
  datatype Reader = Reader(stdoutSent: nat, stderrSent: nat, done: bool, events: seq<Event>) {
    function Sent(c: Channel): nat {
      if c == Stdout then stdoutSent else stderrSent
    }
  }

  const NEW_READER := Reader(0, 0, false, [])

  /** The event of a poll that found the row: standard output first, then the error stream, then the ending. */
  function NextEvent(row: Row, stdoutSent: nat, stderrSent: nat): Event {
    var out := Unsent(row.stdout, stdoutSent, row.Finished());
    var err := Unsent(row.stderr, stderrSent, row.Finished());
    if out != [] then Output(Stdout, out)
    else if err != [] then Output(Stderr, err)
    else if row.Finished() then Final(row.status, row.exitCode, row.signal)
    else Ping
  }

  predicate NothingLeft(row: Row, stdoutSent: nat, stderrSent: nat) {
    && Unsent(row.stdout, stdoutSent, row.Finished()) == []
    && Unsent(row.stderr, stderrSent, row.Finished()) == []
  }

  /** Only the channel of the event moves. */
  function Advance(r: Reader, e: Event, done: bool): Reader {
    Reader(r.stdoutSent + (if e.Output? && e.channel == Stdout then |e.bytes| else 0),
           r.stderrSent + (if e.Output? && e.channel == Stderr then |e.bytes| else 0),
           done, r.events + [e])
  }

  /** One step of the stream: a closed one stays closed, a row that is gone closes it. */
  function Poll(r: Reader, fetched: Option<Row>): Reader {
    if r.done then r
    else if fetched.None? then Advance(r, NotFound, true)
    else
      var row := fetched.value;
      Advance(r, NextEvent(row, r.stdoutSent, r.stderrSent),
              StreamIsDone(row.Finished(), NothingLeft(row, r.stdoutSent, r.stderrSent)))
  }

  /** What `Unsent` gives is the start of what remains: all of it at the end, all but three bytes before. */
  lemma HeldBackAtMostThree(buffer: seq<byte>, sent: nat, finished: bool)
    requires sent <= |buffer|
    ensures Unsent(buffer, sent, finished) <= buffer[sent..]
    ensures finished ==> Unsent(buffer, sent, finished) == buffer[sent..]
    ensures |buffer| - sent - |Unsent(buffer, sent, finished)| <= 3
  {
    var rest := buffer[sent..];
    if !finished && Scan(rest).Invalid? {
      ScanStops(rest);
    }
  }

  /** What is held back, if anything, is one character cut short, after whole ones. */
  lemma HeldBackIsACutCharacter(buffer: seq<byte>, sent: nat) returns (c: Scalar)
    requires sent <= |buffer|
    ensures var rest, now := buffer[sent..], Unsent(buffer, sent, false);
            && (IsValid(rest) ==> now == rest)
            && (now != rest ==>
                  && now <= rest && IsValid(now)
                  && rest[|now|..] <= EncodeChar(c) && |rest[|now|..]| < |EncodeChar(c)|)
  {
    c := REPLACEMENT;
    var rest := buffer[sent..];
    if Scan(rest).Invalid? && Scan(rest).errorLen.None? {
      StopsInACharacter(rest);
      ScannedIsValid(rest);
      c := IncompleteIsACutCharacter(rest[Scan(rest).validUpTo..]);
    }
  }

  /**
    * One event a poll: new standard output before new output of the error stream, the ending when the
    * command is over and nothing is left, and a ping when there is nothing to say.
    */
  lemma EventOfAPoll(row: Row, r: Reader)
    requires !r.done && r.stdoutSent <= |row.stdout| && r.stderrSent <= |row.stderr|
    ensures var after := Poll(r, Some(row));
            var out, err := Unsent(row.stdout, r.stdoutSent, row.status != "Running"), Unsent(row.stderr, r.stderrSent, row.status != "Running");
            && |after.events| == |r.events| + 1 && r.events <= after.events
            && var e := after.events[|r.events|];
               && (e == Output(Stdout, out) <==> out != [])
               && (e == Output(Stderr, err) <==> out == [] && err != [])
               && (e == Final(row.status, row.exitCode, row.signal) <==> out == [] && err == [] && row.status != "Running")
               && (e == Ping <==> out == [] && err == [] && row.status == "Running")
               && (after.done <==> e.Final?)
  {
  }

  /** If the buffer is the start of a valid text and the cut is between characters, so is the next one. */
  lemma UnsentKeepsCharacters(buffer: seq<byte>, sent: nat, finished: bool, whole: seq<byte>)
    requires sent <= |buffer| && buffer <= whole && (finished ==> buffer == whole)
    requires IsValid(whole) && IsValid(buffer[..sent])
    ensures IsValid(Unsent(buffer, sent, finished))
  {
    var rest, future := buffer[sent..], whole[|buffer|..];
    assert whole == buffer[..sent] + (rest + future);
    ScanConcat(buffer[..sent], rest + future);
    if finished {
      assert rest + future == rest;
    } else {
      CutValidText(rest, future);
      if Scan(rest).Invalid? {
        ScannedIsValid(rest);
      }
    }
  }

  // ----- The system: one writer, one row, any number of readers -----

  datatype Action =
    | Append(channel: Channel, data: seq<byte>, stored: bool)     // a chunk arrives; the write may be lost
    | Finish(end: Option<CommandEnd>, stored: bool)               // None: the channel itself failed
    | Connect(id: nat)
    | PollOnce(id: nat, found: bool)                              // the row may not be found

  datatype System = System(row: Row, writing: bool, readers: map<nat, Reader>)

  const START := System(NEW_ROW, true, map[])

  function Step(s: System, a: Action): System {
    match a
    case Append(c, data, stored) =>
      if s.writing && stored then s.(row := s.row.Appended(c, data)) else s
    case Finish(end, stored) =>
      if !s.writing then s
      else if !stored then s.(writing := false)
      else if end.Some? then s.(writing := false, row := s.row.Finalized(end.value.Status(), end.value))
      else s.(writing := false, row := s.row.Finalized("Failed", NO_END))
    case Connect(id) =>
      if id in s.readers then s else s.(readers := s.readers[id := NEW_READER])
    case PollOnce(id, found) =>
      if id !in s.readers then s
      else s.(readers := s.readers[id := Poll(s.readers[id], if found then Some(s.row) else None)])
  }

  /** The state after a run, whatever the interleaving. */
  function Run(s: System, actions: seq<Action>): System {
    if actions == [] then s
    else Step(Run(s, actions[..|actions| - 1]), actions[|actions| - 1])
  }

  /** All bytes emitted on a channel, in order. */
  function Emitted(events: seq<Event>, c: Channel): seq<byte> {
    if events == [] then []
    else
      var e := events[|events| - 1];
      Emitted(events[..|events| - 1], c) + if e.Output? && e.channel == c then e.bytes else []
  }

  /** All text a client receives on a channel: each event is decoded on its own. */
  function EmittedText(events: seq<Event>, c: Channel): seq<Scalar> {
    if events == [] then []
    else
      var e := events[|events| - 1];
      EmittedText(events[..|events| - 1], c) + if e.Output? && e.channel == c then Decode(e.bytes) else []
  }

  lemma EmittedSnoc(events: seq<Event>, e: Event, c: Channel)
    ensures Emitted(events + [e], c) == Emitted(events, c) + (if e.Output? && e.channel == c then e.bytes else [])
  {
    assert (events + [e])[..|events|] == events;
  }

  lemma EmittedTextSnoc(events: seq<Event>, e: Event, c: Channel)
    ensures EmittedText(events + [e], c)
         == EmittedText(events, c) + (if e.Output? && e.channel == c then Decode(e.bytes) else [])
  {
    assert (events + [e])[..|events|] == events;
  }

  // ----- Invariants of every run -----

  /** A reader has emitted exactly the bytes it counts as sent. */
  predicate SentIsPrefix(row: Row, r: Reader, c: Channel) {
    r.Sent(c) <= |row.Buffer(c)| && Emitted(r.events, c) == row.Buffer(c)[..r.Sent(c)]
  }

  predicate BothArePrefixes(row: Row, r: Reader) {
    SentIsPrefix(row, r, Stdout) && SentIsPrefix(row, r, Stderr)
  }

  /** The closing event comes last, and a `status` event comes after everything else was sent. */
  predicate ClosesLast(row: Row, r: Reader) {
    && (forall i | 0 <= i < |r.events| :: r.events[i].Last() ==> i == |r.events| - 1)
    && (r.done <==> r.events != [] && r.events[|r.events| - 1].Last())
    && (r.done && r.events[|r.events| - 1].Final? ==>
          && row.Finished()
          && r.events[|r.events| - 1] == Final(row.status, row.exitCode, row.signal)
          && r.stdoutSent == |row.stdout| && r.stderrSent == |row.stderr|)
  }

  predicate ReaderInv(row: Row, r: Reader) {
    BothArePrefixes(row, r) && ClosesLast(row, r)
  }

  predicate WriterInv(s: System) {
    s.writing ==> !s.row.Finished()
  }

  ghost predicate Inv(s: System) {
    WriterInv(s) && ReadersInv(s.row, s.readers)
  }

  ghost predicate ReadersInv(row: Row, readers: map<nat, Reader>) {
    forall id | id in readers :: ReaderInv(row, readers[id])
  }

  /** The event of a poll is closing exactly when the stream stops, and carries the next bytes of its channel. */
  lemma NextEventIsRight(row: Row, r: Reader)
    requires r.stdoutSent <= |row.stdout| && r.stderrSent <= |row.stderr|
    ensures var e := NextEvent(row, r.stdoutSent, r.stderrSent);
            && (e.Last() <==> StreamIsDone(row.Finished(), NothingLeft(row, r.stdoutSent, r.stderrSent)))
            && (e.Last() ==>
                  && row.Finished() && e == Final(row.status, row.exitCode, row.signal)
                  && r.stdoutSent == |row.stdout| && r.stderrSent == |row.stderr|)
            && (e.Output? ==>
                  && e.bytes == Unsent(row.Buffer(e.channel), r.Sent(e.channel), row.Finished())
                  && e.bytes <= row.Buffer(e.channel)[r.Sent(e.channel)..])
  {
    HeldBackAtMostThree(row.stdout, r.stdoutSent, row.Finished());
    HeldBackAtMostThree(row.stderr, r.stderrSent, row.Finished());
  }

  lemma AdvanceKeepsPrefix(row: Row, r: Reader, e: Event, done: bool, c: Channel)
    requires SentIsPrefix(row, r, c)
    requires e.Output? && e.channel == c ==> e.bytes <= row.Buffer(c)[r.Sent(c)..]
    ensures SentIsPrefix(row, Advance(r, e, done), c)
  {
    EmittedSnoc(r.events, e, c);
  }

  lemma AdvanceClosesLast(row: Row, r: Reader, e: Event)
    requires ClosesLast(row, r) && !r.done
    requires e.Final? ==>
               && row.Finished() && e == Final(row.status, row.exitCode, row.signal)
               && r.stdoutSent == |row.stdout| && r.stderrSent == |row.stderr|
    ensures ClosesLast(row, Advance(r, e, e.Last()))
  {
  }

  lemma PollKeeps(row: Row, r: Reader, found: bool)
    requires ReaderInv(row, r)
    ensures var r' := Poll(r, if found then Some(row) else None);
            ReaderInv(row, r')
  {
    if !r.done {
      NextEventIsRight(row, r);
      var e := if found then NextEvent(row, r.stdoutSent, r.stderrSent) else NotFound;
      AdvanceKeepsPrefix(row, r, e, e.Last(), Stdout);
      AdvanceKeepsPrefix(row, r, e, e.Last(), Stderr);
      AdvanceClosesLast(row, r, e);
      assert Poll(r, if found then Some(row) else None) == Advance(r, e, e.Last());
    }
  }

  /** Growing the buffers of an unfinished row leaves every reader right. */
  lemma GrowingKeeps(row: Row, row': Row, r: Reader)
    requires ReaderInv(row, r) && !row.Finished()
    requires row.stdout <= row'.stdout && row.stderr <= row'.stderr
    ensures ReaderInv(row', r)
  {
    assert row'.stdout[..r.stdoutSent] == row.stdout[..r.stdoutSent];
    assert row'.stderr[..r.stderrSent] == row.stderr[..r.stderrSent];
  }

  lemma GrowingKeepsAll(row: Row, row': Row, readers: map<nat, Reader>)
    requires ReadersInv(row, readers) && !row.Finished()
    requires row.stdout <= row'.stdout && row.stderr <= row'.stderr
    ensures ReadersInv(row', readers)
  {
    forall id | id in readers ensures ReaderInv(row', readers[id]) {
      GrowingKeeps(row, row', readers[id]);
    }
  }

  lemma StepKeepsInv(s: System, a: Action)
    requires Inv(s)
    ensures Inv(Step(s, a))
  {
    match a
    case Append(_, _, _) =>
      if s.writing {
        GrowingKeepsAll(s.row, Step(s, a).row, s.readers);
      }
    case Finish(_, _) =>
      if s.writing {
        GrowingKeepsAll(s.row, Step(s, a).row, s.readers);
      }
    case Connect(_) =>
      NewReaderIsRight(s.row);
    case PollOnce(id, found) =>
      if id in s.readers {
        PollKeeps(s.row, s.readers[id], found);
      }
  }

  lemma NewReaderIsRight(row: Row)
    ensures ReaderInv(row, NEW_READER)
  {
  }

  lemma {:induction false} RunKeepsInv(s: System, actions: seq<Action>)
    requires Inv(s)
    ensures Inv(Run(s, actions))
  {
    if actions != [] {
      RunKeepsInv(s, actions[..|actions| - 1]);
      StepKeepsInv(Run(s, actions[..|actions| - 1]), actions[|actions| - 1]);
    }
  }

  // ----- Main results -----

  /** No loss, no duplication, no reordering: in every interleaving, each reader's output is a prefix of the row's. */
  lemma NothingLost(actions: seq<Action>, id: nat, c: Channel)
    requires id in Run(START, actions).readers
    ensures var s := Run(START, actions);
            var r := s.readers[id];
            r.Sent(c) <= |s.row.Buffer(c)| && Emitted(r.events, c) == s.row.Buffer(c)[..r.Sent(c)]
  {
    RunKeepsInv(START, actions);
  }

  /** `status` is emitted at most once and last, carries the stored ending, and follows both buffers in full. */
  lemma StatusIsLastAndComplete(actions: seq<Action>, id: nat, i: nat)
    requires id in Run(START, actions).readers
    requires i < |Run(START, actions).readers[id].events| && Run(START, actions).readers[id].events[i].Final?
    ensures var s := Run(START, actions);
            var r := s.readers[id];
            && i == |r.events| - 1 && r.done && s.row.Finished()
            && r.events[i] == Final(s.row.status, s.row.exitCode, s.row.signal)
            && Emitted(r.events, Stdout) == s.row.stdout
            && Emitted(r.events, Stderr) == s.row.stderr
  {
    RunKeepsInv(START, actions);
    var s := Run(START, actions);
    var r := s.readers[id];
    assert r.events[i].Last();
  }

  /** What a later row keeps of an earlier one: the buffers grow, and a finished row is frozen. */
  predicate Later(s: System, s': System) {
    && s.row.stdout <= s'.row.stdout && s.row.stderr <= s'.row.stderr
    && (s.row.Finished() ==> s'.row == s.row)
  }

  lemma StepGrows(s: System, a: Action)
    requires WriterInv(s)
    ensures WriterInv(Step(s, a)) && Later(s, Step(s, a))
    ensures forall id :: id in s.readers ==> id in Step(s, a).readers
  {
  }

  lemma {:induction false} RowOnlyGrows(s: System, actions: seq<Action>)
    requires WriterInv(s)
    ensures WriterInv(Run(s, actions)) && Later(s, Run(s, actions))
    ensures forall id :: id in s.readers ==> id in Run(s, actions).readers
  {
    if actions != [] {
      RowOnlyGrows(s, actions[..|actions| - 1]);
      StepGrows(Run(s, actions[..|actions| - 1]), actions[|actions| - 1]);
    }
  }

  /** Successful polls of one reader in a run. */
  function Polls(actions: seq<Action>, id: nat): nat {
    if actions == [] then 0
    else Polls(actions[..|actions| - 1], id) + if actions[|actions| - 1] == PollOnce(id, true) then 1 else 0
  }

  /** Polls an open reader still needs once the command is over. */
  function Remaining(row: Row, r: Reader): nat {
    if r.done then 0
    else 1 + (if r.stdoutSent < |row.stdout| then 1 else 0) + (if r.stderrSent < |row.stderr| then 1 else 0)
  }

  lemma PollMakesProgress(r: Reader, row: Row)
    requires BothArePrefixes(row, r) && row.Finished()
    ensures r.done || Remaining(row, Poll(r, Some(row))) < Remaining(row, r)
    ensures Remaining(row, Poll(r, None)) == 0
  {
    NextEventIsRight(row, r);
  }

  lemma {:induction false} RemainingShrinks(s: System, actions: seq<Action>, id: nat)
    requires Inv(s) && s.row.Finished() && id in s.readers
    ensures id in Run(s, actions).readers
    ensures var r := Run(s, actions).readers[id]; r.done || Remaining(s.row, r) + Polls(actions, id) <= 3
  {
    RowOnlyGrows(s, actions);
    if actions != [] {
      var before := actions[..|actions| - 1];
      RowOnlyGrows(s, before);
      RemainingShrinks(s, before, id);
      RunKeepsInv(s, before);
      PollMakesProgress(Run(s, before).readers[id], s.row);
    }
  }

  /** Once the row is final, a stream ends within three successful polls, whatever else happens in between. */
  lemma EndsWithinThreePolls(actions: seq<Action>, more: seq<Action>, id: nat)
    requires Run(START, actions).row.Finished() && id in Run(START, actions).readers
    requires Polls(more, id) >= 3
    ensures id in Run(Run(START, actions), more).readers
    ensures Run(Run(START, actions), more).readers[id].done
  {
    RunKeepsInv(START, actions);
    RowOnlyGrows(Run(START, actions), more);
    RemainingShrinks(Run(START, actions), more, id);
  }

  // ----- What the row holds -----

  predicate Finishes(actions: seq<Action>) {
    exists a | a in actions :: a.Finish?
  }

  /** The chunks of a channel that were stored, one after the other: those that came before the finalisation. */
  function StoredChunks(actions: seq<Action>, c: Channel): seq<byte> {
    if actions == [] then []
    else
      var before, a := actions[..|actions| - 1], actions[|actions| - 1];
      StoredChunks(before, c) + if a.Append? && a.channel == c && a.stored && !Finishes(before) then a.data else []
  }

  lemma {:induction false} WritingUntilFinish(actions: seq<Action>)
    ensures Run(START, actions).writing <==> !Finishes(actions)
  {
    if actions != [] {
      WritingUntilFinish(actions[..|actions| - 1]);
      assert actions == actions[..|actions| - 1] + [actions[|actions| - 1]];
    }
  }

  /** The row holds exactly the chunks stored, in order, whatever readers do in between. */
  lemma {:induction false} RowIsStoredChunks(actions: seq<Action>, c: Channel)
    ensures Run(START, actions).row.Buffer(c) == StoredChunks(actions, c)
  {
    if actions != [] {
      RowIsStoredChunks(actions[..|actions| - 1], c);
      WritingUntilFinish(actions[..|actions| - 1]);
    }
  }

  /** A stream that ended with `status` has delivered exactly the chunks stored: all of them, each once, in order. */
  lemma ClosedStreamDeliversTheChunks(actions: seq<Action>, id: nat, c: Channel)
    requires id in Run(START, actions).readers
    requires var events := Run(START, actions).readers[id].events; events != [] && events[|events| - 1].Final?
    ensures Emitted(Run(START, actions).readers[id].events, c) == StoredChunks(actions, c)
  {
    var s := Run(START, actions);
    RunKeepsInv(START, actions);
    RowIsStoredChunks(actions, c);
    assert ReaderInv(s.row, s.readers[id]);
    assert s.row.Buffer(c)[..|s.row.Buffer(c)|] == s.row.Buffer(c);
  }

  // ----- Text -----

  /** Every slice is whole characters, and the texts add up to the decoding of what was sent. */
  ghost predicate TextIsWhole(row: Row, r: Reader, c: Channel) {
    r.Sent(c) <= |row.Buffer(c)| && WholeText(row.Buffer(c)[..r.Sent(c)], r.events, c)
  }

  /** These events sent these bytes of the channel, whole characters each time. */
  ghost predicate WholeText(sent: seq<byte>, events: seq<Event>, c: Channel) {
    IsValid(sent) && EmittedText(events, c) == Decode(sent) && WholeSlices(events, c)
  }

  lemma WholeTextSnoc(sent: seq<byte>, events: seq<Event>, e: Event, c: Channel)
    requires WholeText(sent, events, c) && e.Output? && e.channel == c && IsValid(e.bytes)
    ensures WholeText(sent + e.bytes, events + [e], c)
  {
    WholeFollowsWhole(sent, e.bytes, sent + e.bytes);
    EmittedTextSnoc(events, e, c);
    SlicesSnoc(events, e, c);
  }

  ghost predicate WholeSlices(events: seq<Event>, c: Channel) {
    forall i | 0 <= i < |events| :: events[i].Output? && events[i].channel == c ==> IsValid(events[i].bytes)
  }

  lemma SliceGrows(buffer: seq<byte>, sent: nat, more: seq<byte>)
    requires sent <= |buffer| && more <= buffer[sent..]
    ensures sent + |more| <= |buffer| && buffer[..sent + |more|] == buffer[..sent] + more
  {
  }

  lemma WholeFollowsWhole(sent: seq<byte>, more: seq<byte>, all: seq<byte>)
    requires IsValid(sent) && IsValid(more) && all == sent + more
    ensures IsValid(all) && Decode(all) == Decode(sent) + Decode(more)
  {
    ScanConcat(sent, more);
  }

  ghost predicate AllTextIsWhole(s: System, c: Channel) {
    forall id | id in s.readers :: TextIsWhole(s.row, s.readers[id], c)
  }

  /** An event that is not output of this channel leaves its text alone. */
  lemma OtherEventKeepsText(row: Row, r: Reader, e: Event, done: bool, c: Channel)
    requires TextIsWhole(row, r, c) && !(e.Output? && e.channel == c)
    ensures TextIsWhole(row, Advance(r, e, done), c)
  {
    EmittedTextSnoc(r.events, e, c);
    assert Advance(r, e, done).Sent(c) == r.Sent(c);
  }

  lemma AdvanceKeepsText(row: Row, r: Reader, e: Event, done: bool, c: Channel)
    requires TextIsWhole(row, r, c)
    requires e.Output? && e.channel == c ==> e.bytes <= row.Buffer(c)[r.Sent(c)..] && IsValid(e.bytes)
    ensures TextIsWhole(row, Advance(r, e, done), c)
  {
    if e.Output? && e.channel == c {
      OutputKeepsText(row, r, e, done, c);
    } else {
      OtherEventKeepsText(row, r, e, done, c);
    }
  }

  lemma SlicesSnoc(events: seq<Event>, e: Event, c: Channel)
    requires WholeSlices(events, c) && (e.Output? && e.channel == c ==> IsValid(e.bytes))
    ensures WholeSlices(events + [e], c)
  {
  }

  lemma OutputKeepsText(row: Row, r: Reader, e: Event, done: bool, c: Channel)
    requires TextIsWhole(row, r, c) && e.Output? && e.channel == c
    requires e.bytes <= row.Buffer(c)[r.Sent(c)..] && IsValid(e.bytes)
    ensures TextIsWhole(row, Advance(r, e, done), c)
  {
    var r' := Advance(r, e, done);
    SliceGrows(row.Buffer(c), r.Sent(c), e.bytes);
    WholeTextSnoc(row.Buffer(c)[..r.Sent(c)], r.events, e, c);
    assert r'.Sent(c) == r.Sent(c) + |e.bytes| && r'.events == r.events + [e];
  }

  /** The current buffer is a start of the `whole` output, and all of it once the command is over. */
  predicate StartOf(row: Row, c: Channel, whole: seq<byte>) {
    row.Buffer(c) <= whole && (row.Finished() ==> row.Buffer(c) == whole)
  }

  lemma PollKeepsText(row: Row, r: Reader, found: bool, c: Channel, whole: seq<byte>)
    requires BothArePrefixes(row, r) && TextIsWhole(row, r, c)
    requires IsValid(whole) && StartOf(row, c, whole)
    ensures TextIsWhole(row, Poll(r, if found then Some(row) else None), c)
  {
    if !r.done && found {
      NextEventIsRight(row, r);
      UnsentKeepsCharacters(row.Buffer(c), r.Sent(c), row.Finished(), whole);
      var done := StreamIsDone(row.Finished(), NothingLeft(row, r.stdoutSent, r.stderrSent));
      AdvanceKeepsText(row, r, NextEvent(row, r.stdoutSent, r.stderrSent), done, c);
    } else if !r.done {
      AdvanceKeepsText(row, r, NotFound, true, c);
    }
  }

  /** The buffers of a row grew, its readers did not move. */
  lemma GrowingKeepsText(row: Row, row': Row, r: Reader, c: Channel)
    requires TextIsWhole(row, r, c) && row.Buffer(c) <= row'.Buffer(c)
    ensures TextIsWhole(row', r, c)
  {
    assert row'.Buffer(c)[..r.Sent(c)] == row.Buffer(c)[..r.Sent(c)];
  }

  lemma NewReaderText(row: Row, c: Channel)
    ensures TextIsWhole(row, NEW_READER, c)
  {
    assert row.Buffer(c)[..0] == [];
  }

  lemma WriteKeepsText(s: System, a: Action, c: Channel, r: Reader)
    requires WriterInv(s) && TextIsWhole(s.row, r, c)
    ensures TextIsWhole(Step(s, a).row, r, c)
  {
    StepGrows(s, a);
    GrowingKeepsText(s.row, Step(s, a).row, r, c);
  }

  /** What a step does to one reader: nothing, unless it is the poll of that reader. */
  lemma StepOfReader(s: System, a: Action, id: nat)
    requires id in Step(s, a).readers
    ensures id !in s.readers ==> Step(s, a).readers[id] == NEW_READER && Step(s, a).row == s.row
    ensures id in s.readers && a.PollOnce? && a.id == id ==>
              Step(s, a).readers[id] == Poll(s.readers[id], if a.found then Some(s.row) else None) && Step(s, a).row == s.row
    ensures id in s.readers && !(a.PollOnce? && a.id == id) ==> Step(s, a).readers[id] == s.readers[id]
  {
  }

  lemma StepKeepsText(s: System, a: Action, c: Channel, whole: seq<byte>, id: nat)
    requires Inv(s) && id in Step(s, a).readers
    requires id in s.readers ==> TextIsWhole(s.row, s.readers[id], c)
    requires IsValid(whole) && StartOf(s.row, c, whole)
    ensures TextIsWhole(Step(s, a).row, Step(s, a).readers[id], c)
  {
    StepOfReader(s, a, id);
    if id !in s.readers {
      NewReaderText(s.row, c);
    } else if a.PollOnce? && a.id == id {
      assert ReaderInv(s.row, s.readers[id]);
      PollKeepsText(s.row, s.readers[id], a.found, c, whole);
    } else {
      WriteKeepsText(s, a, c, s.readers[id]);
    }
  }

  lemma StartOfEarlier(s: System, a: Action, c: Channel, whole: seq<byte>)
    requires WriterInv(s) && StartOf(Step(s, a).row, c, whole)
    ensures StartOf(s.row, c, whole)
  {
    StepGrows(s, a);
  }

  lemma {:induction false} RunKeepsText(actions: seq<Action>, c: Channel, whole: seq<byte>)
    requires IsValid(whole) && StartOf(Run(START, actions).row, c, whole)
    ensures AllTextIsWhole(Run(START, actions), c)
  {
    if actions != [] {
      var before, a := actions[..|actions| - 1], actions[|actions| - 1];
      var s := Run(START, before);
      RunKeepsInv(START, before);
      StartOfEarlier(s, a, c, whole);
      RunKeepsText(before, c, whole);
      forall id | id in Step(s, a).readers ensures TextIsWhole(Step(s, a).row, Step(s, a).readers[id], c) {
        StepKeepsText(s, a, c, whole, id);
      }
    }
  }

  /**
    * If the output is valid UTF-8 once complete, then however the chunks were cut and whenever
    * polls happened, every event holds whole characters, and a stream closed by `status` has
    * delivered exactly the decoding of the whole output.
    */
  lemma TextSurvivesCutting(actions: seq<Action>, id: nat, c: Channel)
    requires var s := Run(START, actions); s.row.Finished() && IsValid(s.row.Buffer(c)) && id in s.readers
    ensures var s := Run(START, actions);
            var r := s.readers[id];
            && WholeSlices(r.events, c)
            && (r.events != [] && r.events[|r.events| - 1].Final? ==> EmittedText(r.events, c) == Decode(s.row.Buffer(c)))
  {
    RunKeepsInv(START, actions);
    var s := Run(START, actions);
    RunKeepsText(actions, c, s.row.Buffer(c));
    assert TextIsWhole(s.row, s.readers[id], c);
    if s.readers[id].events != [] && s.readers[id].events[|s.readers[id].events| - 1].Final? {
      assert s.row.Buffer(c)[..|s.row.Buffer(c)|] == s.row.Buffer(c);
    }
  }
}
