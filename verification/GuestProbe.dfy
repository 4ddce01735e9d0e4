/** The readiness probe of a guest port (crates/controller/src/guest_probe.rs). */
module GuestProbe {
  import opened Common

  datatype Service = SshBanner | HttpResponse {
    /** `SSH-`, or `HTTP/`. */
    function Prefix(): seq<byte> {
      if SshBanner? then [83, 83, 72, 45] else [72, 84, 84, 80, 47]
    }
  }

  const DATA_CHANNEL: byte := 0

  /** A WebSocket message; only binary ones carry frames of the port-forward protocol. */
  datatype Message = Binary(data: seq<byte>) | Other

  /** The guest refused, or a frame made no sense. */
  predicate Refuses(m: Message) {
    m.Binary? && (m.data == [] || m.data[0] != DATA_CHANNEL)
  }

  function PayloadOf(m: Message): seq<byte> {
    if m.Binary? && !Refuses(m) then m.data[1..] else []
  }

  /** Everything the guest said on the data channel before a refusal, if any. */
  function Payload(messages: seq<Message>): seq<byte> {
    if messages == [] || Refuses(messages[0]) then [] else PayloadOf(messages[0]) + Payload(messages[1..])
  }

  /** What the probe means: what the guest said starts the way the service does. */
  predicate Answers(messages: seq<Message>, service: Service) {
    service.Prefix() <= Payload(messages)
  }

  lemma Head(m: Message, rest: seq<Message>)
    ensures Payload([m] + rest) == if Refuses(m) then [] else PayloadOf(m) + Payload(rest)
    ensures [m] + [] == [m]
  {
    assert ([m] + rest)[1..] == rest;
  }

  /** The receive loop. `messages` ends where the connection or the time allowed does. */
  method GuestPortAnswers(messages: seq<Message>, service: Service) returns (answered: bool)
    ensures answered <==> Answers(messages, service)
  {
    answered := StartsWith(messages, service.Prefix());
  }

  method StartsWith(messages: seq<Message>, prefix: seq<byte>) returns (answered: bool)
    requires prefix != []
    ensures answered <==> prefix <= Payload(messages)
  {
    ghost var whole := Payload(messages);
    var received: seq<byte>, left := [], messages;
    while left != []
      invariant IsReceived(received, left, whole) && |received| < |prefix|
      decreases |left|
    {
      NextMessage(received, left, whole);
      var m := left[0];
      left := left[1..];
      if m.Binary? {
        if m.data == [] || m.data[0] != DATA_CHANNEL {
          return false;
        }
        received := received + m.data[1..];
        if |received| >= |prefix| {
          EnoughToTell(prefix, received, left, whole);
          return prefix <= received;
        }
      }
    }
    return false;
  }

  /** What was received, and what is still to come. */
  predicate IsReceived(received: seq<byte>, left: seq<Message>, whole: seq<byte>) {
    received + Payload(left) == whole
  }

  lemma NextMessage(received: seq<byte>, left: seq<Message>, whole: seq<byte>)
    requires left != [] && IsReceived(received, left, whole)
    ensures Refuses(left[0]) ==> whole == received
    ensures !Refuses(left[0]) ==> IsReceived(received + PayloadOf(left[0]), left[1..], whole)
    ensures !left[0].Binary? ==> received + PayloadOf(left[0]) == received
  {
    Regroup(received, PayloadOf(left[0]), Payload(left[1..]));
  }

  lemma EnoughToTell(prefix: seq<byte>, received: seq<byte>, left: seq<Message>, whole: seq<byte>)
    requires |prefix| <= |received| && IsReceived(received, left, whole)
    ensures prefix <= whole <==> prefix <= received
  {
    assert whole[..|prefix|] == received[..|prefix|];
  }

  lemma Regroup(a: seq<byte>, b: seq<byte>, c: seq<byte>)
    ensures (a + b) + c == a + (b + c)
  {
  }

  function Frame(payload: seq<byte>): Message {
    Binary([DATA_CHANNEL] + payload)
  }

  lemma FramePayload(payload: seq<byte>)
    ensures !Refuses(Frame(payload)) && PayloadOf(Frame(payload)) == payload
  {
  }

  /** The answer does not depend on framing: cutting any data frame in two, at any place, changes nothing. */
  lemma {:induction false} SplitFrame(before: seq<Message>, x: seq<byte>, y: seq<byte>, after: seq<Message>)
    ensures Payload(before + ([Frame(x)] + ([Frame(y)] + after))) == Payload(before + ([Frame(x + y)] + after))
    decreases before
  {
    if before == [] {
      SplitFirstFrame(x, y, after);
      assert before + ([Frame(x)] + ([Frame(y)] + after)) == [Frame(x)] + ([Frame(y)] + after);
      assert before + ([Frame(x + y)] + after) == [Frame(x + y)] + after;
    } else {
      SplitFrame(before[1..], x, y, after);
      HeadOf(before, [Frame(x)] + ([Frame(y)] + after));
      HeadOf(before, [Frame(x + y)] + after);
    }
  }

  lemma HeadOf(before: seq<Message>, rest: seq<Message>)
    requires before != []
    ensures Payload(before + rest) == if Refuses(before[0]) then [] else PayloadOf(before[0]) + Payload(before[1..] + rest)
  {
    assert (before + rest)[1..] == before[1..] + rest;
  }

  lemma SplitFirstFrame(x: seq<byte>, y: seq<byte>, after: seq<Message>)
    ensures Payload([Frame(x)] + ([Frame(y)] + after)) == Payload([Frame(x + y)] + after)
  {
    Head(Frame(x), [Frame(y)] + after);
    Head(Frame(y), after);
    Head(Frame(x + y), after);
    FramePayload(x);
    FramePayload(y);
    FramePayload(x + y);
    Regroup(x, y, Payload(after));
  }

  /** A frame that is empty, or of another channel than the data's, ends what the guest said. */
  lemma {:induction false} RefusalEnds(before: seq<Message>, data: seq<byte>, after: seq<Message>)
    requires data == [] || data[0] != 0
    ensures Payload(before + ([Binary(data)] + after)) == Payload(before)
    decreases before
  {
    if before == [] {
      assert before + ([Binary(data)] + after) == [Binary(data)] + after;
      Head(Binary(data), after);
    } else {
      RefusalEnds(before[1..], data, after);
      HeadOf(before, [Binary(data)] + after);
      HeadOf(before, []);
      assert before + [] == before && before[1..] + [] == before[1..];
    }
  }

  /** Messages that are not frames do not count. */
  lemma {:induction false} OthersAreSkipped(before: seq<Message>, after: seq<Message>)
    ensures Payload(before + ([Other] + after)) == Payload(before + after)
    decreases before
  {
    if before == [] {
      assert before + ([Other] + after) == [Other] + after && before + after == after;
      Head(Other, after);
    } else {
      OthersAreSkipped(before[1..], after);
      HeadOf(before, [Other] + after);
      HeadOf(before, after);
    }
  }

  /** `SSH-`, and `HTTP/`. */
  lemma PrefixesAre()
    ensures SshBanner.Prefix() == ['S' as int, 'S' as int, 'H' as int, '-' as int]
    ensures HttpResponse.Prefix() == ['H' as int, 'T' as int, 'T' as int, 'P' as int, '/' as int]
  {
  }
}
