/**
 The newline-framed IPC channel: one connection, a client that sends synchronous and asynchronous
 events, and a server that reads lines, handles them one by one and answers some. Bytes travel in
 order; the scheduler decides who moves. Events are exchanged in their JSON form, which has no raw
 newline in it and is never empty.
 */
module Ipc {
  import opened Wrappers

  newtype byte = x: int | 0 <= x < 256

  const NEWLINE: byte := 10

  type Stream = seq<byte>

  // ---- framing -----------------------------------------------------------------------------

  /** Index of the first newline, or the length. */
  function LineEnd(s: Stream): (i: nat)
    ensures i <= |s|
    ensures i < |s| ==> s[i] == NEWLINE
    ensures forall j :: 0 <= j < i ==> s[j] != NEWLINE
  {
    if s == [] then 0 else if s[0] == NEWLINE then 0 else 1 + LineEnd(s[1..])
  }

  function Behind(s: Stream, i: nat): Stream {
    if i < |s| then s[i + 1..] else []
  }

  /** What reading one line from `s` yields: no line at all if nothing but a newline, or nothing, is there. */
  function FirstLine(s: Stream): Option<Stream> {
    if LineEnd(s) == 0 then None else Some(s[..LineEnd(s)])
  }

  /** The byte-by-byte read: stop at a newline or at the end, remember whether any byte came. */
  method ReadLine(s: Stream) returns (line: Option<Stream>, rest: Stream)
    ensures line == FirstLine(s) && rest == Behind(s, LineEnd(s))
  {
    var buffer: Stream, isEof := [], true;
    var i := 0;
    while i < |s|
      invariant i <= |s| && i <= LineEnd(s)
      invariant buffer == s[..i] && (isEof <==> i == 0)
    {
      if s[i] == NEWLINE {
        break;
      }
      buffer := buffer + [s[i]];
      isEof := false;
      i := i + 1;
    }
    line := if isEof then None else Some(buffer);
    rest := Behind(s, i);
  }

  predicate Newlineless(m: Stream) {
    forall i :: 0 <= i < |m| ==> m[i] != NEWLINE
  }

  function Framed(m: Stream): Stream {
    m + [NEWLINE]
  }

  function FramedAll(ms: seq<Stream>): Stream {
    if ms == [] then [] else Framed(ms[0]) + FramedAll(ms[1..])
  }

  /** Read lines until the reader reports the end of the stream. */
  function ReadAll(s: Stream): seq<Stream>
    decreases |s|
  {
    if FirstLine(s).None? then [] else [FirstLine(s).value] + ReadAll(Behind(s, LineEnd(s)))
  }

  lemma {:induction false} LineEndOfFramed(m: Stream, t: Stream)
    requires Newlineless(m)
    ensures LineEnd(Framed(m) + t) == |m|
  {
    var s := Framed(m) + t;
    if m == [] {
    } else {
      assert s[0] == m[0];
      assert s[1..] == Framed(m[1..]) + t;
      LineEndOfFramed(m[1..], t);
    }
  }

  lemma FirstLineOfFramed(m: Stream, t: Stream)
    requires Newlineless(m)
    ensures FirstLine(Framed(m) + t) == (if m == [] then None else Some(m))
    ensures Behind(Framed(m) + t, LineEnd(Framed(m) + t)) == t
  {
    LineEndOfFramed(m, t);
    assert (Framed(m) + t)[..|m|] == m;
    assert (Framed(m) + t)[|m| + 1..] == t;
  }

  /** Framed messages come back one by one, until an empty one is taken for the end of the stream. */
  lemma {:induction false} ReadAllOfFramed(ms: seq<Stream>)
    requires forall i :: 0 <= i < |ms| ==> Newlineless(ms[i])
    ensures ReadAll(FramedAll(ms)) == Before(ms)
  {
    if ms == [] {
    } else {
      FirstLineOfFramed(ms[0], FramedAll(ms[1..]));
      ReadAllOfFramed(ms[1..]);
    }
  }

  /** The messages up to the first empty one. */
  function Before(ms: seq<Stream>): seq<Stream> {
    if ms == [] || ms[0] == [] then [] else [ms[0]] + Before(ms[1..])
  }

  lemma {:induction false} BeforeIsAllIff(ms: seq<Stream>)
    ensures Before(ms) == ms <==> forall i :: 0 <= i < |ms| ==> ms[i] != []
  {
    if ms == [] {
    } else if ms[0] != [] {
      BeforeIsAllIff(ms[1..]);
      assert Before(ms)[1..] == Before(ms[1..]);
      if forall i :: 0 <= i < |ms| - 1 ==> ms[1..][i] != [] {
        assert forall i :: 1 <= i < |ms| ==> ms[i] == ms[1..][i - 1];
      }
    }
  }

  /** The stream gives back exactly the newline-free messages put in if and only if none of them is empty. */
  lemma FramingRoundTripIff(ms: seq<Stream>)
    requires forall i, j :: 0 <= i < |ms| && 0 <= j < |ms[i]| ==> ms[i][j] != 10
    ensures ReadAll(FramedAll(ms)) == ms <==> forall i :: 0 <= i < |ms| ==> ms[i] != []
  {
    assert forall i :: 0 <= i < |ms| ==> Newlineless(ms[i]);
    ReadAllOfFramed(ms);
    BeforeIsAllIff(ms);
  }

  // ---- the conversation --------------------------------------------------------------------------

  /**
   What the handler does with an event. It may keep a state of its own: its answer depends on how
   many events came before, which on one connection fixes what they were.
   */
  datatype Handled = Respond(response: Stream) | Silent | Failed | Exit

  type Handler = (nat, Stream) -> Handled

  /** What the client does, in program order. */
  datatype Send = Sync(event: Stream) | Async(event: Stream) {
    function Event(): Stream {
      match this
      case Sync(e) => e
      case Async(e) => e
    }
  }

  datatype Got = Response(line: Stream) | EmptyResponse

  /**
   `next` counts the sends started, `blocked` says the last one is a `send_sync` still reading;
   `results` has one entry per completed `send_sync`. `handled` counts the lines the server took.
   */
  datatype State = State(
    toServer: Stream, toClient: Stream, next: nat, blocked: bool,
    results: seq<Got>, handled: nat, closed: bool)

  const START := State([], [], 0, false, [], 0, false)

  datatype Move = ClientSends | ClientReads | ServerHandles

  function Step(s: State, program: seq<Send>, handler: Handler, m: Move): State {
    match m
    case ClientSends =>
      if s.blocked || s.next >= |program| then s
      else
        var send := program[s.next];
        s.(toServer := s.toServer + Framed(send.Event()), next := s.next + 1, blocked := send.Sync?)
    case ClientReads =>
      if !s.blocked then s
      else if LineEnd(s.toClient) < |s.toClient| then
        s.(toClient := Behind(s.toClient, LineEnd(s.toClient)), blocked := false,
           results := s.results + [match FirstLine(s.toClient) case Some(l) => Response(l) case None => EmptyResponse])
      else if s.closed then s.(blocked := false, results := s.results + [EmptyResponse])
      else s
    case ServerHandles =>
      if s.closed || LineEnd(s.toServer) == |s.toServer| then s
      else
        var rest := Behind(s.toServer, LineEnd(s.toServer));
        match FirstLine(s.toServer)
        case None => s.(toServer := rest, closed := true)
        case Some(line) =>
          match handler(s.handled, line)
          case Respond(r) => s.(toServer := rest, toClient := s.toClient + Framed(r), handled := s.handled + 1)
          case Exit => s.(toServer := rest, handled := s.handled + 1, closed := true)
          case _ => s.(toServer := rest, handled := s.handled + 1)
  }

  function Run(program: seq<Send>, handler: Handler, moves: seq<Move>): State {
    if moves == [] then START
    else Step(Run(program, handler, moves[..|moves| - 1]), program, handler, moves[|moves| - 1])
  }

  predicate Message(m: Stream) {
    m != [] && Newlineless(m)
  }

  /** Events and responses are proper messages, and the handler responds to exactly the synchronous events. */
  ghost predicate Matched(program: seq<Send>, handler: Handler) {
    forall i :: 0 <= i < |program| ==>
      && Message(program[i].Event())
      && (handler(i, program[i].Event()).Respond? ==> Message(handler(i, program[i].Event()).response))
      && (program[i].Async? ==> !handler(i, program[i].Event()).Respond?)
      && (program[i].Sync? ==> handler(i, program[i].Event()).Respond?)
  }

  function Events(program: seq<Send>): (es: seq<Stream>)
    ensures |es| == |program| && forall i :: 0 <= i < |program| ==> es[i] == program[i].Event()
  {
    seq(|program|, i requires 0 <= i < |program| => program[i].Event())
  }

  /** The answers the synchronous sends of a program should get, in order. */
  function Expected(program: seq<Send>, handler: Handler): seq<Stream> {
    if program == [] then []
    else
      var n := |program| - 1;
      var last := program[n];
      Expected(program[..n], handler)
      + (if last.Sync? && handler(n, last.event).Respond? then [handler(n, last.event).response] else [])
  }

  /** How many sends the client is through with. */
  function Finished(s: State): nat {
    if s.blocked && s.next > 0 then s.next - 1 else s.next
  }

  /** The lines on the way are the sends not yet handled; all but the one waited for are asynchronous. */
  ghost predicate Outbound(s: State, program: seq<Send>) {
    && s.handled <= s.next <= |program|
    && (s.blocked ==> s.next > 0 && program[s.next - 1].Sync?)
    && (!s.closed ==> s.toServer == FramedAll(Events(program[s.handled..s.next])))
    && (!s.closed ==> forall i :: s.handled <= i < Finished(s) ==> program[i].Async?)
  }

  /** A response is on the way exactly when the client waits and its own event was handled: it is that event's. */
  ghost predicate Inbound(s: State, program: seq<Send>, handler: Handler)
    requires Outbound(s, program)
  {
    s.toClient ==
      if s.blocked && !s.closed && s.handled == s.next && handler(s.next - 1, program[s.next - 1].event).Respond?
      then Framed(handler(s.next - 1, program[s.next - 1].event).response) else []
  }

  /** Every completed `send_sync` got the response to its own event, or nothing once the server was gone. */
  ghost predicate Answered(s: State, program: seq<Send>, handler: Handler)
    requires Outbound(s, program)
  {
    var expected := Expected(program[..Finished(s)], handler);
    && |s.results| == |expected|
    && forall i :: 0 <= i < |s.results| ==>
         s.results[i] == Response(expected[i]) || (s.closed && s.results[i] == EmptyResponse)
  }

  ghost predicate Inv(s: State, program: seq<Send>, handler: Handler) {
    Outbound(s, program) && Inbound(s, program, handler) && Answered(s, program, handler)
  }

  lemma ExpectedNext(program: seq<Send>, k: nat, handler: Handler)
    requires k < |program|
    ensures Expected(program[..k + 1], handler) == Expected(program[..k], handler)
      + (if program[k].Sync? && handler(k, program[k].event).Respond? then [handler(k, program[k].event).response] else [])
  {
    assert program[..k + 1][..k] == program[..k];
  }

  lemma {:induction false} FramedAllSnoc(ms: seq<Stream>, m: Stream)
    ensures FramedAll(ms + [m]) == FramedAll(ms) + Framed(m)
  {
    if ms == [] {
      assert ms + [m] == [m] && [m][1..] == [];
    } else {
      assert (ms + [m])[1..] == ms[1..] + [m];
      FramedAllSnoc(ms[1..], m);
    }
  }

  lemma EventsSnoc(sends: seq<Send>, send: Send)
    ensures Events(sends + [send]) == Events(sends) + [send.Event()]
  {
    forall j | 0 <= j < |sends| ensures Events(sends + [send])[j] == Events(sends)[j] {
      assert (sends + [send])[j] == sends[j];
    }
  }

  lemma EventsNext(program: seq<Send>, i: nat, k: nat)
    requires i <= k < |program|
    ensures FramedAll(Events(program[i..k + 1])) == FramedAll(Events(program[i..k])) + Framed(program[k].Event())
  {
    FramedAllSnoc(Events(program[i..k]), program[k].Event());
    assert program[i..k + 1] == program[i..k] + [program[k]];
    EventsSnoc(program[i..k], program[k]);
  }

  lemma ClientSendsOutbound(s: State, program: seq<Send>, handler: Handler)
    requires Outbound(s, program)
    ensures Outbound(Step(s, program, handler, ClientSends), program)
  {
    if !s.blocked && s.next < |program| {
      EventsNext(program, s.handled, s.next);
    }
  }

  lemma ClientSendsAnswered(s: State, program: seq<Send>, handler: Handler)
    requires Matched(program, handler) && Inv(s, program, handler) && !s.blocked && s.next < |program|
    requires Outbound(Step(s, program, handler, ClientSends), program)
    ensures Answered(Step(s, program, handler, ClientSends), program, handler)
  {
    var t := Step(s, program, handler, ClientSends);
    ExpectedNext(program, s.next, handler);
    if program[s.next].Async? {
      var before := Expected(program[..s.next], handler);
      assert before + [] == before;
      assert Expected(program[..Finished(t)], handler) == before;
    }
  }

  lemma ClientSendsKeeps(s: State, program: seq<Send>, handler: Handler)
    requires Matched(program, handler) && Inv(s, program, handler)
    ensures Inv(Step(s, program, handler, ClientSends), program, handler)
  {
    ClientSendsOutbound(s, program, handler);
    if !s.blocked && s.next < |program| {
      ClientSendsAnswered(s, program, handler);
    }
  }

  /** A client that waits and finds a line finds the response to its own event, and nothing behind it. */
  lemma LineIsOwnAnswer(s: State, program: seq<Send>, handler: Handler)
    requires Matched(program, handler) && Inv(s, program, handler) && s.blocked && s.toClient != []
    ensures handler(s.next - 1, program[s.next - 1].event).Respond?
    ensures FirstLine(s.toClient) == Some(handler(s.next - 1, program[s.next - 1].event).response)
    ensures LineEnd(s.toClient) < |s.toClient| && Behind(s.toClient, LineEnd(s.toClient)) == []
  {
    assert Message(program[s.next - 1].Event());
    var r := handler(s.next - 1, program[s.next - 1].event).response;
    assert s.toClient == Framed(r) + [];
    FirstLineOfFramed(r, []);
    LineEndOfFramed(r, []);
  }

  /** One more synchronous send is through: with the response to its event, or with none after the server's exit. */
  lemma OneMoreAnswered(s: State, t: State, program: seq<Send>, handler: Handler, got: Got)
    requires Outbound(s, program) && Outbound(t, program) && Answered(s, program, handler)
    requires s.blocked && !t.blocked && t.next == s.next && t.closed == s.closed && t.results == s.results + [got]
    requires var send := program[s.next - 1];
      && send.Sync? && handler(s.next - 1, send.event).Respond?
      && (got == Response(handler(s.next - 1, send.event).response) || (t.closed && got == EmptyResponse))
    ensures Answered(t, program, handler)
  {
    ExpectedNext(program, s.next - 1, handler);
  }

  lemma ClientReadsKeeps(s: State, program: seq<Send>, handler: Handler)
    requires Matched(program, handler) && Inv(s, program, handler)
    ensures Inv(Step(s, program, handler, ClientReads), program, handler)
  {
    if s.blocked {
      var send := program[s.next - 1];
      assert handler(s.next - 1, send.Event()).Respond?;
      if s.toClient != [] {
        LineIsOwnAnswer(s, program, handler);
        var got := Response(handler(s.next - 1, send.event).response);
        var t := s.(toClient := [], blocked := false, results := s.results + [got]);
        assert Step(s, program, handler, ClientReads) == t;
        OneMoreAnswered(s, t, program, handler, got);
      } else if s.closed {
        var t := s.(blocked := false, results := s.results + [EmptyResponse]);
        assert Step(s, program, handler, ClientReads) == t;
        OneMoreAnswered(s, t, program, handler, EmptyResponse);
      }
    }
  }

  /** The first line on the way is the first event not yet handled. */
  lemma NextLine(s: State, program: seq<Send>)
    requires Outbound(s, program) && !s.closed
    requires forall i :: 0 <= i < |program| ==> Message(program[i].Event())
    ensures LineEnd(s.toServer) < |s.toServer| <==> s.handled < s.next
    ensures s.handled < s.next ==>
      && FirstLine(s.toServer) == Some(program[s.handled].Event())
      && Behind(s.toServer, LineEnd(s.toServer)) == FramedAll(Events(program[s.handled + 1..s.next]))
  {
    var es := Events(program[s.handled..s.next]);
    if s.handled < s.next {
      assert es[0] == program[s.handled].Event() && es[1..] == Events(program[s.handled + 1..s.next]);
      FirstLineOfFramed(es[0], FramedAll(es[1..]));
      LineEndOfFramed(es[0], FramedAll(es[1..]));
    }
  }

  lemma ServerTakesOne(s: State, program: seq<Send>, handler: Handler)
    requires Matched(program, handler) && Outbound(s, program) && !s.closed && s.handled < s.next
    ensures var t := Step(s, program, handler, ServerHandles);
      && t.handled == s.handled + 1 && t.next == s.next && t.blocked == s.blocked && t.results == s.results
      && t.toServer == FramedAll(Events(program[s.handled + 1..s.next]))
  {
    NextLine(s, program);
  }

  lemma ServerHandlesOutbound(s: State, program: seq<Send>, handler: Handler)
    requires Matched(program, handler) && Inv(s, program, handler)
    ensures Outbound(Step(s, program, handler, ServerHandles), program)
  {
    if !s.closed {
      if s.handled < s.next {
        ServerTakesOne(s, program, handler);
      } else {
        NextLine(s, program);
      }
    }
  }

  lemma ServerHandlesKeeps(s: State, program: seq<Send>, handler: Handler)
    requires Matched(program, handler) && Inv(s, program, handler)
    ensures Inv(Step(s, program, handler, ServerHandles), program, handler)
  {
    ServerHandlesOutbound(s, program, handler);
    var t := Step(s, program, handler, ServerHandles);
    assert t.results == s.results && Finished(t) == Finished(s);
    assert Answered(t, program, handler);
    if !s.closed {
      NextLine(s, program);
      if s.handled < s.next {
        ServerAnswers(s, program, handler);
      }
    }
  }

  /** Handling a line puts a response on the way only if it is the one waited for. */
  lemma ServerAnswers(s: State, program: seq<Send>, handler: Handler)
    requires Matched(program, handler) && Inv(s, program, handler) && !s.closed && s.handled < s.next
    requires Outbound(Step(s, program, handler, ServerHandles), program)
    ensures Inbound(Step(s, program, handler, ServerHandles), program, handler)
  {
    NextLine(s, program);
    var send := program[s.handled];
    assert Message(send.Event());
    assert s.toClient == [];
    if send.Sync? {
      assert s.handled == s.next - 1 && s.blocked;
      assert [] + Framed(handler(s.handled, send.event).response) == Framed(handler(s.handled, send.event).response);
    }
  }

  lemma {:induction false} Reachable(program: seq<Send>, handler: Handler, moves: seq<Move>)
    requires Matched(program, handler)
    ensures Inv(Run(program, handler, moves), program, handler)
  {
    if moves == [] {
      assert program[..0] == [];
    } else {
      var s := Run(program, handler, moves[..|moves| - 1]);
      Reachable(program, handler, moves[..|moves| - 1]);
      match moves[|moves| - 1]
      case ClientSends => ClientSendsKeeps(s, program, handler);
      case ClientReads => ClientReadsKeeps(s, program, handler);
      case ServerHandles => ServerHandlesKeeps(s, program, handler);
    }
  }

  // ---- the promises ------------------------------------------------------------------------------

  lemma {:induction false} ExpectedIsPrefix(program: seq<Send>, k: nat, handler: Handler)
    requires k <= |program|
    ensures Expected(program[..k], handler) <= Expected(program, handler)
    decreases |program| - k
  {
    if k == |program| {
      assert program[..k] == program;
    } else {
      ExpectedNext(program, k, handler);
      ExpectedIsPrefix(program, k + 1, handler);
    }
  }

  /**
   If the handler responds to exactly the synchronous events, then in every interleaving the n-th
   `send_sync` returns the response to its own event; only once the server has exited may it come
   back empty-handed.
   */
  lemma SyncGetsItsOwnAnswer(program: seq<Send>, handler: Handler, moves: seq<Move>)
    requires Matched(program, handler)
    ensures var s := Run(program, handler, moves);
      && |s.results| <= |Expected(program, handler)|
      && forall i :: 0 <= i < |s.results| ==>
           s.results[i] == Response(Expected(program, handler)[i]) || (s.closed && s.results[i] == EmptyResponse)
  {
    Reachable(program, handler, moves);
    ExpectedIsPrefix(program, Finished(Run(program, handler, moves)), handler);
  }

  /** A waiting client is never stuck: as long as it waits, the server or the client itself can move. */
  lemma WaitingClientProgresses(program: seq<Send>, handler: Handler, moves: seq<Move>)
    requires Matched(program, handler) && Run(program, handler, moves).blocked
    ensures var s := Run(program, handler, moves);
      Step(s, program, handler, ServerHandles) != s || !Step(s, program, handler, ClientReads).blocked
  {
    Reachable(program, handler, moves);
    var s := Run(program, handler, moves);
    assert Message(program[s.next - 1].Event());
    if !s.closed {
      NextLine(s, program);
      if s.handled == s.next {
        var r := handler(s.next - 1, program[s.next - 1].event).response;
        assert s.toClient == Framed(r) + [];
        LineEndOfFramed(r, []);
      }
    }
  }

  /** A response to an asynchronous event is taken for the answer to the next synchronous one. */
  lemma AnsweredAsyncMisaligns(a: Stream, b: Stream, handler: Handler)
    requires Message(a) && Message(b) && handler(0, a).Respond? && Message(handler(0, a).response)
    ensures var s := Run([Async(a), Sync(b)], handler, [ClientSends, ServerHandles, ClientSends, ClientReads]);
      s.results == [Response(handler(0, a).response)]
  {
    var program := [Async(a), Sync(b)];
    var moves := [ClientSends, ServerHandles, ClientSends, ClientReads];
    var r := handler(0, a).response;
    assert moves == [ClientSends] + [ServerHandles] + [ClientSends] + [ClientReads];
    var s1 := State(Framed(a), [], 1, false, [], 0, false);
    var s2 := State([], Framed(r), 1, false, [], 1, false);
    var s3 := State(Framed(b), Framed(r), 2, true, [], 1, false);
    MoveAdds(program, handler, [], ClientSends);
    MoveAdds(program, handler, [ClientSends], ServerHandles);
    MoveAdds(program, handler, [ClientSends] + [ServerHandles], ClientSends);
    MoveAdds(program, handler, [ClientSends] + [ServerHandles] + [ClientSends], ClientReads);
    assert [] + Framed(a) == Framed(a) == Framed(a) + [] && Step(START, program, handler, ClientSends) == s1;
    AsyncIsAnswered(program, handler, a);
    assert [] + Framed(b) == Framed(b) && Step(s2, program, handler, ClientSends) == s3;
    AnswerIsRead(program, handler, s3, r);
  }

  lemma MoveAdds(program: seq<Send>, handler: Handler, moves: seq<Move>, m: Move)
    ensures Run(program, handler, [m]) == Step(START, program, handler, m)
    ensures Run(program, handler, moves + [m]) == Step(Run(program, handler, moves), program, handler, m)
  {
    assert [m][..0] == [] && (moves + [m])[..|moves|] == moves;
  }

  lemma AsyncIsAnswered(program: seq<Send>, handler: Handler, a: Stream)
    requires Message(a) && handler(0, a).Respond?
    ensures Step(State(Framed(a), [], 1, false, [], 0, false), program, handler, ServerHandles)
      == State([], Framed(handler(0, a).response), 1, false, [], 1, false)
  {
    var r := handler(0, a).response;
    assert [] + Framed(r) == Framed(r) && Framed(a) == Framed(a) + [];
    FirstLineOfFramed(a, []);
    LineEndOfFramed(a, []);
  }

  /** An empty event ends the conversation: the server takes it for the end, and what follows comes back empty. */
  lemma EmptyEventEndsIt(b: Stream, handler: Handler)
    ensures var s := Run([Async([]), Sync(b)], handler, [ClientSends, ServerHandles, ClientSends, ClientReads]);
      s.closed && s.handled == 0 && s.results == [EmptyResponse]
  {
    var program := [Async([]), Sync(b)];
    assert [ClientSends, ServerHandles, ClientSends, ClientReads] == [ClientSends] + [ServerHandles] + [ClientSends] + [ClientReads];
    MoveAdds(program, handler, [], ClientSends);
    MoveAdds(program, handler, [ClientSends], ServerHandles);
    MoveAdds(program, handler, [ClientSends] + [ServerHandles], ClientSends);
    MoveAdds(program, handler, [ClientSends] + [ServerHandles] + [ClientSends], ClientReads);
    var s1 := State(Framed([]), [], 1, false, [], 0, false);
    assert [] + Framed([]) == Framed([]) == Framed([]) + [] && Step(START, program, handler, ClientSends) == s1;
    FirstLineOfFramed([], []);
    LineEndOfFramed([], []);
    assert Step(s1, program, handler, ServerHandles) == s1.(toServer := [], closed := true);
  }

  lemma AnswerIsRead(program: seq<Send>, handler: Handler, s: State, r: Stream)
    requires Message(r) && s.blocked && s.toClient == Framed(r)
    ensures Step(s, program, handler, ClientReads).results == s.results + [Response(r)]
  {
    assert Framed(r) == Framed(r) + [];
    FirstLineOfFramed(r, []);
    LineEndOfFramed(r, []);
  }
}
