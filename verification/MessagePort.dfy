/** The buffered WebSocket port of the bootstrap script: it dials on first use and queues until the socket opens. */
module MessagePort {

  datatype Message = Message(text: string)

  datatype Socket = Absent | Connecting | Open | Closing | Closed

  /** `sent` is what went into the socket; `posted` what `postMessage` accepted; `sockets` how many were made. */
  datatype State = State(
    socket: Socket, started: bool, queue: seq<Message>, sent: seq<Message>, posted: seq<Message>, sockets: nat)

  const FRESH := State(Absent, false, [], [], [], 0)

  /** `dials` says whether the WebSocket constructor returns; otherwise it throws out of `start`. */
  datatype Event =
    | Post(message: Message, dials: bool)
    | Start(dials: bool)
    | Opened       // the socket opens and `onopen` runs
    | Close        // `port.close()`
    | PeerCloses   // the connection is lost or the closing handshake ends

  function OnStart(s: State, dials: bool): (r: State) {
    if s.started then s
    else if dials then s.(started := true, socket := Connecting, sockets := s.sockets + 1)
    else s.(started := true)
  }

  /** The constructor throws: nothing else of `postMessage` runs. */
  predicate Throws(s: State, dials: bool) { !s.started && !dials }

  function OnPost(s: State, m: Message, dials: bool): (r: State) {
    var s' := OnStart(s, dials);
    if Throws(s, dials) then s'
    else if s'.socket.Open? then s'.(sent := s'.sent + [m], posted := s'.posted + [m])
    else s'.(queue := s'.queue + [m], posted := s'.posted + [m])
  }

  function OnOpened(s: State): (r: State) {
    s.(socket := Open, queue := [], sent := s.sent + s.queue)
  }

  function OnClose(s: State): (r: State) {
    s.(queue := [], socket := if s.socket.Connecting? || s.socket.Open? then Closing else s.socket)
  }

  function Step(s: State, e: Event): (r: State) {
    match e
    case Post(m, dials) => OnPost(s, m, dials)
    case Start(dials) => OnStart(s, dials)
    case Opened => if s.socket.Connecting? then OnOpened(s) else s // a closed or failed socket never opens
    case Close => OnClose(s)
    case PeerCloses => if s.socket.Absent? then s else s.(socket := Closed)
  }

  function Run(s: State, events: seq<Event>): (r: State)
    decreases |events|
  {
    if events == [] then s else Run(Step(s, events[0]), events[1..])
  }

  /** The elements of `a` in `b`, in the same order. */
  predicate InOrderIn(a: seq<Message>, b: seq<Message>) {
    if a == [] then true
    else if b == [] then false
    else
      var a', b' := a[..|a| - 1], b[..|b| - 1];
      (a[|a| - 1] == b[|b| - 1] && InOrderIn(a', b')) || InOrderIn(a, b')
  }

  predicate Bounded(s: State) {
    && s.sockets == (if s.socket.Absent? then 0 else 1)
    && (!s.started ==> s.socket.Absent? && s.queue == [])
    && (s.socket.Open? ==> s.queue == [])
  }

  predicate Lossless(s: State) { Bounded(s) && s.sent + s.queue == s.posted }

  predicate Ordered(s: State) { Bounded(s) && InOrderIn(s.sent + s.queue, s.posted) }

  lemma StepKeepsLossless(s: State, e: Event)
    requires Lossless(s) && !e.Close?
    ensures Lossless(Step(s, e))
  {
    if e.Post? {
      assert (s.sent + s.queue) + [e.message] == s.sent + (s.queue + [e.message]);
      assert s.queue == [] ==> s.sent + s.queue == s.sent;
    }
  }

  /**
    In every run without `close()`, what was sent and what is queued make up what was posted, in order;
    there is never more than one socket, and nothing is queued behind an open one.
   */
  lemma {:induction false} FifoAndLossless(s: State, events: seq<Event>)
    requires Lossless(s) && Close !in events
    ensures var end := Run(s, events);
            end.sent + end.queue == end.posted && end.sockets <= 1 && (end.socket.Open? ==> end.sent == end.posted)
    decreases |events|
  {
    if events == [] {
      assert s.queue == [] ==> s.sent + s.queue == s.sent;
    } else {
      StepKeepsLossless(s, events[0]);
      FifoAndLossless(Step(s, events[0]), events[1..]);
    }
  }

  /** Opening flushes the whole queue in order, and posting on an open socket sends at once. */
  lemma OpeningFlushes(events: seq<Event>, m: Message, dials: bool)
    requires Close !in events && Run(FRESH, events).socket.Connecting?
    ensures var s := Run(FRESH, events);
            && Step(s, Opened).sent == s.posted && Step(s, Opened).queue == []
            && Step(Step(s, Opened), Post(m, dials)).sent == s.posted + [m]
  {
    FifoAndLossless(FRESH, events);
    StartedWhileConnecting(FRESH, events);
  }

  lemma {:induction false} StartedWhileConnecting(s: State, events: seq<Event>)
    requires Bounded(s)
    ensures Bounded(Run(s, events)) && Run(s, events).sockets <= 1
    decreases |events|
  {
    if events == [] {
    } else {
      StartedWhileConnecting(Step(s, events[0]), events[1..]);
    }
  }

  lemma InOrderAppend(a: seq<Message>, b: seq<Message>, m: Message)
    requires InOrderIn(a, b)
    ensures InOrderIn(a + [m], b + [m])
  {
    assert (a + [m])[..|a|] == a && (b + [m])[..|b|] == b;
  }

  lemma {:induction false} InOrderShorter(a: seq<Message>, b: seq<Message>)
    requires a != [] && InOrderIn(a, b)
    ensures InOrderIn(a[..|a| - 1], b)
    decreases |b|
  {
    var a', b' := a[..|a| - 1], b[..|b| - 1];
    if a' != [] {
      if InOrderIn(a, b') {
        InOrderShorter(a, b');
      }
      assert InOrderIn(a', b');
    }
  }

  lemma {:induction false} InOrderPrefix(a: seq<Message>, c: seq<Message>, b: seq<Message>)
    requires InOrderIn(a + c, b)
    ensures InOrderIn(a, b)
    decreases |c|
  {
    if c == [] {
      assert a + c == a;
    } else {
      InOrderShorter(a + c, b);
      assert (a + c)[..|a + c| - 1] == a + c[..|c| - 1];
      InOrderPrefix(a, c[..|c| - 1], b);
    }
  }

  lemma StepKeepsOrdered(s: State, e: Event)
    requires Ordered(s)
    ensures Ordered(Step(s, e))
  {
    hide InOrderIn;
    var pending := s.sent + s.queue;
    match e
    case Post(m, dials) =>
      InOrderAppend(pending, s.posted, m);
      var next := Step(s, e);
      if !Throws(s, dials) {
        assert next.sent + next.queue == pending + [m];
      }
    case Close =>
      InOrderPrefix(s.sent, s.queue, s.posted);
      assert s.sent + [] == s.sent;
    case Opened => assert pending + [] == pending;
    case _ =>
  }

  /** Whatever happens, `close()` included: what was sent is an in-order selection of what was posted. */
  lemma {:induction false} SentInOrder(s: State, events: seq<Event>)
    requires Ordered(s)
    ensures InOrderIn(Run(s, events).sent, Run(s, events).posted) && Run(s, events).sockets <= 1
    decreases |events|
  {
    hide InOrderIn;
    if events == [] {
      InOrderPrefix(s.sent, s.queue, s.posted);
    } else {
      StepKeepsOrdered(s, events[0]);
      SentInOrder(Step(s, events[0]), events[1..]);
    }
  }

  /** What callers asked to have sent, whether or not `postMessage` threw. */
  function Offered(events: seq<Event>): (ms: seq<Message>) {
    if events == [] then []
    else (if events[0].Post? then [events[0].message] else []) + Offered(events[1..])
  }

  /** The first event that dials is a post, and its dialling throws. */
  predicate FirstDialLosesPost(events: seq<Event>) {
    events != [] &&
      match events[0]
      case Post(_, dials) => !dials
      case Start(_) => false
      case _ => FirstDialLosesPost(events[1..])
  }

  lemma {:induction false} StartedLosesNothing(s: State, events: seq<Event>)
    requires s.started
    ensures Run(s, events).posted == s.posted + Offered(events)
    decreases |events|
  {
    if events == [] {
      assert s.posted + [] == s.posted;
    } else {
      var e := events[0];
      StartedLosesNothing(Step(s, e), events[1..]);
      var head := if e.Post? then [e.message] else [];
      assert Step(s, e).posted == s.posted + head by {
        assert s.posted + [] == s.posted;
      }
      assert (s.posted + head) + Offered(events[1..]) == s.posted + (head + Offered(events[1..]));
    }
  }

  lemma FirstDial(s: State, events: seq<Event>)
    requires events != [] && (events[0].Post? || events[0].Start?)
    ensures Run(s, events) == Run(Step(s, events[0]), events[1..])
    ensures Offered(events) == (if events[0].Post? then [events[0].message] else []) + Offered(events[1..])
    ensures FirstDialLosesPost(events) <==> events[0].Post? && !events[0].dials
  {
  }

  /**
    When a message is lost: every run of a port accepts exactly what was offered, unless the first event
    that dials is a post whose dialling throws; that post is then the only one lost.
   */
  lemma {:induction false} AcceptsAllIff(s: State, events: seq<Event>)
    requires !s.started && s.posted == []
    ensures Run(s, events).posted == Offered(events) <==> !FirstDialLosesPost(events)
    ensures FirstDialLosesPost(events) ==> Offered(events) != [] && Run(s, events).posted == Offered(events)[1..]
    decreases |events|
  {
    if events == [] {
    } else if events[0].Post? || events[0].Start? {
      var e, rest := events[0], Offered(events[1..]);
      StartedLosesNothing(Step(s, e), events[1..]);
      hide Run, Offered, FirstDialLosesPost;
      assert Step(s, e).posted == if e.Post? && e.dials then [e.message] else [];
      FirstDial(s, events);
      assert [] + rest == rest;
    } else {
      AcceptsAllIff(Step(s, events[0]), events[1..]);
    }
  }

  /** Without `close()`: everything offered was sent or is queued exactly if no dialling lost a post. */
  lemma NothingIsLostIff(events: seq<Event>)
    requires Close !in events
    ensures var end := Run(FRESH, events);
            end.sent + end.queue == Offered(events) <==> !FirstDialLosesPost(events)
  {
    FifoAndLossless(FRESH, events);
    AcceptsAllIff(FRESH, events);
  }

  /** Once dialling has thrown, by a post or by `start`, no socket is ever made and nothing is ever sent. */
  lemma {:induction false} FailedDialIsFinal(before: seq<Event>, e: Event, after: seq<Event>)
    requires !Run(FRESH, before).started
    requires (e.Post? || e.Start?) && !e.dials
    ensures var end := Run(Step(Run(FRESH, before), e), after);
            end.sockets == 0 && end.sent == [] && end.started
  {
    UndialledIsEmpty(FRESH, before);
    NeverDials(Step(Run(FRESH, before), e), after);
  }

  lemma {:induction false} UndialledIsEmpty(s: State, events: seq<Event>)
    requires !Run(s, events).started && (!s.started ==> s.socket.Absent? && s.sent == [] && s.sockets == 0)
    ensures var end := Run(s, events); end.socket.Absent? && end.sent == [] && end.sockets == 0
    decreases |events|
  {
    if events == [] {
    } else {
      UndialledIsEmpty(Step(s, events[0]), events[1..]);
    }
  }

  lemma {:induction false} NeverDials(s: State, events: seq<Event>)
    requires s.started && s.socket.Absent? && s.sent == [] && s.sockets == 0
    ensures var end := Run(s, events); end.sockets == 0 && end.sent == [] && end.started
    decreases |events|
  {
    if events == [] {
    } else {
      NeverDials(Step(s, events[0]), events[1..]);
    }
  }

  /** With a socket that is closing or closed, or none left to make, nothing is ever sent. */
  lemma {:induction false} SilentStays(s: State, events: seq<Event>)
    requires s.started && (s.socket.Absent? || s.socket.Closing? || s.socket.Closed?)
    ensures var end := Run(s, events); end.sent == s.sent && end.sockets == s.sockets
    decreases |events|
  {
    if events == [] {
    } else {
      SilentStays(Step(s, events[0]), events[1..]);
    }
  }

  lemma RunTwo(s: State, e: Event, f: Event)
    ensures Run(s, [e, f]) == Step(Step(s, e), f)
  {
    hide Step;
    assert [e, f][1..] == [f] && [f][1..] == [];
    assert Run(Step(Step(s, e), f), []) == Step(Step(s, e), f);
  }

  /**
    After `close()`, and after the peer has closed, nothing more is sent, what was queued included, and no
    socket is made: exactly if the port had been used. An unused one is left as it was, and still dials.
   */
  lemma NothingIsSentAfterClosingIff(before: seq<Event>, e: Event)
    requires e == Close || e == PeerCloses
    ensures var s := Run(FRESH, before);
            && (s.started <==> forall after :: Run(Step(s, e), after).sent == s.sent)
            && (s.started ==> forall after :: Run(Step(s, e), after).sockets == s.sockets)
            && (!s.started ==> Step(s, e) == s)
            && Step(s, Close).queue == []
  {
    StartedWhileConnecting(FRESH, before);
    var s := Run(FRESH, before);
    if s.started {
      forall after
        ensures Run(Step(s, e), after).sent == s.sent && Run(Step(s, e), after).sockets == s.sockets
      {
        SilentStays(Step(s, e), after);
      }
    } else {
      var m := Message("");
      RunTwo(s, Post(m, true), Opened);
      assert Run(s, [Post(m, true), Opened]).sent == s.sent + [m];
      assert Step(s, e) == s && |s.sent + [m]| != |s.sent|;
    }
  }

  class Port {
    var socket: Socket
    var started: bool
    var queue: seq<Message>
    var sent: seq<Message>
    var sockets: nat
    ghost var posted: seq<Message>

    ghost function Contents(): (s: State)
      reads this
    {
      State(socket, started, queue, sent, posted, sockets)
    }

    constructor ()
      ensures Contents() == FRESH
    {
      socket, started, queue, sent, sockets := Absent, false, [], [], 0;
      posted := [];
    }

    method StartPort(dials: bool) returns (threw: bool)
      modifies this
      ensures Contents() == OnStart(old(Contents()), dials) && threw == Throws(old(Contents()), dials)
    {
      if started {
        return false;
      }
      started := true;
      if !dials {
        return true;
      }
      socket := Connecting;
      sockets := sockets + 1;
      threw := false;
    }

    method PostMessage(message: Message, dials: bool) returns (threw: bool)
      modifies this
      ensures Contents() == OnPost(old(Contents()), message, dials) && threw == Throws(old(Contents()), dials)
    {
      threw := false;
      if !started {
        threw := StartPort(dials);
        if threw {
          return;
        }
      }
      if socket.Open? {
        sent := sent + [message];
      } else {
        queue := queue + [message];
      }
      posted := posted + [message];
    }

    /** The socket opens: the queue is swapped out, then sent message by message. */
    method OnOpen()
      modifies this
      ensures Contents() == OnOpened(old(Contents()))
    {
      socket := Open;
      var pending := queue;
      queue := [];
      ghost var before := sent;
      for i := 0 to |pending|
        invariant sent == before + pending[..i]
        invariant queue == [] && socket == Open
        invariant started == old(started) && sockets == old(sockets) && posted == old(posted)
      {
        sent := sent + [pending[i]];
      }
      assert pending[..|pending|] == pending;
    }

    method ClosePort()
      modifies this
      ensures Contents() == OnClose(old(Contents()))
    {
      queue := [];
      if socket.Connecting? || socket.Open? {
        socket := Closing;
      }
    }
  }
}
