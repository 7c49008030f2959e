/** What one pass of the AIO server's event loop over a client moves, in bytes. */
module AioPasses {
  import opened FifoMap
  import opened Lines
  import opened AioServer
  import opened AioLoop

  /** Bytes of the responses that have not been sent. */
  function Unsent(cl: Client): int {
    |Flat(cl.responses)| - |cl.out|
  }

  lemma UnsentInPhase(s: State, c: nat)
    requires Sound(s) && c in s.clients
    ensures CacheLive(s) && ClientOk(s.clients[c], Own(s, c))
    ensures var cl := s.clients[c];
            && (cl.phase.Reading? || cl.phase.Aio? ==> Unsent(cl) == 0)
            && (cl.phase.Writing? ==> Unsent(cl) == LeftToWrite(s, c) > 0)
            && (cl.phase.SendFile? ==> Unsent(cl) == cl.phase.remaining > 0)
  {
    SoundInv(s);
    ClientFacts(s, c);
    if s.clients[c].responses != [] {
      FlatLast(s.clients[c].responses);
    }
  }

  /**
    With room for `wake.room` bytes in the socket, exactly that much of what is unsent goes out, and
    the client reads again if and only if nothing is left.
   */
  lemma PassSends(s: State, c: nat, wake: Wake, events: seq<Event>)
    requires Sound(s) && c in s.clients && (s.clients[c].phase.Writing? || s.clients[c].phase.SendFile?)
    requires wake.writable && !wake.broken && !(wake.readable && wake.gone)
    requires PassPart(s, c, wake, events) && Runs(s, events)
    ensures c in After(s, events).clients
    ensures var cl, cl' := s.clients[c], After(s, events).clients[c];
            && cl'.responses == cl.responses && cl.out <= cl'.out <= Flat(cl.responses)
            && |cl'.out| == |cl.out| + (if wake.room < Unsent(cl) then wake.room else Unsent(cl))
            && (cl'.phase.Reading? <==> wake.room >= Unsent(cl))
  {
    UnsentInPhase(s, c);
    var cl := s.clients[c];
    var n := if wake.room < Unsent(cl) then wake.room else Unsent(cl);
    assert events == [if cl.phase.Writing? then Wrote(c, n) else Sent(c, n)];
    var s' := RunsFirst(s, events);
    assert events[1..] == [];
    SendMoves(s, c, n, events[0]);
  }

  lemma SendMoves(s: State, c: nat, n: nat, e: Event)
    requires Sound(s) && CacheLive(s) && Enabled(s, e) && (e == Wrote(c, n) || e == Sent(c, n))
    ensures c in Step(s, e).clients
    ensures var cl, cl' := s.clients[c], Step(s, e).clients[c];
            && cl'.responses == cl.responses && cl.out <= cl'.out <= Flat(cl.responses)
            && |cl'.out| == |cl.out| + n && (cl'.phase.Reading? <==> n == Unsent(cl))
  {
    SoundStep(s, e);
    var s' := Step(s, e);
    UnsentInPhase(s, c);
    UnsentInPhase(s', c);
    OutputOfClient(s'.clients[c], Own(s', c));
  }

  lemma FromDiskKeepsReceived(s: State, c: nat, cl: Client, env: Env)
    ensures var s' := ServeFromDisk(s, c, cl, env); c in s'.clients && s'.clients[c].received == cl.received
  {
  }

  lemma BeginKeepsReceived(s: State, c: nat, cl: Client, name: Bytes, env: Env)
    requires CacheLive(s)
    ensures var s' := BeginFileServe(s, c, cl, name, env); c in s'.clients && s'.clients[c].received == cl.received
  {
    if env.path.At? {
      FromDiskKeepsReceived(s, c, cl.(key := env.path.key), env);
    }
  }

  lemma TakeLineKeepsReceived(s: State, c: nat, env: Env)
    requires Enabled(s, Begin(c, env)) && CacheLive(s)
    ensures c in TakeLine(s, c, env).clients
    ensures TakeLine(s, c, env).clients[c].received == s.clients[c].received
  {
    var cl := s.clients[c];
    var nl := Find(cl.req, NL);
    BeginKeepsReceived(s, c, Cut(cl, env.path, s.flushes), Name(cl.req[..nl]), env);
  }

  lemma {:induction false} LinesKeepReceived(s: State, c: nat, lines: seq<Event>)
    requires Runs(s, lines) && c in s.clients && forall i | 0 <= i < |lines| :: lines[i].Begin? && lines[i].c == c
    ensures c in After(s, lines).clients && After(s, lines).clients[c].received == s.clients[c].received
    decreases |lines|
  {
    if lines != [] {
      var s1 := RunsFirst(s, lines);
      TakeLineKeepsReceived(s, c, lines[0].env);
      LinesKeepReceived(s1, c, lines[1..]);
    }
  }

  lemma TakenReceives(s: State, c: nat, bytes: Bytes, env: nat -> Env, k: nat)
    requires Runs(s, Taken(c, bytes, env, k)) && c in s.clients
    ensures c in After(s, Taken(c, bytes, env, k)).clients
    ensures After(s, Taken(c, bytes, env, k)).clients[c].received == s.clients[c].received + bytes
  {
    var s1 := RunsFirst(s, Taken(c, bytes, env, k));
    assert Taken(c, bytes, env, k)[1..] == Begins(c, env, k);
    LinesKeepReceived(s1, c, Begins(c, env, k));
  }

  /**
    A readable client gets as much of its input as its 512-byte buffer has room for beside the
    terminator. It is removed if and only if that is nothing, or no line is complete and there is no
    more room; otherwise it is left without a complete line unless a response is under way.
   */
  lemma PassReceives(s: State, c: nat, wake: Wake, events: seq<Event>)
    requires Sound(s) && c in s.clients && s.clients[c].phase.Reading? && wake.readable
    requires PassPart(s, c, wake, events) && Runs(s, events)
    ensures var cl := s.clients[c]; var room := REQ_BUF_SIZE - 1 - |cl.req|;
            var n := if |wake.input| < room then |wake.input| else room;
            && n >= 0
            && (n == 0 ==> c !in After(s, events).clients)
            && (c in After(s, events).clients ==>
                  var cl' := After(s, events).clients[c];
                  && cl'.received == cl.received + wake.input[..n] && |cl'.req| < REQ_BUF_SIZE - 1
                  && (cl'.phase.Reading? ==> NL !in cl'.req))
  {
    RequestFits(s, c);
    var n := Fits(s, c, wake);
    if n == 0 {
      OneEvent(s, Remove(c));
    } else {
      InputReceived(s, c, wake, n, events);
    }
  }

  lemma RequestFits(s: State, c: nat)
    requires Sound(s) && c in s.clients
    ensures CacheLive(s) && |s.clients[c].req| < REQ_BUF_SIZE
  {
    SoundInv(s);
    ClientFacts(s, c);
  }

  lemma InputReceived(s: State, c: nat, wake: Wake, n: nat, events: seq<Event>)
    requires c in s.clients && Runs(s, events) && n <= |wake.input|
    requires exists k: nat :: InputTaken(s, c, Taken(c, wake.input[..n], wake.env, k), events)
    ensures c in After(s, events).clients ==>
              var cl' := After(s, events).clients[c];
              && cl'.received == s.clients[c].received + wake.input[..n]
              && |cl'.req| < REQ_BUF_SIZE - 1 && Settled(cl')
  {
    var k: nat :| InputTaken(s, c, Taken(c, wake.input[..n], wake.env, k), events);
    TakenReceives(s, c, wake.input[..n], wake.env, k);
    RemovedIfFull(s, c, Taken(c, wake.input[..n], wake.env, k), events);
  }

  lemma RemovedIfFull(s: State, c: nat, lines: seq<Event>, events: seq<Event>)
    requires Runs(s, events) && InputTaken(s, c, lines, events)
    ensures var full := |After(s, lines).clients[c].req| >= REQ_BUF_SIZE - 1;
            && (full <==> c !in After(s, events).clients)
            && (!full ==> After(s, events) == After(s, lines))
  {
    if events != lines {
      RunsSplit(s, lines, Remove(c));
    }
  }

  /** The last event of a run, seen from outside. */
  lemma {:induction false} RunsSplit(s: State, events: seq<Event>, e: Event)
    requires Runs(s, events + [e])
    ensures Runs(s, events) && Enabled(After(s, events), e) && CacheLive(After(s, events))
    ensures After(s, events + [e]) == Step(After(s, events), e)
    decreases |events|
  {
    if events == [] {
      assert [] + [e] == [e] && [e][1..] == [];
    } else {
      assert (events + [e])[0] == events[0] && (events + [e])[1..] == events[1..] + [e];
      var s1 := RunsFirst(s, events + [e]);
      RunsSplit(s1, events[1..], e);
    }
  }
}
