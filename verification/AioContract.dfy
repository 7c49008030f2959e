/**
  The contract of the AIO file server with its clients, stated from outside: an observer notes what
  each request found and how its read ended, and every answer is the one that these notes call for.
 */
module AioContract {
  import opened FifoMap
  import opened Lines
  import opened AioServer

  /** What the server found when a request was begun; `held` is what the cache had for the path. */
  datatype Found = Found(
    path: Resolution, held: Option<Bytes>, copyOk: bool, stat: Stat, mallocOk: bool, aioOk: bool)

  datatype End = NoRead | ReadFailed | Delivered(data: Bytes)

  datatype Note = Note(found: Found, end: End)

  /** What the observer knows of one client: the bytes it sent, and a note on each request begun. */
  datatype Story = Story(sent: Bytes, notes: seq<Note>)

  function FoundBy(s: State, env: Env): Found {
    var held :=
      if env.path.At? && Get(s.cache, env.path.key).Some? && Get(s.cache, env.path.key).value in s.heap
      then Some(s.heap[Get(s.cache, env.path.key).value].bytes) else None;
    Found(env.path, held, env.copyOk, env.stat, env.mallocOk, env.aioOk)
  }

  function EndLast(notes: seq<Note>, end: End): seq<Note> {
    if notes == [] then [] else notes[|notes| - 1 := notes[|notes| - 1].(end := end)]
  }

  /** The observer only looks at the events, and at the cache when a request is begun. */
  function Tell(s: State, h: map<nat, Story>, e: Event): map<nat, Story> {
    match e
    case Connect(c) => h[c := Story([], [])]
    case Remove(c) => h - {c}
    case Receive(c, bytes) => if c in h then h[c := h[c].(sent := h[c].sent + bytes)] else h
    case Begin(c, env) =>
      if c in h then h[c := h[c].(notes := h[c].notes + [Note(FoundBy(s, env), NoRead)])] else h
    case AioDone(c, data, _) => if c in h then h[c := h[c].(notes := EndLast(h[c].notes, Delivered(data)))] else h
    case AioError(c) => if c in h then h[c := h[c].(notes := EndLast(h[c].notes, ReadFailed))] else h
    case _ => h
  }

  ghost function Told(s: State, h: map<nat, Story>, events: seq<Event>): map<nat, Story>
    requires Runs(s, events)
    decreases |events|
  {
    if events == [] then h else Told(Step(s, events[0]), Tell(s, h, events[0]), events[1..])
  }

  // ----- the book

  /** The error line that a request calls for, if any. */
  function Calls(name: Bytes, n: Note): Option<string> {
    var f := n.found;
    if name == [] then Some("empty filename")
    else if name[0] == 47 then Some("absolute paths not allowed")
    else if f.path.NotFound? then Some("not found")
    else if f.path.Denied? then Some("access denied")
    else if f.held.Some? && f.copyOk then None
    else match f.stat
      case StatFailed => Some("stat failed")
      case NotRegular => Some("not a regular file")
      case OpenFailed => Some("open failed")
      case File(file) =>
        if |file| > 65536 then None
        else if !f.mallocOk then Some("out of memory")
        else if !f.aioOk then Some("aio_read failed")
        else if n.end.ReadFailed? then Some("read error")
        else None
  }

  /** The answer `r` is the one that the note on the request calls for. */
  ghost predicate ByTheBook(name: Bytes, n: Note, r: Bytes) {
    var f := n.found;
    if Calls(name, n).Some? then r == Err(Calls(name, n).value)
    else if f.held.Some? && f.copyOk then r == f.held.value
    else
      && f.stat.File?
      && var file := f.stat.file;
      if |file| > 65536 then r == Header(|file|) + file
      else
        && n.end.Delivered? && |n.end.data| <= |file|
        && |r| == |Header(|file|)| + |file| && Header(|file|) + n.end.data <= r
  }

  /** The request needs a read of a file of `size` bytes that is still going on. */
  ghost predicate Reads(name: Bytes, n: Note, size: nat) {
    && Calls(name, n).None? && !(n.found.held.Some? && n.found.copyOk) && n.end.NoRead?
    && n.found.stat.File? && |n.found.stat.file| == size <= 65536
  }

  /** What the cache had was a complete positive response. */
  ghost predicate HeldOk(n: Note) {
    n.found.held.Some? ==> IsOk(n.found.held.value)
  }

  ghost predicate ClientBook(cl: Client, h: Story) {
    && cl.received == h.sent && |h.notes| == |cl.names| >= |cl.responses|
    && (forall i | 0 <= i < |h.notes| :: HeldOk(h.notes[i]))
    && (forall i | 0 <= i < |cl.responses| :: ByTheBook(cl.names[i], h.notes[i], cl.responses[i]))
    && (cl.phase.Aio? ==>
          && |cl.names| == |cl.responses| + 1
          && Reads(cl.names[|cl.responses|], h.notes[|cl.responses|], cl.phase.size))
  }

  ghost predicate Book(s: State, h: map<nat, Story>) {
    && h.Keys == s.clients.Keys
    && forall c | c in s.clients :: ClientBook(s.clients[c], h[c])
  }

  // ----- beginning a request

  /** What beginning a request has made of the client `cl`. */
  ghost predicate Begun(cl: Client, name: Bytes, n: Note, cl': Client) {
    && cl'.names == cl.names && cl'.received == cl.received
    && if cl'.phase.Aio?
       then cl'.responses == cl.responses && Reads(name, n, cl'.phase.size)
       else
         && |cl'.responses| == |cl.responses| + 1 && cl.responses <= cl'.responses
         && ByTheBook(name, n, cl'.responses[|cl.responses|])
  }

  lemma DiskBegun(s: State, c: nat, cl: Client, name: Bytes, env: Env, n: Note)
    requires n == Note(FoundBy(s, env), NoRead) && env.path.At? && !cl.phase.Aio?
    requires name != [] && name[0] != SLASH && !(n.found.held.Some? && env.copyOk)
    ensures var s' := ServeFromDisk(s, c, cl, env); c in s'.clients && Begun(cl, name, n, s'.clients[c])
  {
    match env.stat
    case StatFailed => RefusedBegun(s, c, cl, name, n, "stat failed");
    case NotRegular => RefusedBegun(s, c, cl, name, n, "not a regular file");
    case OpenFailed => RefusedBegun(s, c, cl, name, n, "open failed");
    case File(file) =>
      if |file| <= MAX_CACHE_FILE_SIZE && !env.mallocOk {
        RefusedBegun(s, c, cl, name, n, "out of memory");
      } else if |file| <= MAX_CACHE_FILE_SIZE && !env.aioOk {
        var s1 := Free(Malloc(s, RoomFor(|file|, env.garbage), OfClient(c)), s.next);
        RefusedBegun(s1, c, cl, name, n, "aio_read failed");
      }
  }

  /** An error line that the request calls for. */
  lemma RefusedBegun(s: State, c: nat, cl: Client, name: Bytes, n: Note, reason: string)
    requires !cl.phase.Aio? && Calls(name, n) == Some(reason)
    ensures var s' := Refuse(s, c, cl, reason); c in s'.clients && Begun(cl, name, n, s'.clients[c])
  {
  }

  lemma RequestBegun(s: State, c: nat, cl: Client, name: Bytes, env: Env, n: Note)
    requires CacheLive(s) && n == Note(FoundBy(s, env), NoRead) && !cl.phase.Aio?
    ensures var s' := BeginFileServe(s, c, cl, name, env); c in s'.clients && Begun(cl, name, n, s'.clients[c])
  {
    if name != [] && name[0] != SLASH && env.path.At? {
      var key := env.path.key;
      if Get(s.cache, key).Some? {
        assert s.cache[IndexOf(s.cache, key)].resp in s.heap;
      }
      if !(Get(s.cache, key).Some? && env.copyOk) {
        DiskBegun(s, c, cl.(key := key), name, env, n);
      }
    }
  }

  // ----- every step

  /** A step that concerns client `c` only. */
  lemma OthersStay(s: State, h: map<nat, Story>, s': State, h': map<nat, Story>, c: nat)
    requires Book(s, h) && h'.Keys == s'.clients.Keys
    requires forall d | d != c && d in s'.clients :: d in s.clients && s'.clients[d] == s.clients[d] && h'[d] == h[d]
    requires c in s'.clients ==> ClientBook(s'.clients[c], h'[c])
    ensures Book(s', h')
  {
  }

  lemma OneChanged(s: State, h: map<nat, Story>, s': State, h': map<nat, Story>, c: nat, cl: Client, story: Story)
    requires Book(s, h) && s'.clients == s.clients[c := cl] && h' == h[c := story] && ClientBook(cl, story)
    ensures Book(s', h')
  {
  }

  lemma BeginBook(s: State, h: map<nat, Story>, c: nat, env: Env)
    requires Book(s, h) && Enabled(s, Begin(c, env)) && CacheLive(s)
    requires |s.clients[c].names| == |s.clients[c].responses| && forall k: Path :: CachedOk(s, k)
    ensures Book(TakeLine(s, c, env), Tell(s, h, Begin(c, env)))
  {
    OneBegun(s, h, c, env);
    BeginElsewhere(s, c, env);
    OthersStay(s, h, TakeLine(s, c, env), Tell(s, h, Begin(c, env)), c);
  }

  lemma BeginElsewhere(s: State, c: nat, env: Env)
    requires Enabled(s, Begin(c, env)) && CacheLive(s)
    ensures var s' := TakeLine(s, c, env);
            && s'.clients.Keys == s.clients.Keys
            && forall d | d != c && d in s.clients :: s'.clients[d] == s.clients[d]
  {
    if env.path.At? {
      DiskElsewhere(s, c, Cut(s.clients[c], env.path, s.flushes).(key := env.path.key), env);
    }
  }

  lemma DiskElsewhere(s: State, c: nat, cl: Client, env: Env)
    requires c in s.clients
    ensures var s' := ServeFromDisk(s, c, cl, env);
            && s'.clients.Keys == s.clients.Keys
            && forall d | d != c && d in s.clients :: s'.clients[d] == s.clients[d]
  {
  }

  lemma OneBegun(s: State, h: map<nat, Story>, c: nat, env: Env)
    requires Book(s, h) && Enabled(s, Begin(c, env)) && CacheLive(s)
    requires |s.clients[c].names| == |s.clients[c].responses| && forall k: Path :: CachedOk(s, k)
    ensures var s' := TakeLine(s, c, env); c in s'.clients && ClientBook(s'.clients[c], Tell(s, h, Begin(c, env))[c])
  {
    var cl := s.clients[c];
    var name := Name(cl.req[..Find(cl.req, NL)]);
    assert ClientBook(cl, h[c]);
    assert env.path.At? ==> CachedOk(s, env.path.key);
    assert HeldOk(Note(FoundBy(s, env), NoRead));
    RequestBegun(s, c, Cut(cl, env.path, s.flushes), name, env, Note(FoundBy(s, env), NoRead));
  }

  lemma DoneBook(s: State, h: map<nat, Story>, c: nat, data: Bytes, copyOk: bool)
    requires Inv(s) && Book(s, h) && Enabled(s, AioDone(c, data, copyOk))
    ensures Book(FinishAio(s, c, data, copyOk), Tell(s, h, AioDone(c, data, copyOk)))
  {
    AioDue(s, c);
    var cl := s.clients[c];
    var own := s.heap[cl.phase.buf].bytes;
    assert ClientBook(cl, h[c]);
    DoneClient(s, c, data, copyOk);
    DoneAnswer(cl, h[c], own, data);
    var bytes := ReadInto(own, |Header(cl.phase.size)|, data);
    OneChanged(s, h, FinishAio(s, c, data, copyOk), Tell(s, h, AioDone(c, data, copyOk)), c,
               cl.(phase := Writing(cl.phase.buf, 0), responses := cl.responses + [bytes]),
               h[c].(notes := EndLast(h[c].notes, Delivered(data))));
  }

  /** The response that a completed read leaves in the buffer. */
  lemma DoneAnswer(cl: Client, h: Story, own: Bytes, data: Bytes)
    requires ClientBook(cl, h) && cl.phase.Aio? && HasRoom(own, cl.phase.size) && |data| <= cl.phase.size
    ensures var bytes := ReadInto(own, |Header(cl.phase.size)|, data);
            ClientBook(cl.(phase := Writing(cl.phase.buf, 0), responses := cl.responses + [bytes]),
                       h.(notes := EndLast(h.notes, Delivered(data))))
  {
    var bytes := ReadInto(own, |Header(cl.phase.size)|, data);
    ReadIntoIs(own, cl.phase.size, data);
    assert Header(cl.phase.size) + data <= bytes;
  }

  lemma DoneClient(s: State, c: nat, data: Bytes, copyOk: bool)
    requires Enabled(s, AioDone(c, data, copyOk))
    ensures var s' := FinishAio(s, c, data, copyOk); var cl := s.clients[c];
            var bytes := ReadInto(s.heap[cl.phase.buf].bytes, |Header(cl.phase.size)|, data);
            && s'.clients == s.clients[c := cl.(phase := Writing(cl.phase.buf, 0), responses := cl.responses + [bytes])]
  {
  }

  lemma ErrorBook(s: State, h: map<nat, Story>, c: nat)
    requires Book(s, h) && Enabled(s, AioError(c)) && CacheLive(s)
    ensures Book(Step(s, AioError(c)), Tell(s, h, AioError(c)))
  {
    var cl := s.clients[c];
    assert ClientBook(cl, h[c]);
    var line := Err("read error");
    var cl' := cl.(phase := Reading, out := cl.out + line, responses := cl.responses + [line]);
    var story := h[c].(notes := EndLast(h[c].notes, ReadFailed));
    ErrorAnswer(cl, h[c]);
    OneChanged(s, h, Step(s, AioError(c)), Tell(s, h, AioError(c)), c, cl', story);
  }

  lemma ErrorAnswer(cl: Client, h: Story)
    requires ClientBook(cl, h) && cl.phase.Aio?
    ensures var line := Err("read error");
            ClientBook(cl.(phase := Reading, out := cl.out + line, responses := cl.responses + [line]),
                       h.(notes := EndLast(h.notes, ReadFailed)))
  {
  }

  lemma PlainBook(s: State, h: map<nat, Story>, e: Event)
    requires Book(s, h) && Enabled(s, e) && CacheLive(s)
    requires e.Connect? || e.Receive? || e.Wrote? || e.Sent? || e.Remove?
    ensures Book(Step(s, e), Tell(s, h, e))
  {
    assert e.c in s.clients ==> ClientBook(s.clients[e.c], h[e.c]);
    match e
    case Connect(c) => OneChanged(s, h, Step(s, e), Tell(s, h, e), c, NEW_CLIENT, Story([], []));
    case Receive(c, bytes) => ReceiveBook(s, h, c, bytes);
    case Wrote(c, n) =>
      var bytes := s.heap[s.clients[c].phase.buf].bytes;
      OneChanged(s, h, Step(s, e), Tell(s, h, e), c, WroteClient(s.clients[c], bytes, n), h[c]);
    case Sent(c, n) => OneChanged(s, h, Step(s, e), Tell(s, h, e), c, SentClient(s.clients[c], n), h[c]);
    case Remove(c) => OthersStay(s, h, Step(s, e), Tell(s, h, e), c);
  }

  lemma ReceiveBook(s: State, h: map<nat, Story>, c: nat, bytes: Bytes)
    requires Book(s, h) && Enabled(s, Receive(c, bytes)) && CacheLive(s)
    ensures Book(Step(s, Receive(c, bytes)), Tell(s, h, Receive(c, bytes)))
  {
    var cl := s.clients[c];
    assert ClientBook(cl, h[c]);
    OneChanged(s, h, Step(s, Receive(c, bytes)), Tell(s, h, Receive(c, bytes)), c,
               cl.(req := cl.req + bytes, received := cl.received + bytes), h[c].(sent := h[c].sent + bytes));
  }

  lemma StepBook(s: State, h: map<nat, Story>, e: Event)
    requires Inv(s) && Book(s, h) && Enabled(s, e) && CacheLive(s)
    ensures Book(Step(s, e), Tell(s, h, e))
  {
    match e
    case Begin(c, env) =>
      ClientFacts(s, c);
      BeginBook(s, h, c, env);
    case AioDone(c, data, copyOk) => DoneBook(s, h, c, data, copyOk);
    case AioError(c) => ErrorBook(s, h, c);
    case Flush =>
    case _ => PlainBook(s, h, e);
  }

  lemma {:induction false} RunBook(s: State, h: map<nat, Story>, events: seq<Event>)
    requires Inv(s) && Book(s, h) && Runs(s, events)
    ensures Book(After(s, events), Told(s, h, events))
    decreases |events|
  {
    if events != [] {
      StepKeepsInv(s, events[0]);
      StepBook(s, h, events[0]);
      RunBook(Step(s, events[0]), Tell(s, h, events[0]), events[1..]);
    }
  }

  /**
    Every answer is by the book. In every run: what a client has sent is what arrived; the i-th answer
    is the one that the note on its i-th request calls for, by the name in its i-th line; and a read
    that is going on asks for exactly as many bytes as the file has.
   */
  lemma AnswersByTheBook(events: seq<Event>, c: nat)
    requires Runs(START, events) && c in After(START, events).clients
    ensures var cl := After(START, events).clients[c]; var h := Told(START, map[], events);
            && c in h && cl.received == h[c].sent
            && |h[c].notes| == |cl.names| && cl.names <= Names(Complete(h[c].sent))
            && (forall i | 0 <= i < |h[c].notes| :: HeldOk(h[c].notes[i]))
            && (forall i | 0 <= i < |cl.responses| ::
                  i < |cl.names| && ByTheBook(cl.names[i], h[c].notes[i], cl.responses[i]))
            && (cl.phase.Aio? ==>
                  && |cl.names| == |cl.responses| + 1
                  && Reads(cl.names[|cl.responses|], h[c].notes[|cl.responses|], cl.phase.size))
  {
    StartInv();
    RunKeepsInv(START, events);
    RunBook(START, map[], events);
    ClientFacts(After(START, events), c);
    assert ClientBook(After(START, events).clients[c], Told(START, map[], events)[c]);
  }
}
