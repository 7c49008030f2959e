/**
  The right answer to each request of the AIO file server: the i-th response a client gets is the
  one its i-th line calls for, and file bytes in it are bytes that were read from that very file,
  whether they come from sendfile, from an asynchronous read or from the cache.

  How fresh they are: everything is stated for a flush number `f`. Cached bytes, and answers to
  requests begun after flush `f`, come from reads begun after it. For `f == 0` that says nothing
  about age; for other flushes it is true exactly if no read was in flight.
 */
module AioAnswers {
  import opened FifoMap
  import opened Lines
  import opened AioServer

  /** What can go wrong once the name has resolved to a path below the document root. */
  predicate FileReason(reason: string) {
    || reason == "stat failed" || reason == "not a regular file" || reason == "open failed"
    || reason == "out of memory" || reason == "aio_read failed" || reason == "read error"
  }

  /** A complete response with what a read of the file at `key`, begun after `f` flushes, left in its buffer. */
  ghost predicate Served(f: nat, observed: set<Observation>, key: Path, r: Bytes) {
    exists o :: o in observed && o.key == key && o.epoch >= f && r == Ok(o.data + o.junk)
  }

  ghost predicate FileError(r: Bytes) {
    exists reason :: FileReason(reason) && r == Err(reason)
  }

  /** The answers a request for `name` may get, given what the name resolved to. */
  ghost predicate Answer(f: nat, observed: set<Observation>, name: Bytes, path: Resolution, r: Bytes) {
    if name == [] then r == Err("empty filename")
    else if name[0] == SLASH then r == Err("absolute paths not allowed")
    else match path
      case NotFound => r == Err("not found")
      case Denied => r == Err("access denied")
      case At(key) => FileError(r) || Served(f, observed, key, r)
  }

  /** Requests begun before flush `f` may get older answers. */
  function Since(f: nat, begun: nat): nat {
    if begun >= f then f else 0
  }

  ghost predicate Answered(f: nat, observed: set<Observation>, cl: Client) {
    && |cl.begun| == |cl.paths| == |cl.names| >= |cl.responses|
    && forall i | 0 <= i < |cl.responses| ::
         Answer(Since(f, cl.begun[i]), observed, cl.names[i], cl.paths[i], cl.responses[i])
  }

  /** All but the last request are answered, and the last one asks for the file at `key`. */
  ghost predicate Asks(cl: Client, key: Path) {
    && |cl.begun| == |cl.paths| == |cl.names| == |cl.responses| + 1
    && var n := |cl.responses|; cl.names[n] != [] && cl.names[n][0] != SLASH && cl.paths[n] == At(key)
  }

  /** A read in flight that may end up in the cache was begun after flush `f`. */
  ghost predicate ClientAnswers(f: nat, s: State, cl: Client) {
    && Answered(f, s.observed, cl)
    && (forall i | 0 <= i < |cl.begun| :: cl.begun[i] <= s.flushes)
    && (cl.phase.Aio? ==> Asks(cl, cl.key) && (LastBegun(cl) >= f || cl.key == ""))
  }

  /** What the cache holds for a path was read from that path, by a read begun after flush `f`. */
  ghost predicate CachedFrom(f: nat, s: State, k: Path) {
    Get(s.cache, k).Some? && Get(s.cache, k).value in s.heap ==>
      Served(f, s.observed, k, s.heap[Get(s.cache, k).value].bytes)
  }

  ghost predicate RightAnswers(f: nat, s: State) {
    && f <= s.flushes
    && (forall k: Path :: CachedFrom(f, s, k))
    && (forall c | c in s.clients :: ClientAnswers(f, s, s.clients[c]))
  }

  // ----- one client

  /** More may have been read, and more flushes may have happened. */
  ghost predicate Grown(s: State, s': State) {
    s.observed <= s'.observed && s.flushes <= s'.flushes
  }

  lemma MoreObserved(f: nat, s: State, s': State, cl: Client)
    requires ClientAnswers(f, s, cl) && Grown(s, s')
    ensures ClientAnswers(f, s', cl)
  {
    forall i | 0 <= i < |cl.responses|
      ensures Answer(Since(f, cl.begun[i]), s'.observed, cl.names[i], cl.paths[i], cl.responses[i])
    {
      assert Answer(Since(f, cl.begun[i]), s.observed, cl.names[i], cl.paths[i], cl.responses[i]);
    }
  }

  /** A client whose last request is still to be answered. */
  ghost predicate Pending(f: nat, s: State, cl: Client) {
    && Answered(f, s.observed, cl) && |cl.names| == |cl.responses| + 1
    && (forall i | 0 <= i < |cl.begun| :: cl.begun[i] <= s.flushes)
  }

  ghost predicate AnswersLast(f: nat, s: State, cl: Client, r: Bytes)
    requires Pending(f, s, cl)
  {
    var n := |cl.responses|;
    Answer(Since(f, cl.begun[n]), s.observed, cl.names[n], cl.paths[n], r)
  }

  /** The request begun last gets its answer. */
  lemma AnswerLast(f: nat, s: State, cl: Client, phase: Phase, out: Bytes, r: Bytes)
    requires Pending(f, s, cl) && !phase.Aio? && AnswersLast(f, s, cl, r)
    ensures ClientAnswers(f, s, cl.(phase := phase, out := out, responses := cl.responses + [r]))
  {
  }

  lemma AnswerError(f: nat, s: State, cl: Client, key: Path, reason: string)
    requires Pending(f, s, cl) && Asks(cl, key) && FileReason(reason)
    ensures AnswersLast(f, s, cl, Err(reason))
  {
  }

  lemma AnswerFile(f: nat, s: State, cl: Client, o: Observation)
    requires Pending(f, s, cl) && Asks(cl, o.key) && o in s.observed && o.epoch == LastBegun(cl)
    ensures AnswersLast(f, s, cl, Ok(o.data + o.junk))
  {
  }

  // ----- one step

  /** Only client `c` and the cache changed. */
  lemma Elsewhere(f: nat, s: State, s': State, c: nat)
    requires RightAnswers(f, s) && Grown(s, s')
    requires forall d | d != c && d in s'.clients :: d in s.clients && s'.clients[d] == s.clients[d]
    requires c in s'.clients ==> ClientAnswers(f, s', s'.clients[c])
    ensures forall d | d in s'.clients :: ClientAnswers(f, s', s'.clients[d])
  {
    forall d | d in s'.clients
      ensures ClientAnswers(f, s', s'.clients[d])
    {
      if d != c {
        MoreObserved(f, s, s', s.clients[d]);
      }
    }
  }

  /** The cache is the same, and so are the bytes of its buffers. */
  ghost predicate CacheSame(s: State, s': State) {
    && s'.cache == s.cache
    && forall b | b in s'.heap :: b in s.heap ==> s.heap[b].owner.InCache? ==> s'.heap[b].bytes == s.heap[b].bytes
  }

  lemma CacheSameKeeps(f: nat, s: State, s': State)
    requires HeapOk(s) && RightAnswers(f, s) && CacheSame(s, s') && Grown(s, s')
    ensures forall k: Path :: CachedFrom(f, s', k)
  {
    forall k: Path
      ensures CachedFrom(f, s', k)
    {
      assert KeyOk(s, k) && CachedFrom(f, s, k);
    }
  }

  /** A step that leaves the cache alone. */
  lemma ClientStep(f: nat, s: State, s': State, c: nat)
    requires HeapOk(s) && RightAnswers(f, s) && CacheSame(s, s') && Grown(s, s')
    requires forall d | d != c && d in s'.clients :: d in s.clients && s'.clients[d] == s.clients[d]
    requires c in s'.clients ==> ClientAnswers(f, s', s'.clients[c])
    ensures RightAnswers(f, s')
  {
    Elsewhere(f, s, s', c);
    CacheSameKeeps(f, s, s');
  }

  lemma RefuseAnswers(f: nat, s: State, c: nat, cl: Client, reason: string)
    requires HeapOk(s) && RightAnswers(f, s) && Pending(f, s, cl) && !cl.phase.Aio?
    requires AnswersLast(f, s, cl, Err(reason))
    ensures RightAnswers(f, Refuse(s, c, cl, reason))
  {
    AnswerLast(f, s, cl, cl.phase, cl.out + Err(reason), Err(reason));
    MoreObserved(f, s, Refuse(s, c, cl, reason), Refuse(s, c, cl, reason).clients[c]);
    ClientStep(f, s, Refuse(s, c, cl, reason), c);
  }

  lemma RefuseFile(f: nat, s: State, c: nat, cl: Client, key: Path, reason: string)
    requires HeapOk(s) && RightAnswers(f, s) && Pending(f, s, cl) && Asks(cl, key) && !cl.phase.Aio?
    requires FileReason(reason)
    ensures RightAnswers(f, Refuse(s, c, cl, reason))
  {
    AnswerError(f, s, cl, key, reason);
    RefuseAnswers(f, s, c, cl, reason);
  }

  lemma FromCacheAnswers(f: nat, s: State, c: nat, cl: Client, key: Path, b: nat)
    requires HeapOk(s) && RightAnswers(f, s) && Pending(f, s, cl) && Asks(cl, key)
    requires Get(s.cache, key) == Some(b) && b in s.heap
    ensures RightAnswers(f, ServeFromCache(s, c, cl, b))
  {
    assert CachedFrom(f, s, key);
    var s' := ServeFromCache(s, c, cl, b);
    NextIsNew(s);
    AnswerLast(f, s, cl, Writing(s.next, 0), cl.out, s.heap[b].bytes);
    MoreObserved(f, s, s', s'.clients[c]);
    ClientStep(f, s, s', c);
  }

  lemma SendFileAnswers(f: nat, s: State, c: nat, cl: Client, file: Bytes)
    requires HeapOk(s) && RightAnswers(f, s) && Pending(f, s, cl) && Asks(cl, cl.key)
    ensures RightAnswers(f, StartSendFile(s, c, cl, file))
  {
    var o := Observation(cl.key, file, [], LastBegun(cl));
    var s1 := Observe(s, o);
    var s' := StartSendFile(s, c, cl, file);
    PendingMore(f, s, s1, cl);
    assert file + [] == file;
    AnswerFile(f, s1, cl, o);
    AnswerLast(f, s1, cl, SendFile(file, 0, |file|), cl.out + Header(|file|), Ok(file));
    MoreObserved(f, s1, s', s'.clients[c]);
    ClientStep(f, s, s', c);
  }

  lemma PendingMore(f: nat, s: State, s': State, cl: Client)
    requires Pending(f, s, cl) && Grown(s, s')
    ensures Pending(f, s', cl)
  {
    MoreObserved(f, s, s', cl.(phase := Reading));
  }

  lemma StartAioAnswers(f: nat, s: State, c: nat, cl: Client, size: nat, garbage: nat -> bv8)
    requires HeapOk(s) && RightAnswers(f, s) && Pending(f, s, cl) && Asks(cl, cl.key) && LastBegun(cl) >= f
    ensures RightAnswers(f, StartAio(s, c, cl, size, garbage))
  {
    NextIsNew(s);
    var s' := StartAio(s, c, cl, size, garbage);
    PendingMore(f, s, s', cl);
    ClientStep(f, s, s', c);
  }

  lemma UselessBuffer(f: nat, s: State, c: nat, bytes: Bytes)
    requires HeapOk(s) && RightAnswers(f, s)
    ensures var s' := Free(Malloc(s, bytes, OfClient(c)), s.next); HeapOk(s') && RightAnswers(f, s') && Grown(s, s')
  {
    FreeFreshHeap(s, c, bytes);
    var s' := Free(Malloc(s, bytes, OfClient(c)), s.next);
    CacheSameKeeps(f, s, s');
    forall d | d in s'.clients
      ensures ClientAnswers(f, s', s'.clients[d])
    {
      MoreObserved(f, s, s', s.clients[d]);
    }
  }

  lemma FromDiskAnswers(f: nat, s: State, c: nat, cl: Client, env: Env)
    requires HeapOk(s) && RightAnswers(f, s) && Pending(f, s, cl) && !cl.phase.Aio? && Asks(cl, cl.key)
    requires LastBegun(cl) >= f
    ensures RightAnswers(f, ServeFromDisk(s, c, cl, env))
  {
    match env.stat
    case StatFailed => RefuseFile(f, s, c, cl, cl.key, "stat failed");
    case NotRegular => RefuseFile(f, s, c, cl, cl.key, "not a regular file");
    case OpenFailed => RefuseFile(f, s, c, cl, cl.key, "open failed");
    case File(file) =>
      if |file| > MAX_CACHE_FILE_SIZE {
        SendFileAnswers(f, s, c, cl, file);
      } else if !env.mallocOk {
        RefuseFile(f, s, c, cl, cl.key, "out of memory");
      } else if !env.aioOk {
        var s1 := Free(Malloc(s, RoomFor(|file|, env.garbage), OfClient(c)), s.next);
        UselessBuffer(f, s, c, RoomFor(|file|, env.garbage));
        PendingMore(f, s, s1, cl);
        RefuseFile(f, s1, c, cl, cl.key, "aio_read failed");
      } else {
        StartAioAnswers(f, s, c, cl, |file|, env.garbage);
      }
  }

  lemma BeginAnswers(f: nat, s: State, c: nat, cl: Client, env: Env)
    requires HeapOk(s) && RightAnswers(f, s) && Pending(f, s, cl) && !cl.phase.Aio? && CacheLive(s)
    requires cl.paths[|cl.responses|] == env.path && LastBegun(cl) >= f
    ensures RightAnswers(f, BeginFileServe(s, c, cl, cl.names[|cl.responses|], env))
  {
    var name := cl.names[|cl.responses|];
    if name == [] {
      RefuseAnswers(f, s, c, cl, "empty filename");
    } else if name[0] == SLASH {
      RefuseAnswers(f, s, c, cl, "absolute paths not allowed");
    } else if env.path.NotFound? {
      RefuseAnswers(f, s, c, cl, "not found");
    } else if env.path.Denied? {
      RefuseAnswers(f, s, c, cl, "access denied");
    } else {
      var key := env.path.key;
      var cl1 := cl.(key := key);
      assert Pending(f, s, cl1) && Asks(cl1, key);
      if Get(s.cache, key).Some? && env.copyOk {
        assert KeyOk(s, key);
        FromCacheAnswers(f, s, c, cl1, key, Get(s.cache, key).value);
      } else {
        FromDiskAnswers(f, s, c, cl1, env);
      }
    }
  }

  /** A line taken up is a request to be answered. */
  lemma CutPending(f: nat, s: State, cl: Client, path: Resolution)
    requires f <= s.flushes && ClientAnswers(f, s, cl) && |cl.names| == |cl.responses| && cl.phase.Reading?
    requires Find(cl.req, NL) < |cl.req|
    ensures var cl1 := Cut(cl, path, s.flushes); var n := |cl.responses|;
            && Pending(f, s, cl1) && cl1.phase.Reading? && LastBegun(cl1) >= f
            && cl1.names[n] == Name(cl.req[..Find(cl.req, NL)]) && cl1.paths[n] == path
  {
  }

  lemma TakeLineAnswers(f: nat, s: State, c: nat, env: Env)
    requires HeapOk(s) && RightAnswers(f, s) && Enabled(s, Begin(c, env)) && CacheLive(s)
    requires |s.clients[c].names| == |s.clients[c].responses|
    ensures RightAnswers(f, TakeLine(s, c, env))
  {
    assert ClientAnswers(f, s, s.clients[c]);
    CutPending(f, s, s.clients[c], env.path);
    BeginAnswers(f, s, c, Cut(s.clients[c], env.path, s.flushes), env);
  }

  /** The cached copy is what the read has just left in the buffer. */
  lemma InsertAnswers(f: nat, s: State, bytes: Bytes, o: Observation, k: Path)
    requires HeapOk(s) && RightAnswers(f, s) && bytes == Ok(o.data + o.junk) && o.epoch >= f
    ensures CachedFrom(f, Observe(Inserted(s, o.key, bytes), o), k)
  {
    NextIsNew(s);
    InsertGets(s, o.key, s.next, k);
    assert KeyOk(s, k) && CachedFrom(f, s, k);
  }

  lemma FillAnswers(f: nat, s: State, c: nat, bytes: Bytes)
    requires HeapOk(s) && RightAnswers(f, s) && c in s.clients && s.clients[c].phase.Aio?
    ensures HeapOk(Filled(s, c, bytes)) && RightAnswers(f, Filled(s, c, bytes))
  {
    FillLocal(s, c, bytes);
    assert HolderOk(s, c);
    var s' := Filled(s, c, bytes);
    MoreObserved(f, s, s', s.clients[c]);
    ClientStep(f, s, s', c);
  }

  /** Whether or not a copy is cached, the cache is right afterwards. */
  lemma FinishedCache(f: nat, s: State, c: nat, bytes: Bytes, o: Observation, cached: bool)
    requires HeapOk(s) && RightAnswers(f, s) && c in s.clients && s.clients[c].phase.Aio?
    requires bytes == Ok(o.data + o.junk) && o.key == s.clients[c].key && (cached ==> o.epoch >= f)
    ensures forall k: Path :: CachedFrom(f, Finished(s, c, bytes, o, cached), k)
  {
    var s1 := Filled(s, c, bytes);
    var s' := Finished(s, c, bytes, o, cached);
    FillAnswers(f, s, c, bytes);
    if cached {
      var s2 := Observe(Inserted(s1, o.key, bytes), o);
      forall k: Path
        ensures CachedFrom(f, s', k)
      {
        InsertAnswers(f, s1, bytes, o, k);
        assert s'.cache == s2.cache && s'.heap == s2.heap && s'.observed == s2.observed;
      }
    } else {
      CacheSameKeeps(f, s1, s');
    }
  }

  lemma FinishedClient(f: nat, s: State, c: nat, bytes: Bytes, o: Observation, cached: bool)
    requires RightAnswers(f, s) && c in s.clients && s.clients[c].phase.Aio?
    requires bytes == Ok(o.data + o.junk) && o.key == s.clients[c].key && o.epoch == LastBegun(s.clients[c])
    ensures var s' := Finished(s, c, bytes, o, cached);
            c in s'.clients && Grown(s, s') && ClientAnswers(f, s', s'.clients[c])
  {
    var cl := s.clients[c];
    var s' := Finished(s, c, bytes, o, cached);
    assert ClientAnswers(f, s, cl);
    PendingMore(f, s, s', cl);
    AnswerFile(f, s', cl, o);
    AnswerLast(f, s', cl, Writing(cl.phase.buf, 0), cl.out, bytes);
  }

  lemma FinishAioAnswers(f: nat, s: State, c: nat, data: Bytes, copyOk: bool)
    requires Inv(s) && RightAnswers(f, s) && Enabled(s, AioDone(c, data, copyOk))
    ensures RightAnswers(f, FinishAio(s, c, data, copyOk))
  {
    var bytes, o, cached := FinishParts(s, c, data, copyOk);
    FinishedAnswers(f, s, c, bytes, o, cached);
  }

  lemma FinishedAnswers(f: nat, s: State, c: nat, bytes: Bytes, o: Observation, cached: bool)
    requires HeapOk(s) && RightAnswers(f, s) && c in s.clients && s.clients[c].phase.Aio?
    requires bytes == Ok(o.data + o.junk) && o.key == s.clients[c].key && o.epoch == LastBegun(s.clients[c])
    requires cached ==> s.clients[c].key != ""
    ensures RightAnswers(f, Finished(s, c, bytes, o, cached))
  {
    assert ClientAnswers(f, s, s.clients[c]);
    FinishedClient(f, s, c, bytes, o, cached);
    Elsewhere(f, s, Finished(s, c, bytes, o, cached), c);
    FinishedCache(f, s, c, bytes, o, cached);
  }

  lemma AioErrorAnswers(f: nat, s: State, c: nat)
    requires HeapOk(s) && RightAnswers(f, s) && c in s.clients && s.clients[c].phase.Aio?
    ensures RightAnswers(f, Refuse(Free(s, s.clients[c].phase.buf), c, s.clients[c].(phase := Reading), "read error"))
  {
    var cl := s.clients[c];
    assert ClientAnswers(f, s, cl);
    var s' := Refuse(Free(s, cl.phase.buf), c, cl.(phase := Reading), "read error");
    AnswerError(f, s, cl, cl.key, "read error");
    AnswerLast(f, s, cl, Reading, cl.out + Err("read error"), Err("read error"));
    MoreObserved(f, s, s', s'.clients[c]);
    ClientStep(f, s, s', c);
  }

  lemma FlushAnswers(f: nat, s: State)
    requires RightAnswers(f, s)
    ensures RightAnswers(f, CacheClear(s))
  {
    var s' := CacheClear(s);
    forall d | d in s'.clients
      ensures ClientAnswers(f, s', s'.clients[d])
    {
      MoreObserved(f, s, s', s.clients[d]);
    }
  }

  /** A step that changes nothing but how far client `c` has got with reading or sending. */
  lemma ProgressAnswers(f: nat, s: State, s': State, c: nat)
    requires HeapOk(s) && RightAnswers(f, s) && CacheSame(s, s') && Grown(s, s') && c in s.clients
    requires forall d | d != c && d in s'.clients :: d in s.clients && s'.clients[d] == s.clients[d]
    requires c in s'.clients ==>
               var cl, cl' := s.clients[c], s'.clients[c];
               && cl'.names == cl.names && cl'.paths == cl.paths && cl'.begun == cl.begun
               && cl'.responses == cl.responses
               && !cl'.phase.Aio?
    ensures RightAnswers(f, s')
  {
    assert ClientAnswers(f, s, s.clients[c]);
    MoreObserved(f, s, s', s.clients[c]);
    ClientStep(f, s, s', c);
  }

  lemma ReceiveAnswers(f: nat, s: State, c: nat, bytes: Bytes)
    requires HeapOk(s) && RightAnswers(f, s) && Enabled(s, Receive(c, bytes))
    ensures var cl := s.clients[c];
            RightAnswers(f, Update(s, c, cl.(req := cl.req + bytes, received := cl.received + bytes)))
  {
    var cl := s.clients[c];
    ProgressAnswers(f, s, Update(s, c, cl.(req := cl.req + bytes, received := cl.received + bytes)), c);
  }

  lemma WriteAnswers(f: nat, s: State, c: nat, n: nat)
    requires HeapOk(s) && RightAnswers(f, s) && Enabled(s, Wrote(c, n))
    ensures RightAnswers(f, WriteSome(s, c, n))
  {
    ProgressAnswers(f, s, WriteSome(s, c, n), c);
  }

  lemma SendAnswers(f: nat, s: State, c: nat, n: nat)
    requires HeapOk(s) && RightAnswers(f, s) && Enabled(s, Sent(c, n))
    ensures RightAnswers(f, SendSome(s, c, n))
  {
    ProgressAnswers(f, s, SendSome(s, c, n), c);
  }

  lemma RemoveAnswers(f: nat, s: State, c: nat)
    requires HeapOk(s) && RightAnswers(f, s) && c in s.clients
    ensures RightAnswers(f, RemoveClient(s, c))
  {
    ProgressAnswers(f, s, RemoveClient(s, c), c);
  }

  lemma ConnectAnswers(f: nat, s: State, c: nat)
    requires HeapOk(s) && RightAnswers(f, s)
    ensures RightAnswers(f, Update(s, c, NEW_CLIENT))
  {
    ClientStep(f, s, Update(s, c, NEW_CLIENT), c);
  }

  lemma StepKeepsAnswers(f: nat, s: State, e: Event)
    requires Inv(s) && RightAnswers(f, s) && Enabled(s, e)
    ensures CacheLive(s) && RightAnswers(f, Step(s, e))
  {
    HeapCacheLive(s);
    match e
    case Connect(c) => ConnectAnswers(f, s, c);
    case Receive(c, bytes) => ReceiveAnswers(f, s, c, bytes);
    case Begin(c, env) =>
      ClientFacts(s, c);
      TakeLineAnswers(f, s, c, env);
    case AioDone(c, data, copyOk) => FinishAioAnswers(f, s, c, data, copyOk);
    case AioError(c) => AioErrorAnswers(f, s, c);
    case Wrote(c, n) => WriteAnswers(f, s, c, n);
    case Sent(c, n) => SendAnswers(f, s, c, n);
    case Remove(c) => RemoveAnswers(f, s, c);
    case Flush => FlushAnswers(f, s);
  }

  lemma {:induction false} RunKeepsAnswers(f: nat, s: State, events: seq<Event>)
    requires Inv(s) && RightAnswers(f, s) && Runs(s, events)
    ensures RightAnswers(f, After(s, events))
    decreases |events|
  {
    if events != [] {
      StepKeepsInv(s, events[0]);
      StepKeepsAnswers(f, s, events[0]);
      RunKeepsAnswers(f, Step(s, events[0]), events[1..]);
    }
  }

  /**
    In every run, the i-th response of every client is an answer to its i-th line: the error the
    line or the path calls for, or what some read of the file it resolved to left in its buffer.
   */
  lemma EveryAnswerRight(events: seq<Event>, c: nat, i: nat)
    requires Runs(START, events) && c in After(START, events).clients
    requires i < |After(START, events).clients[c].responses|
    ensures var s := After(START, events); var cl := s.clients[c];
            && i < |cl.paths| == |cl.names| && cl.names <= Names(Complete(cl.received))
            && Answer(0, s.observed, Names(Complete(cl.received))[i], cl.paths[i], cl.responses[i])
  {
    StartInv();
    RunKeepsInv(START, events);
    RunKeepsAnswers(0, START, events);
    var s := After(START, events);
    ClientFacts(s, c);
    assert ClientAnswers(0, s, s.clients[c]);
  }

  // ----- whole files

  /** No asynchronous read along the run delivered less than the size of the file. */
  ghost predicate FullReads(s: State, events: seq<Event>)
    requires Runs(s, events)
    decreases |events|
  {
    events == [] ||
    ((events[0].AioDone? ==> |events[0].data| == s.clients[events[0].c].phase.size)
     && FullReads(Step(s, events[0]), events[1..]))
  }

  ghost predicate NoJunk(observed: set<Observation>) {
    forall o | o in observed :: o.junk == []
  }

  lemma ReadNoJunk(s: State, c: nat, data: Bytes, copyOk: bool)
    requires Inv(s) && NoJunk(s.observed) && Enabled(s, AioDone(c, data, copyOk))
    ensures NoJunk(FinishAio(s, c, data, copyOk).observed) <==> |data| == s.clients[c].phase.size
  {
    var size := s.clients[c].phase.size;
    AioDue(s, c);
    var own := s.heap[s.clients[c].phase.buf].bytes;
    ReadIntoIs(own, size, data);
    var junk := ReadInto(own, |Header(size)|, data)[|Header(size)| + |data|..];
    assert |junk| == size - |data|;
    var o := Observation(s.clients[c].key, data, junk, LastBegun(s.clients[c]));
    assert o in FinishAio(s, c, data, copyOk).observed;
  }

  lemma StepNoJunk(s: State, e: Event)
    requires Inv(s) && NoJunk(s.observed) && Enabled(s, e) && CacheLive(s)
    ensures NoJunk(Step(s, e).observed) <==> (e.AioDone? ==> |e.data| == s.clients[e.c].phase.size)
  {
    if e.AioDone? {
      ReadNoJunk(s, e.c, e.data, e.copyOk);
    } else if e.Begin? {
      BeginObserves(s, e.c, e.env);
    }
  }

  /** Taking up a line observes at most what sendfile is about to send. */
  lemma BeginObserves(s: State, c: nat, env: Env)
    requires Enabled(s, Begin(c, env)) && CacheLive(s)
    ensures s.observed <= TakeLine(s, c, env).observed
    ensures forall o | o in TakeLine(s, c, env).observed && o !in s.observed :: o.junk == [] && o.epoch == s.flushes
  {
    var cl1 := Cut(s.clients[c], env.path, s.flushes);
    assert LastBegun(cl1) == s.flushes;
    if env.path.At? {
      DiskObserves(s, c, cl1.(key := env.path.key), env);
    }
  }

  lemma DiskObserves(s: State, c: nat, cl: Client, env: Env)
    ensures s.observed <= ServeFromDisk(s, c, cl, env).observed
    ensures forall o | o in ServeFromDisk(s, c, cl, env).observed && o !in s.observed ::
              o.junk == [] && o.epoch == LastBegun(cl)
  {
  }

  lemma StepObserves(s: State, e: Event)
    requires Enabled(s, e) && CacheLive(s)
    ensures s.observed <= Step(s, e).observed
  {
    if e.Begin? {
      BeginObserves(s, e.c, e.env);
    }
  }

  lemma {:induction false} RunObserves(s: State, events: seq<Event>)
    requires Runs(s, events)
    ensures s.observed <= After(s, events).observed
    decreases |events|
  {
    if events != [] {
      var s1 := RunsFirst(s, events);
      StepObserves(s, events[0]);
      RunObserves(s1, events[1..]);
    }
  }

  lemma {:induction false} RunNoJunk(s: State, events: seq<Event>)
    requires Inv(s) && NoJunk(s.observed) && Runs(s, events)
    ensures NoJunk(After(s, events).observed) <==> FullReads(s, events)
    decreases |events|
  {
    if events != [] {
      var s1 := RunsFirst(s, events);
      StepKeepsInv(s, events[0]);
      StepNoJunk(s, events[0]);
      if NoJunk(s1.observed) {
        RunNoJunk(s1, events[1..]);
      } else {
        RunObserves(s1, events[1..]);
      }
    }
  }

  /** What was read from files is free of other bytes if and only if every read delivered what it was asked for. */
  lemma OnlyFileBytesExactly(events: seq<Event>)
    requires Runs(START, events)
    ensures (forall o | o in After(START, events).observed :: o.junk == []) <==> FullReads(START, events)
  {
    StartInv();
    RunNoJunk(START, events);
  }

  /**
    If every read delivers the whole file, an answer that is not an error is the file and nothing
    else: the header with its size, then the bytes of one read.
   */
  lemma WholeFiles(events: seq<Event>, c: nat, i: nat)
    requires Runs(START, events) && FullReads(START, events) && c in After(START, events).clients
    requires i < |After(START, events).clients[c].responses|
    ensures var s := After(START, events); var cl := s.clients[c];
            && i < |cl.paths|
            && (cl.paths[i].At? && Served(0, s.observed, cl.paths[i].key, cl.responses[i]) ==>
                  exists o :: && o in s.observed && o.key == cl.paths[i].key && o.junk == []
                              && cl.responses[i] == Ok(o.data))
  {
    StartInv();
    EveryAnswerRight(events, c, i);
    RunNoJunk(START, events);
    var s := After(START, events);
    var cl := s.clients[c];
    if cl.paths[i].At? && Served(0, s.observed, cl.paths[i].key, cl.responses[i]) {
      var o :| o in s.observed && o.key == cl.paths[i].key && o.epoch >= 0 && cl.responses[i] == Ok(o.data + o.junk);
      assert o.data + o.junk == o.data;
    }
  }

  /** A short read is not noticed: the response is completed with what the buffer contained before. */
  lemma ShortReadIsPadded(s: State, c: nat, data: Bytes, copyOk: bool)
    requires Inv(s) && Enabled(s, AioDone(c, data, copyOk))
    ensures var cl := FinishAio(s, c, data, copyOk).clients[c];
            var size := s.clients[c].phase.size; var was := s.heap[s.clients[c].phase.buf].bytes;
            && cl.responses == s.clients[c].responses + [Ok(data + was[|Header(size)| + |data|..])]
            && |was[|Header(size)| + |data|..]| == size - |data|
  {
    AioDue(s, c);
    ReadIntoIs(s.heap[s.clients[c].phase.buf].bytes, s.clients[c].phase.size, data);
  }

  lemma {:induction false} DigitsShort(n: nat)
    ensures n < 10 ==> |Digits(n)| <= 1
    ensures n < 100 ==> |Digits(n)| <= 2
    ensures n < 1000 ==> |Digits(n)| <= 3
    ensures n < 10000 ==> |Digits(n)| <= 4
    ensures n < 100000 ==> |Digits(n)| <= 5
  {
    if n >= 10 {
      DigitsShort(n / 10);
    }
  }

  lemma {:induction false} DigitsGrow(m: nat, n: nat)
    requires m <= n
    ensures |Digits(m)| <= |Digits(n)|
  {
    if n >= 10 && m >= 10 {
      DigitsGrow(m / 10, n / 10);
    } else if n >= 10 {
      assert |Digits(n / 10)| >= 0;
    }
  }

  /**
    The response a completed read gives rise to is the bytes it delivered if and only if it delivered
    all it was asked for.
   */
  lemma WholeExactly(s: State, c: nat, data: Bytes, copyOk: bool)
    requires Inv(s) && Enabled(s, AioDone(c, data, copyOk))
    ensures FinishAio(s, c, data, copyOk).clients[c].responses == s.clients[c].responses + [Ok(data)]
            <==> |data| == s.clients[c].phase.size
  {
    var junk := Padding(s, c, data, copyOk);
    LastIs(s.clients[c].responses, Ok(data + junk), Ok(data));
    PaddingShows(data, junk);
  }

  /** The bytes with which the response is filled up. */
  lemma Padding(s: State, c: nat, data: Bytes, copyOk: bool) returns (junk: Bytes)
    requires Inv(s) && Enabled(s, AioDone(c, data, copyOk))
    ensures FinishAio(s, c, data, copyOk).clients[c].responses == s.clients[c].responses + [Ok(data + junk)]
    ensures |junk| == s.clients[c].phase.size - |data|
  {
    var size := s.clients[c].phase.size;
    AioDue(s, c);
    ReadIntoIs(s.heap[s.clients[c].phase.buf].bytes, size, data);
    junk := s.heap[s.clients[c].phase.buf].bytes[|Header(size)| + |data|..];
  }

  lemma PaddingShows(data: Bytes, junk: Bytes)
    ensures Ok(data + junk) == Ok(data) <==> junk == []
  {
    if junk == [] {
      assert data + junk == data;
    } else {
      DigitsGrow(|data|, |data + junk|);
      assert |Ok(data + junk)| > |Ok(data)|;
    }
  }

  lemma LastIs(rs: seq<Bytes>, a: Bytes, b: Bytes)
    ensures rs + [a] == rs + [b] <==> a == b
  {
    assert (rs + [a])[|rs|] == a && (rs + [b])[|rs|] == b;
  }

  // ----- when requests were begun

  lemma {:induction false} EpochsBounded(s: State, events: seq<Event>)
    requires Inv(s) && RightAnswers(0, s) && Runs(s, events) && forall o | o in s.observed :: o.epoch <= s.flushes
    ensures forall o | o in After(s, events).observed :: o.epoch <= After(s, events).flushes
    decreases |events|
  {
    if events != [] {
      StepEpochs(s, events[0]);
      StepKeepsInv(s, events[0]);
      StepKeepsAnswers(0, s, events[0]);
      EpochsBounded(Step(s, events[0]), events[1..]);
    }
  }

  lemma StepEpochs(s: State, e: Event)
    requires RightAnswers(0, s) && Enabled(s, e) && CacheLive(s) && forall o | o in s.observed :: o.epoch <= s.flushes
    ensures forall o | o in Step(s, e).observed :: o.epoch <= Step(s, e).flushes
  {
    if e.AioDone? {
      assert ClientAnswers(0, s, s.clients[e.c]);
    } else if e.Begin? {
      BeginObserves(s, e.c, e.env);
    }
  }

  // ----- freshness after a flush

  /** A client is waiting for a read whose result may go to the cache. */
  predicate ReadInFlight(s: State, c: nat) {
    c in s.clients && s.clients[c].phase.Aio? && s.clients[c].key != ""
  }

  ghost predicate Quiet(s: State) {
    forall c :: !ReadInFlight(s, c)
  }

  /** A flush with no read in flight starts afresh. */
  lemma QuietFlush(s: State)
    requires RightAnswers(0, s) && Quiet(s)
    ensures RightAnswers(s.flushes + 1, CacheClear(s))
  {
    var s' := CacheClear(s);
    forall c | c in s'.clients
      ensures ClientAnswers(s.flushes + 1, s', s'.clients[c])
    {
      assert ClientAnswers(0, s, s.clients[c]) && !ReadInFlight(s, c);
    }
  }

  /**
    After a flush at which no read was in flight, every answer to a request begun later is an error or
    comes from a read that was begun after the flush, in every continuation of every run.
   */
  lemma FreshAfterQuietFlush(before: seq<Event>, events: seq<Event>, c: nat, i: nat)
    requires Runs(START, before) && Quiet(After(START, before))
    requires Runs(CacheClear(After(START, before)), events)
    requires var s := After(CacheClear(After(START, before)), events);
             && c in s.clients && i < |s.clients[c].responses| && i < |s.clients[c].begun|
             && s.clients[c].begun[i] > After(START, before).flushes
    ensures var s := After(CacheClear(After(START, before)), events); var cl := s.clients[c];
            && i < |cl.names| == |cl.paths|
            && Answer(After(START, before).flushes + 1, s.observed, cl.names[i], cl.paths[i], cl.responses[i])
  {
    var s := AfterRun(before);
    QuietFlushKeeps(s);
    FreshFrom(s.flushes + 1, CacheClear(s), events, c, i);
  }

  lemma AfterRun(events: seq<Event>) returns (s: State)
    requires Runs(START, events)
    ensures s == After(START, events) && Inv(s) && RightAnswers(0, s)
    ensures forall o | o in s.observed :: o.epoch <= s.flushes
  {
    s := After(START, events);
    StartInv();
    RunKeepsInv(START, events);
    RunKeepsAnswers(0, START, events);
    EpochsBounded(START, events);
  }

  lemma QuietFlushKeeps(s: State)
    requires Inv(s) && RightAnswers(0, s) && Quiet(s)
    ensures Inv(CacheClear(s)) && RightAnswers(s.flushes + 1, CacheClear(s))
  {
    QuietFlush(s);
    FlushStep(s);
  }

  lemma FreshFrom(f: nat, s: State, events: seq<Event>, c: nat, i: nat)
    requires Inv(s) && RightAnswers(f, s) && Runs(s, events) && c in After(s, events).clients
    requires var cl := After(s, events).clients[c]; i < |cl.responses| && i < |cl.begun| && cl.begun[i] >= f
    ensures var s' := After(s, events); var cl := s'.clients[c];
            i < |cl.names| == |cl.paths| && Answer(f, s'.observed, cl.names[i], cl.paths[i], cl.responses[i])
  {
    RunKeepsAnswers(f, s, events);
    assert ClientAnswers(f, After(s, events), After(s, events).clients[c]);
  }
}
