/**
  What flushes and short reads of the AIO file server lead to: after a flush older content turns up
  again, in the cache and in answers, exactly if a read was in flight; and a run in which a read
  that delivers nothing is answered with bytes that no file contained.
 */
module AioStale {
  import opened FifoMap
  import opened Lines
  import opened AioServer
  import opened AioAnswers

  // ----- runs

  ghost predicate Leads(s: State, events: seq<Event>, s': State) {
    Runs(s, events) && After(s, events) == s'
  }

  lemma LeadsOne(s: State, e: Event, s': State)
    requires Enabled(s, e) && CacheLive(s) && s' == Step(s, e)
    ensures Leads(s, [e], s')
  {
    OneEvent(s, e);
  }

  lemma LeadsThen(s: State, p: seq<Event>, m: State, q: seq<Event>, s': State)
    requires Leads(s, p, m) && Leads(m, q, s')
    ensures Leads(s, p + q, s')
  {
    RunsConcat(s, p, q);
  }

  /** A line asking for a file. */
  const LINE: Bytes := [97, NL]

  lemma LineIsA()
    ensures Find(LINE, NL) == 1 && Name(LINE[..1]) == [97] && |LINE| == 2
  {
  }

  lemma Requested(s: State, c: nat) returns (s2: State)
    requires c !in s.clients && |s.clients| < MAX_CLIENTS && CacheLive(s)
    ensures Leads(s, [Connect(c)] + [Receive(c, LINE)], s2)
    ensures s2 == Update(s, c, NEW_CLIENT.(req := LINE, received := LINE))
  {
    var s1 := Update(s, c, NEW_CLIENT);
    LeadsOne(s, Connect(c), s1);
    s2 := Update(s1, c, NEW_CLIENT.(req := LINE, received := LINE));
    assert [] + LINE == LINE;
    LineIsA();
    LeadsOne(s1, Receive(c, LINE), s2);
    LeadsThen(s, [Connect(c)], s1, [Receive(c, LINE)], s2);
    assert s.clients[c := NEW_CLIENT][c := s2.clients[c]] == s.clients[c := s2.clients[c]];
  }

  // ----- the cache

  /** The cache holds something that no read begun after flush `f` has delivered. */
  ghost predicate Stale(f: nat, s: State) {
    exists k: Path :: !CachedFrom(f, s, k)
  }

  ghost predicate CanGoStale(s: State) {
    exists events :: Runs(s, events) && Stale(s.flushes, After(s, events))
  }

  /** A read that was in flight during the flush puts its result into the cache after it. */
  lemma LateInsert(s: State, c: nat)
    requires Inv(s) && RightAnswers(0, s) && ReadInFlight(s, c)
    requires forall o | o in s.observed :: o.epoch <= s.flushes
    ensures CanGoStale(CacheClear(s))
  {
    FlushStep(s);
    assert ClientAnswers(0, s, s.clients[c]);
    LateInsertAfter(CacheClear(s), c);
  }

  lemma LateInsertAfter(s: State, c: nat)
    requires Inv(s) && s.cache == [] && ReadInFlight(s, c) && LastBegun(s.clients[c]) < s.flushes
    requires forall o | o in s.observed :: o.epoch < s.flushes
    ensures CanGoStale(s)
  {
    var s', data := LateRead(s, c);
    OldEntry(s.flushes, s', s.clients[c].key, s.next, data);
    GoesStale(s, [AioDone(c, data, true)], s', s.clients[c].key);
  }

  lemma GoesStale(s: State, events: seq<Event>, s': State, k: Path)
    requires Leads(s, events, s') && !CachedFrom(s.flushes, s', k)
    ensures CanGoStale(s)
  {
  }

  /** A cache with one entry, and nothing read since flush `f`. */
  lemma OldEntry(f: nat, s: State, key: Path, b: nat, data: Bytes)
    requires s.cache == [Entry(key, b)] && b in s.heap && s.heap[b].bytes == Ok(data)
    requires forall o | o in s.observed :: o.epoch < f
    ensures !CachedFrom(f, s, key) && !Served(f, s.observed, key, Ok(data)) && Get(s.cache, key) == Some(b)
  {
    FirstEntry(key, b);
  }

  /** The read in flight delivers a whole file, which is cached. */
  lemma LateRead(s: State, c: nat) returns (s': State, data: Bytes)
    requires Inv(s) && s.cache == [] && ReadInFlight(s, c) && LastBegun(s.clients[c]) < s.flushes
    requires forall o | o in s.observed :: o.epoch < s.flushes
    ensures Leads(s, [AioDone(c, data, true)], s') && |data| == s.clients[c].phase.size
    ensures c in s'.clients && s'.clients.Keys == s.clients.Keys && s'.flushes == s.flushes
    ensures s'.cache == [Entry(s.clients[c].key, s.next)] && s.next in s'.heap && s'.heap[s.next].bytes == Ok(data)
    ensures forall o | o in s'.observed :: o.epoch < s.flushes
  {
    data := seq(s.clients[c].phase.size, i => 0);
    LateReadFits(s, c, data);
    LateEntry(s, c, data);
    HeapCacheLive(s);
    s' := FinishAio(s, c, data, true);
    LeadsOne(s, AioDone(c, data, true), s');
  }

  lemma LateReadFits(s: State, c: nat, data: Bytes)
    requires Inv(s) && c in s.clients && s.clients[c].phase.Aio? && |data| == s.clients[c].phase.size
    ensures Enabled(s, AioDone(c, data, true))
    ensures var own := s.heap[s.clients[c].phase.buf].bytes; var h := |Header(|data|)|;
            |own| <= MAX_CACHE_FILE_SIZE + 64 && ReadInto(own, h, data) == Ok(data)
  {
    AioDue(s, c);
    DigitsShort(|data|);
    var own := s.heap[s.clients[c].phase.buf].bytes;
    ReadIntoIs(own, |data|, data);
    assert data + own[|Header(|data|)| + |data|..] == data;
  }

  lemma FirstEntry(key: Path, b: nat)
    ensures Put(MAX_CACHE_ENTRIES, [], key, b) == [Entry(key, b)] && Get([Entry(key, b)], key) == Some(b)
    ensures Displaced<nat>(MAX_CACHE_ENTRIES, [], key).None?
  {
    GetAt([Entry(key, b)], MAX_CACHE_ENTRIES, 0);
  }

  lemma LateEntry(s: State, c: nat, data: Bytes)
    requires Enabled(s, AioDone(c, data, true)) && s.cache == [] && s.clients[c].key != ""
    requires |data| == s.clients[c].phase.size
    requires ReadInto(s.heap[s.clients[c].phase.buf].bytes, |Header(|data|)|, data) == Ok(data)
    requires |s.heap[s.clients[c].phase.buf].bytes| <= MAX_CACHE_FILE_SIZE + 64
    ensures var s' := FinishAio(s, c, data, true); var key := s.clients[c].key;
            && s'.cache == [Entry(key, s.next)] && s.next in s'.heap && s'.heap[s.next].bytes == Ok(data)
            && s'.clients.Keys == s.clients.Keys + {c} && s'.flushes == s.flushes
            && forall o | o in s'.observed && o !in s.observed :: o.epoch == LastBegun(s.clients[c])
  {
    FirstEntry(s.clients[c].key, s.next);
  }

  /**
    A flush leaves a cache in which something older than the flush can turn up again, if and only if a
    read whose result may be cached is in flight at that moment.
   */
  lemma StaleExactlyWhenReading(before: seq<Event>)
    requires Runs(START, before)
    ensures CanGoStale(CacheClear(After(START, before))) <==> !Quiet(After(START, before))
  {
    var s := AfterRun(before);
    if Quiet(s) {
      QuietStaysFresh(s);
    } else {
      var c :| ReadInFlight(s, c);
      LateInsert(s, c);
    }
  }

  lemma QuietStaysFresh(s: State)
    requires Inv(s) && RightAnswers(0, s) && Quiet(s)
    ensures !CanGoStale(CacheClear(s))
  {
    FlushStep(s);
    QuietFlush(s);
    forall events | Runs(CacheClear(s), events)
      ensures !Stale(s.flushes + 1, After(CacheClear(s), events))
    {
      RunKeepsAnswers(s.flushes + 1, CacheClear(s), events);
    }
  }

  // ----- the answers

  /** A request begun after flush `f` has got an answer that no read begun since then accounts for. */
  ghost predicate StaleAt(f: nat, s: State, c: nat, i: nat) {
    && c in s.clients
    && var cl := s.clients[c];
    && i < |cl.responses| <= |cl.names| && |cl.names| == |cl.paths| == |cl.begun| && cl.begun[i] >= f
    && !Answer(f, s.observed, cl.names[i], cl.paths[i], cl.responses[i])
  }

  ghost predicate CanAnswerStale(s: State) {
    exists events :: Runs(s, events) && StaleAnswered(s.flushes, After(s, events))
  }

  ghost predicate StaleAnswered(f: nat, s: State) {
    exists c: nat, i: nat :: StaleAt(f, s, c, i)
  }

  /** Who is connected after a step. */
  lemma StepKeys(s: State, e: Event)
    requires Enabled(s, e) && CacheLive(s)
    ensures Step(s, e).clients.Keys ==
              if e.Connect? then s.clients.Keys + {e.c}
              else if e.Remove? then s.clients.Keys - {e.c} else s.clients.Keys
  {
    if e.Begin? {
      BeginKeys(s, e.c, Cut(s.clients[e.c], e.env.path, s.flushes),
                Name(s.clients[e.c].req[..Find(s.clients[e.c].req, NL)]), e.env);
    }
  }

  lemma BeginKeys(s: State, c: nat, cl: Client, name: Bytes, env: Env)
    requires CacheLive(s) && c in s.clients
    ensures BeginFileServe(s, c, cl, name, env).clients.Keys == s.clients.Keys
  {
    if env.path.At? {
      DiskKeys(s, c, cl.(key := env.path.key), env);
    }
  }

  lemma DiskKeys(s: State, c: nat, cl: Client, env: Env)
    requires c in s.clients
    ensures ServeFromDisk(s, c, cl, env).clients.Keys == s.clients.Keys
  {
  }

  lemma {:induction false} RunRoom(s: State, events: seq<Event>)
    requires Runs(s, events) && |s.clients.Keys| <= MAX_CLIENTS
    ensures |After(s, events).clients.Keys| <= MAX_CLIENTS
    decreases |events|
  {
    if events != [] {
      var s1 := RunsFirst(s, events);
      StepKeys(s, events[0]);
      assert |s.clients.Keys| == |s.clients|;
      RunRoom(s1, events[1..]);
    }
  }

  /** The cache keeps its buffers when a client goes. */
  lemma GoneSparesCache(s: State, c: nat, k: Path, b: nat)
    requires HeapOk(s) && c in s.clients && Get(s.cache, k) == Some(b)
    ensures var s' := RemoveClient(s, c); s'.cache == s.cache && b in s.heap && b in s'.heap && s'.heap[b] == s.heap[b]
  {
    assert KeyOk(s, k) && HolderOk(s, c);
  }

  function AskingFor(key: Path): Env {
    Env(At(key), true, NotRegular, true, true, (i: nat) => 0)
  }

  /** A new client asks for a path that is in the cache. */
  lemma CachedAnswer(s: State, c: nat, key: Path, b: nat) returns (s': State)
    requires Inv(s) && c !in s.clients && |s.clients| < MAX_CLIENTS && Get(s.cache, key) == Some(b) && b in s.heap
    ensures Leads(s, ([Connect(c)] + [Receive(c, LINE)]) + [Begin(c, AskingFor(key))], s')
    ensures c in s'.clients && s'.observed == s.observed && s'.flushes == s.flushes
    ensures var cl := s'.clients[c];
            && cl.names == [[97]] && cl.paths == [At(key)] && cl.begun == [s.flushes]
            && cl.responses == [s.heap[b].bytes]
  {
    HeapCacheLive(s);
    var s2 := Requested(s, c);
    LineIsA();
    s' := TakeLine(s2, c, AskingFor(key));
    LeadsOne(s2, Begin(c, AskingFor(key)), s');
    LeadsThen(s, [Connect(c)] + [Receive(c, LINE)], s2, [Begin(c, AskingFor(key))], s');
  }

  lemma OkIsNoError(data: Bytes)
    ensures !FileError(Ok(data))
  {
    assert Ok(data)[0] == Ascii("+OK ")[0];
    forall reason
      ensures Err(reason) != Ok(data)
    {
      assert Err(reason)[0] == Ascii("-ERR ")[0];
    }
  }

  /** The read ends, its result is cached, and the client goes. */
  lemma LateAndGone(s: State, c: nat) returns (s2: State, data: Bytes)
    requires Inv(s) && s.cache == [] && ReadInFlight(s, c) && LastBegun(s.clients[c]) < s.flushes
    requires forall o | o in s.observed :: o.epoch < s.flushes
    ensures Leads(s, [AioDone(c, data, true)] + [Remove(c)], s2) && Inv(s2)
    ensures s2.clients.Keys == s.clients.Keys - {c} && s2.flushes == s.flushes
    ensures Get(s2.cache, s.clients[c].key) == Some(s.next) && s.next in s2.heap && s2.heap[s.next].bytes == Ok(data)
    ensures !Served(s.flushes, s2.observed, s.clients[c].key, Ok(data))
  {
    var s1;
    s1, data := LateRead(s, c);
    OldEntry(s.flushes, s1, s.clients[c].key, s.next, data);
    RunKeepsInv(s, [AioDone(c, data, true)]);
    s2 := LateGone(s1, c, s.clients[c].key, s.next);
    LeadsThen(s, [AioDone(c, data, true)], s1, [Remove(c)], s2);
  }

  lemma LateGone(s: State, c: nat, key: Path, b: nat) returns (s2: State)
    requires Inv(s) && c in s.clients && Get(s.cache, key) == Some(b) && b in s.heap
    ensures Leads(s, [Remove(c)], s2) && Inv(s2) && s2.clients.Keys == s.clients.Keys - {c}
    ensures s2.flushes == s.flushes && s2.observed == s.observed
    ensures Get(s2.cache, key) == Some(b) && b in s2.heap && s2.heap[b] == s.heap[b]
  {
    s2 := RemoveClient(s, c);
    HeapCacheLive(s);
    LeadsOne(s, Remove(c), s2);
    GoneSparesCache(s, c, key, b);
    RemoveStep(s, c);
  }

  /** One client goes, and its place is taken by one that asks for what the first one's late read left in the cache. */
  lemma LateAnswer(s: State, c: nat)
    requires Inv(s) && s.cache == [] && ReadInFlight(s, c) && LastBegun(s.clients[c]) < s.flushes
    requires |s.clients.Keys| <= MAX_CLIENTS && forall o | o in s.observed :: o.epoch < s.flushes
    ensures CanAnswerStale(s)
  {
    var key := s.clients[c].key;
    var s2, data := LateAndGone(s, c);
    assert |s2.clients| == |s2.clients.Keys|;
    var s3 := CachedAnswer(s2, c, key, s.next);
    var gone := [AioDone(c, data, true)] + [Remove(c)];
    var asks := ([Connect(c)] + [Receive(c, LINE)]) + [Begin(c, AskingFor(key))];
    LeadsThen(s, gone, s2, asks, s3);
    NotAccountedFor(s.flushes, s3, c, key, data);
    AnswersStale(s, gone + asks, s3, c);
  }

  lemma NotAccountedFor(f: nat, s: State, c: nat, key: Path, data: Bytes)
    requires c in s.clients
    requires var cl := s.clients[c];
             cl.names == [[97]] && cl.paths == [At(key)] && cl.begun == [f] && cl.responses == [Ok(data)]
    requires !Served(f, s.observed, key, Ok(data))
    ensures StaleAt(f, s, c, 0)
  {
    OkIsNoError(data);
  }

  lemma AnswersStale(s: State, events: seq<Event>, s': State, c: nat)
    requires Leads(s, events, s') && StaleAt(s.flushes, s', c, 0)
    ensures CanAnswerStale(s)
  {
  }

  /**
    After a flush, some later request can be answered with something that no read begun since then
    delivered, if and only if a read whose result may be cached was in flight at that moment.
   */
  lemma StaleAnswersExactlyWhenReading(before: seq<Event>)
    requires Runs(START, before)
    ensures CanAnswerStale(CacheClear(After(START, before))) <==> !Quiet(After(START, before))
  {
    var s := AfterRun(before);
    if Quiet(s) {
      QuietAnswersFresh(s);
    } else {
      var c :| ReadInFlight(s, c);
      RunRoom(START, before);
      FlushStep(s);
      assert ClientAnswers(0, s, s.clients[c]);
      LateAnswer(CacheClear(s), c);
    }
  }

  lemma QuietAnswersFresh(s: State)
    requires Inv(s) && RightAnswers(0, s) && Quiet(s)
    ensures !CanAnswerStale(CacheClear(s))
  {
    QuietFlushKeeps(s);
    forall events | Runs(CacheClear(s), events)
      ensures !StaleAnswered(s.flushes + 1, After(CacheClear(s), events))
    {
      NoneStale(s.flushes + 1, CacheClear(s), events);
    }
  }

  lemma NoneStale(f: nat, s: State, events: seq<Event>)
    requires Inv(s) && RightAnswers(f, s) && Runs(s, events)
    ensures !StaleAnswered(f, After(s, events))
  {
    var s' := After(s, events);
    if StaleAnswered(f, s') {
      var c: nat, i: nat :| StaleAt(f, s', c, i);
      FreshFrom(f, s, events, c, i);
    }
  }

  // ----- a stale answer

  const OLD: Bytes := [120]

  function Asking(): Env {
    Env(At("a"), true, File(OLD), true, true, (i: nat) => 0)
  }

  /** A client connects, sends a line and has it taken up. */
  function Asks1(c: nat): seq<Event> {
    [Connect(c)] + ([Receive(c, LINE)] + [Begin(c, Asking())])
  }

  /** Client 0 asks for a file; while it is read the cache is flushed; then client 1 asks for it. */
  function StaleRun(): seq<Event> {
    Asks1(0) + (([Flush] + [AioDone(0, OLD, true)]) + Asks1(1))
  }

  /** A state in which a file of one byte is being read for client 0. */
  ghost predicate ReadingOne(s: State) {
    && 0 in s.clients && 1 !in s.clients && |s.clients| == 1
    && s.clients[0].phase == Aio(0, 1) && s.clients[0].key == "a" && s.clients[0].begun == [0]
    && s.clients[0].responses == [] && s.flushes == 0
    && 0 in s.heap && s.heap[0].bytes == RoomFor(1, (i: nat) => 0) && s.next == 1 && s.cache == [] && s.observed == {}
  }

  lemma ReadOfOneStarts() returns (s: State)
    ensures Leads(START, Asks1(0), s) && ReadingOne(s)
  {
    var s2 := Requested(START, 0);
    LineIsA();
    s := TakeLine(s2, 0, Asking());
    LeadsOne(s2, Begin(0, Asking()), s);
    LeadsThen(START, [Connect(0)] + [Receive(0, LINE)], s2, [Begin(0, Asking())], s);
    Assoc([Connect(0)], [Receive(0, LINE)], [Begin(0, Asking())]);
  }

  /** After the flush the read ends, and what it delivered is cached. */
  ghost predicate OldCached(s: State) {
    && 1 !in s.clients && |s.clients| == 1 && s.flushes == 1
    && s.cache == [Entry("a", 1)] && 1 in s.heap && s.heap[1].bytes == Ok(OLD)
    && s.observed == {Observation("a", OLD, [], 0)}
  }

  lemma OldIsCached(s: State) returns (s2: State)
    requires ReadingOne(s)
    ensures Leads(s, [Flush] + [AioDone(0, OLD, true)], s2) && OldCached(s2)
  {
    var s1 := CacheClear(s);
    LeadsOne(s, Flush, s1);
    OldIsInserted(s1);
    s2 := FinishAio(s1, 0, OLD, true);
    LeadsOne(s1, AioDone(0, OLD, true), s2);
    LeadsThen(s, [Flush], s1, [AioDone(0, OLD, true)], s2);
  }

  lemma OldIsInserted(s: State)
    requires ReadingOne(s.(flushes := 0)) && s.flushes == 1
    ensures Enabled(s, AioDone(0, OLD, true)) && OldCached(FinishAio(s, 0, OLD, true))
  {
    var bytes := s.heap[0].bytes;
    assert HasRoom(bytes, 1);
    ReadIntoIs(bytes, 1, OLD);
    DigitsShort(1);
    assert bytes[|Header(1)| + 1..] == [] && OLD + [] == OLD;
    FirstEntry("a", 1);
  }

  /** The next client is answered from the cache. */
  lemma OldIsServed(s: State) returns (s3: State)
    requires OldCached(s)
    ensures Leads(s, Asks1(1), s3)
    ensures 1 in s3.clients && s3.clients[1].responses == [Ok(OLD)] && s3.clients[1].begun == [1]
    ensures s3.clients[1].paths == [At("a")] && s3.observed == s.observed && s3.flushes == 1
  {
    var s2 := Requested(s, 1);
    LineIsA();
    FirstEntry("a", 1);
    s3 := TakeLine(s2, 1, Asking());
    LeadsOne(s2, Begin(1, Asking()), s3);
    LeadsThen(s, [Connect(1)] + [Receive(1, LINE)], s2, [Begin(1, Asking())], s3);
    Assoc([Connect(1)], [Receive(1, LINE)], [Begin(1, Asking())]);
  }

  lemma OldIsNotNew(o: set<Observation>)
    requires o == {Observation("a", OLD, [], 0)}
    ensures !Served(1, o, "a", Ok(OLD)) && Served(0, o, "a", Ok(OLD))
  {
    assert OLD + [] == OLD;
    assert Observation("a", OLD, [], 0) in o;
  }

  /**
    The stale answer: a request begun after a flush is answered with the bytes of a read begun before
    it, and of no other.
   */
  lemma StaleAnswer() returns (s: State)
    ensures Leads(START, StaleRun(), s)
    ensures 1 in s.clients && s.clients[1].begun == [1] && s.flushes == 1
    ensures s.clients[1].paths == [At("a")] && s.clients[1].responses == [Ok(OLD)]
    ensures !Served(1, s.observed, "a", Ok(OLD)) && Served(0, s.observed, "a", Ok(OLD))
  {
    var s1 := ReadOfOneStarts();
    var s2 := OldIsCached(s1);
    s := OldIsServed(s2);
    OldIsNotNew(s.observed);
    LeadsThen(s1, [Flush] + [AioDone(0, OLD, true)], s2, Asks1(1), s);
    LeadsThen(START, Asks1(0), s1, ([Flush] + [AioDone(0, OLD, true)]) + Asks1(1), s);
  }

  // ----- a short read

  const ZERO: Bytes := [0]

  /** Client 0 asks for a file of one byte, and the read of it delivers nothing. */
  function ShortRun(): seq<Event> {
    Asks1(0) + [AioDone(0, [], true)]
  }

  /** The answer is the byte that happened to be in the new buffer, in a response of the right length. */
  lemma ShortReadAnswer() returns (s: State)
    ensures Leads(START, ShortRun(), s) && 0 in s.clients && s.clients[0].responses == [Ok(ZERO)]
    ensures s.observed == {Observation("a", [], ZERO, 0)}
  {
    var s1 := ReadOfOneStarts();
    NothingRead(s1);
    s := FinishAio(s1, 0, [], true);
    LeadsOne(s1, AioDone(0, [], true), s);
    LeadsThen(START, Asks1(0), s1, [AioDone(0, [], true)], s);
  }

  lemma NothingRead(s: State)
    requires ReadingOne(s)
    ensures Enabled(s, AioDone(0, [], true)) && CacheLive(s)
    ensures var s' := FinishAio(s, 0, [], true);
            0 in s'.clients && s'.clients[0].responses == [Ok(ZERO)] && s'.observed == {Observation("a", [], ZERO, 0)}
  {
    var bytes := s.heap[0].bytes;
    assert HasRoom(bytes, 1);
    ReadIntoIs(bytes, 1, []);
    assert bytes[|Header(1)| + 0..] == ZERO && [] + ZERO == ZERO;
  }
}
