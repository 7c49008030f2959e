/**
  The AIO file server as it works on its globals: the array of client structs that is compacted by
  moving the last one, the cache array, and malloc'd memory. `now` is the abstract state that all
  this stands for. Every function is proved to move it by the step of the same name, and an
  iteration of the event loop to be a run of events in which every client has its turn once.
 */
module AioLoop {
  import opened FifoMap
  import opened Lines
  import opened AioServer
  import ArrayCache

  datatype ClientState = StateReading | StateAio | StateWriting | StateSendFile

  /** The client struct. `resp` is None where the pointer is NULL. */
  datatype Record = Record(
    sock: nat, reqBuf: Bytes, reqLen: nat, state: ClientState,
    resp: Option<nat>, respSize: nat, respSent: nat, aioOffset: nat, aioBytes: nat,
    sfFile: Bytes, sfOffset: nat, sfRemaining: nat, cacheKey: Path)

  /** How an asynchronous read stands; `data` is what it delivered. */
  datatype ReadStatus = InProgress | Failed | Complete(data: Bytes, copyOk: bool)

  /**
    What the environment does to one client during a pass: `gone` is the verdict of the probe, and
    `input` what can be read (nothing: end of stream or error). A write takes at most `room` bytes,
    a broken connection none.
   */
  datatype Wake = Wake(
    readable: bool, gone: bool, aio: ReadStatus, input: Bytes, env: nat -> Env,
    writable: bool, broken: bool, room: nat)

  function Min(a: nat, b: nat): nat {
    if a < b then a else b
  }

  // ----- what a struct stands for

  predicate Represents(r: Record, cl: Client) {
    && |r.reqBuf| == REQ_BUF_SIZE && r.reqLen < REQ_BUF_SIZE && r.reqBuf[..r.reqLen] == cl.req
    && r.cacheKey == cl.key && r.resp == BufferOf(cl)
    && match cl.phase
       case Reading => r.state.StateReading?
       case Aio(_, size) =>
         && r.state.StateAio? && r.aioBytes == size && r.aioOffset == |Header(size)|
         && r.respSize == r.aioOffset + size && r.respSent == 0
       case Writing(_, sent) =>
         && r.state.StateWriting? && r.respSent == sent
         && cl.responses != [] && r.respSize == |cl.responses[|cl.responses| - 1]|
       case SendFile(file, offset, remaining) =>
         r.state.StateSendFile? && r.sfFile == file && r.sfOffset == offset && r.sfRemaining == remaining
  }

  function Sock(recs: seq<Record>, i: nat): nat
    requires i < |recs|
  {
    recs[i].sock
  }

  ghost function Socks(recs: seq<Record>): set<nat> {
    set i | 0 <= i < |recs| :: Sock(recs, i)
  }

  /** The structs in use stand for the clients, one each. */
  ghost predicate Table(recs: seq<Record>, cls: map<nat, Client>) {
    && (forall i | 0 <= i < |recs| :: Sock(recs, i) in cls && Represents(recs[i], cls[Sock(recs, i)]))
    && (forall i, j | 0 <= i < j < |recs| :: Sock(recs, i) != Sock(recs, j))
    && cls.Keys == Socks(recs)
  }

  lemma TableUpdate(recs: seq<Record>, cls: map<nat, Client>, i: nat, r: Record, cl: Client)
    requires Table(recs, cls) && i < |recs| && r.sock == recs[i].sock && Represents(r, cl)
    ensures Table(recs[i := r], cls[r.sock := cl])
  {
    var recs' := recs[i := r];
    forall k | 0 <= k < |recs|
      ensures Sock(recs', k) == Sock(recs, k)
    {
    }
    forall k | 0 <= k < |recs| && k != i
      ensures Sock(recs, k) != Sock(recs, i)
    {
    }
    assert Sock(recs, i) in Socks(recs);
    assert Socks(recs') == Socks(recs);
  }

  lemma TableAdd(recs: seq<Record>, cls: map<nat, Client>, r: Record, cl: Client)
    requires Table(recs, cls) && r.sock !in cls && Represents(r, cl)
    ensures Table(recs + [r], cls[r.sock := cl])
  {
    var recs' := recs + [r];
    forall k | 0 <= k < |recs|
      ensures Sock(recs', k) == Sock(recs, k) && Sock(recs', k) in cls && Sock(recs', k) != r.sock
    {
      assert Sock(recs, k) in Socks(recs);
    }
    assert Sock(recs', |recs|) == r.sock;
    assert Socks(recs') == Socks(recs) + {r.sock};
  }

  /** remove_client's compaction: the last struct takes the place of the one removed. */
  function SwapRemove(recs: seq<Record>, i: nat): seq<Record>
    requires i < |recs|
  {
    recs[i := recs[|recs| - 1]][..|recs| - 1]
  }

  lemma SwapSocks(recs: seq<Record>, i: nat)
    requires i < |recs| && forall j, k | 0 <= j < k < |recs| :: Sock(recs, j) != Sock(recs, k)
    ensures Socks(SwapRemove(recs, i)) == Socks(recs) - {Sock(recs, i)}
  {
    var recs' := SwapRemove(recs, i);
    var last := |recs| - 1;
    forall c | c in Socks(recs) && c != Sock(recs, i)
      ensures c in Socks(recs')
    {
      var k :| 0 <= k < |recs| && Sock(recs, k) == c;
      assert Sock(recs', if k == last then i else k) == c;
    }
    forall c | c in Socks(recs')
      ensures c in Socks(recs) && c != Sock(recs, i)
    {
      var k :| 0 <= k < |recs'| && Sock(recs', k) == c;
      assert c == Sock(recs, if k == i then last else k);
    }
  }

  lemma TableRemove(recs: seq<Record>, cls: map<nat, Client>, i: nat)
    requires Table(recs, cls) && i < |recs|
    ensures Table(SwapRemove(recs, i), cls - {recs[i].sock})
  {
    var recs' := SwapRemove(recs, i);
    var last := |recs| - 1;
    forall k | 0 <= k < last
      ensures Sock(recs', k) == Sock(recs, if k == i then last else k)
      ensures Sock(recs', k) != Sock(recs, i) && recs'[k] == recs[if k == i then last else k]
    {
    }
    SwapSocks(recs, i);
    assert (cls - {Sock(recs, i)}).Keys == Socks(recs');
  }

  lemma {:induction false} SocksSize(recs: seq<Record>)
    requires forall i, j | 0 <= i < j < |recs| :: Sock(recs, i) != Sock(recs, j)
    ensures |Socks(recs)| == |recs|
  {
    if recs != [] {
      var rest := recs[..|recs| - 1];
      forall i | 0 <= i < |rest|
        ensures Sock(rest, i) == Sock(recs, i)
      {
      }
      SocksSize(rest);
      assert Socks(recs) == Socks(rest) + {Sock(recs, |rest|)};
      assert Sock(recs, |rest|) !in Socks(rest);
    }
  }

  /** The property holds at the start and every event keeps it. */
  ghost predicate Inductive(P: State -> bool) {
    P(START) && forall s, e :: P(s) && Enabled(s, e) && CacheLive(s) ==> P(Step(s, e))
  }

  /** The state has every such property: it is one that events can lead to. */
  ghost predicate Sound(s: State) {
    forall P: State -> bool | Inductive(P) :: P(s)
  }

  lemma StartIsSound()
    ensures Sound(START)
  {
  }

  lemma SoundInv(s: State)
    requires Sound(s)
    ensures Inv(s) && CacheLive(s)
  {
    var P: State -> bool := x => Inv(x);
    StartInv();
    forall x, e | P(x) && Enabled(x, e) && CacheLive(x)
      ensures P(Step(x, e))
    {
      StepKeepsInv(x, e);
    }
    assert Inductive(P);
    HeapCacheLive(s);
  }

  lemma SoundStep(s: State, e: Event)
    requires Sound(s) && Enabled(s, e)
    ensures CacheLive(s) && Sound(Step(s, e))
  {
    SoundInv(s);
  }

  /** So whatever holds at the end of every run holds of the server. */
  lemma SoundIsReachable(s: State)
    requires Sound(s)
    ensures exists events :: Runs(START, events) && After(START, events) == s
  {
    var P: State -> bool := x => exists events :: Runs(START, events) && After(START, events) == x;
    assert Runs(START, []) && After(START, []) == START;
    forall x, e | P(x) && Enabled(x, e) && CacheLive(x)
      ensures P(Step(x, e))
    {
      var events :| Runs(START, events) && After(START, events) == x;
      RunsSnoc(START, events, e);
    }
    assert Inductive(P);
  }

  ghost predicate MemoryOk(mem: map<nat, Bytes>, heap: map<nat, Buffer>) {
    mem.Keys == heap.Keys && forall b | b in heap :: mem[b] == heap[b].bytes
  }

  /** The line becomes a C string in place, its name is copied, and what follows is moved to the front. */
  method CutBuffer(reqBuf: Bytes, reqLen: nat, nl: nat) returns (buf: Bytes, name: Bytes)
    requires nl < reqLen <= |reqBuf|
    ensures name == CString(Terminate(reqBuf, nl))
    ensures NamedBy(reqBuf[..nl], name)
    ensures buf == Terminate(reqBuf, nl)[nl + 1..reqLen] + Terminate(reqBuf, nl)[reqLen - nl - 1..]
  {
    buf := reqBuf[nl := NUL];
    if nl > 0 && buf[nl - 1] == CR {
      buf := buf[nl - 1 := NUL];
    }
    name := CString(buf);
    CStringIsName(reqBuf, nl);
    NameLaws(reqBuf[..nl]);
    buf := buf[nl + 1..reqLen] + buf[reqLen - nl - 1..];
  }

  class Server {
    const clients: array<Record>
    var numClients: nat
    const cache: ArrayCache.Cache<nat>
    var mem: map<nat, Bytes>
    var next: nat
    ghost var now: State

    /** The globals stand for `now`. */
    ghost predicate Linked()
      reads this, clients, cache, cache.entries
    {
      && clients.Length == MAX_CLIENTS && numClients <= MAX_CLIENTS
      && cache.Valid() && cache.entries.Length == MAX_CACHE_ENTRIES && cache.Contents() == now.cache
      && next == now.next && MemoryOk(mem, now.heap)
      && Table(clients[..numClients], now.clients)
    }

    ghost predicate Valid()
      reads this, clients, cache, cache.entries
    {
      Linked() && Sound(now)
    }

    constructor ()
      ensures Valid() && now == START && fresh(clients) && fresh(cache) && fresh(cache.entries)
    {
      var unused := Record(0, [], 0, StateReading, None, 0, 0, 0, 0, [], 0, 0, "");
      clients := new Record[MAX_CLIENTS](_ => unused);
      numClients := 0;
      cache := new ArrayCache.Cache<nat>(MAX_CACHE_ENTRIES, 0);
      mem, next := map[], 0;
      now := START;
      new;
      StartIsSound();
      assert clients[..numClients] == [];
      assert now.clients.Keys == Socks([]);
    }

    /** The client whose struct is at index `i`. */
    ghost predicate At(i: nat, c: nat)
      reads this, clients
    {
      i < numClients <= clients.Length && clients[i].sock == c
    }

    // ----- memory

    method Release(b: nat)
      requires Linked()
      modifies this
      ensures Linked() && now == Free(old(now), b) && numClients == old(numClients)
    {
      mem := mem - {b};
      now := Free(now, b);
    }

    method Allocate(bytes: Bytes, ghost owner: Owner) returns (b: nat)
      requires Linked()
      modifies this
      ensures Linked() && b == old(now.next) && now == Malloc(old(now), bytes, owner) && numClients == old(numClients)
    {
      b := next;
      mem, next := mem[b := bytes], next + 1;
      now := Malloc(now, bytes, owner);
    }

    // ----- the cache

    /** cache_insert */
    method CachePut(key: Path, b: nat)
      requires Linked()
      modifies this, cache, cache.entries
      ensures Linked() && now == CacheInsert(old(now), key, b) && numClients == old(numClients)
    {
      var dropped := cache.Insert(key, b);
      if dropped.Some? {
        mem := mem - {dropped.value};
      }
      now := CacheInsert(now, key, b);
    }

    /** cache_clear */
    method CacheFlush()
      requires Linked()
      modifies this, cache
      ensures Linked() && now == CacheClear(old(now)) && numClients == old(numClients)
    {
      ghost var ids := Ids(now.cache);
      for i := 0 to cache.size
        invariant mem == old(mem) - (set b | b in ids[..i]) && unchanged(this`now) && unchanged(this`next)
        invariant unchanged(this`numClients) && unchanged(cache)
      {
        assert ids[..i + 1] == ids[..i] + [ids[i]];
        mem := mem - {cache.entries[i].resp};
      }
      assert ids[..cache.size] == ids;
      cache.Clear();
      now := CacheClear(now);
    }

    // ----- a client's struct

    /** The struct at `i` is overwritten; `cl` is what it stands for from now on. */
    method Store(i: nat, r: Record, ghost cl: Client)
      requires Linked() && i < numClients && r.sock == clients[i].sock && Represents(r, cl)
      modifies this`now, clients
      ensures Linked() && now == Update(old(now), r.sock, cl) && clients[i] == r
      ensures forall j | 0 <= j < numClients && j != i :: clients[j] == old(clients[j])
    {
      TableUpdate(clients[..numClients], now.clients, i, r, cl);
      clients[i] := r;
      assert clients[..numClients] == old(clients[..numClients])[i := r];
      now := Update(now, r.sock, cl);
    }

    /** sock_send of an error line, which completes; no field changes. */
    method SendError(i: nat, reason: string)
      requires Linked() && i < numClients && clients[i].state.StateReading?
      modifies this`now
      ensures Linked() && clients[i].sock in old(now).clients
      ensures now == Refuse(old(now), clients[i].sock, old(now).clients[clients[i].sock], reason)
    {
      ghost var c := clients[i].sock;
      assert Sock(clients[..numClients], i) == c;
      ghost var cl := now.clients[c];
      TableUpdate(clients[..numClients], now.clients, i, clients[i],
                  cl.(out := cl.out + Err(reason), responses := cl.responses + [Err(reason)]));
      assert clients[..numClients][i := clients[i]] == clients[..numClients];
      now := Refuse(now, c, cl, reason);
    }

    /** add_client */
    method AddClient(c: nat)
      requires Linked() && c !in now.clients && numClients < MAX_CLIENTS
      modifies this`now, this`numClients, clients
      ensures Linked() && now == Update(old(now), c, NEW_CLIENT)
      ensures numClients == old(numClients) + 1 && clients[old(numClients)].sock == c
      ensures forall j | 0 <= j < old(numClients) :: clients[j] == old(clients[j])
    {
      var r := Record(c, seq(REQ_BUF_SIZE, k => 0), 0, StateReading, None, 0, 0, 0, 0, [], 0, 0, "");
      assert r.reqBuf[..0] == [];
      TableAdd(clients[..numClients], now.clients, r, NEW_CLIENT);
      clients[numClients] := r;
      numClients := numClients + 1;
      assert clients[..numClients] == old(clients[..numClients]) + [r];
      now := Update(now, c, NEW_CLIENT);
    }

    /** The last struct takes the place of the one at `i`. */
    method Compact(i: nat)
      requires Linked() && i < numClients
      modifies this`now, this`numClients, clients
      ensures Linked() && now == old(now).(clients := old(now).clients - {old(clients[i].sock)})
      ensures numClients == old(numClients) - 1
      ensures forall j | 0 <= j < i :: clients[j] == old(clients[j])
    {
      ghost var c := clients[i].sock;
      ghost var recs := clients[..numClients];
      TableRemove(recs, now.clients, i);
      numClients := numClients - 1;
      clients[i] := clients[numClients];
      assert clients[..numClients] == SwapRemove(recs, i);
      now := now.(clients := now.clients - {c});
    }

    /** remove_client: the buffer is freed, if there is one, and the array compacted. */
    method RemoveAt(i: nat)
      requires Linked() && i < numClients
      modifies this, clients
      ensures Linked() && old(clients[i].sock) in old(now).clients
      ensures now == RemoveClient(old(now), old(clients[i].sock))
      ensures numClients == old(numClients) - 1
      ensures forall j | 0 <= j < i :: clients[j] == old(clients[j])
    {
      assert Sock(clients[..numClients], i) == clients[i].sock;
      var resp := clients[i].resp;
      if resp.Some? {
        Release(resp.value);
      }
      Compact(i);
    }

    // ----- begin_file_serve

    /** The part that goes to the disk. */
    method ServeDisk(i: nat, env: Env)
      requires Linked() && i < numClients && clients[i].state.StateReading?
      modifies this, clients
      ensures Linked() && numClients == old(numClients) && clients[i].sock == old(clients[i].sock)
      ensures var c := clients[i].sock;
              c in old(now).clients && now == ServeFromDisk(old(now), c, old(now).clients[c], env)
      ensures forall j | 0 <= j < numClients && j != i :: clients[j] == old(clients[j])
    {
      match env.stat
      case StatFailed => SendError(i, "stat failed");
      case NotRegular => SendError(i, "not a regular file");
      case OpenFailed => SendError(i, "open failed");
      case File(file) =>
        if |file| > MAX_CACHE_FILE_SIZE {
          BeginSendFile(i, file);
        } else if !env.mallocOk {
          SendError(i, "out of memory");
        } else {
          BeginAio(i, |file|, env);
        }
    }

    /** Large file: the header is sent, the rest goes by sendfile. */
    method BeginSendFile(i: nat, file: Bytes)
      requires Linked() && i < numClients && clients[i].state.StateReading?
      modifies this`now, clients
      ensures Linked() && Same(i)
      ensures clients[i].sock in old(now).clients
      ensures now == StartSendFile(old(now), clients[i].sock, old(now).clients[clients[i].sock], file)
    {
      var r := clients[i];
      assert Sock(clients[..numClients], i) == r.sock;
      ghost var cl := now.clients[r.sock];
      Store(i, r.(sfFile := file, sfOffset := 0, sfRemaining := |file|, state := StateSendFile),
            cl.(phase := SendFile(file, 0, |file|), out := cl.out + Header(|file|),
                responses := cl.responses + [Ok(file)]));
      now := Observe(now, Observation(cl.key, file, [], LastBegun(cl)));
    }

    /** Small file: a read is started into a new buffer, which is freed again if that fails. */
    method BeginAio(i: nat, size: nat, env: Env)
      requires Linked() && i < numClients && clients[i].state.StateReading?
      modifies this, clients
      ensures Linked() && Same(i)
      ensures var c := clients[i].sock; var s := old(now);
              && c in s.clients
              && now == if env.aioOk then StartAio(s, c, s.clients[c], size, env.garbage)
                        else Refuse(Free(Malloc(s, RoomFor(size, env.garbage), OfClient(c)), s.next),
                                    c, s.clients[c], "aio_read failed")
    {
      var r := clients[i];
      assert Sock(clients[..numClients], i) == r.sock;
      ghost var cl := now.clients[r.sock];
      var b := Allocate(RoomFor(size, env.garbage), OfClient(r.sock));
      if !env.aioOk {
        Release(b);
        SendError(i, "aio_read failed");
        return;
      }
      var h := |Header(size)|;
      Store(i, r.(resp := Some(b), respSize := h + size, respSent := 0, aioOffset := h, aioBytes := size,
                  state := StateAio),
            cl.(phase := Aio(b, size)));
    }

    /** begin_file_serve */
    method BeginServe(i: nat, name: Bytes, env: Env)
      requires Linked() && i < numClients && clients[i].state.StateReading? && CacheLive(now)
      modifies this, clients
      ensures Linked() && numClients == old(numClients) && clients[i].sock == old(clients[i].sock)
      ensures var c := clients[i].sock;
              c in old(now).clients && now == BeginFileServe(old(now), c, old(now).clients[c], name, env)
      ensures forall j | 0 <= j < numClients && j != i :: clients[j] == old(clients[j])
    {
      assert Sock(clients[..numClients], i) == clients[i].sock;
      if name == [] {
        SendError(i, "empty filename");
      } else if name[0] == SLASH {
        SendError(i, "absolute paths not allowed");
      } else if env.path.NotFound? {
        SendError(i, "not found");
      } else if env.path.Denied? {
        SendError(i, "access denied");
      } else {
        ServePath(i, env.path.key, env);
      }
    }

    /** From the cache if the file is there and a copy can be made, else from the disk. */
    method ServePath(i: nat, key: Path, env: Env)
      requires Linked() && i < numClients && clients[i].state.StateReading? && CacheLive(now)
      modifies this, clients
      ensures Linked() && numClients == old(numClients) && clients[i].sock == old(clients[i].sock)
      ensures var c := clients[i].sock; var s := old(now);
              && c in s.clients
              && var cl1 := s.clients[c].(key := key); var hit := Get(s.cache, key);
              now == if hit.Some? && env.copyOk
                     then ServeFromCache(s, c, cl1, hit.value) else ServeFromDisk(s, c, cl1, env)
      ensures forall j | 0 <= j < numClients && j != i :: clients[j] == old(clients[j])
    {
      var r := clients[i].(cacheKey := key);
      assert Sock(clients[..numClients], i) == r.sock;
      ghost var s := now;
      ghost var cl := now.clients[r.sock].(key := key);
      Store(i, r, cl);
      var hit := cache.Lookup(key);
      if hit.Some? && env.copyOk {
        var bytes := mem[hit.value];
        var b := Allocate(bytes, OfClient(r.sock));
        Store(i, r.(resp := Some(b), respSize := |bytes|, respSent := 0, state := StateWriting),
              cl.(phase := Writing(b, 0), responses := cl.responses + [bytes]));
        CacheOverwrites(s, r.sock, cl, cl, hit.value);
      } else {
        assert Sock(clients[..numClients], i) == r.sock;
        ServeDisk(i, env);
        Overwritten(s, r.sock, cl, env);
      }
    }

    // ----- check_aio

    /** The read failed: an error line stands in for the response. */
    method FailAio(i: nat)
      requires Linked() && CacheLive(now) && i < numClients && clients[i].state.StateAio?
      modifies this, clients
      ensures Linked() && Same(i) && clients[i].state.StateReading?
      ensures AioServer.Enabled(old(now), AioError(clients[i].sock))
      ensures now == Step(old(now), AioError(clients[i].sock))
    {
      var r := clients[i];
      assert Sock(clients[..numClients], i) == r.sock;
      ghost var s, cl := now, now.clients[r.sock];
      Release(r.resp.value);
      Store(i, r.(resp := None, state := StateReading), cl.(phase := Reading));
      SendError(i, "read error");
      RefuseOverwrites(Free(s, cl.phase.buf), r.sock, cl.(phase := Reading), "read error");
    }

    /** Only the struct at `i` may have changed. */
    twostate predicate Same(i: nat)
      reads this, clients
    {
      && numClients == old(numClients) <= clients.Length
      && i < numClients && clients[i].sock == old(clients[i].sock)
      && forall j | 0 <= j < numClients && j != i :: clients[j] == old(clients[j])
    }

    /** What the read delivered is now in the buffer. */
    method FillBuffer(i: nat, bytes: Bytes)
      requires Linked() && i < numClients && clients[i].state.StateAio?
      modifies this
      ensures Linked() && numClients == old(numClients)
      ensures clients[i].sock in old(now).clients && old(now).clients[clients[i].sock].phase.Aio?
      ensures now == Filled(old(now), clients[i].sock, bytes)
    {
      assert Sock(clients[..numClients], i) == clients[i].sock;
      var b := clients[i].resp.value;
      mem := mem[b := bytes];
      now := Filled(now, clients[i].sock, bytes);
    }

    /** A copy of a small response goes to the cache, if there is memory for it. */
    method CacheCopy(size: nat, key: Path, bytes: Bytes, copyOk: bool)
      requires Linked()
      modifies this, cache, cache.entries
      ensures Linked() && numClients == old(numClients)
      ensures now == if size <= MAX_CACHE_FILE_SIZE + 64 && key != "" && copyOk
                     then Inserted(old(now), key, bytes) else old(now)
    {
      if size <= MAX_CACHE_FILE_SIZE + 64 && key != "" && copyOk {
        var copy := Allocate(bytes, InCache(key));
        CachePut(key, copy);
      }
    }

    /** The read is complete: if there is memory for it a copy goes to the cache, and sending begins. */
    method CompleteAio(i: nat, data: Bytes, copyOk: bool)
      requires Linked() && i < numClients && clients[i].state.StateAio? && AtRest(now, clients[i].sock)
      requires |data| <= clients[i].aioBytes
      modifies this, clients, cache, cache.entries
      ensures Linked() && Same(i) && clients[i].state.StateWriting?
      ensures AioServer.Enabled(old(now), AioDone(clients[i].sock, data, copyOk))
      ensures now == FinishAio(old(now), clients[i].sock, data, copyOk)
    {
      ghost var s, c := now, clients[i].sock;
      assert Sock(clients[..numClients], i) == c;
      var bytes := ReadInto(mem[clients[i].resp.value], clients[i].aioOffset, data);
      FillBuffer(i, bytes);
      CacheCopy(clients[i].respSize, clients[i].cacheKey, bytes, copyOk);
      ghost var s2 := now;
      EnterWriting(i, bytes, s.clients[c]);
      ghost var junk := bytes[|bytes| - s.clients[c].phase.size + |data|..];
      now := Observe(now, Observation(s.clients[c].key, data, junk, LastBegun(s.clients[c])));
      FinishIs(s, c, bytes, data, copyOk);
    }

    method EnterWriting(i: nat, bytes: Bytes, ghost cl: Client)
      requires Linked() && i < numClients && clients[i].state.StateAio? && Represents(clients[i], cl)
      requires |bytes| == clients[i].respSize
      modifies this`now, clients
      ensures Linked() && Same(i) && clients[i].state.StateWriting? && cl.phase.Aio?
      ensures now == Update(old(now), clients[i].sock,
                            cl.(phase := Writing(cl.phase.buf, 0), responses := cl.responses + [bytes]))
    {
      var r := clients[i];
      Store(i, r.(state := StateWriting), cl.(phase := Writing(cl.phase.buf, 0), responses := cl.responses + [bytes]));
    }

    // ----- sending

    /** The write took `n` bytes of what is left of the response. */
    method WriteChunk(i: nat, n: nat)
      requires Linked() && i < numClients && clients[i].state.StateWriting? && AtRest(now, clients[i].sock)
      requires clients[i].respSent + n <= clients[i].respSize
      modifies this, clients
      ensures Linked() && Same(i)
      ensures AioServer.Enabled(old(now), Wrote(clients[i].sock, n))
      ensures now == WriteSome(old(now), clients[i].sock, n)
    {
      var r := clients[i];
      assert Sock(clients[..numClients], i) == r.sock;
      ghost var cl := now.clients[r.sock];
      ghost var bytes := now.heap[cl.phase.buf].bytes;
      var sent := r.respSent + n;
      if sent == r.respSize {
        Release(r.resp.value);
        Store(i, r.(respSent := sent, resp := None, state := StateReading), WroteClient(cl, bytes, n));
      } else {
        Store(i, r.(respSent := sent), WroteClient(cl, bytes, n));
      }
    }

    /** sendfile took `n` bytes of what is left of the file. */
    method SendChunk(i: nat, n: nat)
      requires Linked() && i < numClients && clients[i].state.StateSendFile? && AtRest(now, clients[i].sock)
      requires n <= clients[i].sfRemaining
      modifies this, clients
      ensures Linked() && Same(i)
      ensures AioServer.Enabled(old(now), Sent(clients[i].sock, n))
      ensures now == SendSome(old(now), clients[i].sock, n)
    {
      var r := clients[i];
      assert Sock(clients[..numClients], i) == r.sock;
      ghost var cl := now.clients[r.sock];
      var left := r.sfRemaining - n;
      Store(i, r.(sfOffset := r.sfOffset + n, sfRemaining := left,
                  state := if left == 0 then StateReading else StateSendFile),
            SentClient(cl, n));
    }

    // ----- reading

    /**
      The first line is made a C string in place, its name copied, the rest of the buffer moved to the
      front, and the request begun.
     */
    method TakeUp(i: nat, env: Env)
      requires Linked() && CacheLive(now) && i < numClients
      requires AioServer.Enabled(now, Begin(clients[i].sock, env))
      modifies this, clients
      ensures Linked() && Same(i)
      ensures now == TakeLine(old(now), clients[i].sock, env)
    {
      ghost var s, c := now, clients[i].sock;
      assert Sock(clients[..numClients], i) == c;
      var name := CutLine(i, env.path);
      BeginServe(i, name, env);
      BeginOverwrites(s, c, Cut(s.clients[c], env.path, s.flushes), name, env);
    }

    method CutLine(i: nat, ghost path: Resolution) returns (name: Bytes)
      requires Linked() && i < numClients && clients[i].state.StateReading?
      requires clients[i].reqLen <= |clients[i].reqBuf|
      requires Find(clients[i].reqBuf[..clients[i].reqLen], NL) < clients[i].reqLen
      modifies this`now, clients
      ensures Linked() && Same(i) && clients[i].state.StateReading? && NUL !in name
      ensures var c := clients[i].sock; var s := old(now);
              && c in s.clients && Find(s.clients[c].req, NL) < |s.clients[c].req|
              && name == Name(s.clients[c].req[..Find(s.clients[c].req, NL)])
              && now == Update(s, c, Cut(s.clients[c], path, s.flushes))
      ensures forall x | NextIs(old(now).clients[clients[i].sock].req, x) :: name == x
    {
      var r := clients[i];
      assert Sock(clients[..numClients], i) == r.sock;
      var nl := Find(r.reqBuf[..r.reqLen], NL);
      var left := r.reqLen - nl - 1;
      var buf;
      buf, name := CutBuffer(r.reqBuf, r.reqLen, nl);
      CutRepresents(r, now.clients[r.sock], nl, path, now.flushes);
      forall x | NextIs(now.clients[r.sock].req, x)
        ensures name == x
      {
        FirstName(now.clients[r.sock].req, x);
      }
      Store(i, r.(reqBuf := buf, reqLen := left), Cut(now.clients[r.sock], path, now.flushes));
    }

    /** What was read is in the buffer behind what was there. */
    method Append(i: nat, bytes: Bytes)
      requires Linked() && CacheLive(now) && i < numClients && clients[i].state.StateReading?
      requires 0 < |bytes| <= REQ_BUF_SIZE - 1 - clients[i].reqLen
      modifies this`now, clients
      ensures Linked() && Same(i) && clients[i].state.StateReading?
      ensures AioServer.Enabled(old(now), Receive(clients[i].sock, bytes))
      ensures now == Step(old(now), Receive(clients[i].sock, bytes))
    {
      var r := clients[i];
      assert Sock(clients[..numClients], i) == r.sock;
      ghost var cl := now.clients[r.sock];
      var len := r.reqLen + |bytes|;
      var buf := r.reqBuf[..r.reqLen] + bytes + r.reqBuf[len..];
      assert buf[..len] == cl.req + bytes;
      Store(i, r.(reqBuf := buf, reqLen := len), cl.(req := cl.req + bytes, received := cl.received + bytes));
    }

    // ----- one pass of the event loop over a client

    /** The server is where these events lead from `start`. */
    ghost predicate Reached(start: State, events: seq<Event>)
      reads this
    {
      Runs(start, events) && now == After(start, events) && Sound(now)
    }

    /** The server has done exactly this one step from `s`. */
    ghost predicate Did(s: State, e: Event)
      reads this
    {
      AioServer.Enabled(s, e) && CacheLive(s) && now == Step(s, e) && Sound(now)
    }

    /** The structs below `i` are untouched, and the one at `i` stands for the same client unless that was removed. */
    twostate predicate Below(i: nat)
      reads this, clients
    {
      && numClients <= clients.Length && old(numClients) - 1 <= numClients <= old(numClients)
      && i <= numClients
      && (numClients == old(numClients) ==> i < numClients && clients[i].sock == old(clients[i].sock))
      && forall j | 0 <= j < i :: clients[j] == old(clients[j])
    }

    method Drop(i: nat)
      requires Valid() && i < numClients
      modifies this, clients
      ensures Linked() && Did(old(now), Remove(old(clients[i].sock))) && Below(i) && numClients == old(numClients) - 1
    {
      ghost var c := clients[i].sock;
      assert Sock(clients[..numClients], i) == c;
      ghost var s := now;
      SoundInv(s);
      RemoveAt(i);
      Stepped(s, Remove(c));
    }

    method Input(i: nat, bytes: Bytes)
      requires Valid() && i < numClients && clients[i].state.StateReading?
      requires 0 < |bytes| <= REQ_BUF_SIZE - 1 - clients[i].reqLen
      modifies this, clients
      ensures Linked() && Did(old(now), Receive(clients[i].sock, bytes)) && Same(i) && clients[i].state.StateReading?
    {
      ghost var s, c := now, clients[i].sock;
      SoundInv(s);
      Append(i, bytes);
      Stepped(s, Receive(c, bytes));
    }

    /** The struct at `i` stands for client `c`. */
    ghost predicate Stands(i: nat, c: nat)
      reads this, clients
    {
      && i < numClients <= clients.Length && clients[i].sock == c
      && c in now.clients && Represents(clients[i], now.clients[c])
    }

    method TakeOne(i: nat, env: Env)
      requires Valid() && i < numClients && AioServer.Enabled(now, Begin(clients[i].sock, env))
      modifies this, clients
      ensures Linked() && Did(old(now), Begin(clients[i].sock, env)) && Same(i)
      ensures Stands(i, clients[i].sock) && clients[i].reqLen < old(clients[i].reqLen)
    {
      ghost var s, c := now, clients[i].sock;
      assert Sock(clients[..numClients], i) == c;
      SoundInv(s);
      TakeUp(i, env);
      TakesALine(s, c, env);
      ghost var _ := SockAt(i);
      Stepped(s, Begin(c, env));
    }

    /** One more line after the first `n` since `start`. */
    method TakeNext(i: nat, env: nat -> Env, n: nat, ghost start: State)
      requires Linked() && i < numClients && Stands(i, clients[i].sock)
      requires Reached(start, Begins(clients[i].sock, env, n))
      requires clients[i].state.StateReading? && Find(clients[i].reqBuf[..clients[i].reqLen], NL) < clients[i].reqLen
      modifies this, clients
      ensures Linked() && Same(i) && Stands(i, clients[i].sock) && clients[i].reqLen < old(clients[i].reqLen)
      ensures Reached(start, Begins(clients[i].sock, env, n + 1))
    {
      ghost var c := clients[i].sock;
      OneMore(start, Begins(c, env, n), Begin(c, env(n)));
      BeginsMore(c, env, n);
      TakeOne(i, env(n));
    }

    /** Lines are taken up until there is none left or one of them needs more than an error line. */
    method TakeLines(i: nat, env: nat -> Env) returns (ghost k: nat)
      requires Valid() && i < numClients && clients[i].state.StateReading?
      modifies this, clients
      ensures Linked() && Reached(old(now), Begins(clients[i].sock, env, k)) && Same(i)
      ensures Stands(i, clients[i].sock) && Settled(now.clients[clients[i].sock])
    {
      assert Sock(clients[..numClients], i) == clients[i].sock;
      var n := 0;
      while clients[i].state.StateReading? && Find(clients[i].reqBuf[..clients[i].reqLen], NL) < clients[i].reqLen
        invariant Linked() && Same(i) && Stands(i, clients[i].sock)
        invariant Reached(old(now), Begins(clients[i].sock, env, n))
        decreases clients[i].reqLen
      {
        TakeNext(i, env, n, old(now));
        n := n + 1;
      }
      k := n;
      FindFirst(clients[i].reqBuf[..clients[i].reqLen], NL);
    }

    method TakeInput(i: nat, bytes: Bytes, env: nat -> Env) returns (ghost k: nat)
      requires Valid() && i < numClients && clients[i].state.StateReading?
      requires 0 < |bytes| <= REQ_BUF_SIZE - 1 - clients[i].reqLen
      modifies this, clients
      ensures Linked() && Reached(old(now), Taken(clients[i].sock, bytes, env, k)) && Same(i)
      ensures Stands(i, clients[i].sock) && Settled(now.clients[clients[i].sock])
    {
      ghost var s, c := now, clients[i].sock;
      Input(i, bytes);
      ghost var s1 := now;
      k := TakeLines(i, env);
      RunsCons(s, Receive(c, bytes), s1, Begins(c, env, k));
    }

    /** A buffer that is full without a complete line ends the connection. */
    method CutOff(i: nat, ghost start: State, ghost lines: seq<Event>) returns (ghost events: seq<Event>)
      requires Linked() && Reached(start, lines) && i < numClients && Stands(i, clients[i].sock)
      modifies this, clients
      ensures Linked() && Reached(start, events) && Below(i)
      ensures events == if |old(now).clients[old(clients[i].sock)].req| >= REQ_BUF_SIZE - 1
              then lines + [Remove(old(clients[i].sock))] else lines
      ensures numClients == old(numClients) ==> now == old(now) && clients[i] == old(clients[i])
    {
      events := lines;
      if clients[i].reqLen >= REQ_BUF_SIZE - 1 {
        events := lines + [Remove(clients[i].sock)];
        OneMore(start, lines, Remove(clients[i].sock));
        Drop(i);
      }
    }

    /** The STATE_READING part: read what fits, take up lines, give up on a line that is too long. */
    method ReadSome(i: nat, wake: Wake) returns (ghost events: seq<Event>)
      requires Valid() && i < numClients && clients[i].state.StateReading?
      modifies this, clients
      ensures Linked() && Below(i)
      ensures ReadPart(old(now), old(clients[i].sock), wake, events) && Reached(old(now), events)
    {
      ghost var s, c := now, clients[i].sock;
      assert Sock(clients[..numClients], i) == c;
      var n := Min(REQ_BUF_SIZE - 1 - clients[i].reqLen, |wake.input|);
      if n == 0 {
        events := [Remove(c)];
        Drop(i);
        OneEvent(s, Remove(c));
      } else {
        events := ReadBytes(i, wake, n);
      }
    }

    method ReadBytes(i: nat, wake: Wake, n: nat) returns (ghost events: seq<Event>)
      requires Valid() && i < numClients && clients[i].state.StateReading? && clients[i].sock in now.clients
      requires n == Fits(now, clients[i].sock, wake) > 0 && n <= REQ_BUF_SIZE - 1 - clients[i].reqLen
      modifies this, clients
      ensures Linked() && Below(i)
      ensures ReadPart(old(now), old(clients[i].sock), wake, events) && Reached(old(now), events)
    {
      ghost var s, c := now, clients[i].sock;
      ghost var k := TakeInput(i, wake.input[..n], wake.env);
      ReadPartIs(s, c, wake, k);
      events := CutOff(i, s, Taken(c, wake.input[..n], wake.env, k));
    }

    /** The STATE_WRITING part: as much as the socket takes of what is left. */
    method WriteOn(i: nat, room: nat) returns (n: nat)
      requires Valid() && i < numClients && clients[i].state.StateWriting?
      modifies this, clients
      ensures Linked() && Same(i)
      ensures var c := clients[i].sock;
              && c in old(now).clients && old(now).clients[c].phase.Writing?
              && n == Min(room, LeftToWrite(old(now), c)) && Did(old(now), Wrote(c, n))
    {
      ghost var s, c := now, clients[i].sock;
      Rests(s, SockAt(i));
      n := Min(room, clients[i].respSize - clients[i].respSent);
      WriteChunk(i, n);
      Stepped(s, Wrote(c, n));
    }

    /** The client at `i`. */
    ghost function SockAt(i: nat): (c: nat)
      reads this, clients, cache, cache.entries
      requires Linked() && i < numClients
      ensures c == clients[i].sock && c in now.clients && Represents(clients[i], now.clients[c])
    {
      assert Sock(clients[..numClients], i) == clients[i].sock;
      clients[i].sock
    }

    /** A step of the server keeps the invariant. */
    lemma Stepped(s: State, e: Event)
      requires Sound(s) && AioServer.Enabled(s, e) && CacheLive(s) && now == Step(s, e)
      ensures Did(s, e)
    {
      SoundStep(s, e);
    }

    /** The STATE_SENDFILE part. */
    method SendFileOn(i: nat, room: nat) returns (n: nat)
      requires Valid() && i < numClients && clients[i].state.StateSendFile?
      modifies this, clients
      ensures Linked() && Same(i)
      ensures var c := clients[i].sock;
              && c in old(now).clients && old(now).clients[c].phase.SendFile?
              && n == Min(room, old(now).clients[c].phase.remaining) && Did(old(now), Sent(c, n))
    {
      ghost var s, c := now, clients[i].sock;
      assert Sock(clients[..numClients], i) == c;
      Rests(s, c);
      n := Min(room, clients[i].sfRemaining);
      SendChunk(i, n);
      Stepped(s, Sent(c, n));
    }

    /** check_aio, when the read is over; it has delivered at most the bytes asked for. */
    method CheckAio(i: nat, outcome: ReadStatus)
      requires Valid() && i < numClients && clients[i].state.StateAio? && !outcome.InProgress?
      modifies this, clients, cache, cache.entries
      ensures Linked() && Same(i)
      ensures if outcome.Failed? then clients[i].state.StateReading? else clients[i].state.StateWriting?
      ensures var c := clients[i].sock;
              && c in old(now).clients && old(now).clients[c].phase.Aio?
              && Did(old(now), AioEvent(old(now), c, outcome))
    {
      ghost var s, c := now, clients[i].sock;
      assert Sock(clients[..numClients], i) == c;
      Rests(s, c);
      if outcome.Failed? {
        FailAio(i);
      } else {
        CompleteAio(i, outcome.data[..Min(|outcome.data|, clients[i].aioBytes)], outcome.copyOk);
      }
      Stepped(s, AioEvent(s, c, outcome));
    }

    /** The part of a pass that is concerned with an asynchronous read, and what follows an error. */
    method AioPart(i: nat, wake: Wake) returns (ghost events: seq<Event>)
      requires Valid() && i < numClients && clients[i].state.StateAio?
      modifies this, clients, cache, cache.entries
      ensures Linked() && Below(i)
      ensures old(clients[i].sock) in old(now).clients && old(now).clients[old(clients[i].sock)].phase.Aio?
      ensures AfterAio(old(now), old(clients[i].sock), wake, events) && Reached(old(now), events)
    {
      ghost var s, c := now, clients[i].sock;
      assert Sock(clients[..numClients], i) == c;
      events := [];
      if !wake.aio.InProgress? {
        CheckAio(i, wake.aio);
        ghost var e := AioEvent(s, c, wake.aio);
        events := [e];
        if clients[i].state.StateReading? && wake.readable {
          ghost var s1 := now;
          ghost var more := ReadSome(i, wake);
          RunsCons(s, e, s1, more);
          events := [e] + more;
          assert events[1..] == more;
        } else {
          OneEvent(s, e);
        }
      }
    }

    /** The part of a pass that sends; the descriptor set for writing was built before the pass. */
    method SendPart(i: nat, wake: Wake) returns (ghost events: seq<Event>)
      requires Valid() && i < numClients && (clients[i].state.StateWriting? || clients[i].state.StateSendFile?)
      modifies this, clients
      ensures Linked() && Below(i)
      ensures PassPart(old(now), old(clients[i].sock), wake.(readable := false), events) && Reached(old(now), events)
    {
      ghost var s, c := now, clients[i].sock;
      assert Sock(clients[..numClients], i) == c;
      events := [];
      if wake.writable {
        ghost var e;
        if wake.broken {
          Drop(i);
          e := Remove(c);
        } else if clients[i].state.StateWriting? {
          var n := WriteOn(i, wake.room);
          e := Wrote(c, n);
        } else {
          var n := SendFileOn(i, wake.room);
          e := Sent(c, n);
        }
        OneEvent(s, e);
        events := [e];
      }
    }

    /**
      Everything one pass of the event loop does for the client at `i`: exactly the events its phase and
      the environment call for, in this order, and nothing else; structs below `i` are not touched.
     */
    method Pass(i: nat, wake: Wake) returns (ghost events: seq<Event>)
      requires Valid() && i < numClients
      modifies this, clients, cache, cache.entries
      ensures Linked() && Below(i)
      ensures PassPart(old(now), old(clients[i].sock), wake, events) && Reached(old(now), events)
    {
      ghost var s, c := now, clients[i].sock;
      assert Sock(clients[..numClients], i) == c;
      events := [];
      if clients[i].state.StateReading? {
        if wake.readable {
          events := ReadSome(i, wake);
        }
      } else if wake.readable && wake.gone {
        events := [Remove(c)];
        Drop(i);
        OneEvent(s, Remove(c));
      } else if clients[i].state.StateAio? {
        events := AioPart(i, wake);
      } else {
        events := SendPart(i, wake);
      }
    }

    // ----- one iteration of the event loop

    /**
      The loop over the clients, from the last struct to the first, while structs disappear and others
      take their places: every client that was there has its pass exactly once.
     */
    method Turn(wakes: nat -> Wake) returns (ghost order: seq<nat>, ghost parts: seq<seq<Event>>)
      requires Valid()
      modifies this, clients, cache, cache.entries
      ensures Linked() && Reached(old(now), Flatten(parts)) && Passes(old(now), order, wakes, parts)
      ensures order == Backwards(old(clients[..numClients]), 0)
    {
      ghost var start, recs := now, clients[..numClients];
      order, parts := [], [];
      var i: nat := numClients;
      while i > 0
        invariant i <= numClients <= clients.Length && i <= |recs| && Linked()
        invariant Reached(start, Flatten(parts)) && Passes(start, order, wakes, parts)
        invariant forall j | 0 <= j < i :: clients[j] == recs[j]
        invariant order == Backwards(recs, i)
      {
        i := i - 1;
        BackwardsMore(recs, i);
        ghost var part := TurnOne(i, wakes, start, order, parts);
        order, parts := order + [recs[i].sock], parts + [part];
      }
    }

    /** Going through the structs backwards meets every client once. */
    lemma OrderIsOnce()
      requires Linked()
      ensures Once(Backwards(clients[..numClients], 0), now.clients.Keys)
    {
      BackwardsOnce(clients[..numClients]);
    }

    /** The turn of the client at `i`, after the turns of those in `order`. */
    method TurnOne(i: nat, wakes: nat -> Wake, ghost start: State, ghost order: seq<nat>, ghost parts: seq<seq<Event>>)
      returns (ghost part: seq<Event>)
      requires Linked() && Reached(start, Flatten(parts)) && Passes(start, order, wakes, parts) && i < numClients
      modifies this, clients, cache, cache.entries
      ensures Linked() && Below(i) && Reached(start, Flatten(parts + [part]))
      ensures Passes(start, order + [old(clients[i].sock)], wakes, parts + [part])
    {
      var c := clients[i].sock;
      part := Pass(i, wakes(c));
      PassesMore(start, order, wakes, parts, c, part);
      RunsConcat(start, Flatten(parts), part);
      FlattenMore(parts, part);
    }

    /** The accept loop takes connections until there is no room for another client. */
    method AcceptAll(arrivals: seq<nat>) returns (accepted: nat)
      requires Valid()
      requires forall j | 0 <= j < |arrivals| :: arrivals[j] !in now.clients
      requires forall j, k | 0 <= j < k < |arrivals| :: arrivals[j] != arrivals[k]
      modifies this, clients
      ensures Linked() && accepted == Min(|arrivals|, MAX_CLIENTS - old(numClients))
      ensures Reached(old(now), Connects(arrivals[..accepted]))
    {
      ghost var start := now;
      accepted := 0;
      assert arrivals[..0] == [];
      while accepted < |arrivals| && numClients < MAX_CLIENTS
        invariant Linked() && accepted <= |arrivals| && numClients == old(numClients) + accepted
        invariant Reached(start, Connects(arrivals[..accepted]))
        invariant forall j | accepted <= j < |arrivals| :: arrivals[j] !in now.clients.Keys
      {
        assert arrivals[..accepted + 1] == arrivals[..accepted] + [arrivals[accepted]];
        AcceptOne(arrivals[accepted], start, arrivals[..accepted]);
        accepted := accepted + 1;
      }
    }

    method AcceptOne(c: nat, ghost start: State, ghost before: seq<nat>)
      requires Linked() && Reached(start, Connects(before)) && c !in now.clients && numClients < MAX_CLIENTS
      modifies this, clients
      ensures Linked() && numClients == old(numClients) + 1
      ensures Reached(start, Connects(before + [c]))
      ensures now.clients.Keys == old(now).clients.Keys + {c}
    {
      Room();
      OneMore(start, Connects(before), Connect(c));
      ConnectsMore(before, c);
      AddClient(c);
    }

    /** There are as many clients as structs in use. */
    lemma Room()
      requires Linked()
      ensures |now.clients| == numClients
    {
      SocksSize(clients[..numClients]);
      assert |now.clients| == |now.clients.Keys|;
    }

    /**
      One iteration of the event loop: a pending flush, then new connections, then every client's turn.
      It is a run of events; each client that was connected, and each one accepted now, has exactly one
      pass, and in the passes of the latter nothing happens: the descriptor sets do not contain them.
     */
    method Iterate(flush: bool, arrivals: seq<nat>, wakes: nat -> Wake)
      returns (accepted: nat, ghost order: seq<nat>, ghost parts: seq<seq<Event>>)
      requires Valid()
      requires forall j | 0 <= j < |arrivals| :: arrivals[j] !in now.clients
      requires forall j, k | 0 <= j < k < |arrivals| :: arrivals[j] != arrivals[k]
      modifies this, clients, cache, cache.entries
      ensures Valid() && accepted == Min(|arrivals|, MAX_CLIENTS - old(numClients))
      ensures var first := Before(flush, arrivals[..accepted]);
              && Runs(old(now), first)
              && Reached(old(now), first + Flatten(parts))
              && Passes(After(old(now), first), order, NotYet(arrivals, wakes), parts)
      ensures Once(order, old(now).clients.Keys + Set(arrivals[..accepted]))
    {
      ghost var s := now;
      accepted := FlushAndAccept(flush, arrivals);
      OrderIsOnce();
      order, parts := Turn(NotYet(arrivals, wakes));
      RunsConcat(s, Before(flush, arrivals[..accepted]), Flatten(parts));
    }

    method FlushAndAccept(flush: bool, arrivals: seq<nat>) returns (accepted: nat)
      requires Valid()
      requires forall j | 0 <= j < |arrivals| :: arrivals[j] !in now.clients
      requires forall j, k | 0 <= j < k < |arrivals| :: arrivals[j] != arrivals[k]
      modifies this, clients, cache
      ensures Linked() && accepted == Min(|arrivals|, MAX_CLIENTS - old(numClients))
      ensures Reached(old(now), Before(flush, arrivals[..accepted]))
      ensures now.clients.Keys == old(now).clients.Keys + Set(arrivals[..accepted])
    {
      ghost var s := now;
      if flush {
        SoundStep(s, Flush);
        CacheFlush();
        OneEvent(s, Flush);
      }
      ghost var s1 := now;
      accepted := AcceptAll(arrivals);
      ConnectsKeys(s1, arrivals[..accepted]);
      RunsConcat(s, if flush then [Flush] else [], Connects(arrivals[..accepted]));
    }
  }

  // ----- the order of writes to a client does not matter

  lemma WrittenLast(s: State, c: nat, cl: Client, x: Client)
    ensures Update(Update(s, c, cl), c, x) == Update(s, c, x)
  {
    assert s.clients[c := cl][c := x] == s.clients[c := x];
  }

  /** The disk path writes the client last, so it does not matter what was stored for it before. */
  lemma Overwritten(s: State, c: nat, cl: Client, env: Env)
    ensures ServeFromDisk(Update(s, c, cl), c, cl, env) == ServeFromDisk(s, c, cl, env)
  {
    WrittenLast(s, c, cl, ServeFromDisk(s, c, cl, env).clients[c]);
  }

  lemma CacheOverwrites(s: State, c: nat, cl: Client, cl1: Client, b: nat)
    requires b in s.heap
    ensures ServeFromCache(Update(s, c, cl), c, cl1, b) == ServeFromCache(s, c, cl1, b)
  {
    WrittenLast(s, c, cl, ServeFromCache(s, c, cl1, b).clients[c]);
  }

  lemma RefuseOverwrites(s: State, c: nat, cl: Client, reason: string)
    ensures Refuse(Update(s, c, cl), c, cl, reason) == Refuse(s, c, cl, reason)
  {
    WrittenLast(s, c, cl, Refuse(s, c, cl, reason).clients[c]);
  }

  lemma DiskOverwrites(s: State, c: nat, cl: Client, cl1: Client, env: Env)
    ensures ServeFromDisk(Update(s, c, cl), c, cl1, env) == ServeFromDisk(s, c, cl1, env)
  {
    Overwritten(s, c, cl1, env);
    Overwritten(Update(s, c, cl), c, cl1, env);
    assert s.clients[c := cl][c := cl1] == s.clients[c := cl1];
  }

  lemma BeginOverwrites(s: State, c: nat, cl: Client, name: Bytes, env: Env)
    requires CacheLive(s)
    ensures BeginFileServe(Update(s, c, cl), c, cl, name, env) == BeginFileServe(s, c, cl, name, env)
  {
    if name == [] {
      RefuseOverwrites(s, c, cl, "empty filename");
    } else if name[0] == SLASH {
      RefuseOverwrites(s, c, cl, "absolute paths not allowed");
    } else if env.path.NotFound? {
      RefuseOverwrites(s, c, cl, "not found");
    } else if env.path.Denied? {
      RefuseOverwrites(s, c, cl, "access denied");
    } else {
      var cl1 := cl.(key := env.path.key);
      var hit := Get(s.cache, env.path.key);
      if hit.Some? && env.copyOk {
        CacheOverwrites(s, c, cl, cl1, hit.value);
      } else {
        DiskOverwrites(s, c, cl, cl1, env);
      }
    }
  }

  /** check_aio, in the order in which the server does it. */
  lemma FinishIs(s: State, c: nat, bytes: Bytes, data: Bytes, copyOk: bool)
    requires Enabled(s, AioDone(c, data, copyOk))
    requires bytes == ReadInto(s.heap[s.clients[c].phase.buf].bytes, |Header(s.clients[c].phase.size)|, data)
    ensures var cl := s.clients[c]; var h := |Header(cl.phase.size)|;
            FinishAio(s, c, data, copyOk) ==
              Finished(s, c, bytes, Observation(cl.key, data, bytes[h + |data|..], LastBegun(cl)),
                       |bytes| <= MAX_CACHE_FILE_SIZE + 64 && cl.key != "" && copyOk)
  {
  }

  // ----- the request buffer

  /** Terminating the first line in place and moving the rest to the front leaves exactly the rest. */
  lemma MovedDown(buf: Bytes, nl: nat, len: nat)
    requires nl < len < |buf|
    ensures var b := Terminate(buf, nl); var left := len - nl - 1; var moved := b[nl + 1..len] + b[left..];
            |moved| == |buf| && moved[..left] == buf[..len][nl + 1..]
  {
    var b := Terminate(buf, nl);
    assert b[nl + 1..len] == b[nl + 1..][..len - nl - 1] == buf[nl + 1..][..len - nl - 1];
  }

  lemma CutRepresents(r: Record, cl: Client, nl: nat, path: Resolution, flushes: nat)
    requires Represents(r, cl) && nl == Find(cl.req, NL) < |cl.req|
    ensures var b := Terminate(r.reqBuf, nl); var left := r.reqLen - nl - 1;
            && CString(b) == Name(cl.req[..nl])
            && Represents(r.(reqBuf := b[nl + 1..r.reqLen] + b[left..], reqLen := left), Cut(cl, path, flushes))
  {
    CStringIsName(r.reqBuf, nl);
    assert r.reqBuf[..nl] == cl.req[..nl];
    MovedDown(r.reqBuf, nl, r.reqLen);
  }

  /** What holds of a client between events: it has something to send when it is to send, and room to read into. */
  ghost predicate AtRest(s: State, c: nat) {
    && c in s.clients
    && var cl := s.clients[c];
    && |cl.req| < REQ_BUF_SIZE
    && (cl.phase.Aio? ==> cl.phase.buf in s.heap && HasRoom(s.heap[cl.phase.buf].bytes, cl.phase.size))
    && (cl.phase.Writing? ==>
          && cl.phase.buf in s.heap && cl.responses != []
          && s.heap[cl.phase.buf].bytes == cl.responses[|cl.responses| - 1]
          && cl.phase.sent < |s.heap[cl.phase.buf].bytes|)
    && (cl.phase.SendFile? ==> cl.phase.offset + cl.phase.remaining == |cl.phase.file| && cl.phase.remaining > 0)
  }

  lemma Rests(s: State, c: nat)
    requires Sound(s) && c in s.clients
    ensures AtRest(s, c) && CacheLive(s)
  {
    SoundInv(s);
    ClientFacts(s, c);
    if s.clients[c].phase.Aio? {
      AioDue(s, c);
    }
  }

  // ----- what one pass consists of

  lemma {:induction false} RunsSnoc(s: State, events: seq<Event>, e: Event)
    requires Runs(s, events) && Enabled(After(s, events), e) && CacheLive(After(s, events))
    ensures Runs(s, events + [e]) && After(s, events + [e]) == Step(After(s, events), e)
  {
    OneEvent(After(s, events), e);
    RunsConcat(s, events, [e]);
  }

  /** After a run from a good state, one more event. */
  lemma OneMore(s: State, events: seq<Event>, e: Event)
    requires Runs(s, events) && Sound(After(s, events)) && Enabled(After(s, events), e)
    ensures CacheLive(After(s, events))
    ensures Runs(s, events + [e]) && After(s, events + [e]) == Step(After(s, events), e)
    ensures Sound(After(s, events + [e]))
  {
    SoundStep(After(s, events), e);
    RunsSnoc(s, events, e);
  }

  /** The first `k` lines are taken up one after the other. */
  ghost function Begins(c: nat, env: nat -> Env, k: nat): seq<Event> {
    seq(k, i requires 0 <= i => Begin(c, env(i)))
  }

  lemma BeginsMore(c: nat, env: nat -> Env, k: nat)
    ensures Begins(c, env, k + 1) == Begins(c, env, k) + [Begin(c, env(k))]
  {
  }

  predicate Settled(cl: Client) {
    cl.phase.Reading? ==> NL !in cl.req
  }

  lemma FromDiskKeepsInput(s: State, c: nat, cl: Client, env: Env)
    ensures var s' := ServeFromDisk(s, c, cl, env); c in s'.clients && s'.clients[c].req == cl.req
  {
  }

  /** Taking up a line shortens the request buffer. */
  lemma TakesALine(s: State, c: nat, env: Env)
    requires Enabled(s, Begin(c, env)) && CacheLive(s)
    ensures c in TakeLine(s, c, env).clients && |TakeLine(s, c, env).clients[c].req| < |s.clients[c].req|
  {
    var cl := Cut(s.clients[c], env.path, s.flushes);
    assert |cl.req| < |s.clients[c].req|;
    BeginKeepsInput(s, c, cl, Name(s.clients[c].req[..Find(s.clients[c].req, NL)]), env);
  }

  lemma BeginKeepsInput(s: State, c: nat, cl: Client, name: Bytes, env: Env)
    requires CacheLive(s)
    ensures var s' := BeginFileServe(s, c, cl, name, env); c in s'.clients && s'.clients[c].req == cl.req
  {
    if env.path.At? {
      FromDiskKeepsInput(s, c, cl.(key := env.path.key), env);
    }
  }

  function LeftToWrite(s: State, c: nat): nat
    requires c in s.clients && s.clients[c].phase.Writing?
  {
    var p := s.clients[c].phase;
    if p.buf in s.heap && p.sent < |s.heap[p.buf].bytes| then |s.heap[p.buf].bytes| - p.sent else 0
  }

  /** A read delivers at most the bytes asked for. */
  function AioEvent(s: State, c: nat, outcome: ReadStatus): Event
    requires c in s.clients && s.clients[c].phase.Aio?
  {
    if outcome.Complete?
    then AioDone(c, outcome.data[..Min(|outcome.data|, s.clients[c].phase.size)], outcome.copyOk)
    else AioError(c)
  }

  /** How much of the input fits into the request buffer. */
  function Fits(s: State, c: nat, wake: Wake): (n: nat)
    requires c in s.clients
    ensures n <= |wake.input|
  {
    if |s.clients[c].req| < REQ_BUF_SIZE then Min(REQ_BUF_SIZE - 1 - |s.clients[c].req|, |wake.input|) else 0
  }

  ghost function Taken(c: nat, bytes: Bytes, env: nat -> Env, k: nat): seq<Event> {
    [Receive(c, bytes)] + Begins(c, env, k)
  }

  ghost predicate InputTaken(s: State, c: nat, lines: seq<Event>, events: seq<Event>) {
    && Runs(s, lines)
    && c in After(s, lines).clients && Settled(After(s, lines).clients[c])
    && events == if |After(s, lines).clients[c].req| >= REQ_BUF_SIZE - 1 then lines + [Remove(c)] else lines
  }

  /**
    Reading: end of stream removes the client. Otherwise what fits is received, lines are begun until
    the client is settled, and a client whose buffer is full without a complete line is removed.
   */
  ghost predicate ReadPart(s: State, c: nat, wake: Wake, events: seq<Event>) {
    && c in s.clients
    && var n := Fits(s, c, wake);
    if n == 0 then events == [Remove(c)]
    else exists k: nat :: InputTaken(s, c, Taken(c, wake.input[..n], wake.env, k), events)
  }

  lemma ReadPartIs(s: State, c: nat, wake: Wake, k: nat)
    requires c in s.clients && Fits(s, c, wake) > 0
    requires var lines := Taken(c, wake.input[..Fits(s, c, wake)], wake.env, k);
             Runs(s, lines) && c in After(s, lines).clients && Settled(After(s, lines).clients[c])
    ensures var lines := Taken(c, wake.input[..Fits(s, c, wake)], wake.env, k);
            ReadPart(s, c, wake,
                     if |After(s, lines).clients[c].req| >= REQ_BUF_SIZE - 1 then lines + [Remove(c)] else lines)
  {
    var lines := Taken(c, wake.input[..Fits(s, c, wake)], wake.env, k);
    assert InputTaken(s, c, lines,
                      if |After(s, lines).clients[c].req| >= REQ_BUF_SIZE - 1 then lines + [Remove(c)] else lines);
  }

  /** After an error the client is reading again, and does so at once. */
  ghost predicate AfterAio(s: State, c: nat, wake: Wake, events: seq<Event>)
    requires c in s.clients && s.clients[c].phase.Aio?
  {
    if wake.aio.InProgress? then events == []
    else if wake.aio.Complete? || !wake.readable then events == [AioEvent(s, c, wake.aio)]
    else
      && events != [] && events[0] == AioError(c)
      && Enabled(s, AioError(c)) && CacheLive(s)
      && ReadPart(Step(s, AioError(c)), c, wake, events[1..])
  }

  /** What one pass over client `c` does. */
  ghost predicate PassPart(s: State, c: nat, wake: Wake, events: seq<Event>) {
    && c in s.clients
    && var gone := wake.readable && wake.gone;
    match s.clients[c].phase
    case Reading => if wake.readable then ReadPart(s, c, wake, events) else events == []
    case Aio(_, _) => if gone then events == [Remove(c)] else AfterAio(s, c, wake, events)
    case Writing(_, _) =>
      if gone then events == [Remove(c)]
      else if !wake.writable then events == []
      else events == [if wake.broken then Remove(c) else Wrote(c, Min(wake.room, LeftToWrite(s, c)))]
    case SendFile(_, _, remaining) =>
      if gone then events == [Remove(c)]
      else if !wake.writable then events == []
      else events == [if wake.broken then Remove(c) else Sent(c, Min(wake.room, remaining))]
  }

  // ----- the order of the passes

  function Backwards(recs: seq<Record>, i: nat): seq<nat>
    requires i <= |recs|
  {
    seq(|recs| - i, j requires 0 <= j < |recs| - i => Sock(recs, |recs| - 1 - j))
  }

  lemma BackwardsMore(recs: seq<Record>, i: nat)
    requires i < |recs|
    ensures Backwards(recs, i) == Backwards(recs, i + 1) + [recs[i].sock]
  {
    var more, less := Backwards(recs, i), Backwards(recs, i + 1);
    assert |more| == |less| + 1 && more[|less|] == Sock(recs, i);
    assert forall j | 0 <= j < |less| :: more[j] == less[j];
  }

  function Set(xs: seq<nat>): set<nat> {
    set x | x in xs
  }

  /** Each of these clients once, and no others. */
  ghost predicate Once(order: seq<nat>, all: set<nat>) {
    && (forall j, k | 0 <= j < k < |order| :: order[j] != order[k])
    && Set(order) == all
  }

  lemma BackwardsOnce(recs: seq<Record>)
    requires forall j, k | 0 <= j < k < |recs| :: Sock(recs, j) != Sock(recs, k)
    ensures Once(Backwards(recs, 0), Socks(recs))
  {
    var order := Backwards(recs, 0);
    forall j, k | 0 <= j < k < |order|
      ensures order[j] != order[k]
    {
      assert Sock(recs, |recs| - 1 - k) != Sock(recs, |recs| - 1 - j);
    }
    forall c | c in Set(order)
      ensures c in Socks(recs)
    {
      var j :| 0 <= j < |order| && order[j] == c;
      assert Sock(recs, |recs| - 1 - j) == c;
    }
    forall c | c in Socks(recs)
      ensures c in Set(order)
    {
      var k :| 0 <= k < |recs| && Sock(recs, k) == c;
      assert order[|recs| - 1 - k] == c;
    }
  }

  function Flatten(parts: seq<seq<Event>>): seq<Event> {
    if parts == [] then [] else Flatten(parts[..|parts| - 1]) + parts[|parts| - 1]
  }

  lemma FlattenMore(parts: seq<seq<Event>>, part: seq<Event>)
    ensures Flatten(parts + [part]) == Flatten(parts) + part
  {
    assert (parts + [part])[..|parts|] == parts;
  }

  /** `parts` are the passes over the clients in `order`, one after the other. */
  ghost predicate Passes(s: State, order: seq<nat>, wakes: nat -> Wake, parts: seq<seq<Event>>)
    decreases |order|
  {
    && |parts| == |order|
    && (order == [] ||
        var n := |order| - 1;
        && Passes(s, order[..n], wakes, parts[..n])
        && Runs(s, Flatten(parts[..n]))
        && PassPart(After(s, Flatten(parts[..n])), order[n], wakes(order[n]), parts[n]))
  }

  lemma PassesMore(s: State, order: seq<nat>, wakes: nat -> Wake, parts: seq<seq<Event>>, c: nat, part: seq<Event>)
    requires Passes(s, order, wakes, parts) && Runs(s, Flatten(parts))
    requires PassPart(After(s, Flatten(parts)), c, wakes(c), part)
    ensures Passes(s, order + [c], wakes, parts + [part])
  {
    assert (order + [c])[..|order|] == order && (parts + [part])[..|parts|] == parts;
  }

  /** A client just accepted is in none of the descriptor sets. */
  function NotYet(arrivals: seq<nat>, wakes: nat -> Wake): nat -> Wake {
    (c: nat) => if c in arrivals then wakes(c).(readable := false, writable := false) else wakes(c)
  }

  function Connects(arrivals: seq<nat>): seq<Event> {
    seq(|arrivals|, i requires 0 <= i < |arrivals| => Connect(arrivals[i]))
  }

  lemma {:induction false} ConnectsKeys(s: State, arrivals: seq<nat>)
    requires Runs(s, Connects(arrivals))
    ensures After(s, Connects(arrivals)).clients.Keys == s.clients.Keys + Set(arrivals)
    decreases |arrivals|
  {
    if arrivals == [] {
      assert Set(arrivals) == {};
    } else {
      var s1 := ConnectFirst(s, arrivals);
      ConnectsKeys(s1, arrivals[1..]);
      KeysGrow(s.clients.Keys, arrivals);
    }
  }

  lemma KeysGrow(keys: set<nat>, xs: seq<nat>)
    requires xs != []
    ensures (keys + {xs[0]}) + Set(xs[1..]) == keys + Set(xs)
  {
  }

  lemma ConnectFirst(s: State, arrivals: seq<nat>) returns (s1: State)
    requires Runs(s, Connects(arrivals)) && arrivals != []
    ensures Runs(s1, Connects(arrivals[1..])) && After(s, Connects(arrivals)) == After(s1, Connects(arrivals[1..]))
    ensures s1.clients.Keys == s.clients.Keys + {arrivals[0]}
  {
    assert Connects(arrivals)[1..] == Connects(arrivals[1..]);
    s1 := RunsFirst(s, Connects(arrivals));
  }

  /** What happens in an iteration before the clients have their turns. */
  function Before(flush: bool, accepted: seq<nat>): seq<Event> {
    (if flush then [Flush] else []) + Connects(accepted)
  }

  lemma ConnectsMore(arrivals: seq<nat>, c: nat)
    ensures Connects(arrivals + [c]) == Connects(arrivals) + [Connect(c)]
  {
  }
}
