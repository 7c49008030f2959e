/**
  The four-state clients of the AIO file server, its response buffers and its cache.

  Sockets and files are the environment: an event says how many bytes arrived or were accepted,
  what a path resolved to, what a read delivered, what malloc'd memory happened to contain, and
  whether an allocation succeeded. Events of different clients may come in any order. Small
  synchronous sends complete, and a file sent by sendfile does not change meanwhile.
 */
module AioServer {
  import opened FifoMap
  import opened Lines

  const MAX_CACHE_ENTRIES := 16
  const MAX_CACHE_FILE_SIZE := 64 * 1024
  const REQ_BUF_SIZE := 512
  const MAX_CLIENTS := 64

  /** Who has to free a buffer. */
  datatype Owner = InCache(key: Path) | OfClient(c: nat)

  /** A live malloc'd buffer; `owner` is a history. */
  datatype Buffer = Buffer(bytes: Bytes, owner: Owner)

  datatype Phase =
    | Reading
    | Aio(buf: nat, size: nat)        // aio_read in flight for a file of `size` bytes
    | Writing(buf: nat, sent: nat)
    | SendFile(file: Bytes, offset: nat, remaining: nat)

  /**
    `received`, `out`, `names`, `paths`, `begun` and `responses` are histories: all bytes read from
    the client, all bytes sent to it, the requests begun, what their names resolved to and how many
    flushes had happened by then, and the complete responses decided on so far.
   */
  datatype Client = Client(
    phase: Phase, req: Bytes, key: Path,
    received: Bytes, out: Bytes, names: seq<Bytes>, paths: seq<Resolution>, begun: seq<nat>, responses: seq<Bytes>)

  /**
    A read of the file at `key` delivered `data`; the rest of the buffer it was read into still held
    `junk`. The request that started the read was begun after `epoch` flushes.
   */
  datatype Observation = Observation(key: Path, data: Bytes, junk: Bytes, epoch: nat)

  /**
    `freed`, `observed` and `flushes` are histories: the buffers freed, in order, what was read from
    files, and the number of flushes. Buffer identities are not reused.
   */
  datatype State = State(
    heap: map<nat, Buffer>, next: nat, freed: seq<nat>, cache: seq<Entry<nat>>, clients: map<nat, Client>,
    observed: set<Observation>, flushes: nat)

  const START := State(map[], 0, [], [], map[], {}, 0)
  const NEW_CLIENT := Client(Reading, [], "", [], [], [], [], [], [])

  // ----- responses

  function Ascii(text: string): Bytes {
    seq(|text|, i requires 0 <= i < |text| => (text[i] as int % 256) as bv8)
  }

  function Digits(n: nat): Bytes {
    if n < 10 then [(n + 48) as bv8] else Digits(n / 10) + [(n % 10 + 48) as bv8]
  }

  /** "+OK <n>\n" */
  function Header(n: nat): Bytes {
    Ascii("+OK ") + Digits(n) + [NL]
  }

  function Ok(file: Bytes): Bytes {
    Header(|file|) + file
  }

  /** "-ERR <reason>\n" */
  function Err(reason: string): Bytes {
    Ascii("-ERR ") + Ascii(reason) + [NL]
  }

  /** A complete response: an error line, or a header followed by as many bytes as it announces. */
  ghost predicate Response(r: Bytes) {
    (exists reason :: r == Err(reason)) || (exists file :: r == Ok(file))
  }

  function Flat(rs: seq<Bytes>): Bytes
    decreases |rs|
  {
    if rs == [] then [] else Flat(rs[..|rs| - 1]) + rs[|rs| - 1]
  }

  // ----- buffers and cache

  function Malloc(s: State, bytes: Bytes, owner: Owner): State {
    s.(heap := s.heap[s.next := Buffer(bytes, owner)], next := s.next + 1)
  }

  function Free(s: State, b: nat): State {
    s.(heap := s.heap - {b}, freed := s.freed + [b])
  }

  /** cache_insert: the displaced buffer is freed, the new one belongs to the cache. */
  function CacheInsert(s: State, key: Path, b: nat): State {
    var d := Displaced(MAX_CACHE_ENTRIES, s.cache, key);
    var s1 := if d.Some? then Free(s, d.value) else s;
    s1.(cache := Put(MAX_CACHE_ENTRIES, s.cache, key, b))
  }

  function Ids(cache: seq<Entry<nat>>): seq<nat> {
    seq(|cache|, i requires 0 <= i < |cache| => cache[i].resp)
  }

  /** cache_clear */
  function CacheClear(s: State): State {
    s.(heap := s.heap - (set b | b in Ids(s.cache)), freed := s.freed + Ids(s.cache), cache := [],
       flushes := s.flushes + 1)
  }

  // ----- begin_file_serve

  /** What the environment answers while a request is being begun. */
  datatype Resolution = NotFound | Denied | At(key: Path)
  datatype Stat = StatFailed | NotRegular | OpenFailed | File(file: Bytes)
  datatype Env = Env(path: Resolution, copyOk: bool, stat: Stat, mallocOk: bool, aioOk: bool, garbage: nat -> bv8)

  function Update(s: State, c: nat, cl: Client): State {
    s.(clients := s.clients[c := cl])
  }

  function Observe(s: State, o: Observation): State {
    s.(observed := s.observed + {o})
  }

  /** The flushes that had happened when the client's last request was begun. */
  function LastBegun(cl: Client): nat {
    if cl.begun == [] then 0 else cl.begun[|cl.begun| - 1]
  }

  /** sock_send of an error line. */
  function Refuse(s: State, c: nat, cl: Client, reason: string): State {
    Update(s, c, cl.(out := cl.out + Err(reason), responses := cl.responses + [Err(reason)]))
  }

  /** A copy of the cached response becomes the client's buffer. */
  function ServeFromCache(s: State, c: nat, cl: Client, b: nat): State
    requires b in s.heap
  {
    var bytes := s.heap[b].bytes;
    Update(Malloc(s, bytes, OfClient(c)), c,
           cl.(phase := Writing(s.next, 0), responses := cl.responses + [bytes]))
  }

  /** Large file: the header is sent at once, the body by sendfile. */
  function StartSendFile(s: State, c: nat, cl: Client, file: Bytes): State {
    Observe(Update(s, c, cl.(phase := SendFile(file, 0, |file|), out := cl.out + Header(|file|),
                             responses := cl.responses + [Ok(file)])),
            Observation(cl.key, file, [], LastBegun(cl)))
  }

  /** A new buffer for a file of `size` bytes: the header, and whatever malloc'd memory contains. */
  function RoomFor(size: nat, garbage: nat -> bv8): Bytes {
    Header(size) + seq(size, i requires 0 <= i => garbage(i))
  }

  /** Small file: the read into the buffer is started. */
  function StartAio(s: State, c: nat, cl: Client, size: nat, garbage: nat -> bv8): State {
    Update(Malloc(s, RoomFor(size, garbage), OfClient(c)), c, cl.(phase := Aio(s.next, size)))
  }

  const SLASH: bv8 := 47

  /** Cached responses are in live buffers. */
  predicate CacheLive(s: State) {
    forall i | 0 <= i < |s.cache| :: s.cache[i].resp in s.heap
  }

  function BeginFileServe(s: State, c: nat, cl: Client, name: Bytes, env: Env): State
    requires CacheLive(s)
  {
    if name == [] then Refuse(s, c, cl, "empty filename")
    else if name[0] == SLASH then Refuse(s, c, cl, "absolute paths not allowed")
    else match env.path
      case NotFound => Refuse(s, c, cl, "not found")
      case Denied => Refuse(s, c, cl, "access denied")
      case At(key) =>
        var cl1 := cl.(key := key);
        if Get(s.cache, key).Some? && env.copyOk then ServeFromCache(s, c, cl1, Get(s.cache, key).value)
        else ServeFromDisk(s, c, cl1, env)
  }

  function ServeFromDisk(s: State, c: nat, cl: Client, env: Env): State {
    match env.stat
    case StatFailed => Refuse(s, c, cl, "stat failed")
    case NotRegular => Refuse(s, c, cl, "not a regular file")
    case OpenFailed => Refuse(s, c, cl, "open failed")
    case File(file) =>
      if |file| > MAX_CACHE_FILE_SIZE then StartSendFile(s, c, cl, file)
      else if !env.mallocOk then Refuse(s, c, cl, "out of memory")
      else if !env.aioOk then
        // the buffer is allocated, found useless and freed again
        Refuse(Free(Malloc(s, RoomFor(|file|, env.garbage), OfClient(c)), s.next), c, cl, "aio_read failed")
      else StartAio(s, c, cl, |file|, env.garbage)
  }

  // ----- events

  datatype Event =
    | Connect(c: nat)
    | Receive(c: nat, bytes: Bytes)             // read() returned these bytes
    | Begin(c: nat, env: Env)                   // the next complete line is taken up
    | AioDone(c: nat, data: Bytes, copyOk: bool) // the read delivered data, perhaps less than the size
    | AioError(c: nat)
    | Wrote(c: nat, n: nat)                     // write() accepted n bytes of the response
    | Sent(c: nat, n: nat)                      // sendfile() accepted n bytes of the file
    | Remove(c: nat)                            // end of stream, an error, or a line that is too long
    | Flush

  predicate Enabled(s: State, e: Event) {
    match e
    case Connect(c) => c !in s.clients && |s.clients| < MAX_CLIENTS
    case Flush => true
    case Receive(c, bytes) =>
      c in s.clients && s.clients[c].phase.Reading? && 0 < |bytes| <= REQ_BUF_SIZE - 1 - |s.clients[c].req|
    case Begin(c, _) => c in s.clients && s.clients[c].phase.Reading? && Find(s.clients[c].req, NL) < |s.clients[c].req|
    case AioDone(c, data, _) =>
      && c in s.clients && s.clients[c].phase.Aio? && s.clients[c].phase.buf in s.heap
      && |data| <= s.clients[c].phase.size
      && |Header(s.clients[c].phase.size)| + |data| <= |s.heap[s.clients[c].phase.buf].bytes|
    case AioError(c) => c in s.clients && s.clients[c].phase.Aio?
    case Wrote(c, n) =>
      && c in s.clients && s.clients[c].phase.Writing? && s.clients[c].phase.buf in s.heap
      && s.clients[c].phase.sent + n <= |s.heap[s.clients[c].phase.buf].bytes|
    case Sent(c, n) =>
      && c in s.clients && s.clients[c].phase.SendFile? && n <= s.clients[c].phase.remaining
      && s.clients[c].phase.offset + n <= |s.clients[c].phase.file|
    case Remove(c) => c in s.clients
  }

  /** remove_client: whatever buffer the client has is freed. */
  function RemoveClient(s: State, c: nat): State
    requires c in s.clients
  {
    var b := BufferOf(s.clients[c]);
    var s1 := if b.Some? then Free(s, b.value) else s;
    s1.(clients := s.clients - {c})
  }

  function BufferOf(cl: Client): Option<nat> {
    match cl.phase
    case Aio(b, _) => Some(b)
    case Writing(b, _) => Some(b)
    case _ => None
  }

  /** The buffer after a read of `data` behind its first `h` bytes. */
  function ReadInto(bytes: Bytes, h: nat, data: Bytes): Bytes
    requires h + |data| <= |bytes|
  {
    bytes[..h] + data + bytes[h + |data|..]
  }

  /** check_aio, the read having completed: cache a copy if one can be made, then write. */
  function FinishAio(s: State, c: nat, data: Bytes, copyOk: bool): State
    requires Enabled(s, AioDone(c, data, copyOk))
  {
    var cl := s.clients[c];
    var b := cl.phase.buf;
    var h := |Header(cl.phase.size)|;
    var bytes := ReadInto(s.heap[b].bytes, h, data);
    var s1 := s.(heap := s.heap[b := Buffer(bytes, OfClient(c))]);
    var s2 := if |bytes| <= MAX_CACHE_FILE_SIZE + 64 && cl.key != "" && copyOk
              then CacheInsert(Malloc(s1, bytes, InCache(cl.key)), cl.key, s.next) else s1;
    Observe(Update(s2, c, cl.(phase := Writing(b, 0), responses := cl.responses + [bytes])),
            Observation(cl.key, data, bytes[h + |data|..], LastBegun(cl)))
  }

  /** The response buffer is sent on from where the last write stopped, and freed when it is all out. */
  function WriteSome(s: State, c: nat, n: nat): State
    requires Enabled(s, Wrote(c, n))
  {
    var cl := s.clients[c];
    var bytes := s.heap[cl.phase.buf].bytes;
    var s1 := if cl.phase.sent + n == |bytes| then Free(s, cl.phase.buf) else s;
    Update(s1, c, WroteClient(cl, bytes, n))
  }

  function WroteClient(cl: Client, bytes: Bytes, n: nat): Client
    requires cl.phase.Writing? && cl.phase.sent + n <= |bytes|
  {
    var sent := cl.phase.sent + n;
    cl.(out := cl.out + bytes[cl.phase.sent..sent],
        phase := if sent == |bytes| then Reading else Writing(cl.phase.buf, sent))
  }

  function SendSome(s: State, c: nat, n: nat): State
    requires Enabled(s, Sent(c, n))
  {
    Update(s, c, SentClient(s.clients[c], n))
  }

  function SentClient(cl: Client, n: nat): Client
    requires cl.phase.SendFile? && n <= cl.phase.remaining && cl.phase.offset + n <= |cl.phase.file|
  {
    var p := cl.phase;
    cl.(out := cl.out + p.file[p.offset..p.offset + n],
        phase := if n == p.remaining then Reading else SendFile(p.file, p.offset + n, p.remaining - n))
  }

  /** The client whose first complete line has been cut off the request buffer. */
  function Cut(cl: Client, path: Resolution, flushes: nat): Client
    requires Find(cl.req, NL) < |cl.req|
  {
    var nl := Find(cl.req, NL);
    cl.(req := cl.req[nl + 1..], names := cl.names + [Name(cl.req[..nl])], paths := cl.paths + [path],
        begun := cl.begun + [flushes])
  }

  /** The first complete line is cut off and taken up. */
  function TakeLine(s: State, c: nat, env: Env): State
    requires Enabled(s, Begin(c, env)) && CacheLive(s)
  {
    var cl := s.clients[c];
    BeginFileServe(s, c, Cut(cl, env.path, s.flushes), Name(cl.req[..Find(cl.req, NL)]), env)
  }

  function Step(s: State, e: Event): State
    requires Enabled(s, e) && CacheLive(s)
  {
    match e
    case Connect(c) => Update(s, c, NEW_CLIENT)
    case Receive(c, bytes) =>
      var cl := s.clients[c];
      Update(s, c, cl.(req := cl.req + bytes, received := cl.received + bytes))
    case Begin(c, env) => TakeLine(s, c, env)
    case AioDone(c, data, copyOk) => FinishAio(s, c, data, copyOk)
    case AioError(c) =>
      var cl := s.clients[c];
      Refuse(Free(s, cl.phase.buf), c, cl.(phase := Reading), "read error")
    case Wrote(c, n) => WriteSome(s, c, n)
    case Sent(c, n) => SendSome(s, c, n)
    case Remove(c) => RemoveClient(s, c)
    case Flush => CacheClear(s)
  }

  // ----- one owner per buffer

  ghost predicate BufferOk(s: State, b: nat)
    requires b in s.heap
  {
    && b < s.next
    && match s.heap[b].owner
       case InCache(k) => Get(s.cache, k) == Some(b)
       case OfClient(c) => c in s.clients && BufferOf(s.clients[c]) == Some(b)
  }

  ghost predicate KeyOk(s: State, k: Path) {
    Get(s.cache, k).Some? ==>
      Get(s.cache, k).value in s.heap && s.heap[Get(s.cache, k).value].owner == InCache(k)
  }

  ghost predicate HolderOk(s: State, c: nat)
    requires c in s.clients
  {
    BufferOf(s.clients[c]).Some? ==>
      BufferOf(s.clients[c]).value in s.heap && s.heap[BufferOf(s.clients[c]).value].owner == OfClient(c)
  }

  /** Every live buffer has exactly one owner, every owner's buffer is live, nothing is freed twice. */
  ghost predicate HeapOk(s: State) {
    && Fifo(MAX_CACHE_ENTRIES, s.cache)
    && (forall b | b in s.heap :: BufferOk(s, b))
    && (forall k: Path :: KeyOk(s, k))
    && (forall c | c in s.clients :: HolderOk(s, c))
    && FreedOk(s)
  }

  ghost predicate FreedOk(s: State) {
    && (forall i | 0 <= i < |s.freed| :: s.freed[i] < s.next && s.freed[i] !in s.heap)
    && (forall i, j | 0 <= i < j < |s.freed| :: s.freed[i] != s.freed[j])
  }

  lemma NextIsNew(s: State)
    requires HeapOk(s)
    ensures s.next !in s.heap && s.next !in s.freed
  {
    assert s.next in s.heap ==> BufferOk(s, s.next);
  }

  /** Changes that leave heap and cache alone and keep the client's buffer. */
  lemma UpdateHeap(s: State, c: nat, cl: Client)
    requires HeapOk(s)
    requires if c in s.clients then BufferOf(cl) == BufferOf(s.clients[c]) else BufferOf(cl).None?
    ensures HeapOk(Update(s, c, cl))
  {
    var s' := Update(s, c, cl);
    forall b | b in s'.heap
      ensures BufferOk(s', b)
    {
      assert BufferOk(s, b);
    }
    forall k: Path
      ensures KeyOk(s', k)
    {
      assert KeyOk(s, k);
    }
    forall d | d in s'.clients
      ensures HolderOk(s', d)
    {
      assert d in s.clients ==> HolderOk(s, d);
    }
  }

  /** A client without a buffer gets a new one. */
  lemma GrantHeap(s: State, c: nat, cl: Client, bytes: Bytes)
    requires HeapOk(s) && c in s.clients && BufferOf(s.clients[c]).None? && BufferOf(cl) == Some(s.next)
    ensures HeapOk(Update(Malloc(s, bytes, OfClient(c)), c, cl))
  {
    var s' := Update(Malloc(s, bytes, OfClient(c)), c, cl);
    NextIsNew(s);
    forall b | b in s'.heap
      ensures BufferOk(s', b)
    {
      assert b != s.next ==> BufferOk(s, b);
    }
    forall k: Path
      ensures KeyOk(s', k)
    {
      assert KeyOk(s, k);
    }
    forall d | d in s'.clients
      ensures HolderOk(s', d)
    {
      assert d in s.clients ==> HolderOk(s, d);
    }
  }

  /** A client gives its buffer up, or leaves. */
  lemma ReleaseHeap(s: State, c: nat, s': State)
    requires HeapOk(s) && c in s.clients && BufferOf(s.clients[c]).Some?
    requires s'.heap == s.heap - {BufferOf(s.clients[c]).value} && s'.next == s.next
    requires s'.freed == s.freed + [BufferOf(s.clients[c]).value] && s'.cache == s.cache
    requires s'.clients - {c} == s.clients - {c}
    requires c in s'.clients ==> BufferOf(s'.clients[c]).None?
    ensures HeapOk(s')
  {
    assert HolderOk(s, c);
    var b0 := BufferOf(s.clients[c]).value;
    assert forall d | d != c :: d in s'.clients <==> d in s'.clients - {c};
    assert forall d | d != c :: d in s.clients <==> d in s.clients - {c};
    assert forall d | d != c && d in s.clients :: (s.clients - {c})[d] == s.clients[d];
    assert forall d | d != c && d in s'.clients :: (s'.clients - {c})[d] == s'.clients[d];
    forall b | b in s'.heap
      ensures BufferOk(s', b)
    {
      assert BufferOk(s, b);
    }
    forall k: Path
      ensures KeyOk(s', k)
    {
      assert KeyOk(s, k);
    }
    forall d | d in s'.clients
      ensures HolderOk(s', d)
    {
      if d != c {
        assert HolderOk(s, d);
      }
    }
    assert BufferOk(s, b0);
  }

  lemma FreeFreshHeap(s: State, c: nat, bytes: Bytes)
    requires HeapOk(s)
    ensures HeapOk(Free(Malloc(s, bytes, OfClient(c)), s.next))
    ensures Free(Malloc(s, bytes, OfClient(c)), s.next).heap == s.heap
  {
    var s' := Free(Malloc(s, bytes, OfClient(c)), s.next);
    NextIsNew(s);
    assert s'.heap == s.heap;
    forall b | b in s'.heap
      ensures BufferOk(s', b)
    {
      assert BufferOk(s, b);
    }
    forall k: Path
      ensures KeyOk(s', k)
    {
      assert KeyOk(s, k);
    }
    forall d | d in s'.clients
      ensures HolderOk(s', d)
    {
      assert HolderOk(s, d);
    }
  }

  /** The bytes of a buffer may change hands without changing owners. */
  lemma FillHeap(s: State, b: nat, bytes: Bytes)
    requires HeapOk(s) && b in s.heap
    ensures HeapOk(s.(heap := s.heap[b := s.heap[b].(bytes := bytes)]))
  {
    var s' := s.(heap := s.heap[b := s.heap[b].(bytes := bytes)]);
    forall x | x in s'.heap
      ensures BufferOk(s', x)
    {
      assert BufferOk(s, x);
    }
    forall k: Path
      ensures KeyOk(s', k)
    {
      assert KeyOk(s, k);
    }
    forall d | d in s'.clients
      ensures HolderOk(s', d)
    {
      assert HolderOk(s, d);
    }
  }

  /** What an insertion does to the lookups. */
  lemma InsertGets(s: State, key: Path, b: nat, k: Path)
    requires HeapOk(s)
    ensures var cache' := Put(MAX_CACHE_ENTRIES, s.cache, key, b);
            var gone := Displaced(MAX_CACHE_ENTRIES, s.cache, key);
            if k == key then Get(cache', k) == Some(b)
            else if gone.Some? && Get(s.cache, k) == gone then Get(cache', k) == None
            else Get(cache', k) == Get(s.cache, k)
  {
    GetAfterPut(MAX_CACHE_ENTRIES, s.cache, key, b, k);
    assert KeyOk(s, k) && KeyOk(s, key);
    if |s.cache| == MAX_CACHE_ENTRIES {
      GetAt(s.cache, MAX_CACHE_ENTRIES, 0);
      assert KeyOk(s, s.cache[0].key);
    }
    if Has(s.cache, key) {
      var i :| 0 <= i < |s.cache| && s.cache[i].key == key;
      GetAt(s.cache, MAX_CACHE_ENTRIES, i);
    }
  }

  /** A displaced buffer belongs to the cache. */
  lemma DisplacedOwner(s: State, key: Path)
    requires HeapOk(s) && Displaced(MAX_CACHE_ENTRIES, s.cache, key).Some?
    ensures var d := Displaced(MAX_CACHE_ENTRIES, s.cache, key).value;
            && d in s.heap && s.heap[d].owner.InCache?
            && Get(s.cache, s.heap[d].owner.key) == Some(d)
  {
    var k := if Get(s.cache, key).Some? then key else s.cache[0].key;
    if Get(s.cache, key).None? {
      GetAt(s.cache, MAX_CACHE_ENTRIES, 0);
    }
    assert KeyOk(s, k);
  }

  ghost function Inserted(s: State, key: Path, bytes: Bytes): State {
    CacheInsert(Malloc(s, bytes, InCache(key)), key, s.next)
  }

  lemma InsertBuffer(s: State, key: Path, bytes: Bytes, b: nat)
    requires HeapOk(s) && b in Inserted(s, key, bytes).heap
    ensures BufferOk(Inserted(s, key, bytes), b)
  {
    NextIsNew(s);
    InsertGets(s, key, s.next, key);
    if Displaced(MAX_CACHE_ENTRIES, s.cache, key).Some? {
      DisplacedOwner(s, key);
    }
    if b != s.next {
      assert BufferOk(s, b);
      if s.heap[b].owner.InCache? {
        InsertGets(s, key, s.next, s.heap[b].owner.key);
      }
    }
  }

  lemma InsertKey(s: State, key: Path, bytes: Bytes, k: Path)
    requires HeapOk(s)
    ensures KeyOk(Inserted(s, key, bytes), k)
  {
    NextIsNew(s);
    assert KeyOk(s, k);
    InsertGets(s, key, s.next, k);
    if Displaced(MAX_CACHE_ENTRIES, s.cache, key).Some? {
      DisplacedOwner(s, key);
    }
  }

  lemma InsertFreed(s: State, key: Path, bytes: Bytes)
    requires HeapOk(s)
    ensures FreedOk(Inserted(s, key, bytes))
    ensures forall c | c in s.clients :: HolderOk(Inserted(s, key, bytes), c)
  {
    NextIsNew(s);
    if Displaced(MAX_CACHE_ENTRIES, s.cache, key).Some? {
      DisplacedOwner(s, key);
      assert BufferOk(s, Displaced(MAX_CACHE_ENTRIES, s.cache, key).value);
    }
    forall c | c in s.clients
      ensures HolderOk(Inserted(s, key, bytes), c)
    {
      assert HolderOk(s, c);
    }
  }

  lemma InsertHeap(s: State, key: Path, bytes: Bytes)
    requires HeapOk(s)
    ensures HeapOk(Inserted(s, key, bytes))
  {
    PutFifo(MAX_CACHE_ENTRIES, s.cache, key, s.next);
    forall b | b in Inserted(s, key, bytes).heap
      ensures BufferOk(Inserted(s, key, bytes), b)
    {
      InsertBuffer(s, key, bytes, b);
    }
    forall k: Path
      ensures KeyOk(Inserted(s, key, bytes), k)
    {
      InsertKey(s, key, bytes, k);
    }
    InsertFreed(s, key, bytes);
  }

  lemma ClearHeap(s: State)
    requires HeapOk(s)
    ensures HeapOk(CacheClear(s))
  {
    var s' := CacheClear(s);
    forall i | 0 <= i < |s.cache|
      ensures Ids(s.cache)[i] in s.heap && s.heap[Ids(s.cache)[i]].owner == InCache(s.cache[i].key)
    {
      GetAt(s.cache, MAX_CACHE_ENTRIES, i);
      assert KeyOk(s, s.cache[i].key);
    }
    forall b | b in s.heap && s.heap[b].owner.InCache?
      ensures b in Ids(s.cache)
    {
      assert BufferOk(s, b);
      assert Ids(s.cache)[IndexOf(s.cache, s.heap[b].owner.key)] == b;
    }
    forall b | b in s'.heap
      ensures BufferOk(s', b)
    {
      assert BufferOk(s, b);
    }
    forall c | c in s'.clients
      ensures HolderOk(s', c)
    {
      assert HolderOk(s, c);
    }
    forall i | 0 <= i < |s'.freed|
      ensures s'.freed[i] < s'.next && s'.freed[i] !in s'.heap
    {
      if i >= |s.freed| {
        assert s'.freed[i] == Ids(s.cache)[i - |s.freed|];
        assert BufferOk(s, s'.freed[i]);
      }
    }
  }

  // ----- one client's input and output

  ghost predicate InputOk(cl: Client) {
    && Names(Complete(cl.received)) == cl.names + Names(Complete(cl.req))
    && Tail(cl.received) == Tail(cl.req)
    && |cl.req| < REQ_BUF_SIZE
    && forall i | 0 <= i < |cl.responses| :: Response(cl.responses[i])
  }

  /** A request has been begun and nothing of its response has been sent or decided. */
  ghost predicate Due(cl: Client) {
    InputOk(cl) && |cl.names| == |cl.responses| + 1 && cl.out == Flat(cl.responses)
  }

  /** The buffer is that of a small file whose content may still be missing. */
  predicate HasRoom(own: Bytes, size: nat) {
    size <= MAX_CACHE_FILE_SIZE && |own| == |Header(size)| + size && Header(size) <= own
  }

  ghost predicate OutputOk(cl: Client, own: Bytes) {
    var n := |cl.responses|;
    match cl.phase
    case Reading => |cl.names| == n && cl.out == Flat(cl.responses)
    case Aio(_, size) => |cl.names| == n + 1 && cl.out == Flat(cl.responses) && HasRoom(own, size)
    case Writing(_, sent) =>
      && |cl.names| == n > 0 && own == cl.responses[n - 1]
      && sent < |own| && cl.out == Flat(cl.responses[..n - 1]) + own[..sent]
    case SendFile(file, offset, remaining) =>
      && |cl.names| == n > 0 && Ok(file) == cl.responses[n - 1]
      && offset + remaining == |file| && remaining > 0
      && cl.out == Flat(cl.responses[..n - 1]) + (Header(|file|) + file[..offset])
  }

  ghost predicate ClientOk(cl: Client, own: Bytes) {
    InputOk(cl) && OutputOk(cl, own)
  }

  lemma FlatSnoc(rs: seq<Bytes>, r: Bytes)
    ensures Flat(rs + [r]) == Flat(rs) + r
    ensures (rs + [r])[..|rs|] == rs
  {
    assert (rs + [r])[..|rs|] == rs;
  }

  lemma FlatLast(rs: seq<Bytes>)
    requires rs != []
    ensures Flat(rs) == Flat(rs[..|rs| - 1]) + rs[|rs| - 1]
  {
  }

  lemma NewClientOk(own: Bytes)
    ensures ClientOk(NEW_CLIENT, own)
  {
  }

  lemma ReceiveOk(cl: Client, bytes: Bytes, own: Bytes)
    requires ClientOk(cl, own) && cl.phase.Reading? && |cl.req| + |bytes| < REQ_BUF_SIZE
    ensures ClientOk(cl.(req := cl.req + bytes, received := cl.received + bytes), own)
  {
    SplitAppend(cl.received, bytes);
    SplitAppend(cl.req, bytes);
    NamesConcat(Complete(cl.received), Complete(Tail(cl.received) + bytes));
    NamesConcat(Complete(cl.req), Complete(Tail(cl.req) + bytes));
    Assoc(cl.names, Names(Complete(cl.req)), Names(Complete(Tail(cl.req) + bytes)));
  }

  lemma BeginDue(cl: Client, own: Bytes, path: Resolution, flushes: nat)
    requires ClientOk(cl, own) && cl.phase.Reading? && Find(cl.req, NL) < |cl.req|
    ensures Due(Cut(cl, path, flushes))
  {
    var first, rest := FirstLine(cl.req);
    assert first == cl.req[..Find(cl.req, NL)];
    assert ([first] + Complete(rest))[1..] == Complete(rest);
    Assoc(cl.names, [Name(first)], Names(Complete(rest)));
  }

  lemma RefuseOk(cl: Client, reason: string, own: Bytes)
    requires Due(cl)
    ensures ClientOk(cl.(phase := Reading, out := cl.out + Err(reason), responses := cl.responses + [Err(reason)]), own)
  {
    FlatSnoc(cl.responses, Err(reason));
  }

  lemma WritingOk(cl: Client, b: nat, r: Bytes)
    requires Due(cl) && Response(r) && r != []
    ensures ClientOk(cl.(phase := Writing(b, 0), responses := cl.responses + [r]), r)
  {
    FlatSnoc(cl.responses, r);
    assert Flat(cl.responses) + r[..0] == Flat(cl.responses);
  }

  lemma SendFileOk(cl: Client, file: Bytes, own: Bytes)
    requires Due(cl) && file != []
    ensures ClientOk(cl.(phase := SendFile(file, 0, |file|), out := cl.out + Header(|file|),
                         responses := cl.responses + [Ok(file)]), own)
  {
    FlatSnoc(cl.responses, Ok(file));
    assert Header(|file|) + file[..0] == Header(|file|);
  }

  /** The input side does not look at the output. */
  lemma InputKept(cl: Client, phase: Phase, out: Bytes)
    requires InputOk(cl)
    ensures InputOk(cl.(phase := phase, out := out))
  {
  }

  lemma WroteBytes(done: Bytes, own: Bytes, sent: nat, n: nat)
    requires sent + n <= |own|
    ensures (done + own[..sent]) + own[sent..sent + n] == done + own[..sent + n]
    ensures own[..|own|] == own
  {
    assert own[..sent] + own[sent..sent + n] == own[..sent + n];
    Assoc(done, own[..sent], own[sent..sent + n]);
  }

  lemma SentBytes(done: Bytes, h: Bytes, file: Bytes, offset: nat, n: nat)
    requires offset + n <= |file|
    ensures (done + (h + file[..offset])) + file[offset..offset + n] == done + (h + file[..offset + n])
    ensures file[..|file|] == file
  {
    assert file[..offset] + file[offset..offset + n] == file[..offset + n];
    Assoc(h, file[..offset], file[offset..offset + n]);
    Assoc(done, h + file[..offset], file[offset..offset + n]);
  }

  lemma WroteOut(cl: Client, own: Bytes, n: nat)
    requires OutputOk(cl, own) && cl.phase.Writing? && cl.phase.sent + n <= |own|
    ensures OutputOk(WroteClient(cl, own, n), if cl.phase.sent + n == |own| then [] else own)
  {
    WroteBytes(Flat(cl.responses[..|cl.responses| - 1]), own, cl.phase.sent, n);
    FlatLast(cl.responses);
  }

  lemma WroteOk(cl: Client, own: Bytes, n: nat)
    requires ClientOk(cl, own) && cl.phase.Writing? && cl.phase.sent + n <= |own|
    ensures ClientOk(WroteClient(cl, own, n), if cl.phase.sent + n == |own| then [] else own)
  {
    var cl' := WroteClient(cl, own, n);
    WroteOut(cl, own, n);
    InputKept(cl, cl'.phase, cl'.out);
  }

  ghost predicate SendingOk(cl: Client, done: Bytes, h: Bytes, p: Phase) {
    p.SendFile? && p.offset <= |p.file| && cl.out == done + (h + p.file[..p.offset])
  }

  lemma SentMore(cl: Client, done: Bytes, h: Bytes, n: nat)
    requires cl.phase.SendFile? && n <= cl.phase.remaining && cl.phase.offset + n <= |cl.phase.file|
    requires SendingOk(cl, done, h, cl.phase)
    ensures SentClient(cl, n).out == done + (h + cl.phase.file[..cl.phase.offset + n])
    ensures cl.phase.offset + n == |cl.phase.file| ==> SentClient(cl, n).out == done + (h + cl.phase.file)
  {
    SentBytes(done, h, cl.phase.file, cl.phase.offset, n);
  }

  lemma SentOut(cl: Client, own: Bytes, n: nat)
    requires OutputOk(cl, own) && cl.phase.SendFile? && n <= cl.phase.remaining
    requires cl.phase.offset + n <= |cl.phase.file|
    ensures OutputOk(SentClient(cl, n), own)
  {
    var k := |cl.responses| - 1;
    SentMore(cl, Flat(cl.responses[..k]), Header(|cl.phase.file|), n);
    if n == cl.phase.remaining {
      FlatLast(cl.responses);
    }
  }

  lemma SentOk(cl: Client, own: Bytes, n: nat)
    requires ClientOk(cl, own) && cl.phase.SendFile? && n <= cl.phase.remaining
    requires cl.phase.offset + n <= |cl.phase.file|
    ensures ClientOk(SentClient(cl, n), own)
  {
    var cl' := SentClient(cl, n);
    SentOut(cl, own, n);
    InputKept(cl, cl'.phase, cl'.out);
  }

  // ----- all clients, every run

  ghost function Own(s: State, c: nat): Bytes
    requires c in s.clients
  {
    var b := BufferOf(s.clients[c]);
    if b.Some? && b.value in s.heap then s.heap[b.value].bytes else []
  }

  ghost predicate IsOk(bytes: Bytes) {
    exists file :: bytes == Ok(file)
  }

  /** Cached bytes are complete positive responses. */
  ghost predicate CachedOk(s: State, k: Path) {
    Get(s.cache, k).Some? && Get(s.cache, k).value in s.heap ==> IsOk(s.heap[Get(s.cache, k).value].bytes)
  }

  ghost predicate Inv(s: State) {
    && HeapOk(s)
    && (forall k: Path :: CachedOk(s, k))
    && (forall c | c in s.clients :: ClientOk(s.clients[c], Own(s, c)))
  }

  lemma HeapCacheLive(s: State)
    requires HeapOk(s)
    ensures CacheLive(s)
  {
    forall i | 0 <= i < |s.cache|
      ensures s.cache[i].resp in s.heap
    {
      GetAt(s.cache, MAX_CACHE_ENTRIES, i);
      assert KeyOk(s, s.cache[i].key);
    }
  }

  /** The step changed client `c` and no buffer but its own; the cache may only have lost entries. */
  ghost predicate Local(s: State, s': State, c: nat) {
    && (forall d | d != c :: d in s'.clients <==> d in s.clients)
    && (forall d | d != c && d in s.clients :: s'.clients[d] == s.clients[d])
    && (forall b | b in s.heap && s.heap[b].owner != OfClient(c) && s.heap[b].owner.OfClient? ::
          b in s'.heap && s'.heap[b] == s.heap[b])
    && (forall b | b in s.heap && b in s'.heap && s.heap[b].owner.InCache? :: s'.heap[b] == s.heap[b])
  }

  lemma OthersKept(s: State, s': State, c: nat)
    requires Inv(s) && Local(s, s', c)
    ensures forall d | d != c && d in s'.clients :: ClientOk(s'.clients[d], Own(s', d))
  {
    forall d | d != c && d in s'.clients
      ensures ClientOk(s'.clients[d], Own(s', d))
    {
      assert HolderOk(s, d);
      assert ClientOk(s.clients[d], Own(s, d));
      assert Own(s', d) == Own(s, d);
    }
  }

  lemma CacheKept(s: State, s': State, c: nat)
    requires Inv(s) && HeapOk(s') && Local(s, s', c) && s'.cache == s.cache
    ensures forall k: Path :: CachedOk(s', k)
  {
    forall k: Path
      ensures CachedOk(s', k)
    {
      assert KeyOk(s, k) && CachedOk(s, k) && KeyOk(s', k);
    }
  }

  /** Everything but the changed client is as it was. */
  lemma LocalStep(s: State, s': State, c: nat)
    requires Inv(s) && HeapOk(s') && Local(s, s', c) && s'.cache == s.cache
    requires c in s'.clients ==> ClientOk(s'.clients[c], Own(s', c))
    ensures Inv(s')
  {
    OthersKept(s, s', c);
    CacheKept(s, s', c);
  }

  /** A change to one client that leaves its buffer, if it has one, alone. */
  lemma UpdateStep(s: State, c: nat, cl: Client)
    requires Inv(s)
    requires if c in s.clients then BufferOf(cl) == BufferOf(s.clients[c]) else BufferOf(cl).None?
    requires ClientOk(cl, if c in s.clients then Own(s, c) else [])
    ensures Inv(Update(s, c, cl))
  {
    UpdateLocal(s, c, cl);
    LocalStep(s, Update(s, c, cl), c);
  }

  lemma UpdateLocal(s: State, c: nat, cl: Client)
    requires HeapOk(s)
    requires if c in s.clients then BufferOf(cl) == BufferOf(s.clients[c]) else BufferOf(cl).None?
    ensures HeapOk(Update(s, c, cl)) && Local(s, Update(s, c, cl), c)
    ensures Own(Update(s, c, cl), c) == if c in s.clients then Own(s, c) else []
  {
    UpdateHeap(s, c, cl);
  }

  /** A client that had no buffer is given one. */
  lemma GrantStep(s: State, c: nat, cl: Client, bytes: Bytes)
    requires Inv(s) && c in s.clients && BufferOf(s.clients[c]).None? && BufferOf(cl) == Some(s.next)
    requires ClientOk(cl, bytes)
    ensures Inv(Update(Malloc(s, bytes, OfClient(c)), c, cl))
  {
    GrantHeap(s, c, cl, bytes);
    NextIsNew(s);
    LocalStep(s, Update(Malloc(s, bytes, OfClient(c)), c, cl), c);
  }

  lemma ReleaseLocal(s: State, c: nat, s': State)
    requires HoldsBuffer(s, c) && s'.heap == s.heap - {BufferOf(s.clients[c]).value}
    requires s'.clients - {c} == s.clients - {c}
    ensures Local(s, s', c)
  {
    assert forall d | d != c :: d in s'.clients <==> d in s'.clients - {c};
    assert forall d | d != c :: d in s.clients <==> d in s.clients - {c};
    assert forall d | d != c && d in s.clients :: (s.clients - {c})[d] == s.clients[d];
    assert forall d | d != c && d in s'.clients :: (s'.clients - {c})[d] == s'.clients[d];
  }

  ghost predicate HoldsBuffer(s: State, c: nat) {
    c in s.clients && BufferOf(s.clients[c]).Some? && HolderOk(s, c)
  }

  /** A client's buffer is freed. */
  lemma ReleaseStep(s: State, c: nat, cl: Client)
    requires Inv(s) && c in s.clients && BufferOf(s.clients[c]).Some? && BufferOf(cl).None?
    requires ClientOk(cl, [])
    ensures Inv(Update(Free(s, BufferOf(s.clients[c]).value), c, cl))
  {
    var s' := Update(Free(s, BufferOf(s.clients[c]).value), c, cl);
    assert s'.clients - {c} == s.clients - {c};
    ReleaseHeap(s, c, s');
    ReleaseLocal(s, c, s');
    LocalStep(s, s', c);
  }

  lemma NoBufferNothingOwned(s: State, c: nat)
    requires c in s.clients && BufferOf(s.clients[c]).None?
    ensures Own(s, c) == []
  {
  }

  lemma RefuseStep(s: State, c: nat, cl: Client, reason: string)
    requires Inv(s) && c in s.clients && BufferOf(s.clients[c]).None? && cl.phase.Reading? && Due(cl)
    ensures Inv(Refuse(s, c, cl, reason))
  {
    RefuseOk(cl, reason, []);
    NoBufferNothingOwned(s, c);
    UpdateStep(s, c, cl.(out := cl.out + Err(reason), responses := cl.responses + [Err(reason)]));
  }

  lemma FromCacheStep(s: State, c: nat, cl: Client, b: nat)
    requires Inv(s) && c in s.clients && BufferOf(s.clients[c]).None? && Due(cl)
    requires b in s.heap && IsOk(s.heap[b].bytes)
    ensures Inv(ServeFromCache(s, c, cl, b))
  {
    var bytes := s.heap[b].bytes;
    WritingOk(cl, s.next, bytes);
    GrantStep(s, c, cl.(phase := Writing(s.next, 0), responses := cl.responses + [bytes]), bytes);
  }

  lemma SendFileStep(s: State, c: nat, cl: Client, file: Bytes)
    requires Inv(s) && c in s.clients && BufferOf(s.clients[c]).None? && Due(cl) && file != []
    ensures Inv(StartSendFile(s, c, cl, file))
  {
    SendFileOk(cl, file, []);
    NoBufferNothingOwned(s, c);
    var cl' := cl.(phase := SendFile(file, 0, |file|), out := cl.out + Header(|file|),
                   responses := cl.responses + [Ok(file)]);
    UpdateStep(s, c, cl');
    ObserveStep(Update(s, c, cl'), Observation(cl.key, file, [], LastBegun(cl)));
  }

  lemma StartAioStep(s: State, c: nat, cl: Client, size: nat, garbage: nat -> bv8)
    requires Inv(s) && c in s.clients && BufferOf(s.clients[c]).None? && Due(cl) && size <= MAX_CACHE_FILE_SIZE
    ensures Inv(StartAio(s, c, cl, size, garbage))
  {
    GrantStep(s, c, cl.(phase := Aio(s.next, size)), RoomFor(size, garbage));
  }

  lemma AioRefusedStep(s: State, c: nat, cl: Client, bytes: Bytes, reason: string)
    requires Inv(s) && c in s.clients && BufferOf(s.clients[c]).None? && cl.phase.Reading? && Due(cl)
    ensures Inv(Refuse(Free(Malloc(s, bytes, OfClient(c)), s.next), c, cl, reason))
  {
    FreedAtOnce(s, c, bytes);
    RefuseStep(Free(Malloc(s, bytes, OfClient(c)), s.next), c, cl, reason);
  }

  lemma SameHeapStep(s: State, s': State)
    requires Inv(s) && HeapOk(s') && s'.heap == s.heap && s'.clients == s.clients && s'.cache == s.cache
    ensures Inv(s')
  {
    forall k: Path
      ensures CachedOk(s', k)
    {
      assert CachedOk(s, k);
    }
    forall c | c in s'.clients
      ensures ClientOk(s'.clients[c], Own(s', c))
    {
      assert ClientOk(s.clients[c], Own(s, c)) && Own(s', c) == Own(s, c);
    }
  }

  lemma ObserveStep(s: State, o: Observation)
    requires Inv(s)
    ensures Inv(Observe(s, o))
  {
    var s' := Observe(s, o);
    forall b | b in s'.heap
      ensures BufferOk(s', b)
    {
      assert BufferOk(s, b);
    }
    forall k: Path
      ensures KeyOk(s', k)
    {
      assert KeyOk(s, k);
    }
    forall d | d in s'.clients
      ensures HolderOk(s', d)
    {
      assert HolderOk(s, d);
    }
    SameHeapStep(s, s');
  }

  lemma FreedAtOnce(s: State, c: nat, bytes: Bytes)
    requires Inv(s) && c in s.clients
    ensures Inv(Free(Malloc(s, bytes, OfClient(c)), s.next))
  {
    var s1 := Free(Malloc(s, bytes, OfClient(c)), s.next);
    FreeFreshHeap(s, c, bytes);
    SameHeapStep(s, s1);
  }

  lemma BeginFileServeStep(s: State, c: nat, cl: Client, name: Bytes, env: Env)
    requires Inv(s) && c in s.clients && BufferOf(s.clients[c]).None? && cl.phase.Reading? && Due(cl)
    requires CacheLive(s)
    ensures Inv(BeginFileServe(s, c, cl, name, env))
  {
    if name == [] {
      RefuseStep(s, c, cl, "empty filename");
    } else if name[0] == SLASH {
      RefuseStep(s, c, cl, "absolute paths not allowed");
    } else if env.path.NotFound? {
      RefuseStep(s, c, cl, "not found");
    } else if env.path.Denied? {
      RefuseStep(s, c, cl, "access denied");
    } else {
      var cl1 := cl.(key := env.path.key);
      assert CachedOk(s, env.path.key);
      if Get(s.cache, env.path.key).Some? && env.copyOk {
        FromCacheStep(s, c, cl1, Get(s.cache, env.path.key).value);
      } else {
        ServeFromDiskStep(s, c, cl1, env);
      }
    }
  }

  lemma ServeFromDiskStep(s: State, c: nat, cl: Client, env: Env)
    requires Inv(s) && c in s.clients && BufferOf(s.clients[c]).None? && cl.phase.Reading? && Due(cl)
    ensures Inv(ServeFromDisk(s, c, cl, env))
  {
    match env.stat
    case StatFailed => RefuseStep(s, c, cl, "stat failed");
    case NotRegular => RefuseStep(s, c, cl, "not a regular file");
    case OpenFailed => RefuseStep(s, c, cl, "open failed");
    case File(file) =>
      if |file| > MAX_CACHE_FILE_SIZE {
        SendFileStep(s, c, cl, file);
      } else if !env.mallocOk {
        RefuseStep(s, c, cl, "out of memory");
      } else if !env.aioOk {
        AioRefusedStep(s, c, cl, RoomFor(|file|, env.garbage), "aio_read failed");
      } else {
        StartAioStep(s, c, cl, |file|, env.garbage);
      }
  }

  // ----- the cache never touches what a client has yet to send

  /** Same clients, and each client's buffer, if any, is live with the same content. */
  ghost predicate ClientsUntouched(s: State, s': State) {
    && s'.clients == s.clients
    && forall c | c in s.clients && BufferOf(s.clients[c]).Some? ::
         var b := BufferOf(s.clients[c]).value;
         b in s.heap && b in s'.heap && s'.heap[b] == s.heap[b]
  }

  lemma UntouchedClientsOk(s: State, s': State)
    requires Inv(s) && ClientsUntouched(s, s')
    ensures forall c | c in s'.clients :: ClientOk(s'.clients[c], Own(s', c)) && Own(s', c) == Own(s, c)
  {
    forall c | c in s'.clients
      ensures ClientOk(s'.clients[c], Own(s', c)) && Own(s', c) == Own(s, c)
    {
      assert ClientOk(s.clients[c], Own(s, c));
    }
  }

  lemma InsertUntouched(s: State, key: Path, bytes: Bytes)
    requires HeapOk(s)
    ensures ClientsUntouched(s, Inserted(s, key, bytes))
  {
    NextIsNew(s);
    if Displaced(MAX_CACHE_ENTRIES, s.cache, key).Some? {
      DisplacedOwner(s, key);
    }
    forall c | c in s.clients && BufferOf(s.clients[c]).Some?
      ensures var b := BufferOf(s.clients[c]).value; b in s.heap && s.heap[b].owner == OfClient(c)
    {
      assert HolderOk(s, c);
    }
  }

  lemma InsertCached(s: State, key: Path, bytes: Bytes, k: Path)
    requires Inv(s) && IsOk(bytes)
    ensures CachedOk(Inserted(s, key, bytes), k)
  {
    NextIsNew(s);
    InsertGets(s, key, s.next, k);
    assert KeyOk(s, k) && CachedOk(s, k);
  }

  lemma InsertStep(s: State, key: Path, bytes: Bytes)
    requires Inv(s) && IsOk(bytes)
    ensures var s' := Inserted(s, key, bytes); Inv(s') && ClientsUntouched(s, s')
  {
    var s' := Inserted(s, key, bytes);
    InsertHeap(s, key, bytes);
    InsertUntouched(s, key, bytes);
    UntouchedClientsOk(s, s');
    forall k: Path
      ensures CachedOk(s', k)
    {
      InsertCached(s, key, bytes, k);
    }
  }

  lemma FlushStep(s: State)
    requires Inv(s)
    ensures Inv(CacheClear(s)) && ClientsUntouched(s, CacheClear(s)) && CacheClear(s).cache == []
  {
    var s' := CacheClear(s);
    ClearHeap(s);
    forall i | 0 <= i < |s.cache|
      ensures Ids(s.cache)[i] in s.heap && s.heap[Ids(s.cache)[i]].owner.InCache?
    {
      GetAt(s.cache, MAX_CACHE_ENTRIES, i);
      assert KeyOk(s, s.cache[i].key);
    }
    forall c | c in s.clients && BufferOf(s.clients[c]).Some?
      ensures var b := BufferOf(s.clients[c]).value; b in s.heap && b in s'.heap && s'.heap[b] == s.heap[b]
    {
      assert HolderOk(s, c);
    }
    UntouchedClientsOk(s, s');
  }

  // ----- the remaining events

  ghost function Filled(s: State, c: nat, bytes: Bytes): State
    requires c in s.clients && s.clients[c].phase.Aio?
  {
    s.(heap := s.heap[s.clients[c].phase.buf := Buffer(bytes, OfClient(c))])
  }

  lemma FillLocal(s: State, c: nat, bytes: Bytes)
    requires HeapOk(s) && c in s.clients && s.clients[c].phase.Aio?
    ensures HeapOk(Filled(s, c, bytes)) && Local(s, Filled(s, c, bytes), c)
    ensures Own(Filled(s, c, bytes), c) == bytes
  {
    var b := s.clients[c].phase.buf;
    assert HolderOk(s, c);
    assert s.heap[b].(bytes := bytes) == Buffer(bytes, OfClient(c));
    FillHeap(s, b, bytes);
  }

  lemma FillStep(s: State, c: nat, bytes: Bytes)
    requires Inv(s) && c in s.clients && s.clients[c].phase.Aio? && HasRoom(bytes, s.clients[c].phase.size)
    ensures Inv(Filled(s, c, bytes)) && Own(Filled(s, c, bytes), c) == bytes
  {
    FillLocal(s, c, bytes);
    assert ClientOk(s.clients[c], Own(s, c));
    LocalStep(s, Filled(s, c, bytes), c);
  }

  /** A client in AIO owes a response and has a buffer for it. */
  lemma AioDue(s: State, c: nat)
    requires Inv(s) && c in s.clients && s.clients[c].phase.Aio?
    ensures Due(s.clients[c])
    ensures s.clients[c].phase.buf in s.heap && HasRoom(s.heap[s.clients[c].phase.buf].bytes, s.clients[c].phase.size)
  {
    assert HolderOk(s, c);
    assert ClientOk(s.clients[c], Own(s, c));
  }

  lemma EnterWriting(s: State, c: nat, bytes: Bytes, o: Observation)
    requires Inv(s) && c in s.clients && s.clients[c].phase.Aio? && Own(s, c) == bytes && IsOk(bytes)
    ensures var cl := s.clients[c];
            Inv(Observe(Update(s, c, cl.(phase := Writing(cl.phase.buf, 0), responses := cl.responses + [bytes])), o))
  {
    var cl := s.clients[c];
    AioDue(s, c);
    WritingOk(cl, cl.phase.buf, bytes);
    var cl' := cl.(phase := Writing(cl.phase.buf, 0), responses := cl.responses + [bytes]);
    UpdateStep(s, c, cl');
    ObserveStep(Update(s, c, cl'), o);
  }

  /** Whatever the read delivered, the buffer is a complete response: data, then what was there before. */
  lemma ReadIntoIs(bytes: Bytes, size: nat, data: Bytes)
    requires HasRoom(bytes, size) && |data| <= size
    ensures var h := |Header(size)|; var r := ReadInto(bytes, h, data);
            && r == Ok(data + r[h + |data|..]) && HasRoom(r, size)
            && r[h + |data|..] == bytes[h + |data|..]
  {
    var h := |Header(size)|;
    var junk := bytes[h + |data|..];
    Assoc(Header(size), data, junk);
    assert bytes[..h] == Header(size);
    assert (bytes[..h] + data + junk)[h + |data|..] == junk;
    assert |data + junk| == size;
  }

  /** What check_aio does once the buffer is known to hold the response `bytes`. */
  ghost function Finished(s: State, c: nat, bytes: Bytes, o: Observation, cached: bool): State
    requires c in s.clients && s.clients[c].phase.Aio?
  {
    var cl := s.clients[c];
    var s1 := Filled(s, c, bytes);
    var s2 := if cached then Inserted(s1, cl.key, bytes) else s1;
    Observe(Update(s2, c, cl.(phase := Writing(cl.phase.buf, 0), responses := cl.responses + [bytes])), o)
  }

  /** The response in the buffer, what was read, and whether a copy is cached. */
  lemma FinishParts(s: State, c: nat, data: Bytes, copyOk: bool)
    returns (bytes: Bytes, o: Observation, cached: bool)
    requires Inv(s) && Enabled(s, AioDone(c, data, copyOk))
    ensures FinishAio(s, c, data, copyOk) == Finished(s, c, bytes, o, cached)
    ensures HasRoom(bytes, s.clients[c].phase.size) && bytes == Ok(o.data + o.junk)
    ensures o.key == s.clients[c].key && o.epoch == LastBegun(s.clients[c])
    ensures cached ==> s.clients[c].key != ""
  {
    var cl := s.clients[c];
    AioDue(s, c);
    ReadIntoIs(s.heap[cl.phase.buf].bytes, cl.phase.size, data);
    bytes := ReadInto(s.heap[cl.phase.buf].bytes, |Header(cl.phase.size)|, data);
    o := Observation(cl.key, data, bytes[|Header(cl.phase.size)| + |data|..], LastBegun(cl));
    cached := |bytes| <= MAX_CACHE_FILE_SIZE + 64 && cl.key != "" && copyOk;
  }

  lemma FinishAioStep(s: State, c: nat, data: Bytes, copyOk: bool)
    requires Inv(s) && Enabled(s, AioDone(c, data, copyOk))
    ensures Inv(FinishAio(s, c, data, copyOk))
  {
    var bytes, o, cached := FinishParts(s, c, data, copyOk);
    FinishWith(s, c, bytes, o, cached);
  }

  lemma FinishWith(s: State, c: nat, bytes: Bytes, o: Observation, cached: bool)
    requires Inv(s) && c in s.clients && s.clients[c].phase.Aio?
    requires HasRoom(bytes, s.clients[c].phase.size) && IsOk(bytes)
    ensures Inv(Finished(s, c, bytes, o, cached))
  {
    var s1 := Filled(s, c, bytes);
    FillStep(s, c, bytes);
    if cached {
      InsertStep(s1, s.clients[c].key, bytes);
      EnterWriting(Inserted(s1, s.clients[c].key, bytes), c, bytes, o);
    } else {
      EnterWriting(s1, c, bytes, o);
    }
  }

  lemma AioErrorStep(s: State, c: nat)
    requires Inv(s) && c in s.clients && s.clients[c].phase.Aio?
    ensures Inv(Refuse(Free(s, s.clients[c].phase.buf), c, s.clients[c].(phase := Reading), "read error"))
  {
    var cl := s.clients[c];
    AioDue(s, c);
    RefuseOk(cl, "read error", []);
    ReleaseStep(s, c, cl.(phase := Reading, out := cl.out + Err("read error"),
                          responses := cl.responses + [Err("read error")]));
  }

  lemma ClientFacts(s: State, c: nat)
    requires Inv(s) && c in s.clients
    ensures ClientOk(s.clients[c], Own(s, c))
    ensures BufferOf(s.clients[c]).Some? ==>
              BufferOf(s.clients[c]).value in s.heap && Own(s, c) == s.heap[BufferOf(s.clients[c]).value].bytes
  {
    assert HolderOk(s, c);
  }

  lemma WroteStep(s: State, c: nat, n: nat)
    requires Inv(s) && Enabled(s, Wrote(c, n))
    ensures Inv(WriteSome(s, c, n))
  {
    var cl := s.clients[c];
    var own := Own(s, c);
    ClientFacts(s, c);
    WroteOk(cl, own, n);
    var cl' := WroteClient(cl, own, n);
    if cl.phase.sent + n == |own| {
      ReleaseStep(s, c, cl');
    } else {
      UpdateStep(s, c, cl');
    }
  }

  lemma SentStep(s: State, c: nat, n: nat)
    requires Inv(s) && Enabled(s, Sent(c, n))
    ensures Inv(SendSome(s, c, n))
  {
    ClientFacts(s, c);
    SentOk(s.clients[c], Own(s, c), n);
    UpdateStep(s, c, SentClient(s.clients[c], n));
  }

  lemma ReceiveStep(s: State, c: nat, bytes: Bytes)
    requires Inv(s) && Enabled(s, Receive(c, bytes))
    ensures var cl := s.clients[c]; Inv(Update(s, c, cl.(req := cl.req + bytes, received := cl.received + bytes)))
  {
    var cl := s.clients[c];
    ReceiveOk(cl, bytes, Own(s, c));
    UpdateStep(s, c, cl.(req := cl.req + bytes, received := cl.received + bytes));
  }

  lemma TakeLineStep(s: State, c: nat, env: Env)
    requires Inv(s) && Enabled(s, Begin(c, env)) && CacheLive(s)
    ensures Inv(TakeLine(s, c, env))
  {
    var cl := s.clients[c];
    ClientFacts(s, c);
    BeginDue(cl, Own(s, c), env.path, s.flushes);
    BeginFileServeStep(s, c, Cut(cl, env.path, s.flushes), Name(cl.req[..Find(cl.req, NL)]), env);
  }

  lemma ConnectStep(s: State, c: nat)
    requires Inv(s) && c !in s.clients
    ensures Inv(Update(s, c, NEW_CLIENT))
  {
    NewClientOk([]);
    UpdateStep(s, c, NEW_CLIENT);
  }

  lemma RemoveStep(s: State, c: nat)
    requires Inv(s) && c in s.clients
    ensures Inv(RemoveClient(s, c))
  {
    var s' := RemoveClient(s, c);
    assert s'.clients - {c} == s.clients - {c};
    if BufferOf(s.clients[c]).Some? {
      assert HolderOk(s, c);
      ReleaseHeap(s, c, s');
      ReleaseLocal(s, c, s');
    } else {
      LeaveHeap(s, c);
    }
    LocalStep(s, s', c);
  }

  lemma LeaveHeap(s: State, c: nat)
    requires HeapOk(s) && c in s.clients && BufferOf(s.clients[c]).None?
    ensures HeapOk(s.(clients := s.clients - {c})) && Local(s, s.(clients := s.clients - {c}), c)
  {
    var s' := s.(clients := s.clients - {c});
    forall b | b in s'.heap
      ensures BufferOk(s', b)
    {
      assert BufferOk(s, b);
    }
    forall k: Path
      ensures KeyOk(s', k)
    {
      assert KeyOk(s, k);
    }
    forall d | d in s'.clients
      ensures HolderOk(s', d)
    {
      assert HolderOk(s, d);
    }
  }

  lemma StepKeepsInv(s: State, e: Event)
    requires Inv(s) && Enabled(s, e)
    ensures CacheLive(s) && Inv(Step(s, e))
  {
    HeapCacheLive(s);
    match e
    case Connect(c) => ConnectStep(s, c);
    case Receive(c, bytes) => ReceiveStep(s, c, bytes);
    case Begin(c, env) => TakeLineStep(s, c, env);
    case AioDone(c, data, copyOk) => FinishAioStep(s, c, data, copyOk);
    case AioError(c) => AioErrorStep(s, c);
    case Wrote(c, n) => WroteStep(s, c, n);
    case Sent(c, n) => SentStep(s, c, n);
    case Remove(c) => RemoveStep(s, c);
    case Flush => FlushStep(s);
  }

  // ----- every run

  ghost predicate Runs(s: State, events: seq<Event>)
    decreases |events|
  {
    events == [] || (Enabled(s, events[0]) && CacheLive(s) && Runs(Step(s, events[0]), events[1..]))
  }

  ghost function After(s: State, events: seq<Event>): State
    requires Runs(s, events)
    decreases |events|
  {
    if events == [] then s else After(Step(s, events[0]), events[1..])
  }

  lemma OneEvent(s: State, e: Event)
    requires Enabled(s, e) && CacheLive(s)
    ensures Runs(s, [e]) && After(s, [e]) == Step(s, e)
  {
    assert [e][1..] == [];
  }

  /** The first event of a run, seen from outside. */
  lemma RunsFirst(s: State, events: seq<Event>) returns (s1: State)
    requires Runs(s, events) && events != []
    ensures Enabled(s, events[0]) && CacheLive(s) && s1 == Step(s, events[0])
    ensures Runs(s1, events[1..]) && After(s, events) == After(s1, events[1..])
  {
    s1 := Step(s, events[0]);
  }

  lemma RunsCons(s: State, e: Event, s1: State, rest: seq<Event>)
    requires Enabled(s, e) && CacheLive(s) && s1 == Step(s, e) && Runs(s1, rest)
    ensures Runs(s, [e] + rest) && After(s, [e] + rest) == After(s1, rest)
  {
    assert ([e] + rest)[1..] == rest;
  }

  lemma HeadAndRest(p: seq<Event>, q: seq<Event>)
    requires p != []
    ensures p + q == [p[0]] + (p[1..] + q)
  {
  }

  lemma {:induction false} RunsConcat(s: State, p: seq<Event>, q: seq<Event>)
    requires Runs(s, p) && Runs(After(s, p), q)
    ensures Runs(s, p + q) && After(s, p + q) == After(After(s, p), q)
    decreases |p|
  {
    if p == [] {
      assert p + q == q;
    } else {
      HeadAndRest(p, q);
      var s1 := RunsFirst(s, p);
      RunsConcat(s1, p[1..], q);
      RunsCons(s, p[0], s1, p[1..] + q);
    }
  }

  lemma {:induction false} RunKeepsInv(s: State, events: seq<Event>)
    requires Inv(s) && Runs(s, events)
    ensures Inv(After(s, events))
    decreases |events|
  {
    if events != [] {
      StepKeepsInv(s, events[0]);
      RunKeepsInv(Step(s, events[0]), events[1..]);
    }
  }

  lemma StartInv()
    ensures Inv(START)
  {
  }

  /**
    Output order. In every run, what a client has been sent is a prefix of complete responses
    written one after the other, one per request begun, in order; all but the last are out in full.
    The requests begun are those of a prefix of the lines received, and a new one is begun only
    when all earlier responses are out. A client resting in WRITING or SENDFILE has something left
    to send, and the two sendfile counters add up to the size of the file.
   */
  lemma OutputInOrder(events: seq<Event>, c: nat)
    requires Runs(START, events) && c in After(START, events).clients
    ensures var cl := After(START, events).clients[c]; var rs := cl.responses;
            && cl.names <= Names(Complete(cl.received))
            && (forall i | 0 <= i < |rs| :: Response(rs[i]))
            && (|rs| == |cl.names| || (cl.phase.Aio? && |rs| + 1 == |cl.names|))
            && cl.out <= Flat(rs)
            && (rs != [] ==> Flat(rs[..|rs| - 1]) <= cl.out)
            && (cl.phase.Reading? || cl.phase.Aio? ==> cl.out == Flat(rs))
            && (cl.phase.Writing? ==>
                  && cl.phase.buf in After(START, events).heap && rs != []
                  && After(START, events).heap[cl.phase.buf].bytes == rs[|rs| - 1]
                  && cl.phase.sent < |rs[|rs| - 1]|)
            && (cl.phase.SendFile? ==>
                cl.phase.offset + cl.phase.remaining == |cl.phase.file| && cl.phase.remaining > 0)
  {
    StartInv();
    RunKeepsInv(START, events);
    var s := After(START, events);
    ClientFacts(s, c);
    OutputOfClient(s.clients[c], Own(s, c));
  }

  /** What the invariant of one client says about its output. */
  lemma OutputOfClient(cl: Client, own: Bytes)
    requires ClientOk(cl, own)
    ensures var rs := cl.responses;
            && cl.out <= Flat(rs)
            && (rs != [] ==> Flat(rs[..|rs| - 1]) <= cl.out)
  {
    var rs := cl.responses;
    if rs != [] {
      var done := Flat(rs[..|rs| - 1]);
      FlatLast(rs);
      match cl.phase
      case Writing(_, sent) => PrefixLeft(done, own[..sent], own);
      case SendFile(file, offset, _) =>
        PrefixLeft(Header(|file|), file[..offset], file);
        PrefixLeft(done, Header(|file|) + file[..offset], Ok(file));
      case _ =>
    }
  }

  lemma PrefixLeft(a: Bytes, b: Bytes, b': Bytes)
    requires b <= b'
    ensures a + b <= a + b'
  {
  }

  // ----- nothing leaks

  /** Every buffer ever allocated is live or has been freed. */
  ghost predicate NoLeak(s: State) {
    forall b | 0 <= b < s.next :: b in s.heap || b in s.freed
  }

  lemma FreeNoLeak(s: State, b: nat)
    requires NoLeak(s)
    ensures NoLeak(Free(s, b))
  {
    assert Free(s, b).freed[|s.freed|] == b;
  }

  lemma InsertNoLeak(s: State, key: Path, b: nat)
    requires NoLeak(s)
    ensures NoLeak(CacheInsert(s, key, b))
  {
    if Displaced(MAX_CACHE_ENTRIES, s.cache, key).Some? {
      FreeNoLeak(s, Displaced(MAX_CACHE_ENTRIES, s.cache, key).value);
    }
  }

  lemma StepNoLeak(s: State, e: Event)
    requires NoLeak(s) && Enabled(s, e) && CacheLive(s)
    ensures NoLeak(Step(s, e))
  {
    match e
    case Begin(c, env) => TakeLineNoLeak(s, c, env);
    case AioDone(c, data, copyOk) =>
      var bytes := ReadInto(s.heap[s.clients[c].phase.buf].bytes, |Header(s.clients[c].phase.size)|, data);
      var s1 := s.(heap := s.heap[s.clients[c].phase.buf := Buffer(bytes, OfClient(c))]);
      InsertNoLeak(Malloc(s1, bytes, InCache(s.clients[c].key)), s.clients[c].key, s.next);
    case AioError(c) => FreeNoLeak(s, s.clients[c].phase.buf);
    case Wrote(c, n) => FreeNoLeak(s, s.clients[c].phase.buf);
    case Remove(c) =>
      if BufferOf(s.clients[c]).Some? {
        FreeNoLeak(s, BufferOf(s.clients[c]).value);
      }
    case _ =>
  }

  lemma ServeFromDiskNoLeak(s: State, c: nat, cl: Client, env: Env)
    requires NoLeak(s)
    ensures NoLeak(ServeFromDisk(s, c, cl, env))
  {
    if env.stat.File? {
      FreeNoLeak(Malloc(s, RoomFor(|env.stat.file|, env.garbage), OfClient(c)), s.next);
    }
  }

  lemma TakeLineNoLeak(s: State, c: nat, env: Env)
    requires NoLeak(s) && Enabled(s, Begin(c, env)) && CacheLive(s)
    ensures NoLeak(TakeLine(s, c, env))
  {
    if env.path.At? {
      ServeFromDiskNoLeak(s, c, Cut(s.clients[c], env.path, s.flushes).(key := env.path.key), env);
    }
  }

  lemma {:induction false} RunNoLeak(s: State, events: seq<Event>)
    requires NoLeak(s) && Runs(s, events)
    ensures NoLeak(After(s, events))
    decreases |events|
  {
    if events != [] {
      StepNoLeak(s, events[0]);
      RunNoLeak(Step(s, events[0]), events[1..]);
    }
  }

  ghost predicate SlotHolds(s: State, i: nat, b: nat) {
    i < |s.cache| && s.cache[i].resp == b
  }

  ghost predicate ClientHolds(s: State, c: nat, b: nat) {
    c in s.clients && BufferOf(s.clients[c]) == Some(b)
  }

  lemma SlotOwner(s: State, i: nat, b: nat)
    requires HeapOk(s) && SlotHolds(s, i, b)
    ensures b in s.heap && s.heap[b].owner == InCache(s.cache[i].key)
  {
    GetAt(s.cache, MAX_CACHE_ENTRIES, i);
    assert KeyOk(s, s.cache[i].key);
  }

  lemma ClientOwner(s: State, c: nat, b: nat)
    requires HeapOk(s) && ClientHolds(s, c, b)
    ensures b in s.heap && s.heap[b].owner == OfClient(c)
  {
    assert HolderOk(s, c);
  }

  lemma LiveIsHeld(s: State, b: nat)
    requires HeapOk(s) && b in s.heap
    ensures (exists i: nat :: SlotHolds(s, i, b)) || (exists c: nat :: ClientHolds(s, c, b))
  {
    assert BufferOk(s, b);
    match s.heap[b].owner
    case InCache(k) => assert SlotHolds(s, IndexOf(s.cache, k), b);
    case OfClient(c) => assert ClientHolds(s, c, b);
  }

  /**
    Buffer ownership. In every run each live buffer belongs to exactly one cache slot or to exactly
    one client in AIO or WRITING, whatever they hold is live, and every buffer allocated is either
    still live or has been freed exactly once.
   */
  lemma OneOwnerPerBuffer(events: seq<Event>, b: nat)
    requires Runs(START, events)
    ensures var s := After(START, events);
            && (b in s.heap <==> (exists i: nat :: SlotHolds(s, i, b)) || (exists c: nat :: ClientHolds(s, c, b)))
            && (forall i: nat, j: nat | SlotHolds(s, i, b) && SlotHolds(s, j, b) :: i == j)
            && (forall c: nat, d: nat | ClientHolds(s, c, b) && ClientHolds(s, d, b) :: c == d)
            && (forall i: nat, c: nat :: !(SlotHolds(s, i, b) && ClientHolds(s, c, b)))
            && (b in s.heap ==> b < s.next && b !in s.freed)
            && (b in s.freed ==> b < s.next)
            && (b < s.next ==> b in s.heap || b in s.freed)
            && (forall i, j | 0 <= i < j < |s.freed| :: s.freed[i] != s.freed[j])
  {
    StartInv();
    RunKeepsInv(START, events);
    RunNoLeak(START, events);
    var s := After(START, events);
    if b in s.heap {
      LiveIsHeld(s, b);
      assert BufferOk(s, b);
    }
    forall i: nat | SlotHolds(s, i, b)
      ensures b in s.heap && s.heap[b].owner == InCache(s.cache[i].key)
    {
      SlotOwner(s, i, b);
    }
    forall c: nat | ClientHolds(s, c, b)
      ensures b in s.heap && s.heap[b].owner == OfClient(c)
    {
      ClientOwner(s, c, b);
    }
  }

  /** Flushing the cache, at any point of any run, leaves every client's unsent bytes alone. */
  lemma FlushSparesClients(events: seq<Event>)
    requires Runs(START, events)
    ensures ClientsUntouched(After(START, events), CacheClear(After(START, events)))
    ensures CacheClear(After(START, events)).cache == []
  {
    StartInv();
    RunKeepsInv(START, events);
    FlushStep(After(START, events));
  }
}
