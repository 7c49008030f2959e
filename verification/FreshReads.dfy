/**
  What clients of the two single-threaded servers can observe of the files behind the cache.

  Files change under the server's feet: each write gives a file a new version, a file may be
  removed and created again. A reply is the version it carries. The cache is the bounded FIFO map
  that both servers' caches implement.
 */
module FreshReads {
  import opened FifoMap

  /** `clock` is the last version handed out; `flush` is the flag the signal handler sets. */
  datatype State = State(disk: map<Path, nat>, clock: nat, flush: bool, cache: seq<Entry<nat>>)

  /** How a request that misses the cache ends. */
  datatype Ending =
    | Cached      // small file: read, sent, inserted
    | Streamed    // large file, or no memory, or a short read: sent without caching
    | Failed      // stat or open failed, or the client went away: nothing inserted

  datatype Event =
    | Write(path: Path)
    | Remove(path: Path)
    | Signal                               // SIGUSR1
    | LoopTop                              // the check at the top of the event loop
    | Request(path: Path, outcome: Ending)

  const START := State(map[], 0, false, [])

  function Step(cap: nat, s: State, e: Event): State {
    match e
    case Write(p) => s.(disk := s.disk[p := s.clock + 1], clock := s.clock + 1)
    case Remove(p) => s.(disk := s.disk - {p})
    case Signal => s.(flush := true)
    case LoopTop => if s.flush then s.(flush := false, cache := []) else s
    case Request(p, outcome) =>
      if p in s.disk && Get(s.cache, p).None? && outcome.Cached?
      then s.(cache := Put(cap, s.cache, p, s.disk[p]))
      else s
  }

  /** The version in the reply to a request, if a file is sent: paths are resolved before the lookup. */
  function Reply(s: State, e: Event): Option<nat> {
    if !e.Request? || e.path !in s.disk then None
    else if Get(s.cache, e.path).Some? then Get(s.cache, e.path)
    else if e.outcome.Failed? then None
    else Some(s.disk[e.path])
  }

  /** The state before event `i`. */
  function At(cap: nat, events: seq<Event>, i: nat): State
    requires i <= |events|
  {
    if i == 0 then START else Step(cap, At(cap, events, i - 1), events[i - 1])
  }

  predicate ClearedAt(cap: nat, events: seq<Event>, i: nat) {
    i < |events| && events[i].LoopTop? && At(cap, events, i).flush
  }

  predicate RepliesAt(cap: nat, events: seq<Event>, i: nat, p: Path, v: nat) {
    i < |events| && events[i].Request? && events[i].path == p && Reply(At(cap, events, i), events[i]) == Some(v)
  }

  // ----- state invariant

  /** A cached version is not newer than the file's. */
  predicate PathOk(s: State, p: Path) {
    && (p in s.disk ==> s.disk[p] <= s.clock)
    && (Get(s.cache, p).Some? ==>
          Get(s.cache, p).value <= s.clock && (p in s.disk ==> Get(s.cache, p).value <= s.disk[p]))
  }

  ghost predicate StateOk(cap: nat, s: State) {
    Fifo(cap, s.cache) && forall p: Path :: PathOk(s, p)
  }

  lemma StepKeepsPath(cap: nat, s: State, e: Event, p: Path)
    requires cap > 0 && StateOk(cap, s)
    ensures PathOk(Step(cap, s, e), p)
  {
    assert PathOk(s, p);
    if e.Request? && e.path in s.disk {
      PutAddsNothingElse(cap, s.cache, e.path, s.disk[e.path], p);
    }
  }

  lemma StepKeepsState(cap: nat, s: State, e: Event)
    requires cap > 0 && StateOk(cap, s)
    ensures StateOk(cap, Step(cap, s, e))
  {
    if e.Request? && e.path in s.disk {
      PutFifo(cap, s.cache, e.path, s.disk[e.path]);
    }
    forall p: Path
      ensures PathOk(Step(cap, s, e), p)
    {
      StepKeepsPath(cap, s, e, p);
    }
  }

  lemma {:induction false} AlwaysOk(cap: nat, events: seq<Event>, i: nat)
    requires cap > 0 && i <= |events|
    ensures StateOk(cap, At(cap, events, i))
  {
    if i > 0 {
      AlwaysOk(cap, events, i - 1);
      StepKeepsState(cap, At(cap, events, i - 1), events[i - 1]);
    }
  }

  // ----- versions never go backwards

  /** Nothing the server may still send for `p` is older than `v`. */
  ghost predicate AtLeast(s: State, p: Path, v: nat) {
    && v <= s.clock
    && (p in s.disk ==> v <= s.disk[p])
    && (Get(s.cache, p).Some? ==> v <= Get(s.cache, p).value)
  }

  lemma StepKeepsAtLeast(cap: nat, s: State, e: Event, p: Path, v: nat)
    requires cap > 0 && StateOk(cap, s) && AtLeast(s, p, v)
    ensures AtLeast(Step(cap, s, e), p, v)
  {
    assert PathOk(s, p);
    if e.Request? && e.path in s.disk {
      PutAddsNothingElse(cap, s.cache, e.path, s.disk[e.path], p);
    }
  }

  lemma ReplyBounds(cap: nat, s: State, e: Event, v: nat)
    requires cap > 0 && StateOk(cap, s) && e.Request? && Reply(s, e) == Some(v)
    ensures AtLeast(Step(cap, s, e), e.path, v)
  {
    assert PathOk(s, e.path);
    GetAfterPut(cap, s.cache, e.path, s.disk[e.path], e.path);
  }

  lemma {:induction false} StaysAtLeast(cap: nat, events: seq<Event>, i: nat, j: nat, p: Path, v: nat)
    requires cap > 0 && i <= j <= |events| && AtLeast(At(cap, events, i), p, v)
    ensures AtLeast(At(cap, events, j), p, v)
    decreases j - i
  {
    if i < j {
      AlwaysOk(cap, events, i);
      StepKeepsAtLeast(cap, At(cap, events, i), events[i], p, v);
      StaysAtLeast(cap, events, i + 1, j, p, v);
    }
  }

  /** Across all clients, a later reply for a path never carries an older version. */
  lemma MonotonicReads(cap: nat, events: seq<Event>, i: nat, j: nat, p: Path, v: nat, w: nat)
    requires cap > 0 && i < j
    requires RepliesAt(cap, events, i, p, v) && RepliesAt(cap, events, j, p, w)
    ensures v <= w
  {
    AlwaysOk(cap, events, i);
    ReplyBounds(cap, At(cap, events, i), events[i], v);
    StaysAtLeast(cap, events, i + 1, j, p, v);
  }

  // ----- a reply after a flush is a version that was current after the flush

  ghost predicate CurrentSince(cap: nat, events: seq<Event>, c: nat, j: nat, p: Path, v: nat)
    requires j <= |events|
  {
    exists k :: c < k <= j && p in At(cap, events, k).disk && At(cap, events, k).disk[p] == v
  }

  /** Every cached version was current at some moment after event `c`. */
  ghost predicate Backed(cap: nat, events: seq<Event>, c: nat, j: nat)
    requires j <= |events|
  {
    forall p: Path | Get(At(cap, events, j).cache, p).Some? ::
      CurrentSince(cap, events, c, j, p, Get(At(cap, events, j).cache, p).value)
  }

  lemma CurrentExtends(cap: nat, events: seq<Event>, c: nat, j: nat, p: Path, v: nat)
    requires j < |events| && CurrentSince(cap, events, c, j, p, v)
    ensures CurrentSince(cap, events, c, j + 1, p, v)
  {
    var k :| c < k <= j && p in At(cap, events, k).disk && At(cap, events, k).disk[p] == v;
    assert c < k <= j + 1;
  }

  lemma StepKeepsBacked(cap: nat, events: seq<Event>, c: nat, j: nat)
    requires cap > 0 && c < j < |events| && Backed(cap, events, c, j)
    ensures Backed(cap, events, c, j + 1)
  {
    var s, s' := At(cap, events, j), At(cap, events, j + 1);
    var e := events[j];
    AlwaysOk(cap, events, j);
    forall p: Path | Get(s'.cache, p).Some?
      ensures CurrentSince(cap, events, c, j + 1, p, Get(s'.cache, p).value)
    {
      if e.Request? && e.path in s.disk {
        PutAddsNothingElse(cap, s.cache, e.path, s.disk[e.path], p);
      }
      if Get(s'.cache, p) == Get(s.cache, p) {
        CurrentExtends(cap, events, c, j, p, Get(s.cache, p).value);
      } else {
        assert c < j <= j + 1 && p in At(cap, events, j).disk;
      }
    }
  }

  lemma {:induction false} BackedAfterClear(cap: nat, events: seq<Event>, c: nat, j: nat)
    requires cap > 0 && ClearedAt(cap, events, c) && c < j <= |events|
    ensures Backed(cap, events, c, j)
    decreases j
  {
    if j == c + 1 {
      assert At(cap, events, j).cache == [];
    } else {
      BackedAfterClear(cap, events, c, j - 1);
      StepKeepsBacked(cap, events, c, j - 1);
    }
  }

  /** A reply after a flush carries a version that was the file's current one at some moment after it. */
  lemma FreshAfterFlush(cap: nat, events: seq<Event>, c: nat, j: nat, p: Path, v: nat)
    requires cap > 0 && ClearedAt(cap, events, c) && c < j && RepliesAt(cap, events, j, p, v)
    ensures exists k :: c < k <= j && p in At(cap, events, k).disk && At(cap, events, k).disk[p] == v
  {
    BackedAfterClear(cap, events, c, j);
    var s := At(cap, events, j);
    if Get(s.cache, p).Some? {
      assert CurrentSince(cap, events, c, j, p, v);
    } else {
      assert c < j <= j && p in At(cap, events, j).disk;
    }
  }

  // ----- what the model's state is, told by the events alone

  /** `k` is the last event before `j` that wrote or removed `p`, and it wrote. */
  ghost predicate WrittenAt(events: seq<Event>, k: nat, j: nat, p: Path) {
    && k < j <= |events| && events[k] == Write(p)
    && forall m | k < m < j :: events[m] != Write(p) && events[m] != Remove(p)
  }

  function OnDisk(cap: nat, events: seq<Event>, j: nat, p: Path): Option<nat>
    requires j <= |events|
  {
    var disk := At(cap, events, j).disk;
    if p in disk then Some(disk[p]) else None
  }

  function Writes(events: seq<Event>): nat {
    if events == [] then 0
    else Writes(events[..|events| - 1]) + if events[|events| - 1].Write? then 1 else 0
  }

  lemma {:induction false} ClockCounts(cap: nat, events: seq<Event>, j: nat)
    requires j <= |events|
    ensures At(cap, events, j).clock == Writes(events[..j])
  {
    if j > 0 {
      ClockCounts(cap, events, j - 1);
      assert events[..j][..j - 1] == events[..j - 1];
    }
  }

  /** Only the last event can change what was written last. */
  lemma WrittenNext(events: seq<Event>, k: nat, j: nat, p: Path)
    requires 0 < j <= |events|
    ensures WrittenAt(events, k, j, p) <==>
              if events[j - 1] == Write(p) then k == j - 1
              else WrittenAt(events, k, j - 1, p) && events[j - 1] != Remove(p)
  {
    if k < j - 1 && WrittenAt(events, k, j - 1, p) && events[j - 1] != Write(p) && events[j - 1] != Remove(p) {
      assert forall m | k < m < j :: m < j - 1 || events[m] == events[j - 1];
    }
  }

  /** A file exists if its last change was a write, and its version counts the writes up to that one. */
  lemma {:induction false} DiskExactly(cap: nat, events: seq<Event>, j: nat, p: Path)
    requires j <= |events|
    ensures p in At(cap, events, j).disk <==> exists k: nat :: WrittenAt(events, k, j, p)
    ensures forall k: nat | WrittenAt(events, k, j, p) :: Some(Writes(events[..k + 1])) == OnDisk(cap, events, j, p)
  {
    if j > 0 {
      DiskExactly(cap, events, j - 1, p);
      ClockCounts(cap, events, j);
      ClockCounts(cap, events, j - 1);
      forall k: nat
        ensures WrittenAt(events, k, j, p) <==>
                  if events[j - 1] == Write(p) then k == j - 1
                  else WrittenAt(events, k, j - 1, p) && events[j - 1] != Remove(p)
      {
        WrittenNext(events, k, j, p);
      }
      if events[j - 1] == Write(p) {
        assert WrittenAt(events, j - 1, j, p);
      } else if events[j - 1] != Remove(p) && p in At(cap, events, j - 1).disk {
        var k: nat :| WrittenAt(events, k, j - 1, p);
        assert WrittenAt(events, k, j, p);
      }
    }
  }

  /** The flag is up from a signal until the next check. */
  lemma {:induction false} FlagExactly(cap: nat, events: seq<Event>, j: nat)
    requires j <= |events|
    ensures At(cap, events, j).flush <==>
            exists k :: 0 <= k < j && events[k].Signal? && forall m | k < m < j :: !events[m].LoopTop?
  {
    if j > 0 {
      FlagExactly(cap, events, j - 1);
      if events[j - 1].Signal? {
        assert 0 <= j - 1 < j && events[j - 1].Signal?;
      } else if At(cap, events, j).flush {
        var k :| 0 <= k < j - 1 && events[k].Signal? && forall m | k < m < j - 1 :: !events[m].LoopTop?;
        assert forall m | k < m < j :: m < j - 1 || events[m] == events[j - 1];
      }
    }
  }

  // ----- which requests are answered, and with which version

  /** A request reads the whole of a file that is not among the last `cap` admitted ones. */
  predicate AdmitsAt(cap: nat, events: seq<Event>, i: nat)
    decreases i, 2
  {
    && i < |events| && events[i].Request? && events[i].outcome.Cached?
    && events[i].path in At(cap, events, i).disk && !Held(cap, events, i, events[i].path)
  }

  /** The files admitted since the last flush, each with its version at that moment, oldest first. */
  function Admissions(cap: nat, events: seq<Event>, j: nat): seq<Entry<nat>>
    requires j <= |events|
    decreases j, 0
  {
    if j == 0 || ClearedAt(cap, events, j - 1) then []
    else
      var before := Admissions(cap, events, j - 1);
      if AdmitsAt(cap, events, j - 1)
      then before + [Entry(events[j - 1].path, At(cap, events, j - 1).disk[events[j - 1].path])]
      else before
  }

  predicate Held(cap: nat, events: seq<Event>, j: nat, p: Path)
    requires j <= |events|
    decreases j, 1
  {
    p in Keys(LastOf(Admissions(cap, events, j), cap))
  }

  predicate HeldFrom(cap: nat, events: seq<Event>, i: nat, j: nat, p: Path)
    requires j <= |events|
  {
    forall k | i <= k <= j :: Held(cap, events, k, p)
  }

  predicate NoFlush(cap: nat, events: seq<Event>, i: nat, j: nat) {
    forall k | i <= k < j :: !ClearedAt(cap, events, k)
  }

  lemma {:induction false} CacheIsLastAdmitted(cap: nat, events: seq<Event>, j: nat)
    requires cap > 0 && j <= |events|
    ensures At(cap, events, j).cache == LastOf(Admissions(cap, events, j), cap)
  {
    if j > 0 {
      CacheIsLastAdmitted(cap, events, j - 1);
      AlwaysOk(cap, events, j - 1);
      var s, e := At(cap, events, j - 1), events[j - 1];
      if e.Request? {
        KeyPresent(s.cache, e.path);
        assert Held(cap, events, j - 1, e.path) <==> Get(s.cache, e.path).Some?;
        if AdmitsAt(cap, events, j - 1) {
          LastOfAppend(Admissions(cap, events, j - 1), cap, Entry(e.path, s.disk[e.path]));
        } else {
          assert At(cap, events, j) == s;
        }
      }
    }
  }

  lemma HeldIsCached(cap: nat, events: seq<Event>, j: nat, p: Path)
    requires cap > 0 && j <= |events|
    ensures Held(cap, events, j, p) <==> Get(At(cap, events, j).cache, p).Some?
  {
    CacheIsLastAdmitted(cap, events, j);
    KeyPresent(At(cap, events, j).cache, p);
  }

  /**
    A request gets a file if and only if the file is there and either it can be read or it is among
    the last `cap` admitted; then the version is the one admitted, and otherwise that on disk.
   */
  lemma ReplyExactly(cap: nat, events: seq<Event>, j: nat, p: Path)
    requires cap > 0 && j < |events| && events[j].Request? && events[j].path == p
    ensures (exists v: nat :: RepliesAt(cap, events, j, p, v)) <==>
            p in At(cap, events, j).disk && (Held(cap, events, j, p) || !events[j].outcome.Failed?)
    ensures !Held(cap, events, j, p) ==>
              forall v: nat | RepliesAt(cap, events, j, p, v) :: v == At(cap, events, j).disk[p]
    ensures Held(cap, events, j, p) ==>
              forall v: nat | RepliesAt(cap, events, j, p, v) ::
                Entry(p, v) in LastOf(Admissions(cap, events, j), cap)
  {
    HeldIsCached(cap, events, j, p);
    CacheIsLastAdmitted(cap, events, j);
    var r := Reply(At(cap, events, j), events[j]);
    if r.Some? {
      assert RepliesAt(cap, events, j, p, r.value);
      assert Held(cap, events, j, p) ==> Entry(p, r.value) in At(cap, events, j).cache;
    }
  }

  lemma HeldKeepsVersion(cap: nat, events: seq<Event>, j: nat, p: Path, v: nat)
    requires cap > 0 && j < |events| && Get(At(cap, events, j).cache, p) == Some(v)
    requires Held(cap, events, j + 1, p)
    ensures Get(At(cap, events, j + 1).cache, p) == Some(v)
  {
    var s, e := At(cap, events, j), events[j];
    HeldIsCached(cap, events, j + 1, p);
    if At(cap, events, j + 1).cache != s.cache {
      AlwaysOk(cap, events, j);
      PutAddsNothingElse(cap, s.cache, e.path, s.disk[e.path], p);
    }
  }

  lemma ReplyKeepsVersion(cap: nat, events: seq<Event>, i: nat, p: Path, v: nat)
    requires cap > 0 && RepliesAt(cap, events, i, p, v) && Held(cap, events, i + 1, p)
    ensures Get(At(cap, events, i + 1).cache, p) == Some(v)
  {
    var s := At(cap, events, i);
    HeldIsCached(cap, events, i + 1, p);
    AlwaysOk(cap, events, i);
    GetAfterPut(cap, s.cache, p, s.disk[p], p);
  }

  lemma {:induction false} HeldVersion(cap: nat, events: seq<Event>, i: nat, j: nat, p: Path, v: nat)
    requires cap > 0 && i < j <= |events| && RepliesAt(cap, events, i, p, v) && HeldFrom(cap, events, i + 1, j, p)
    ensures Get(At(cap, events, j).cache, p) == Some(v)
    decreases j
  {
    assert Held(cap, events, j, p);
    if i + 1 < j {
      HeldVersion(cap, events, i, j - 1, p, v);
      HeldKeepsVersion(cap, events, j - 1, p, v);
    } else {
      ReplyKeepsVersion(cap, events, i, p, v);
    }
  }

  /** While a file stays held, every request that finds it there gets the version that the first one got. */
  lemma RepeatSame(cap: nat, events: seq<Event>, i: nat, j: nat, p: Path, v: nat)
    requires cap > 0 && i < j < |events| && RepliesAt(cap, events, i, p, v) && HeldFrom(cap, events, i + 1, j, p)
    requires events[j].Request? && events[j].path == p && p in At(cap, events, j).disk
    ensures RepliesAt(cap, events, j, p, v)
  {
    HeldVersion(cap, events, i, j, p, v);
  }

  // ----- how long a file stays held

  lemma {:induction false} AdmissionsGrow(cap: nat, events: seq<Event>, i: nat, j: nat)
    requires i <= j <= |events| && NoFlush(cap, events, i, j)
    ensures Admissions(cap, events, i) <= Admissions(cap, events, j)
    decreases j
  {
    if i < j {
      AdmissionsGrow(cap, events, i, j - 1);
    }
  }

  lemma InWindow(xs: seq<Entry<nat>>, ys: seq<Entry<nat>>, n: nat, p: Path)
    requires xs != [] && xs <= ys && xs[|xs| - 1].key == p
    ensures |ys| - |xs| < n ==> p in Keys(LastOf(ys, n))
    ensures p in Keys(LastOf(ys, n)) && (forall e | e in ys[|xs|..] :: e.key != p) ==> |ys| - |xs| < n
  {
    var w := LastOf(ys, n);
    if |ys| - |xs| < n {
      assert Keys(w)[|xs| - 1 - (|ys| - |w|)] == p;
    } else if p in Keys(w) {
      var m :| 0 <= m < |w| && Keys(w)[m] == p;
      assert w[m] == ys[|xs|..][|ys| - |w| + m - |xs|];
    }
  }

  /** Held all the time: nothing was flushed, and the file was not admitted again. */
  lemma {:induction false} HeldThroughout(cap: nat, events: seq<Event>, i: nat, j: nat, p: Path)
    requires cap > 0 && i < j <= |events| && AdmitsAt(cap, events, i) && events[i].path == p
    requires HeldFrom(cap, events, i + 1, j, p)
    ensures NoFlush(cap, events, i + 1, j)
    ensures Admissions(cap, events, i + 1) <= Admissions(cap, events, j)
    ensures forall e | e in Admissions(cap, events, j)[|Admissions(cap, events, i + 1)|..] :: e.key != p
    decreases j
  {
    if i + 1 < j {
      HeldThroughout(cap, events, i, j - 1, p);
      var xs, before := Admissions(cap, events, i + 1), Admissions(cap, events, j - 1);
      assert ClearedAt(cap, events, j - 1) ==> !Held(cap, events, j, p);
      if AdmitsAt(cap, events, j - 1) {
        var e :| Admissions(cap, events, j) == before + [e] && e.key == events[j - 1].path;
        assert Held(cap, events, j - 1, p);
        assert (before + [e])[|xs|..] == before[|xs|..] + [e];
      }
    }
  }

  lemma FewAdmitted(cap: nat, events: seq<Event>, i: nat, j: nat, p: Path)
    requires i < j <= |events| && AdmitsAt(cap, events, i) && events[i].path == p
    requires NoFlush(cap, events, i + 1, j)
    requires |Admissions(cap, events, j)| - |Admissions(cap, events, i + 1)| < cap
    ensures HeldFrom(cap, events, i + 1, j, p)
  {
    forall k | i < k <= j
      ensures Held(cap, events, k, p)
    {
      AdmissionsGrow(cap, events, i + 1, k);
      AdmissionsGrow(cap, events, k, j);
      InWindow(Admissions(cap, events, i + 1), Admissions(cap, events, k), cap, p);
    }
  }

  /**
    An admitted file is held until the next flush or until `cap` others have been admitted after it,
    whichever comes first, however often it is asked for.
   */
  lemma EvictedExactly(cap: nat, events: seq<Event>, i: nat, j: nat, p: Path)
    requires cap > 0 && i < j <= |events| && AdmitsAt(cap, events, i) && events[i].path == p
    ensures HeldFrom(cap, events, i + 1, j, p) <==>
            NoFlush(cap, events, i + 1, j) &&
            |Admissions(cap, events, j)| - |Admissions(cap, events, i + 1)| < cap
  {
    if HeldFrom(cap, events, i + 1, j, p) {
      HeldThroughout(cap, events, i, j, p);
      assert Held(cap, events, j, p);
      InWindow(Admissions(cap, events, i + 1), Admissions(cap, events, j), cap, p);
    } else if NoFlush(cap, events, i + 1, j) {
      if |Admissions(cap, events, j)| - |Admissions(cap, events, i + 1)| < cap {
        FewAdmitted(cap, events, i, j, p);
      }
    }
  }
}
