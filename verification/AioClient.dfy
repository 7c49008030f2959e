/**
  What the AIO file server looks like to a client: announced lengths are decimal numbers, error lines
  are text, and a client that reads the byte stream by lines and announced lengths gets back exactly
  the answers that were sent completely, in order.
 */
module AioClient {
  import opened FifoMap
  import opened Lines
  import opened AioServer
  import opened AioAnswers
  import opened AioContract

  // ----- numbers

  /** The number a reader has when it goes on from `acc` through decimal digits, left to right. */
  function ReadFrom(digits: Bytes, acc: int): int {
    if digits == [] then acc else ReadFrom(digits[1..], acc * 10 + (digits[0] as int - 48))
  }

  lemma {:induction false} ReadOn(p: Bytes, q: Bytes, acc: int)
    ensures ReadFrom(p + q, acc) == ReadFrom(q, ReadFrom(p, acc))
  {
    if p == [] {
      assert p + q == q;
    } else {
      assert (p + q)[1..] == p[1..] + q;
      ReadOn(p[1..], q, acc * 10 + (p[0] as int - 48));
    }
  }

  /** Reading back what was printed; only digits, and no leading zero. */
  lemma {:induction false} DigitsRead(n: nat)
    ensures ReadFrom(Digits(n), 0) == n
    ensures |Digits(n)| > 0 && forall i | 0 <= i < |Digits(n)| :: 48 <= Digits(n)[i] as int <= 57
    ensures Digits(n)[0] == 48 ==> n == 0
  {
    OneDigit(n % 10, n / 10);
    if n >= 10 {
      DigitsRead(n / 10);
      ReadOn(Digits(n / 10), [(n % 10 + 48) as bv8], 0);
    } else {
      OneDigit(n, 0);
    }
  }

  lemma OneDigit(d: nat, acc: int)
    requires d < 10
    ensures ((d + 48) as bv8) as int == d + 48
    ensures ReadFrom([(d + 48) as bv8], acc) == acc * 10 + d
  {
    var digit := [(d + 48) as bv8];
    assert digit[1..] == [];
    assert ReadFrom(digit, acc) == ReadFrom([], acc * 10 + (digit[0] as int - 48));
  }

  // ----- lines

  const OK_TAG: Bytes := [43, 79, 75, 32]       // "+OK "
  const ERR_TAG: Bytes := [45, 69, 82, 82, 32]  // "-ERR "

  lemma HeaderIs(n: nat)
    ensures Header(n) == OK_TAG + Digits(n) + [NL]
    ensures NL !in OK_TAG + Digits(n)
  {
    assert Ascii("+OK ") == OK_TAG;
    DigitsRead(n);
  }

  predicate Printable(text: string) {
    forall i | 0 <= i < |text| :: 32 <= text[i] as int < 127
  }

  /** An error line is its tag, its text character by character, and a newline. */
  lemma ErrIs(reason: string)
    requires Printable(reason)
    ensures Err(reason) == ERR_TAG + Ascii(reason) + [NL] && NL !in ERR_TAG + Ascii(reason)
    ensures |Ascii(reason)| == |reason| && forall i | 0 <= i < |reason| :: Ascii(reason)[i] as int == reason[i] as int
  {
    assert Ascii("-ERR ") == ERR_TAG;
    AsciiIs(reason);
  }

  lemma AsciiIs(text: string)
    requires Printable(text)
    ensures |Ascii(text)| == |text| && NL !in Ascii(text)
    ensures forall i | 0 <= i < |text| :: Ascii(text)[i] as int == text[i] as int
  {
    forall i | 0 <= i < |text|
      ensures Ascii(text)[i] as int == text[i] as int && Ascii(text)[i] != NL
    {
      OneByte(text[i] as int);
    }
  }

  lemma OneByte(x: nat)
    requires 32 <= x < 127
    ensures ((x % 256) as bv8) as int == x && (x % 256) as bv8 != NL
  {
  }

  lemma SameText(a: string, b: string)
    requires Printable(a) && Printable(b) && Err(a) == Err(b)
    ensures a == b
  {
    ErrIs(a);
    ErrIs(b);
    assert |Err(a)| == |a| + 6 && |Err(b)| == |b| + 6;
    forall i | 0 <= i < |a|
      ensures a[i] == b[i]
    {
      assert Err(a)[5 + i] == Ascii(a)[i] && Err(b)[5 + i] == Ascii(b)[i];
    }
  }

  lemma KnownPrintable(reason: string)
    requires reason == "empty filename" || reason == "absolute paths not allowed" || reason == "not found"
             || reason == "access denied" || FileReason(reason)
    ensures Printable(reason)
  {
    if FileReason(reason) {
      FileReasonPrintable(reason);
    }
  }

  lemma FileReasonPrintable(reason: string)
    requires FileReason(reason)
    ensures Printable(reason)
  {
    if reason == "stat failed" || reason == "open failed" || reason == "out of memory" {
      assert Printable("stat failed") && Printable("open failed") && Printable("out of memory");
    }
  }

  // ----- reading the stream

  /** A complete answer: a line of printable text, or a header and as many bytes as it announces. */
  ghost predicate Complete1(r: Bytes) {
    (exists reason :: Printable(reason) && r == Err(reason)) || (exists file :: r == Ok(file))
  }

  /** The complete answers in a stream; what follows the last one is not complete. */
  function Decode(s: Bytes): seq<Bytes>
    decreases |s|
  {
    var nl := Find(s, NL);
    if nl == |s| then []
    else if OK_TAG <= s[..nl] then
      var end := nl + 1 + ReadFrom(s[4..nl], 0);
      if nl < end <= |s| then [s[..end]] + Decode(s[end..]) else []
    else [s[..nl + 1]] + Decode(s[nl + 1..])
  }

  /** Where the first line of an announced answer ends, and what it announces. */
  lemma OkLine(file: Bytes, rest: Bytes)
    ensures var s := Ok(file) + rest; var nl := Find(s, NL);
            && nl + 1 == |Header(|file|)| <= |s| && OK_TAG <= s[..nl] && |OK_TAG| <= nl
            && ReadFrom(s[4..nl], 0) == |file|
  {
    var line := OK_TAG + Digits(|file|);
    HeaderIs(|file|);
    DigitsRead(|file|);
    var s := Ok(file) + rest;
    Assoc(line + [NL], file, rest);
    LineCons(s, line, file + rest);
    assert s[..|line|] == line && s[4..|line|] == Digits(|file|);
  }

  lemma DecodeOk(file: Bytes, rest: Bytes)
    ensures Decode(Ok(file) + rest) == [Ok(file)] + Decode(rest)
  {
    OkLine(file, rest);
    var s := Ok(file) + rest;
    assert s[..|Ok(file)|] == Ok(file) && s[|Ok(file)|..] == rest;
  }

  lemma ErrLine(reason: string, rest: Bytes)
    requires Printable(reason)
    ensures var s := Err(reason) + rest; var nl := Find(s, NL);
            nl + 1 == |Err(reason)| && !(OK_TAG <= s[..nl])
  {
    var line := ERR_TAG + Ascii(reason);
    ErrIs(reason);
    var s := Err(reason) + rest;
    LineCons(s, line, rest);
    assert s[0] == 45;
  }

  lemma DecodeErr(reason: string, rest: Bytes)
    requires Printable(reason)
    ensures Decode(Err(reason) + rest) == [Err(reason)] + Decode(rest)
  {
    ErrLine(reason, rest);
    var s := Err(reason) + rest;
    assert s[..|Err(reason)|] == Err(reason) && s[|Err(reason)|..] == rest;
  }

  lemma DecodeOne(r: Bytes, rest: Bytes)
    requires Complete1(r)
    ensures Decode(r + rest) == [r] + Decode(rest)
  {
    if exists file :: r == Ok(file) {
      var file :| r == Ok(file);
      DecodeOk(file, rest);
    } else {
      var reason :| Printable(reason) && r == Err(reason);
      DecodeErr(reason, rest);
    }
  }

  /** A beginning of an answer is not an answer. */
  lemma DecodePart(r: Bytes, p: Bytes)
    requires Complete1(r) && p <= r && p != r
    ensures Decode(p) == []
  {
    assert r + [] == r;
    if exists file :: r == Ok(file) {
      var file :| r == Ok(file);
      OkLine(file, []);
      PartOf(r, p, Find(r, NL));
    } else {
      var reason :| Printable(reason) && r == Err(reason);
      ErrLine(reason, []);
      PartOf(r, p, Find(r, NL));
    }
  }

  lemma PartOf(r: Bytes, p: Bytes, nl: nat)
    requires p <= r && nl == Find(r, NL) < |r|
    ensures |p| <= nl ==> Find(p, NL) == |p|
    ensures |p| > nl ==> Find(p, NL) == nl && p[..nl] == r[..nl]
  {
    FindFirst(r, NL);
    FindIs(p, NL, if |p| <= nl then |p| else nl);
  }

  /** The answers sent one after the other can be told apart again. */
  lemma {:induction false} DecodeFlat(rs: seq<Bytes>, rest: Bytes)
    requires forall i | 0 <= i < |rs| :: Complete1(rs[i])
    ensures Decode(Flat(rs) + rest) == rs + Decode(rest)
    decreases |rs|
  {
    if rs == [] {
      assert [] + rest == rest && rs + Decode(rest) == Decode(rest);
    } else {
      var before, last := rs[..|rs| - 1], rs[|rs| - 1];
      FlatLast(rs);
      Assoc(Flat(before), last, rest);
      DecodeFlat(before, last + rest);
      DecodeOne(last, rest);
      Assoc(before, [last], Decode(rest));
      assert before + [last] == rs;
    }
  }

  // ----- every run

  lemma AnswerComplete(events: seq<Event>, c: nat, i: nat)
    requires Runs(START, events) && c in After(START, events).clients
    requires i < |After(START, events).clients[c].responses|
    ensures Complete1(After(START, events).clients[c].responses[i])
  {
    EveryAnswerRight(events, c, i);
    var s := After(START, events);
    var cl := s.clients[c];
    RightIsComplete(s.observed, Names(Complete(cl.received))[i], cl.paths[i], cl.responses[i]);
  }

  lemma RightIsComplete(observed: set<Observation>, name: Bytes, path: Resolution, r: Bytes)
    requires Answer(0, observed, name, path, r)
    ensures Complete1(r)
  {
    if name == [] {
      KnownPrintable("empty filename");
    } else if name[0] == SLASH {
      KnownPrintable("absolute paths not allowed");
    } else if path.NotFound? {
      KnownPrintable("not found");
    } else if path.Denied? {
      KnownPrintable("access denied");
    } else if FileError(r) {
      var reason :| FileReason(reason) && r == Err(reason);
      KnownPrintable(reason);
    } else {
      var o :| o in observed && o.key == path.key && r == Ok(o.data + o.junk);
    }
  }

  /**
    What the client reads. In every run, the answers that a client can take out of the bytes it has been
    sent are exactly the answers decided on, in order, without the last one if that is not out completely.
   */
  lemma WhatTheClientReads(events: seq<Event>, c: nat)
    requires Runs(START, events) && c in After(START, events).clients
    ensures var cl := After(START, events).clients[c]; var rs := cl.responses;
            Decode(cl.out) == if cl.out == Flat(rs) || rs == [] then rs else rs[..|rs| - 1]
  {
    var cl := After(START, events).clients[c];
    forall i | 0 <= i < |cl.responses|
      ensures Complete1(cl.responses[i])
    {
      AnswerComplete(events, c, i);
    }
    OutputInOrder(events, c);
    ReadOut(cl.out, cl.responses);
  }

  lemma ReadOut(out: Bytes, rs: seq<Bytes>)
    requires forall i | 0 <= i < |rs| :: Complete1(rs[i])
    requires out <= Flat(rs) && (rs != [] ==> Flat(rs[..|rs| - 1]) <= out)
    ensures Decode(out) == if out == Flat(rs) || rs == [] then rs else rs[..|rs| - 1]
  {
    if out == Flat(rs) || rs == [] {
      DecodeFlat(rs, []);
      assert Flat(rs) + [] == Flat(rs) && rs + [] == rs;
    } else {
      var before, last := rs[..|rs| - 1], rs[|rs| - 1];
      FlatLast(rs);
      var part := Rest(Flat(before), last, out);
      DecodeFlat(before, part);
      DecodePart(last, part);
      assert before + [] == before;
    }
  }

  lemma Rest(done: Bytes, last: Bytes, out: Bytes) returns (part: Bytes)
    requires done <= out && out <= done + last && out != done + last
    ensures out == done + part && part <= last && part != last
  {
    part := out[|done|..];
    assert out == done + part;
    assert (done + last)[|done|..] == last;
  }

  /** An error line is sent if and only if the request calls for that very line. */
  lemma ErrorsExactly(events: seq<Event>, c: nat, i: nat, reason: string)
    requires Runs(START, events) && c in After(START, events).clients && Printable(reason)
    requires i < |After(START, events).clients[c].responses|
    ensures var cl := After(START, events).clients[c]; var h := Told(START, map[], events);
            && c in h && i < |cl.names| == |h[c].notes|
            && (cl.responses[i] == Err(reason) <==> Calls(cl.names[i], h[c].notes[i]) == Some(reason))
  {
    StartInv();
    RunKeepsInv(START, events);
    RunBook(START, map[], events);
    ErrorsOf(After(START, events).clients[c], Told(START, map[], events)[c], i, reason);
  }

  lemma ErrorsOf(cl: Client, h: Story, i: nat, reason: string)
    requires ClientBook(cl, h) && i < |cl.responses| && Printable(reason)
    ensures i < |cl.names| == |h.notes|
    ensures cl.responses[i] == Err(reason) <==> Calls(cl.names[i], h.notes[i]) == Some(reason)
  {
    BookErrors(cl.names[i], h.notes[i], cl.responses[i], reason);
  }

  lemma BookErrors(name: Bytes, n: Note, r: Bytes, reason: string)
    requires ByTheBook(name, n, r) && HeldOk(n) && Printable(reason)
    ensures r == Err(reason) <==> Calls(name, n) == Some(reason)
  {
    ErrIs(reason);
    if Calls(name, n).Some? {
      KnownPrintable(Calls(name, n).value);
      if r == Err(reason) {
        SameText(reason, Calls(name, n).value);
      }
    } else {
      assert r[0] == 43 by {
        if n.found.held.Some? && n.found.copyOk {
          var file :| r == Ok(file);
          HeaderIs(|file|);
        } else {
          HeaderIs(|n.found.stat.file|);
        }
      }
    }
  }

  // ----- what an event sends, and what it does to the cache

  /** As many bytes go out as the socket takes. */
  lemma BytesTaken(s: State, e: Event)
    requires Enabled(s, e) && (e.Wrote? || e.Sent?)
    ensures CacheLive(s) ==> |Step(s, e).clients[e.c].out| == |s.clients[e.c].out| + e.n
  {
  }

  /**
    The cache changes at a flush and when a read is over, and not otherwise: then the answer is cached
    for the path, if there is memory for a copy.
   */
  lemma CacheChanges(s: State, e: Event)
    requires Inv(s) && Enabled(s, e) && CacheLive(s)
    ensures var s' := Step(s, e);
            if e.Flush? then s'.cache == []
            else if e.AioDone? && e.copyOk && s.clients[e.c].key != "" then
              && s'.cache == Put(MAX_CACHE_ENTRIES, s.cache, s.clients[e.c].key, s.next)
              && s.next in s'.heap && [s'.heap[s.next].bytes] <= s'.clients[e.c].responses[|s.clients[e.c].responses|..]
            else s'.cache == s.cache
  {
    if e.AioDone? {
      NextIsNew(s);
      if Displaced(MAX_CACHE_ENTRIES, s.cache, s.clients[e.c].key).Some? {
        DisplacedOwner(s, s.clients[e.c].key);
      }
      DoneFits(s, e.c, e.data, e.copyOk);
      DoneCaches(s, e.c, e.data, e.copyOk);
    } else {
      CacheStays(s, e);
    }
  }

  lemma CacheStays(s: State, e: Event)
    requires Enabled(s, e) && CacheLive(s) && !e.AioDone?
    ensures Step(s, e).cache == if e.Flush? then [] else s.cache
  {
    if e.Begin? {
      BeginCache(s, e.c, Cut(s.clients[e.c], e.env.path, s.flushes),
                 Name(s.clients[e.c].req[..Find(s.clients[e.c].req, NL)]), e.env);
    }
  }

  lemma BeginCache(s: State, c: nat, cl: Client, name: Bytes, env: Env)
    requires CacheLive(s)
    ensures BeginFileServe(s, c, cl, name, env).cache == s.cache
  {
    if env.path.At? {
      DiskCache(s, c, cl.(key := env.path.key), env);
    }
  }

  lemma DiskCache(s: State, c: nat, cl: Client, env: Env)
    ensures ServeFromDisk(s, c, cl, env).cache == s.cache
  {
  }

  /** The responses of small files fit the limit of the cache. */
  lemma DoneFits(s: State, c: nat, data: Bytes, copyOk: bool)
    requires Inv(s) && Enabled(s, AioDone(c, data, copyOk))
    ensures var own := s.heap[s.clients[c].phase.buf].bytes; var h := |Header(s.clients[c].phase.size)|;
            |ReadInto(own, h, data)| <= MAX_CACHE_FILE_SIZE + 64
  {
    AioDue(s, c);
    DigitsShort(s.clients[c].phase.size);
  }

  lemma DoneCaches(s: State, c: nat, data: Bytes, copyOk: bool)
    requires Enabled(s, AioDone(c, data, copyOk)) && s.next !in s.heap
    requires var own := s.heap[s.clients[c].phase.buf].bytes; var h := |Header(s.clients[c].phase.size)|;
             |ReadInto(own, h, data)| <= MAX_CACHE_FILE_SIZE + 64
    requires Displaced(MAX_CACHE_ENTRIES, s.cache, s.clients[c].key) != Some(s.next)
    ensures var s' := FinishAio(s, c, data, copyOk); var cl := s.clients[c];
            if copyOk && cl.key != "" then
              && s'.cache == Put(MAX_CACHE_ENTRIES, s.cache, cl.key, s.next)
              && s.next in s'.heap && s'.clients[c].responses == cl.responses + [s'.heap[s.next].bytes]
            else s'.cache == s.cache
  {
  }
}
