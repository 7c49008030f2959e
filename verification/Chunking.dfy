/**
  What becomes of a byte stream that reaches a server in pieces, for the fixed request buffer of
  the C servers and for the growable one of the Rust server: in the first the pieces do not matter,
  in the second they matter for exactly the streams that `Ambiguous` describes.
 */
module Chunking {
  import opened FifoMap
  import opened Lines
  import opened RequestBuffer

  /** Fixed: a read gets at most the free space. Growable: a read gets at most `size` bytes. */
  datatype Buffering = Fixed | Growable

  function MostRead(kind: Buffering, size: nat, buf: Bytes): int {
    if kind.Fixed? then size - 1 - |buf| else size
  }

  function Concat(chunks: seq<Bytes>): Bytes {
    if chunks == [] then [] else chunks[0] + Concat(chunks[1..])
  }

  /** Each read is made on an open connection and returns between one byte and what fits. */
  predicate Reads(kind: Buffering, size: nat, c: Conn, chunks: seq<Bytes>, up: nat -> bool)
    decreases |chunks|
  {
    chunks == [] ||
    (c.status.Open? && 0 < |chunks[0]| <= MostRead(kind, size, c.buf)
     && Reads(kind, size, Feed(size, c, chunks[0], up), chunks[1..], up))
  }

  function AfterReads(kind: Buffering, size: nat, c: Conn, chunks: seq<Bytes>, up: nat -> bool): Conn
    requires Reads(kind, size, c, chunks, up)
    decreases |chunks|
  {
    if chunks == [] then c else AfterReads(kind, size, Feed(size, c, chunks[0], up), chunks[1..], up)
  }

  const FRESH := Conn([], [], Open)

  // ----- the state depends on the bytes read, not on the reads

  /** Two reads are as good as one, if the connection survives the first. */
  lemma FeedFeed(size: nat, s: Bytes, served: seq<Bytes>, chunk: Bytes, up: nat -> bool)
    requires Feed(size, Conn([], served, Open), s, up).status.Open?
    ensures Feed(size, Feed(size, Conn([], served, Open), s, up), chunk, up) ==
            Feed(size, Conn([], served, Open), s + chunk, up)
  {
    assert [] + s == s && [] + (s + chunk) == s + chunk;
    SplitAppend(s, chunk);
    ServeAllAppend(Complete(s), Complete(Tail(s) + chunk), served, up);
  }

  /** A line that was complete at once, or was completed by the read that followed an open state. */
  predicate FitsLine(kind: Buffering, size: nat, l: Bytes) {
    |l| + 1 < size || (kind.Growable? && |l| + 3 <= 2 * size)
  }

  ghost predicate Fits(kind: Buffering, size: nat, s: Bytes) {
    forall l | l in Complete(s) :: FitsLine(kind, size, l)
  }

  lemma {:induction false} LinesFit(s: Bytes)
    ensures |Tail(s)| <= |s|
    ensures forall l | l in Complete(s) :: |l| < |s|
    decreases |s|
  {
    var nl := Find(s, NL);
    if nl < |s| {
      LinesFit(s[nl + 1..]);
    }
  }

  lemma FitsMore(kind: Buffering, size: nat, s: Bytes, chunk: Bytes)
    requires Fits(kind, size, s) && |Tail(s)| + 1 < size && |chunk| <= MostRead(kind, size, Tail(s))
    ensures Fits(kind, size, s + chunk)
    ensures kind.Fixed? ==> |Tail(s + chunk)| < size
  {
    SplitAppend(s, chunk);
    LinesFit(Tail(s) + chunk);
    forall l | l in Complete(s + chunk)
      ensures FitsLine(kind, size, l)
    {
      assert l in Complete(s) || l in Complete(Tail(s) + chunk);
    }
  }

  /** What the reads so far have made of the connection, given that `s` came before them. */
  ghost predicate Read(kind: Buffering, size: nat, s: Bytes, c: Conn, up: nat -> bool) {
    && c == Feed(size, FRESH, s, up)
    && Fits(kind, size, s)
    && (kind.Fixed? ==> |c.buf| < size)
  }

  lemma OneRead(kind: Buffering, size: nat, s: Bytes, c: Conn, chunk: Bytes, up: nat -> bool)
    requires Read(kind, size, s, c, up) && c.status.Open? && |chunk| <= MostRead(kind, size, c.buf)
    ensures Read(kind, size, s + chunk, Feed(size, c, chunk, up), up)
  {
    assert [] + s == s && [] + (s + chunk) == s + chunk;
    FeedFeed(size, s, [], chunk, up);
    FitsMore(kind, size, s, chunk);
  }

  lemma {:induction false} AllReads(kind: Buffering, size: nat, s: Bytes, c: Conn, chunks: seq<Bytes>, up: nat -> bool)
    requires Read(kind, size, s, c, up) && Reads(kind, size, c, chunks, up)
    ensures Read(kind, size, s + Concat(chunks), AfterReads(kind, size, c, chunks, up), up)
    decreases |chunks|
  {
    if chunks == [] {
      assert s + Concat(chunks) == s;
    } else {
      OneRead(kind, size, s, c, chunks[0], up);
      AllReads(kind, size, s + chunks[0], Feed(size, c, chunks[0], up), chunks[1..], up);
      Assoc(s, chunks[0], Concat(chunks[1..]));
    }
  }

  lemma ReadFromFresh(kind: Buffering, size: nat, chunks: seq<Bytes>, up: nat -> bool)
    requires size > 1 && Reads(kind, size, FRESH, chunks, up)
    ensures Read(kind, size, Concat(chunks), AfterReads(kind, size, FRESH, chunks, up), up)
  {
    assert Feed(size, FRESH, [], up) == FRESH;
    AllReads(kind, size, [], FRESH, chunks, up);
    assert [] + Concat(chunks) == Concat(chunks);
  }

  ghost predicate LongLine(size: nat, s: Bytes) {
    |Tail(s)| + 1 >= size || exists l :: l in Complete(s) && |l| + 1 >= size
  }

  /**
    Framing in the fixed buffer, for every way of cutting the input into reads: as long as replies get
    through, the lines served are the complete lines received, handed on by name; the buffer holds
    exactly what follows the last newline; there is room for at least one byte before the next read;
    and the connection is closed as too long if and only if some line has reached REQ_BUF_SIZE - 1
    bytes without a newline.
   */
  lemma FramingCorrect(size: nat, chunks: seq<Bytes>, up: nat -> bool)
    requires size > 1 && Reads(Fixed, size, FRESH, chunks, up)
    ensures var s := Concat(chunks); var c := AfterReads(Fixed, size, FRESH, chunks, up);
            && c.buf == Tail(s)
            && c.served <= Complete(s)
            && (!c.status.ReplyFailed? ==>
                  && c.served == Complete(s) && Names(c.served) == Names(Complete(s))
                  && (c.status.TooLong? <==> LongLine(size, s)))
            && (c.status.Open? ==> size - 1 - |c.buf| >= 1)
  {
    ReadFromFresh(Fixed, size, chunks, up);
    var s := Concat(chunks);
    assert [] + s == s && [] + Complete(s) == Complete(s);
    ServeAllPrefix(Complete(s), [], up);
  }

  /**
    The names handed to serve_file are the names the client typed, whether it ends its lines with a
    newline or with a carriage return and a newline, and however the bytes arrive.
   */
  lemma NamesReach(size: nat, xs: seq<Typed>, chunks: seq<Bytes>, up: nat -> bool)
    requires size > 1 && Typable(xs) && Reads(Fixed, size, FRESH, chunks, up) && Concat(chunks) == Text(xs)
    requires !AfterReads(Fixed, size, FRESH, chunks, up).status.ReplyFailed?
    ensures var c := AfterReads(Fixed, size, FRESH, chunks, up);
            Names(c.served) == Spelled(xs) && c.buf == []
  {
    FramingCorrect(size, chunks, up);
    NamesAsTyped(xs);
  }

  // ----- the client's whole stream

  /** Reads that go on until the stream ends or the connection is closed. */
  ghost predicate ReadsAll(kind: Buffering, size: nat, c: Conn, w: Bytes, chunks: seq<Bytes>, up: nat -> bool) {
    && Reads(kind, size, c, chunks, up)
    && Concat(chunks) <= w
    && (AfterReads(kind, size, c, chunks, up).status.Open? ==> Concat(chunks) == w)
  }

  datatype Fate = Fate(served: seq<Bytes>, status: Status)

  /**
    What should become of a stream: lines are served in order until one is too long, a reply fails
    or the stream ends.
   */
  function Ideal(size: nat, w: Bytes, served: seq<Bytes>, up: nat -> bool): Fate
    decreases |w|
  {
    var nl := Find(w, NL);
    if nl == |w| then Fate(served, if |w| + 1 >= size then TooLong else Open)
    else if nl + 1 >= size then Fate(served, TooLong)
    else if !up(|served|) then Fate(served + [w[..nl]], ReplyFailed)
    else Ideal(size, w[nl + 1..], served + [w[..nl]], up)
  }

  /**
    The first line of `size - 1` bytes or more, if the replies before it get through, is complete and
    has at most 2 * size - 3 bytes: between 511 and 1021 for the buffer of 512.
   */
  predicate Ambiguous(size: nat, w: Bytes, served: nat, up: nat -> bool)
    decreases |w|
  {
    var nl := Find(w, NL);
    && nl < |w|
    && if nl + 1 >= size then nl + 3 <= 2 * size else up(served) && Ambiguous(size, w[nl + 1..], served + 1, up)
  }

  function Verdict(c: Conn): Fate {
    Fate(c.served, c.status)
  }

  /** How a read, the ideal and the ambiguity treat the first line. */
  lemma FeedFirst(size: nat, s: Bytes, served: seq<Bytes>, first: Bytes, rest: Bytes, up: nat -> bool)
    requires s == first + [NL] + rest && NL !in first
    ensures Feed(size, Conn([], served, Open), s, up) ==
              if up(|served|) then Feed(size, Conn([], served + [first], Open), rest, up)
              else Conn(Tail(rest), served + [first], ReplyFailed)
  {
    LineCons(s, first, rest);
    assert s[..|first|] == first && s[|first| + 1..] == rest;
    assert [] + s == s && [] + rest == rest;
    ServeOne(s, served, up);
  }

  lemma IdealFirst(size: nat, w: Bytes, served: seq<Bytes>, first: Bytes, rest: Bytes, up: nat -> bool)
    requires w == first + [NL] + rest && NL !in first
    ensures Ideal(size, w, served, up) ==
              if |first| + 1 >= size then Fate(served, TooLong)
              else if up(|served|) then Ideal(size, rest, served + [first], up)
              else Fate(served + [first], ReplyFailed)
    ensures Ambiguous(size, w, |served|, up) <==>
              if |first| + 1 >= size then |first| + 3 <= 2 * size
              else up(|served|) && Ambiguous(size, rest, |served| + 1, up)
  {
    LineCons(w, first, rest);
    assert w[..|first|] == first && w[|first| + 1..] == rest;
  }

  lemma FitsFirst(kind: Buffering, size: nat, s: Bytes, first: Bytes, rest: Bytes)
    requires s == first + [NL] + rest && NL !in first && Fits(kind, size, s)
    ensures FitsLine(kind, size, first) && Fits(kind, size, rest)
  {
    LineCons(s, first, rest);
    assert first in Complete(s);
    assert forall l | l in Complete(rest) :: l in Complete(s);
  }

  /** A prefix of a stream that has a complete line, and the stream, begin with the same line. */
  lemma SameFirst(s: Bytes, w: Bytes) returns (first: Bytes, rest: Bytes, w1: Bytes)
    requires s <= w && Find(s, NL) < |s|
    ensures s == first + [NL] + rest && w == first + [NL] + w1 && NL !in first
    ensures rest <= w1 && |rest| < |s| && |w1| < |w| && (s == w <==> rest == w1)
  {
    first, rest := FirstLine(s);
    w1 := w[|first| + 1..];
    assert w == w[..|first| + 1] + w1;
    assert w[..|first| + 1] == s[..|first| + 1] == first + [NL];
  }

  /** A stream of which no complete line has been read. */
  lemma IdealNoLine(size: nat, w: Bytes, s: Bytes, served: seq<Bytes>, up: nat -> bool)
    requires size > 1 && s <= w && Find(s, NL) == |s| && (|s| + 1 < size ==> s == w)
    ensures Verdict(Feed(size, Conn([], served, Open), s, up)) == Ideal(size, w, served, up)
  {
    assert [] + s == s;
    FindFirst(s, NL);
    if |s| + 1 >= size {
      LongStart(w, |s|);
    }
  }

  lemma LongStart(w: Bytes, n: nat)
    requires n <= |w| && NL !in w[..n]
    ensures Find(w, NL) >= n
  {
    assert forall i | 0 <= i < n :: w[i] == w[..n][i];
  }

  /** A stream read to its end, or until the connection was closed. */
  ghost predicate ReadOut(kind: Buffering, size: nat, w: Bytes, s: Bytes, served: seq<Bytes>, up: nat -> bool) {
    && size > 1 && s <= w && Fits(kind, size, s)
    && (Feed(size, Conn([], served, Open), s, up).status.Open? ==> s == w)
    && (kind.Fixed? || !Ambiguous(size, w, |served|, up))
  }

  lemma AfterFirst(kind: Buffering, size: nat, w: Bytes, s: Bytes, served: seq<Bytes>, up: nat -> bool)
    returns (first: Bytes, rest: Bytes, w1: Bytes)
    requires ReadOut(kind, size, w, s, served, up) && Find(s, NL) < |s|
    ensures |rest| < |s|
    ensures !up(|served|) ==> Verdict(Feed(size, Conn([], served, Open), s, up)) == Ideal(size, w, served, up)
    ensures up(|served|) ==>
              && ReadOut(kind, size, w1, rest, served + [first], up)
              && Feed(size, Conn([], served, Open), s, up) == Feed(size, Conn([], served + [first], Open), rest, up)
              && Ideal(size, w, served, up) == Ideal(size, w1, served + [first], up)
  {
    first, rest, w1 := SameFirst(s, w);
    FeedFirst(size, s, served, first, rest, up);
    IdealFirst(size, w, served, first, w1, up);
    FitsFirst(kind, size, s, first, rest);
    assert |first| + 1 < size;
    assert |served + [first]| == |served| + 1;
  }

  /** Reading a stream up to its end or to the closing of the connection gives the ideal outcome. */
  lemma {:induction false} IdealIs(kind: Buffering, size: nat, w: Bytes, s: Bytes, served: seq<Bytes>, up: nat -> bool)
    requires ReadOut(kind, size, w, s, served, up)
    ensures Verdict(Feed(size, Conn([], served, Open), s, up)) == Ideal(size, w, served, up)
    decreases |s|
  {
    if Find(s, NL) < |s| {
      var first, rest, w1 := AfterFirst(kind, size, w, s, served, up);
      if up(|served|) {
        IdealIs(kind, size, w1, rest, served + [first], up);
      }
    } else {
      assert [] + s == s;
      IdealNoLine(size, w, s, served, up);
    }
  }

  /** The outcome in the fixed buffer is the ideal one, however the stream is cut. */
  lemma FixedIsIdeal(size: nat, w: Bytes, chunks: seq<Bytes>, up: nat -> bool)
    requires size > 1 && ReadsAll(Fixed, size, FRESH, w, chunks, up)
    ensures Verdict(AfterReads(Fixed, size, FRESH, chunks, up)) == Ideal(size, w, [], up)
  {
    ReadFromFresh(Fixed, size, chunks, up);
    IdealIs(Fixed, size, w, Concat(chunks), [], up);
  }

  /** In the growable buffer it is, unless the stream is ambiguous. */
  lemma GrowableIsIdeal(size: nat, w: Bytes, chunks: seq<Bytes>, up: nat -> bool)
    requires size > 1 && ReadsAll(Growable, size, FRESH, w, chunks, up) && !Ambiguous(size, w, 0, up)
    ensures Verdict(AfterReads(Growable, size, FRESH, chunks, up)) == Ideal(size, w, [], up)
  {
    ReadFromFresh(Growable, size, chunks, up);
    IdealIs(Growable, size, w, Concat(chunks), [], up);
  }

  // ----- how much of the stream the fixed buffer takes

  /** How much of a client's stream is read before the connection is closed as too long. */
  function Consumed(size: nat, w: Bytes): (n: nat)
    requires size > 1
    ensures n <= |w|
    decreases |w|
  {
    var nl := Find(w, NL);
    if nl < |w| && nl + 1 < size then nl + 1 + Consumed(size, w[nl + 1..])
    else if |w| < size - 1 then |w| else size - 1
  }

  lemma LongLineCons(size: nat, w: Bytes)
    requires Find(w, NL) < |w| && Find(w, NL) + 1 < size
    ensures LongLine(size, w) <==> LongLine(size, w[Find(w, NL) + 1..])
  {
    var rest := Complete(w[Find(w, NL) + 1..]);
    var first := w[..Find(w, NL)];
    assert Complete(w) == [first] + rest;
    assert forall l :: l in [first] + rest <==> l == first || l in rest;
  }

  /** A stream that starts with a line of `size - 1` bytes or more. */
  lemma LongLineFirst(size: nat, w: Bytes, n: nat)
    requires n <= |w| && n + 1 == size && NL !in w[..n]
    ensures LongLine(size, w) && Find(w, NL) >= n
  {
    LongStart(w, n);
    var m := Find(w, NL);
    if m < |w| {
      assert Complete(w)[0] == w[..m];
    }
  }

  lemma {:induction false} ConsumedIs(size: nat, w: Bytes, s: Bytes)
    requires size > 1 && s <= w
    requires forall l | l in Complete(s) :: |l| + 1 < size
    requires (s == w && |Tail(s)| + 1 < size) || |Tail(s)| + 1 == size
    ensures |s| == Consumed(size, w)
    ensures LongLine(size, w) <==> |Tail(s)| + 1 == size
    decreases |w|
  {
    if Find(s, NL) < |s| {
      var first, rest, w1 := SameFirst(s, w);
      LineCons(s, first, rest);
      LineCons(w, first, w1);
      assert first in Complete(s);
      assert forall l | l in Complete(rest) :: l in Complete(s);
      assert w[|first| + 1..] == w1;
      ConsumedIs(size, w1, rest);
      LongLineCons(size, w);
    } else {
      FindFirst(s, NL);
      if |s| + 1 == size {
        LongLineFirst(size, w, |s|);
      }
    }
  }

  lemma ReadLength(size: nat, w: Bytes, chunks: seq<Bytes>, up: nat -> bool)
    requires size > 1 && ReadsAll(Fixed, size, FRESH, w, chunks, up)
    requires !AfterReads(Fixed, size, FRESH, chunks, up).status.ReplyFailed?
    ensures Concat(chunks) == w[..Consumed(size, w)]
    ensures AfterReads(Fixed, size, FRESH, chunks, up).status.TooLong? <==> LongLine(size, w)
  {
    ReadFromFresh(Fixed, size, chunks, up);
    assert [] + Concat(chunks) == Concat(chunks);
    ConsumedIs(size, w, Concat(chunks));
  }

  /**
    Chunking independence of the fixed buffer, whichever replies fail: any two complete ways of reading
    the same stream serve the same lines and end with the same status. If no reply fails they end in
    the same state after the same bytes, and the connection is cut off if and only if the stream
    contains a line of REQ_BUF_SIZE - 1 bytes or more.
   */
  lemma ChunkingIndependent(size: nat, w: Bytes, a: seq<Bytes>, b: seq<Bytes>, up: nat -> bool)
    requires size > 1 && ReadsAll(Fixed, size, FRESH, w, a, up) && ReadsAll(Fixed, size, FRESH, w, b, up)
    ensures var x, y := AfterReads(Fixed, size, FRESH, a, up), AfterReads(Fixed, size, FRESH, b, up);
            && x.served == y.served && x.status == y.status
            && (!x.status.ReplyFailed? ==>
                  && x == y && Concat(a) == Concat(b) == w[..Consumed(size, w)]
                  && (x.status.TooLong? <==> LongLine(size, w)))
  {
    FixedIsIdeal(size, w, a, up);
    FixedIsIdeal(size, w, b, up);
    if !AfterReads(Fixed, size, FRESH, a, up).status.ReplyFailed? {
      ReadLength(size, w, a, up);
      ReadLength(size, w, b, up);
      ReadFromFresh(Fixed, size, a, up);
      ReadFromFresh(Fixed, size, b, up);
    }
  }

  // ----- the growable buffer: exactly when the cut matters

  function Singles(x: Bytes): seq<Bytes> {
    if x == [] then [] else [x[..1]] + Singles(x[1..])
  }

  lemma {:induction false} ReadsAppend(kind: Buffering, size: nat, c: Conn, p: seq<Bytes>, q: seq<Bytes>,
      up: nat -> bool)
    requires Reads(kind, size, c, p, up) && Reads(kind, size, AfterReads(kind, size, c, p, up), q, up)
    ensures Reads(kind, size, c, p + q, up)
    ensures AfterReads(kind, size, c, p + q, up) == AfterReads(kind, size, AfterReads(kind, size, c, p, up), q, up)
    ensures Concat(p + q) == Concat(p) + Concat(q)
    decreases |p|
  {
    if p == [] {
      assert p + q == q;
    } else {
      assert (p + q)[0] == p[0] && (p + q)[1..] == p[1..] + q;
      ReadsAppend(kind, size, Feed(size, c, p[0], up), p[1..], q, up);
      Assoc(p[0], Concat(p[1..]), Concat(q));
    }
  }

  lemma NoNewlineYet(size: nat, c: Conn, x: Bytes, up: nat -> bool)
    requires NL !in c.buf && NL !in x
    ensures Feed(size, c, x, up) == Conn(c.buf + x, c.served, if |c.buf| + |x| + 1 >= size then TooLong else Open)
  {
    FindIs(c.buf + x, NL, |c.buf + x|);
  }

  /** Part of a line, byte by byte. */
  lemma {:induction false} ByBytes(size: nat, c: Conn, x: Bytes, up: nat -> bool)
    requires c.status.Open? && NL !in c.buf && NL !in x && |c.buf| + |x| + 1 < size
    ensures Reads(Growable, size, c, Singles(x), up) && Concat(Singles(x)) == x
    ensures AfterReads(Growable, size, c, Singles(x), up) == Conn(c.buf + x, c.served, Open)
    decreases |x|
  {
    if x == [] {
      assert c.buf + x == c.buf;
    } else {
      NoNewlineYet(size, c, x[..1], up);
      var c1 := Feed(size, c, x[..1], up);
      ByBytes(size, c1, x[1..], up);
      Assoc(c.buf, x[..1], x[1..]);
      assert x[..1] + x[1..] == x;
      assert Singles(x)[0] == x[..1] && Singles(x)[1..] == Singles(x[1..]);
    }
  }

  /** The rest of a line and its newline in one read. */
  lemma LineEnds(size: nat, c: Conn, x: Bytes, up: nat -> bool)
    requires size > 1 && NL !in c.buf && NL !in x
    ensures Feed(size, c, x + [NL], up) ==
              Conn([], c.served + [c.buf + x], if up(|c.served|) then Open else ReplyFailed)
  {
    var line := c.buf + x;
    assert c.buf + (x + [NL]) == line + [NL] + [];
    LineCons(line + [NL] + [], line, []);
    assert Complete(line + [NL] + []) == [line] && Tail(line + [NL] + []) == [];
    assert [line][1..] == [];
    assert ServeAll([], c.served + [line], up) == Result(c.served + [line], true);
    assert ServeAll([line], c.served, up) == Result(c.served + [line], up(|c.served|));
  }

  lemma ServesOn(size: nat, c: Conn, chunk: Bytes, up: nat -> bool)
    ensures |c.served| <= |Feed(size, c, chunk, up).served|
  {
    ServeAllPrefix(Complete(c.buf + chunk), c.served, up);
  }

  /** Any state can be read on from, byte by byte, until the stream ends or the connection is closed. */
  lemma {:induction false} ReadOn(size: nat, c: Conn, w: Bytes, up: nat -> bool) returns (chunks: seq<Bytes>)
    requires size > 1
    ensures ReadsAll(Growable, size, c, w, chunks, up)
    ensures |c.served| <= |AfterReads(Growable, size, c, chunks, up).served|
    decreases |w|
  {
    if w == [] || !c.status.Open? {
      chunks := [];
    } else {
      var c1 := Feed(size, c, w[..1], up);
      ServesOn(size, c, w[..1], up);
      var rest := ReadOn(size, c1, w[1..], up);
      chunks := [w[..1]] + rest;
      assert chunks[1..] == rest;
      assert w == w[..1] + w[1..];
      PrefixCons(w[..1], Concat(rest), w[1..]);
    }
  }

  lemma PrefixCons(x: Bytes, p: Bytes, w: Bytes)
    requires p <= w
    ensures x + p <= x + w
  {
  }

  lemma Then(size: nat, c: Conn, p: seq<Bytes>, w: Bytes, q: seq<Bytes>, up: nat -> bool)
    requires Reads(Growable, size, c, p, up)
    requires ReadsAll(Growable, size, AfterReads(Growable, size, c, p, up), w, q, up)
    ensures ReadsAll(Growable, size, c, Concat(p) + w, p + q, up)
    ensures AfterReads(Growable, size, c, p + q, up) ==
            AfterReads(Growable, size, AfterReads(Growable, size, c, p, up), q, up)
  {
    ReadsAppend(Growable, size, c, p, q, up);
    PrefixCons(Concat(p), Concat(q), w);
  }

  lemma OneChunk(size: nat, c: Conn, x: Bytes, up: nat -> bool)
    requires c.status.Open? && 0 < |x| <= size
    ensures Reads(Growable, size, c, [x], up) && Concat([x]) == x
    ensures AfterReads(Growable, size, c, [x], up) == Feed(size, c, x, up)
  {
    assert [x][1..] == [];
    assert x + [] == x;
  }

  /** A short line is served whichever way; here byte by byte. */
  lemma ShortLine(size: nat, c: Conn, line: Bytes, up: nat -> bool) returns (p: seq<Bytes>)
    requires size > 1 && c.status.Open? && c.buf == [] && NL !in line && |line| + 1 < size && up(|c.served|)
    ensures Reads(Growable, size, c, p, up) && Concat(p) == line + [NL]
    ensures AfterReads(Growable, size, c, p, up) == Conn([], c.served + [line], Open)
  {
    ByBytes(size, c, line, up);
    var c1 := AfterReads(Growable, size, c, Singles(line), up);
    assert c.buf + line == line;
    assert [] + [NL] == [NL] && line + [] == line;
    LineEnds(size, c1, [], up);
    OneChunk(size, c1, [NL], up);
    p := Singles(line) + [[NL]];
    ReadsAppend(Growable, size, c, Singles(line), [[NL]], up);
  }

  /** A long line read byte by byte closes the connection. */
  lemma Refused(size: nat, c: Conn, line: Bytes, w: Bytes, up: nat -> bool) returns (a: seq<Bytes>)
    requires size > 1 && c.status.Open? && c.buf == [] && NL !in line && |line| + 1 >= size && line <= w
    ensures ReadsAll(Growable, size, c, w, a, up)
    ensures AfterReads(Growable, size, c, a, up).served == c.served
  {
    var x, y := line[..size - 2], line[size - 2..size - 1];
    ByBytes(size, c, x, up);
    var c1 := AfterReads(Growable, size, c, Singles(x), up);
    assert c.buf + x == x;
    NoNewlineYet(size, c1, y, up);
    OneChunk(size, c1, y, up);
    a := Singles(x) + [y];
    ReadsAppend(Growable, size, c, Singles(x), [y], up);
    assert x + y == line[..size - 1];
  }

  /** Read up to the limit and then in one piece, it is accepted. */
  lemma Accepted(size: nat, c: Conn, line: Bytes, rest: Bytes, up: nat -> bool) returns (b: seq<Bytes>)
    requires size > 1 && c.status.Open? && c.buf == [] && NL !in line && size <= |line| + 1 && |line| + 3 <= 2 * size
    ensures ReadsAll(Growable, size, c, line + [NL] + rest, b, up)
    ensures |AfterReads(Growable, size, c, b, up).served| > |c.served|
  {
    var x, y := line[..size - 2], line[size - 2..];
    ByBytes(size, c, x, up);
    var c1 := AfterReads(Growable, size, c, Singles(x), up);
    assert c.buf + x == x;
    LineEnds(size, c1, y, up);
    OneChunk(size, c1, y + [NL], up);
    var p := Singles(x) + [y + [NL]];
    ReadsAppend(Growable, size, c, Singles(x), [y + [NL]], up);
    assert Concat(p) == line + [NL];
    var q := ReadOn(size, AfterReads(Growable, size, c, p, up), rest, up);
    Then(size, c, p, rest, q, up);
    b := p + q;
  }

  /** Two ways of reading an ambiguous stream that serve different numbers of lines. */
  lemma {:induction false} TwoWays(size: nat, c: Conn, w: Bytes, up: nat -> bool) returns (a: seq<Bytes>, b: seq<Bytes>)
    requires size > 1 && c.status.Open? && c.buf == [] && Ambiguous(size, w, |c.served|, up)
    ensures ReadsAll(Growable, size, c, w, a, up) && ReadsAll(Growable, size, c, w, b, up)
    ensures |AfterReads(Growable, size, c, a, up).served| < |AfterReads(Growable, size, c, b, up).served|
    decreases |w|
  {
    var line, rest := FirstLine(w);
    if |line| + 1 >= size {
      assert line <= w;
      a := Refused(size, c, line, w, up);
      b := Accepted(size, c, line, rest, up);
    } else {
      var p := ShortLine(size, c, line, up);
      var c1 := AfterReads(Growable, size, c, p, up);
      a, b := TwoWays(size, c1, rest, up);
      Then(size, c, p, rest, a, up);
      Then(size, c, p, rest, b, up);
      a, b := p + a, p + b;
    }
  }

  ghost predicate SameFate(size: nat, w: Bytes, a: seq<Bytes>, b: seq<Bytes>, up: nat -> bool)
    requires Reads(Growable, size, FRESH, a, up) && Reads(Growable, size, FRESH, b, up)
  {
    Verdict(AfterReads(Growable, size, FRESH, a, up)) == Verdict(AfterReads(Growable, size, FRESH, b, up))
  }

  /**
    The Rust server: the outcome is the same for all ways of cutting the stream if and only if the
    stream is not ambiguous.
   */
  lemma CutMattersExactly(size: nat, w: Bytes, up: nat -> bool)
    requires size > 1
    ensures (forall a, b | ReadsAll(Growable, size, FRESH, w, a, up) && ReadsAll(Growable, size, FRESH, w, b, up) ::
               SameFate(size, w, a, b, up))
            <==> !Ambiguous(size, w, 0, up)
  {
    if Ambiguous(size, w, 0, up) {
      var a, b := TwoWays(size, FRESH, w, up);
      assert !SameFate(size, w, a, b, up);
    } else {
      forall a, b | ReadsAll(Growable, size, FRESH, w, a, up) && ReadsAll(Growable, size, FRESH, w, b, up)
        ensures SameFate(size, w, a, b, up)
      {
        GrowableIsIdeal(size, w, a, up);
        GrowableIsIdeal(size, w, b, up);
      }
    }
  }

  const LETTER: bv8 := 97

  /** One line of 511 letters, every reply getting through: one cut closes the connection, another serves the line. */
  lemma LineOf511() returns (a: seq<Bytes>, b: seq<Bytes>)
    ensures var w := seq(511, i => LETTER) + [NL]; var up := (k: nat) => true;
            && ReadsAll(Growable, 512, FRESH, w, a, up) && ReadsAll(Growable, 512, FRESH, w, b, up)
            && |AfterReads(Growable, 512, FRESH, a, up).served| < |AfterReads(Growable, 512, FRESH, b, up).served|
  {
    var line := seq(511, i => LETTER);
    var up := (k: nat) => true;
    LineCons(line + [NL] + [], line, []);
    assert line + [NL] + [] == line + [NL];
    a, b := TwoWays(512, FRESH, line + [NL], up);
  }
}
