/** Newline-terminated requests in a byte stream. */
module Lines {
  import opened FifoMap

  const NL: bv8 := 10
  const CR: bv8 := 13
  const NUL: bv8 := 0

  /** Position of the first `x`, or the length. */
  function Find(s: Bytes, x: bv8): (i: nat)
    ensures i <= |s|
    ensures i < |s| ==> s[i] == x
  {
    if s == [] || s[0] == x then 0 else 1 + Find(s[1..], x)
  }

  lemma {:induction false} FindFirst(s: Bytes, x: bv8)
    ensures forall k | 0 <= k < Find(s, x) :: s[k] != x
  {
    if s != [] && s[0] != x {
      FindFirst(s[1..], x);
      assert forall k | 1 <= k < |s| :: s[k] == s[1..][k - 1];
    }
  }

  lemma FindIs(s: Bytes, x: bv8, i: nat)
    requires i <= |s| && (i < |s| ==> s[i] == x) && forall k | 0 <= k < i :: s[k] != x
    ensures Find(s, x) == i
  {
    FindFirst(s, x);
  }

  /** The complete lines of a stream, without their newlines. */
  function Complete(s: Bytes): seq<Bytes>
    decreases |s|
  {
    var nl := Find(s, NL);
    if nl == |s| then [] else [s[..nl]] + Complete(s[nl + 1..])
  }

  /** What follows the last newline. */
  function Tail(s: Bytes): Bytes
    decreases |s|
  {
    var nl := Find(s, NL);
    if nl == |s| then s else Tail(s[nl + 1..])
  }

  /** The file name in a line: one trailing CR dropped, the rest cut at the first NUL. */
  function Name(line: Bytes): Bytes {
    var l := if line != [] && line[|line| - 1] == CR then line[..|line| - 1] else line;
    l[..Find(l, NUL)]
  }

  /** The line that ends at `nl` made a C string in place: NUL for its newline and for a CR before it. */
  function Terminate(buf: Bytes, nl: nat): (r: Bytes)
    requires nl < |buf|
    ensures |r| == |buf| && r[nl] == NUL && r[nl + 1..] == buf[nl + 1..]
  {
    if nl > 0 && buf[nl - 1] == CR then buf[nl := NUL][nl - 1 := NUL] else buf[nl := NUL]
  }

  /** The C string at the start of a buffer. */
  function CString(buf: Bytes): Bytes {
    buf[..Find(buf, NUL)]
  }

  lemma CStringIsName(buf: Bytes, nl: nat)
    requires nl < |buf|
    ensures CString(Terminate(buf, nl)) == Name(buf[..nl])
  {
    var line := buf[..nl];
    var l := if line != [] && line[nl - 1] == CR then line[..nl - 1] else line;
    var b := Terminate(buf, nl);
    assert b[..|l|] == l && b[|l|] == NUL;
    var f := Find(l, NUL);
    FindFirst(l, NUL);
    assert forall k | 0 <= k < |l| :: b[k] == l[k];
    FindIs(b, NUL, f);
    assert b[..f] == l[..f];
  }

  function Names(lines: seq<Bytes>): seq<Bytes> {
    if lines == [] then [] else [Name(lines[0])] + Names(lines[1..])
  }

  // ----- what a name is

  /** A name that a line can be made of: it contains no NUL and does not end in a CR. */
  predicate Plain(x: Bytes) {
    NUL !in x && (x != [] ==> x[|x| - 1] != CR)
  }

  lemma NoNul(x: Bytes, y: Bytes)
    requires NUL !in x
    ensures Find(x, NL) <= |x| && Find(x, NUL) == |x| && Find(x + [NUL] + y, NUL) == |x|
  {
    FindIs(x, NUL, |x|);
    FindIs(x + [NUL] + y, NUL, |x|);
  }

  /** One CR at the end of the line is not part of the name, with or without a CR the name is the same. */
  lemma NameDropsCR(x: Bytes)
    requires NUL !in x
    ensures Name(x + [CR]) == x
    ensures Plain(x) ==> Name(x) == x
  {
    NoNul(x, []);
    assert (x + [CR])[..|x|] == x;
  }

  /** The name ends at the first NUL. */
  lemma NameEndsAtNul(x: Bytes, y: Bytes)
    requires NUL !in x
    ensures Name(x + [NUL] + y) == x
  {
    var line := x + [NUL] + y;
    if y != [] && y[|y| - 1] == CR {
      var z := y[..|y| - 1];
      NoNul(x, z);
      assert line[..|line| - 1] == x + [NUL] + z;
    } else {
      NoNul(x, y);
      assert line[|line| - 1] != CR;
    }
  }

  /** What the line was typed as, with or without a CR. */
  ghost predicate NamedBy(line: Bytes, name: Bytes) {
    NUL !in name && forall x | Plain(x) && (line == x || line == x + [CR]) :: name == x
  }

  lemma NameLaws(line: Bytes)
    ensures NamedBy(line, Name(line))
  {
    NameHasNoNul(line);
    forall x | Plain(x) && (line == x || line == x + [CR])
      ensures Name(line) == x
    {
      NameDropsCR(x);
    }
  }

  lemma NameHasNoNul(line: Bytes)
    ensures NUL !in Name(line)
  {
    var l := if line != [] && line[|line| - 1] == CR then line[..|line| - 1] else line;
    FindFirst(l, NUL);
  }

  /** The pending bytes begin with a plain name and either end of line. */
  ghost predicate NextIs(pending: Bytes, x: Bytes) {
    Plain(x) && NL !in x && (x + [NL] <= pending || x + [CR] + [NL] <= pending)
  }

  lemma FirstName(pending: Bytes, x: Bytes)
    requires NextIs(pending, x)
    ensures Find(pending, NL) < |pending| && Name(pending[..Find(pending, NL)]) == x
  {
    var line := if x + [NL] <= pending then x else x + [CR];
    assert pending[..|line|] == line && pending[|line|] == NL;
    FindIs(pending, NL, |line|);
    NameDropsCR(x);
  }

  /** What a client types: a name, and how it ends the line. */
  datatype Typed = Typed(name: Bytes, cr: bool)

  function Line(x: Typed): Bytes {
    if x.cr then x.name + [CR] else x.name
  }

  function Text(xs: seq<Typed>): Bytes {
    if xs == [] then [] else Line(xs[0]) + [NL] + Text(xs[1..])
  }

  function Spelled(xs: seq<Typed>): seq<Bytes> {
    if xs == [] then [] else [xs[0].name] + Spelled(xs[1..])
  }

  ghost predicate Typable(xs: seq<Typed>) {
    forall i | 0 <= i < |xs| :: Plain(xs[i].name) && NL !in xs[i].name
  }

  /** Whichever way each line is ended, the names are those typed, and nothing is left over. */
  lemma {:induction false} NamesAsTyped(xs: seq<Typed>)
    requires Typable(xs)
    ensures Names(Complete(Text(xs))) == Spelled(xs) && Tail(Text(xs)) == []
  {
    if xs != [] {
      LineCons(Text(xs), Line(xs[0]), Text(xs[1..]));
      NameDropsCR(xs[0].name);
      NamesAsTyped(xs[1..]);
    }
  }

  function Unlines(lines: seq<Bytes>): Bytes {
    if lines == [] then [] else lines[0] + [NL] + Unlines(lines[1..])
  }

  lemma Assoc<T>(p: seq<T>, q: seq<T>, r: seq<T>)
    ensures (p + q) + r == p + (q + r)
  {
  }

  lemma UnlinesCons(l: Bytes, ls: seq<Bytes>)
    ensures Unlines([l] + ls) == l + [NL] + Unlines(ls)
  {
    assert ([l] + ls)[1..] == ls;
  }

  /** The splitting loses nothing. */
  lemma {:induction false} SplitJoins(s: Bytes)
    ensures Unlines(Complete(s)) + Tail(s) == s
    decreases |s|
  {
    var nl := Find(s, NL);
    if nl < |s| {
      var rest := s[nl + 1..];
      SplitJoins(rest);
      UnlinesCons(s[..nl], Complete(rest));
      Assoc(s[..nl] + [NL], Unlines(Complete(rest)), Tail(rest));
      assert s == s[..nl] + [NL] + rest;
    } else {
      assert Unlines([]) + s == s;
    }
  }

  /** No piece contains a newline. */
  lemma {:induction false} PiecesHaveNoNewline(s: Bytes)
    ensures NL !in Tail(s)
    ensures forall i | 0 <= i < |Complete(s)| :: NL !in Complete(s)[i]
    decreases |s|
  {
    var nl := Find(s, NL);
    FindFirst(s, NL);
    if nl < |s| {
      PiecesHaveNoNewline(s[nl + 1..]);
    }
  }

  lemma LineCons(s: Bytes, first: Bytes, rest: Bytes)
    requires s == first + [NL] + rest && NL !in first
    ensures Find(s, NL) == |first|
    ensures Complete(s) == [first] + Complete(rest) && Tail(s) == Tail(rest)
  {
    FindIs(s, NL, |first|);
    assert s[..|first|] == first && s[|first| + 1..] == rest;
  }

  lemma FirstLine(s: Bytes) returns (first: Bytes, rest: Bytes)
    requires Find(s, NL) < |s|
    ensures s == first + [NL] + rest && NL !in first
    ensures |first| == Find(s, NL) && rest == s[|first| + 1..]
    ensures Complete(s) == [first] + Complete(rest) && Tail(s) == Tail(rest)
  {
    var nl := Find(s, NL);
    first, rest := s[..nl], s[nl + 1..];
    FindFirst(s, NL);
  }

  /** Appending bytes only concerns the tail. */
  lemma {:induction false} SplitAppend(a: Bytes, b: Bytes)
    ensures Complete(a + b) == Complete(a) + Complete(Tail(a) + b)
    ensures Tail(a + b) == Tail(Tail(a) + b)
    decreases |a|
  {
    if Find(a, NL) < |a| {
      var first, rest := FirstLine(a);
      Assoc(first + [NL], rest, b);
      LineCons(a + b, first, rest + b);
      SplitAppend(rest, b);
      Assoc([first], Complete(rest), Complete(Tail(rest) + b));
    } else {
      assert [] + Complete(a + b) == Complete(a + b);
    }
  }

  lemma {:induction false} NamesLength(lines: seq<Bytes>)
    ensures |Names(lines)| == |lines|
  {
    if lines != [] {
      NamesLength(lines[1..]);
    }
  }

  lemma {:induction false} NamesConcat(p: seq<Bytes>, q: seq<Bytes>)
    ensures Names(p + q) == Names(p) + Names(q)
  {
    if p == [] {
      assert p + q == q;
    } else {
      assert (p + q)[1..] == p[1..] + q;
      NamesConcat(p[1..], q);
    }
  }
}

/**
  The request buffer of the C file server: `buf` is filled by reads at `len`, complete lines are
  cut off its front, and the rest is moved down.
 */
module RequestBuffer {
  import opened FifoMap
  import opened Lines

  /** What one call of process_requests does: the lines whose names go to serve_file, and whether to go on. */
  datatype Result = Result(served: seq<Bytes>, alive: bool)

  /**
    Serve lines in order until one reply cannot be written. `up(k)` says whether the k-th reply of
    the connection gets through.
   */
  function ServeAll(lines: seq<Bytes>, served: seq<Bytes>, up: nat -> bool): Result {
    if lines == [] then Result(served, true)
    else if !up(|served|) then Result(served + [lines[0]], false)
    else ServeAll(lines[1..], served + [lines[0]], up)
  }

  lemma {:induction false} ServeAllPrefix(lines: seq<Bytes>, served: seq<Bytes>, up: nat -> bool)
    ensures var r := ServeAll(lines, served, up);
            && served <= r.served <= served + lines
            && (r.alive ==> r.served == served + lines)
  {
    if lines != [] {
      assert served + lines == served + [lines[0]] + lines[1..];
      if up(|served|) {
        ServeAllPrefix(lines[1..], served + [lines[0]], up);
      }
    }
  }

  /** Serving more lines goes on from where the first ones stopped. */
  lemma {:induction false} ServeAllAppend(p: seq<Bytes>, q: seq<Bytes>, served: seq<Bytes>, up: nat -> bool)
    ensures var r := ServeAll(p, served, up);
            ServeAll(p + q, served, up) == if r.alive then ServeAll(q, r.served, up) else r
  {
    if p == [] {
      assert p + q == q;
    } else {
      assert (p + q)[1..] == p[1..] + q;
      ServeAllAppend(p[1..], q, served + [p[0]], up);
    }
  }

  lemma ServeOne(all: Bytes, served: seq<Bytes>, up: nat -> bool)
    requires Find(all, NL) < |all|
    ensures var nl := Find(all, NL); var now := served + [all[..nl]];
            && Tail(all) == Tail(all[nl + 1..])
            && ServeAll(Complete(all), served, up) ==
                 if up(|served|) then ServeAll(Complete(all[nl + 1..]), now, up) else Result(now, false)
  {
    var nl := Find(all, NL);
    var rest := Complete(all[nl + 1..]);
    assert ([all[..nl]] + rest)[1..] == rest;
  }

  datatype Status = Open | TooLong | ReplyFailed

  /** A connection as its bytes determine it: the pending bytes and the lines served so far. */
  datatype Conn = Conn(buf: Bytes, served: seq<Bytes>, status: Status)

  /** One read of `chunk` into a buffer of `size` bytes, and the processing that follows. */
  function Feed(size: nat, c: Conn, chunk: Bytes, up: nat -> bool): Conn {
    var all := c.buf + chunk;
    var r := ServeAll(Complete(all), c.served, up);
    Conn(Tail(all), r.served,
         if !r.alive then ReplyFailed else if |Tail(all)| + 1 >= size then TooLong else Open)
  }

  class Client {
    const buf: array<bv8>
    var len: nat
    var served: seq<Bytes>        // the names handed to serve_file
    ghost var lines: seq<Bytes>   // the lines they come from

    ghost predicate Valid()
      reads this, buf
    {
      buf.Length > 1 && len <= buf.Length - 1 && served == Names(lines)
    }

    ghost function Pending(): Bytes
      reads this, buf
      requires Valid()
    {
      buf[..len]
    }

    /** A new connection with a buffer of REQ_BUF_SIZE bytes. */
    constructor (reqBufSize: nat)
      requires reqBufSize > 1
      ensures Valid() && buf.Length == reqBufSize && Pending() == [] && lines == [] && fresh(buf)
    {
      buf := new bv8[reqBufSize](_ => 0);
      len := 0;
      served, lines := [], [];
    }

    /** memchr(buf, x, n) */
    method IndexOf(x: bv8, n: nat) returns (i: nat)
      requires n <= buf.Length
      ensures i == Find(buf[..n], x)
    {
      i := 0;
      while i < n && buf[i] != x
        invariant i <= n
        invariant forall k | 0 <= k < i :: buf[k] != x
      {
        i := i + 1;
      }
      FindIs(buf[..n], x, i);
    }

    /** The line's terminators become NULs; what serve_file sees is the C string at buf. */
    method TakeName(nl: nat) returns (name: Bytes)
      requires Valid() && nl < len && buf[nl] == NL
      modifies buf
      ensures name == Name(old(buf[..nl]))
      ensures NamedBy(old(buf[..nl]), name)
      ensures forall k | nl < k < buf.Length :: buf[k] == old(buf[k])
    {
      ghost var all := buf[..nl + 1];
      assert all[..nl] == buf[..nl];
      CStringIsName(all, nl);
      buf[nl] := NUL;
      if nl > 0 && buf[nl - 1] == CR {
        buf[nl - 1] := NUL;
      }
      assert buf[..nl + 1] == Terminate(all, nl);
      var n := IndexOf(NUL, nl + 1);
      name := buf[..n];
      assert name == buf[..nl + 1][..n];
      NameLaws(all[..nl]);
    }

    /** memmove(buf, buf + from, len) */
    method MoveDown(from: nat)
      requires Valid() && from <= len
      modifies this`len, buf
      ensures Valid() && Pending() == old(Pending())[from..]
    {
      var n := len - from;
      for k := 0 to n
        invariant len == old(len)
        invariant forall j | 0 <= j < k :: buf[j] == old(buf[from + j])
        invariant forall j | k <= j < buf.Length :: buf[j] == old(buf[j])
      {
        buf[k] := buf[from + k];
      }
      len := n;
    }

    /** One round of the loop: hand out the first complete line, if there is one. */
    method ServeNext(up: nat -> bool) returns (found: bool, ok: bool)
      requires Valid()
      modifies this, buf
      ensures Valid()
      ensures var all, nl := old(Pending()), Find(old(Pending()), NL);
              && found == (nl < |all|)
              && (!found ==> Pending() == all && lines == old(lines))
              && (found ==> lines == old(lines) + [all[..nl]] && ok == up(|old(lines)|))
              && (found && ok ==> Pending() == all[nl + 1..])
    {
      var nl := IndexOf(NL, len);
      if nl == len {
        return false, true;
      }
      ghost var all := Pending();
      assert all[..nl] == buf[..nl];
      var name := TakeName(nl);
      NamesConcat(lines, [all[..nl]]);
      served, lines := served + [name], lines + [all[..nl]];
      NamesLength(lines);
      if !up(|served| - 1) {
        return true, false;
      }
      assert Pending()[nl + 1..] == all[nl + 1..];
      MoveDown(nl + 1);
      return true, true;
    }

    /** process_requests */
    method ProcessRequests(up: nat -> bool) returns (alive: bool)
      requires Valid()
      modifies this, buf
      ensures Valid()
      ensures var r := ServeAll(Complete(old(Pending())), old(lines), up);
              && lines == r.served
              && alive == (r.alive && |Tail(old(Pending()))| < buf.Length - 1)
              && (r.alive ==> Pending() == Tail(old(Pending())))
    {
      ghost var lines0, served0 := Complete(Pending()), lines;
      ghost var tail0 := Tail(Pending());
      while true
        invariant Valid()
        invariant ServeAll(Complete(Pending()), lines, up) == ServeAll(lines0, served0, up)
        invariant Tail(Pending()) == tail0
        decreases len
      {
        ghost var all, before := Pending(), lines;
        var found, ok := ServeNext(up);
        if !found {
          break;
        }
        ServeOne(all, before, up);
        if !ok {
          return false;
        }
      }
      alive := len < buf.Length - 1;
    }

    /** The read step: at most the free space, here REQ_BUF_SIZE - 1 - len bytes, and at least one. */
    method Receive(chunk: Bytes, up: nat -> bool) returns (alive: bool)
      requires Valid() && 0 < |chunk| <= buf.Length - 1 - len
      modifies this, buf
      ensures Valid()
      ensures var c := Feed(buf.Length, Conn(old(Pending()), old(lines), Open), chunk, up);
              && lines == c.served
              && alive == c.status.Open?
              && (!c.status.ReplyFailed? ==> Pending() == c.buf)
    {
      ghost var before := Pending();
      for k := 0 to |chunk|
        invariant len == old(len) && lines == old(lines) && served == old(served)
        invariant forall j | 0 <= j < len :: buf[j] == old(buf[j])
        invariant forall j | 0 <= j < k :: buf[len + j] == chunk[j]
      {
        buf[len + k] := chunk[k];
      }
      len := len + |chunk|;
      assert Pending() == before + chunk;
      alive := ProcessRequests(up);
    }
  }
}
