/**
 The console ring buffer of base/circlebuf.cc: writes go round a fixed array, and
 `readall` shows the most recent bytes. The reference is the plain history of
 bytes written since the last flush.
 */
module CircleBufs {

  /** The last n bytes of a history, or all of it. */
  function Last(h: seq<char>, n: nat): (r: seq<char>)
    ensures |r| == if |h| < n then |h| else n
  {
    if |h| <= n then h else h[|h| - n..]
  }

  /** Copies bytes into part of a buffer. */
  method CopyIn(buf: array<char>, at: nat, b: seq<char>)
    requires at + |b| <= buf.Length
    modifies buf
    ensures buf[..] == old(buf[..])[..at] + b + old(buf[..])[at + |b|..]
  {
    for i := 0 to |b|
      invariant buf[..at] == old(buf[..at]) && buf[at..at + i] == b[..i] && buf[at + i..] == old(buf[at + i..])
    {
      buf[at + i] := b[i];
    }
  }

  /** A buffer that has taken in b from `at` on, going round. */
  function RoundAt(s: seq<char>, at: nat, b: seq<char>): (r: seq<char>)
    requires at <= |s| && |b| < |s| < at + |b|
    ensures |r| == |s|
  {
    var e := |s| - at;
    b[e..] + s[|b| - e..at] + b[..e]
  }

  /** Copies bytes to the end of a buffer, and what does not fit there to its front. */
  method CopyAround(buf: array<char>, at: nat, b: seq<char>)
    requires at <= buf.Length && |b| < buf.Length < at + |b|
    modifies buf
    ensures buf[..] == RoundAt(old(buf[..]), at, b)
  {
    var endLen := buf.Length - at;
    TwoCopies(buf[..], at, b[..endLen], b[endLen..]);
    CopyIn(buf, at, b[..endLen]);
    CopyIn(buf, 0, b[endLen..]);
  }

  lemma TwoCopies(s: seq<char>, at: nat, tail: seq<char>, head: seq<char>)
    requires |head| <= at && at + |tail| == |s|
    ensures var mid := s[..at] + tail + s[at + |tail|..];
            mid[..0] + head + mid[0 + |head|..] == head + s[|head|..at] + tail
  {
    var mid := s[..at] + tail + s[at + |tail|..];
    assert mid == s[..at] + tail;
    assert mid[|head|..] == s[|head|..at] + tail;
  }

  /** The array shows the end of the history, the newest byte just before `stop`: all of it, or as much as fits. */
  ghost predicate Shows(buf: seq<char>, stop: nat, rolled: bool, h: seq<char>) {
    && stop <= |buf| && (if rolled then |buf| <= |h| else stop == |h|)
    && (forall i | 0 <= i < stop :: buf[i] == h[|h| - stop + i])
    && (rolled ==> forall i | stop <= i < |buf| :: buf[i] == h[|h| - stop - |buf| + i])
  }

  lemma ShowsLast(buf: seq<char>, stop: nat, rolled: bool, h: seq<char>)
    requires Shows(buf, stop, rolled, h)
    ensures (if rolled then buf[stop..] else []) + buf[..stop] == Last(h, |buf|)
  {
  }

  /** Bytes put where the last ones stopped. */
  lemma Straight(buf: seq<char>, stop: nat, rolled: bool, h: seq<char>, b: seq<char>)
    requires Shows(buf, stop, rolled, h) && stop + |b| <= |buf|
    ensures Shows(buf[..stop] + b + buf[stop + |b|..], stop + |b|, rolled, h + b)
  {
  }

  /** Bytes put at the end and then at the front of the array. */
  lemma Around(buf: seq<char>, stop: nat, rolled: bool, h: seq<char>, b: seq<char>)
    requires Shows(buf, stop, rolled, h) && |b| < |buf| < stop + |b|
    ensures Shows(RoundAt(buf, stop, b), stop + |b| - |buf|, true, h + b)
  {
  }

  class CircleBuf {
    const buf: array<char>
    var rollover: bool
    var size: int
    var start: int
    var stop: nat
    ghost var history: seq<char>

    ghost predicate Valid()
      reads this, buf
    {
      Shows(buf[..], stop, rollover, history)
    }

    constructor (len: nat)
      ensures Valid() && fresh(buf) && buf.Length == len && history == []
    {
      buf := new char[len];
      rollover, size, start, stop, history := false, 0, 0, 0, [];
    }

    method Flush()
      requires Valid()
      modifies this
      ensures Valid() && history == []
    {
      start, stop, rollover := 0, 0, false;
      history := [];
    }

    method ReadAll() returns (out: seq<char>)
      requires Valid()
      modifies this`start
      ensures Valid() && out == Last(history, buf.Length)
    {
      ShowsLast(buf[..], stop, rollover, history);
      assert buf[..][stop..] == buf[stop..] && buf[..][..stop] == buf[..stop];
      out := [];
      if rollover {
        out := buf[stop..];
      }
      out := out + buf[..stop];
      start := stop;
    }

    /** Overwrites the whole array with the end of b. */
    method WriteLong(b: seq<char>)
      requires Valid() && |b| >= buf.Length
      modifies this`start, this`stop, this`rollover, this`history, buf
      ensures Valid() && history == old(history) + b
    {
      start, stop, rollover := 0, buf.Length, true;
      CopyIn(buf, 0, b[|b| - buf.Length..]);
      history := history + b;
    }

    method WriteStraight(b: seq<char>)
      requires Valid() && stop + |b| <= buf.Length
      modifies this`stop, this`history, buf
      ensures Valid() && history == old(history) + b && stop == old(stop) + |b|
    {
      ghost var was := buf[..];
      Straight(was, stop, rollover, history, b);
      CopyIn(buf, stop, b);
      assert buf[..] == was[..stop] + b + was[stop + |b|..];
      stop := stop + |b|;
      history := history + b;
    }

    method WriteAround(b: seq<char>)
      requires Valid() && |b| < buf.Length < stop + |b|
      modifies this`stop, this`rollover, this`history, buf
      ensures Valid() && history == old(history) + b && stop == old(stop) + |b| - buf.Length && rollover
    {
      Around(buf[..], stop, rollover, history, b);
      CopyAround(buf, stop, b);
      assert Shows(buf[..], stop + |b| - buf.Length, true, history + b);
      stop := |b| - (buf.Length - stop);
      rollover := true;
      history := history + b;
    }

    method Write(b: seq<char>)
      requires Valid()
      modifies this, buf
      ensures Valid() && history == old(history) + b
    {
      if |b| == 0 {
        return;
      }
      size := if size + |b| > buf.Length then buf.Length else size + |b|;
      var oldStart, oldStop := start, stop;
      if |b| >= buf.Length {
        WriteLong(b);
        return;
      }
      if stop + |b| <= buf.Length {
        WriteStraight(b);
      } else {
        WriteAround(b);
      }
      if (oldStart > oldStop && oldStart < stop) || (oldStart < oldStop && stop < oldStop) {
        start := stop + 1;
      }
    }
  }

  // ----- whole runs

  datatype Op = Put(bytes: seq<char>) | Show | Clear

  /** What the reads of a run show, given the history so far. */
  function Shown(ops: seq<Op>, n: nat, h: seq<char>): seq<seq<char>>
    decreases |ops|
  {
    if ops == [] then []
    else match ops[0]
      case Put(b) => Shown(ops[1..], n, h + b)
      case Show => [Last(h, n)] + Shown(ops[1..], n, h)
      case Clear => Shown(ops[1..], n, [])
  }

  /** In every run, every read shows exactly the last bytes written since the last flush, as many as fit. */
  method Replay(len: nat, ops: seq<Op>) returns (outs: seq<seq<char>>)
    ensures outs == Shown(ops, len, [])
  {
    var c := new CircleBuf(len);
    outs := [];
    for i := 0 to |ops|
      invariant fresh(c) && fresh(c.buf) && c.Valid() && c.buf.Length == len
      invariant outs + Shown(ops[i..], len, c.history) == Shown(ops, len, [])
    {
      ghost var h := c.history;
      assert ops[i..][1..] == ops[i + 1..];
      match ops[i] {
        case Put(b) => c.Write(b);
        case Show =>
          var out := c.ReadAll();
          assert outs + Shown(ops[i..], len, h) == (outs + [out]) + Shown(ops[i + 1..], len, h);
          outs := outs + [out];
        case Clear => c.Flush();
      }
    }
    assert ops[|ops|..] == [];
  }
}
