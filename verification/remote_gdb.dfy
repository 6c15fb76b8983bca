/**
 The packet layer of base/remote_gdb.cc: packets of the GDB remote serial
 protocol are framed as $payload#checksum, acknowledged with + or -, and carry
 memory as hexadecimal text.
 */
module RemoteGdb {
  import opened Basics

  type byte = x: int | 0 <= x < 256

  const START: byte := 0x24
  const END: byte := 0x23
  const GOOD: byte := 0x2B
  const BAD: byte := 0x2D
  const COLON: byte := 0x3A

  // ----- hexadecimal digits

  /** The value of a hexadecimal digit, -1 for any other character. */
  function Digit2i(c: byte): int {
    if 0x30 <= c <= 0x39 then c - 0x30
    else if 0x61 <= c <= 0x66 then c - 0x61 + 10
    else if 0x41 <= c <= 0x46 then c - 0x41 + 10
    else -1
  }

  /** The digit for the low 4 bits of a number. */
  function I2digit(n: nat): byte {
    var d := n % 16;
    if d < 10 then 0x30 + d else 0x61 + d - 10
  }

  /** Bytes as hexadecimal text, two digits a byte. */
  function Hex(m: seq<byte>): (s: seq<byte>)
    ensures |s| == 2 * |m|
  {
    if m == [] then [] else Hex(m[..|m| - 1]) + [I2digit(m[|m| - 1] / 16), I2digit(m[|m| - 1])]
  }

  lemma {:induction false} HexAt(m: seq<byte>, j: nat)
    requires j < |m|
    ensures Hex(m)[2 * j] == I2digit(m[j] / 16) && Hex(m)[2 * j + 1] == I2digit(m[j])
  {
    if j == |m| - 1 {
    } else {
      HexAt(m[..|m| - 1], j);
    }
  }

  method Mem2hex(src: seq<byte>) returns (dst: seq<byte>)
    ensures dst == Hex(src)
  {
    dst := [];
    for i := 0 to |src|
      invariant dst == Hex(src[..i])
    {
      assert src[..i + 1][..i] == src[..i];
      dst := dst + [I2digit(src[i] / 16)];
      dst := dst + [I2digit(src[i])];
    }
    assert src[..|src|] == src;
  }

  /** The j-th pair of characters is a byte with value b. */
  predicate PairIs(s: seq<byte>, j: nat, b: byte) {
    && 2 * j + 1 < |s| && Digit2i(s[2 * j]) >= 0 && Digit2i(s[2 * j + 1]) >= 0
    && b == 16 * Digit2i(s[2 * j]) + Digit2i(s[2 * j + 1])
  }

  /**
   What reading hexadecimal text gives: the bytes of the leading pairs of
   digits, at most n, and the place where reading stopped, or None when the text
   breaks off inside a byte.
   */
  predicate Reads(s: seq<byte>, n: nat, dst: seq<byte>, end: Option<int>) {
    var k := |dst|;
    && k <= n && 2 * k <= |s| && (forall j | 0 <= j < k :: PairIs(s, j, dst[j]))
    && if k == n || 2 * k == |s| || Digit2i(s[2 * k]) < 0 then end == Some(2 * k)
       else end == None && (2 * k + 1 == |s| || Digit2i(s[2 * k + 1]) < 0)
  }

  method Hex2mem(src: seq<byte>, maxlen: nat) returns (dst: seq<byte>, end: Option<int>)
    ensures Reads(src, maxlen, dst, end)
  {
    dst := [];
    var i, n := 0, maxlen;
    while i < |src| && n > 0
      invariant i == 2 * |dst| <= |src| && n >= 0 && n + |dst| == maxlen
      invariant forall j | 0 <= j < |dst| :: PairIs(src, j, dst[j])
    {
      n := n - 1;
      var msb := Digit2i(src[i]);
      if msb < 0 {
        return dst, Some(i);
      }
      var lsb := if i + 1 < |src| then Digit2i(src[i + 1]) else -1;
      if lsb < 0 {
        return dst, None;
      }
      dst := dst + [16 * msb + lsb];
      i := i + 2;
    }
    end := Some(i);
  }

  lemma PairOfHex(m: seq<byte>, j: nat)
    requires j < |m|
    ensures PairIs(Hex(m), j, m[j])
  {
    HexAt(m, j);
    TwoDigits(m[j]);
  }

  lemma TwoDigits(b: byte)
    ensures Digit2i(I2digit(b / 16)) == b / 16 && Digit2i(I2digit(b)) == b % 16
  {
    assert 0 <= b / 16 < 16;
  }

  lemma PairUnique(s: seq<byte>, j: nat, a: byte, b: byte)
    requires PairIs(s, j, a) && PairIs(s, j, b)
    ensures a == b
  {
  }

  /** The text is made of pairs, one for each byte. */
  ghost predicate AllPairs(s: seq<byte>, m: seq<byte>) {
    |s| == 2 * |m| && forall j {:trigger PairIs(s, j, m[j])} | 0 <= j < |m| :: PairIs(s, j, m[j])
  }

  lemma ReadsWhole(s: seq<byte>, m: seq<byte>, n: nat, dst: seq<byte>, end: Option<int>)
    requires AllPairs(s, m) && |m| <= n && Reads(s, n, dst, end)
    ensures dst == m && end == Some(2 * |m|)
  {
    assert |dst| < |m| ==> PairIs(s, |dst|, m[|dst|]);
    forall j | 0 <= j < |dst|
      ensures dst[j] == m[j]
    {
      assert PairIs(s, j, m[j]);
      PairUnique(s, j, dst[j], m[j]);
    }
  }

  /** Reading undoes writing: for text made from memory, only the memory itself is a possible result. */
  lemma HexRoundTrip(m: seq<byte>, n: nat, dst: seq<byte>, end: Option<int>)
    requires |m| <= n && Reads(Hex(m), n, dst, end)
    ensures dst == m && end == Some(2 * |m|)
  {
    PairsOfHex(m);
    ReadsWhole(Hex(m), m, n, dst, end);
  }

  lemma PairsOfHex(m: seq<byte>)
    ensures AllPairs(Hex(m), m)
  {
    forall j | 0 <= j < |m|
      ensures PairIs(Hex(m), j, m[j])
    {
      PairOfHex(m, j);
    }
  }

  /** The digits, in lower case as they are written and in either case as they are read. */
  lemma DigitTable(d: nat)
    requires d < 16
    ensures I2digit(d) == "0123456789abcdef"[d] as int && Digit2i(I2digit(d)) == d
    ensures 0 <= "0123456789ABCDEF"[d] as int < 256 && Digit2i("0123456789ABCDEF"[d] as int) == d
  {
  }

  function LowerCase(c: byte): byte {
    if 0x41 <= c <= 0x5A then c + 0x20 else c
  }

  lemma HexOfPair(s: seq<byte>, j: nat, b: byte)
    requires PairIs(s, j, b)
    ensures I2digit(b / 16) == LowerCase(s[2 * j]) && I2digit(b) == LowerCase(s[2 * j + 1])
  {
    var hi, lo := Digit2i(s[2 * j]), Digit2i(s[2 * j + 1]);
    assert b / 16 == hi && b % 16 == lo;
  }

  /** Writing undoes reading of whole bytes, up to upper case. */
  lemma UnhexRoundTrip(s: seq<byte>, n: nat, dst: seq<byte>, end: Option<int>)
    requires Reads(s, n, dst, end) && end == Some(|s|)
    ensures |Hex(dst)| == |s| && forall i | 0 <= i < |s| :: Hex(dst)[i] == LowerCase(s[i])
  {
    forall i | 0 <= i < |s|
      ensures Hex(dst)[i] == LowerCase(s[i])
    {
      var j := i / 2;
      assert i == 2 * j || i == 2 * j + 1;
      HexAt(dst, j);
      HexOfPair(s, j, dst[j]);
    }
  }

  // ----- sending

  function Sum(s: seq<byte>): nat {
    if s == [] then 0 else Sum(s[..|s| - 1]) + s[|s| - 1]
  }

  /** One byte more, also when the sum is kept in 8 bits. */
  lemma SumSnoc(s: seq<byte>, i: nat)
    requires i < |s|
    ensures Sum(s[..i + 1]) == Sum(s[..i]) + s[i]
    ensures Sum(s[..i + 1]) % 256 == (Sum(s[..i]) % 256 + s[i]) % 256
  {
    assert s[..i + 1][..i] == s[..i];
  }

  /** A packet on the wire. */
  function Frame(p: seq<byte>): seq<byte> {
    var csum := Sum(p) % 256;
    [START] + p + [END, I2digit(csum / 16), I2digit(csum)]
  }

  function Repeat(s: seq<byte>, n: nat): seq<byte> {
    if n == 0 then [] else s + Repeat(s, n - 1)
  }

  /** Sends a packet again for each - at the front of the replies; bit 7 of a reply is ignored. */
  method Send(p: seq<byte>, replies: seq<byte>) returns (out: seq<byte>, used: nat)
    requires exists i :: 0 <= i < |replies| && replies[i] % 128 != BAD
    ensures 1 <= used <= |replies| && replies[used - 1] % 128 != BAD
    ensures forall i | 0 <= i < used - 1 :: replies[i] % 128 == BAD
    ensures out == Repeat(Frame(p), used)
  {
    out, used := [], 0;
    while true
      invariant used <= |replies| && (forall i | 0 <= i < used :: replies[i] % 128 == BAD)
      invariant out == Repeat(Frame(p), used)
      decreases |replies| - used
    {
      var packet := SendOnce(p);
      RepeatSnoc(Frame(p), used);
      out := out + packet;
      used := used + 1;
      if replies[used - 1] % 128 != BAD {
        return;
      }
    }
  }

  lemma {:induction false} RepeatSnoc(s: seq<byte>, n: nat)
    ensures Repeat(s, n + 1) == Repeat(s, n) + s
  {
    if n > 0 {
      RepeatSnoc(s, n - 1);
    } else {
      assert s + [] == [] + s;
    }
  }

  /** One packet, the checksum being added up as the bytes go out. */
  method SendOnce(p: seq<byte>) returns (out: seq<byte>)
    ensures out == Frame(p)
  {
    out := [START];
    var csum: int := 0;
    for i := 0 to |p|
      invariant out == [START] + p[..i] && csum == Sum(p[..i]) % 256
    {
      SumSnoc(p, i);
      out := out + [p[i]];
      csum := (csum + p[i]) % 256;
    }
    assert p[..|p|] == p;
    out := out + [END, I2digit(csum / 16), I2digit(csum)];
  }

  // ----- receiving

  /** How one attempt at a packet ends, and where the input goes on. */
  datatype Attempt = Starved | Bad(body: seq<byte>, next: nat) | Good(body: seq<byte>, next: nat)

  /** Bytes without bit 7. */
  function Masked(s: seq<byte>): (r: seq<byte>)
    ensures |r| == |s| && forall i | 0 <= i < |s| :: r[i] == s[i] % 128
  {
    seq(|s|, i requires 0 <= i < |s| => s[i] % 128)
  }

  /** Whether two characters are the checksum of a body: a character that is no digit counts as -1. */
  predicate Checks(body: seq<byte>, hi: byte, lo: byte) {
    Sum(body) % 256 - Digit2i(hi) * 16 - Digit2i(lo) == 0
  }

  /**
   Which checksums pass: the right one, and one that breaks off after its first
   digit when the sum is one less than that digit promises.
   */
  lemma ChecksExactly(body: seq<byte>, hi: byte, lo: byte)
    ensures Checks(body, hi, lo) <==>
            Digit2i(hi) >= 0 && Sum(body) % 256 == 16 * Digit2i(hi) + if Digit2i(lo) >= 0 then Digit2i(lo) else -1
    ensures Sum([0x0F]) == 15 && Checks([0x0F], 0x31, 0x5A)
  {
    assert [0x0F as byte][..0] == [];
  }

  /** What the input holds at i: noise up to a start, and then a body. */
  function Attempted(s: seq<byte>, i: nat, maxlen: nat): (a: Attempt)
    requires i <= |s|
    ensures !a.Starved? ==> i < a.next <= |s| && |a.body| <= maxlen
    decreases |s| - i
  {
    if i == |s| then Starved
    else if s[i] != START then Attempted(s, i + 1, maxlen)
    else BodyFrom(s, i + 1, [], maxlen)
  }

  /** The rest of a body goes up to an end or the length limit; what follows the limit is lost. */
  function BodyFrom(s: seq<byte>, i: nat, body: seq<byte>, maxlen: nat): (a: Attempt)
    requires i <= |s| && |body| <= maxlen
    ensures !a.Starved? ==> i < a.next <= |s| && |a.body| <= maxlen
    decreases |s| - i
  {
    if i == |s| then Starved
    else if s[i] == END || |body| >= maxlen then Ended(s, i + 1, body, maxlen)
    else BodyFrom(s, i + 1, body + [s[i] % 128], maxlen)
  }

  function Ended(s: seq<byte>, i: nat, body: seq<byte>, maxlen: nat): Attempt
    requires i <= |s|
  {
    if |body| >= maxlen then Bad(body, i)
    else if i + 2 > |s| then Starved
    else if Checks(body, s[i], s[i + 1]) then Good(body, i + 2)
    else Bad(body, i + 2)
  }

  /** The buffer after a body and its terminator have been put in. */
  function Filled(buf: seq<byte>, body: seq<byte>): (r: seq<byte>)
    requires |body| < |buf|
    ensures |r| == |buf|
  {
    body + [0] + buf[|body| + 1..]
  }

  /**
   How a receive ends: with a packet of `len` bytes at the front of the buffer,
   out of input, or with a negative length to copy, when a sequence mark left
   over in the buffer is taken for part of a short packet.
   */
  datatype Outcome =
    | Received(len: nat, buf: seq<byte>, next: nat, replies: seq<byte>)
    | Waiting
    | Overrun

  /** What to do with a good packet: a sequence prefix is sent back and taken off. */
  function Accept(len: nat, buf: seq<byte>, next: nat): Outcome
    requires len < |buf| && |buf| >= 3
  {
    if buf[2] != COLON then Received(len, buf, next, [GOOD])
    else if len < 3 then Overrun
    else Received(len - 3, buf[3..len] + buf[len - 3..], next, [GOOD, buf[0], buf[1]])
  }

  function Receive(s: seq<byte>, i: nat, maxlen: nat, buf: seq<byte>): Outcome
    requires i <= |s| && maxlen < |buf| && |buf| >= 3
    decreases |s| - i
  {
    var a := Attempted(s, i, maxlen);
    match a
    case Starved => Waiting
    case Good(body, next) => Accept(|body|, Filled(buf, body), next)
    case Bad(body, next) => AfterBad(Receive(s, next, maxlen, Filled(buf, body)))
  }

  function AfterBad(o: Outcome): Outcome {
    if o.Received? then o.(replies := [BAD] + o.replies) else o
  }

  datatype Verdict = OutOfInput | Wrong | Right

  predicate Agrees(v: Verdict, a: Attempt) {
    (v.OutOfInput? <==> a.Starved?) && (v.Wrong? <==> a.Bad?) && (v.Right? <==> a.Good?)
  }

  /** Reads a body into the buffer, adding up its bytes, and stops after the byte that ends it. */
  method ReadBody(bp: array<byte>, maxlen: nat, s: seq<byte>, from: nat) returns (done: bool, len: nat, csum: int,
                  i: nat)
    requires from <= |s| && maxlen < bp.Length
    modifies bp
    ensures !done ==> BodyFrom(s, from, [], maxlen) == Starved
    ensures done ==> len <= maxlen && i <= |s| && BodyFrom(s, from, [], maxlen) == Ended(s, i, bp[..len], maxlen)
    ensures done ==> csum == Sum(bp[..len]) && bp[len..] == old(bp[len..])
  {
    i, len, csum := from, 0, 0;
    assert bp[..0] == [];
    while i < |s| && s[i] != END && len < maxlen
      invariant i <= |s| && len <= maxlen && csum == Sum(bp[..len]) && bp[len..] == old(bp[len..])
      invariant BodyFrom(s, i, bp[..len], maxlen) == BodyFrom(s, from, [], maxlen)
      decreases |s| - i
    {
      var c := s[i] % 128;
      ghost var was := bp[..len];
      assert bp[len + 1..] == bp[len..][1..] && old(bp[len + 1..]) == old(bp[len..])[1..];
      csum := csum + c;
      bp[len] := c;
      len := len + 1;
      i := i + 1;
      assert bp[..len] == was + [c] && bp[..len][..len - 1] == was;
      assert bp[len..] == old(bp[len..]);
    }
    done := i < |s|;
    if done {
      i := i + 1;
    }
  }

  /** One attempt at a packet. */
  method RecvOnce(bp: array<byte>, maxlen: nat, s: seq<byte>, pos: nat) returns (v: Verdict, len: nat, next: nat)
    requires pos <= |s| && maxlen < bp.Length
    modifies bp
    ensures var a := Attempted(s, pos, maxlen);
            Agrees(v, a) && (!a.Starved? ==> len == |a.body| && next == a.next && bp[..] == Filled(old(bp[..]), a.body))
  {
    var i, csum, done := pos, 0, true;
    while i < |s| && s[i] != START
      invariant pos <= i <= |s| && Attempted(s, i, maxlen) == Attempted(s, pos, maxlen)
    {
      i := i + 1;
    }
    if i == |s| {
      return OutOfInput, 0, 0;
    }
    done, len, csum, i := ReadBody(bp, maxlen, s, i + 1);
    if !done {
      return OutOfInput, 0, 0;
    }
    ghost var body := bp[..len];
    csum := csum % 256;
    bp[len] := 0;
    assert bp[..] == body + [0] + old(bp[..])[len + 1..];
    if len >= maxlen {
      return Wrong, len, i;
    }
    if i + 2 > |s| {
      return OutOfInput, 0, 0;
    }
    csum := csum - Digit2i(s[i]) * 16;
    csum := csum - Digit2i(s[i + 1]);
    v, next := if csum == 0 then Right else Wrong, i + 2;
  }

  /** Receives a packet: bad ones are answered with - and waited for again. */
  method Recv(bp: array<byte>, maxlen: nat, s: seq<byte>, pos: nat) returns (o: Outcome)
    requires pos <= |s| && maxlen < bp.Length && bp.Length >= 3
    modifies bp
    ensures o == Receive(s, pos, maxlen, old(bp[..])) && (o.Received? ==> bp[..] == o.buf)
  {
    var i, replies := pos, [];
    while true
      invariant pos <= i <= |s|
      invariant Replied(replies, Receive(s, i, maxlen, bp[..])) == Receive(s, pos, maxlen, old(bp[..]))
      decreases |s| - i
    {
      var v, len, next := RecvOnce(bp, maxlen, s, i);
      if v == OutOfInput {
        return Waiting;
      }
      if v == Wrong {
        RepliedOne(replies, Receive(s, next, maxlen, bp[..]));
        i, replies := next, replies + [BAD];
        continue;
      }
      replies := replies + [GOOD];
      if bp[2] != COLON {
        return Received(len, bp[..], next, replies);
      }
      if len < 3 {
        return Overrun;
      }
      replies := replies + [bp[0], bp[1]];
      CopyDown(bp, len - 3);
      return Received(len - 3, bp[..], next, replies);
    }
  }

  /** An outcome with the replies given before it. */
  function Replied(rs: seq<byte>, o: Outcome): Outcome {
    if o.Received? then o.(replies := rs + o.replies) else o
  }

  lemma RepliedOne(rs: seq<byte>, o: Outcome)
    ensures Replied(rs, AfterBad(o)) == Replied(rs + [BAD], o)
  {
    assert o.Received? ==> rs + ([BAD] + o.replies) == rs + [BAD] + o.replies;
  }

  /** Moves n bytes down over a three-byte prefix. */
  method CopyDown(bp: array<byte>, n: nat)
    requires n + 3 <= bp.Length
    modifies bp
    ensures bp[..] == old(bp[..])[3..n + 3] + old(bp[..])[n..]
  {
    for k := 0 to n
      invariant forall x | 0 <= x < k :: bp[x] == old(bp[x + 3])
      invariant forall x | k <= x < bp.Length :: bp[x] == old(bp[x])
    {
      bp[k] := bp[k + 3];
    }
  }

  // ----- what the receiver makes of frames

  /** Noise: the input from i to k holds no start of a packet. */
  predicate NoStart(s: seq<byte>, i: nat, k: nat) {
    forall x | i <= x < k && x < |s| :: s[x] != START
  }

  lemma {:induction false} NoiseSkipped(s: seq<byte>, i: nat, k: nat, maxlen: nat)
    requires i <= k <= |s| && NoStart(s, i, k)
    ensures Attempted(s, i, maxlen) == Attempted(s, k, maxlen)
    decreases k - i
  {
    if i == k {
    } else {
      NoiseSkipped(s, i + 1, k, maxlen);
    }
  }

  lemma {:induction false} BodyScanned(s: seq<byte>, i: nat, acc: seq<byte>, body: seq<byte>, maxlen: nat)
    requires i + |body| <= |s| && |acc| + |body| <= maxlen && s[i..i + |body|] == body && Without(body, END)
    ensures BodyFrom(s, i, acc, maxlen) == BodyFrom(s, i + |body|, acc + Masked(body), maxlen)
    decreases |body|
  {
    if body == [] {
      assert acc + Masked(body) == acc;
    } else {
      assert s[i] == s[i..i + |body|][0];
      assert s[i + 1..i + |body|] == s[i..i + |body|][1..];
      BodyScanned(s, i + 1, acc + [s[i] % 128], body[1..], maxlen);
      assert acc + [s[i] % 128] + Masked(body[1..]) == acc + Masked(body);
    }
  }

  predicate Without(s: seq<byte>, c: byte) {
    forall x | 0 <= x < |s| :: s[x] != c
  }

  /** Noise, and a frame that is not too long, as they stand in the input. */
  predicate FrameAt(s: seq<byte>, i: nat, noise: nat, body: seq<byte>, hi: byte, lo: byte) {
    var k := i + noise;
    var j := k + 1 + |body|;
    && j + 2 < |s| && NoStart(s, i, k) && s[k] == START && s[k + 1..j] == body && Without(body, END)
    && s[j] == END && s[j + 1] == hi && s[j + 2] == lo
  }

  lemma BodyTaken(s: seq<byte>, i: nat, body: seq<byte>, maxlen: nat)
    requires i + |body| + 3 <= |s| && s[i..i + |body|] == body && Without(body, END) && s[i + |body|] == END
             && |body| < maxlen
    ensures BodyFrom(s, i, [], maxlen) == Ended(s, i + |body| + 1, Masked(body), maxlen)
  {
    BodyScanned(s, i, [], body, maxlen);
    assert [] + Masked(body) == Masked(body);
  }

  /** A frame is taken for what it is, wherever it stands. */
  lemma FrameTaken(s: seq<byte>, i: nat, noise: nat, body: seq<byte>, hi: byte, lo: byte, maxlen: nat)
    requires FrameAt(s, i, noise, body, hi, lo) && |body| < maxlen
    ensures var next := i + noise + |body| + 4;
            Attempted(s, i, maxlen) == if Checks(Masked(body), hi, lo) then Good(Masked(body), next)
                else Bad(Masked(body), next)
  {
    NoiseSkipped(s, i, i + noise, maxlen);
    BodyTaken(s, i + noise + 1, body, maxlen);
  }

  /** A body that reaches the limit makes a bad attempt, which ends one byte further on. */
  lemma LongBodyIsBad(s: seq<byte>, i: nat, noise: nat, body: seq<byte>)
    requires var k := i + noise; k + |body| + 2 <= |s| && NoStart(s, i, k) && s[k] == START
                                 && s[k + 1..k + 1 + |body|] == body && Without(body, END)
    ensures Attempted(s, i, |body|) == Bad(Masked(body), i + noise + |body| + 2)
  {
    NoiseSkipped(s, i, i + noise, |body|);
    FullBody(s, i + noise + 1, body);
  }

  lemma FullBody(s: seq<byte>, i: nat, body: seq<byte>)
    requires i + |body| + 1 <= |s| && s[i..i + |body|] == body && Without(body, END)
    ensures BodyFrom(s, i, [], |body|) == Bad(Masked(body), i + |body| + 1)
  {
    BodyScanned(s, i, [], body, |body|);
    assert [] + Masked(body) == Masked(body);
    AtLimit(s, i + |body|, Masked(body));
  }

  lemma AtLimit(s: seq<byte>, i: nat, body: seq<byte>)
    requires i < |s|
    ensures BodyFrom(s, i, body, |body|) == Bad(body, i + 1)
  {
  }

  /** How many bytes have bit 7 set. */
  function High(p: seq<byte>): nat {
    if p == [] then 0 else High(p[..|p| - 1]) + if p[|p| - 1] >= 128 then 1 else 0
  }

  lemma {:induction false} MaskedSum(p: seq<byte>)
    ensures Sum(p) == Sum(Masked(p)) + 128 * High(p)
  {
    if p == [] {
    } else {
      var f := p[..|p| - 1];
      MaskedSum(f);
      assert Masked(p)[..|p| - 1] == Masked(f);
    }
  }

  lemma ChecksMeans(body: seq<byte>, csum: byte)
    ensures Checks(body, I2digit(csum / 16), I2digit(csum)) <==> Sum(body) % 256 == csum
  {
    TwoDigits(csum);
    assert csum / 16 * 16 + csum % 16 == csum;
  }

  lemma MaskedSumIff(p: seq<byte>)
    ensures Sum(Masked(p)) % 256 == Sum(p) % 256 <==> High(p) % 2 == 0
  {
    MaskedSum(p);
    HalfWord(Sum(Masked(p)), High(p));
  }

  /** The sender's checksum is right for the receiver exactly when an even number of bytes have bit 7 set. */
  lemma ChecksumIff(p: seq<byte>)
    ensures Checks(Masked(p), I2digit(Sum(p) % 256 / 16), I2digit(Sum(p) % 256)) <==> High(p) % 2 == 0
  {
    MaskedSumIff(p);
    ChecksMeans(Masked(p), Sum(p) % 256);
  }

  lemma HalfWord(a: nat, h: nat)
    ensures a % 256 == (a + 128 * h) % 256 <==> h % 2 == 0
  {
    var q := h / 2;
    assert a + 128 * h == (a + 128 * (h % 2)) + 256 * q;
    assert (a + 128 * h) % 256 == (a + 128 * (h % 2)) % 256;
  }

  lemma {:induction false} SevenBits(p: seq<byte>)
    requires forall i | 0 <= i < |p| :: p[i] < 128
    ensures Masked(p) == p && High(p) == 0
  {
    if p == [] {
    } else {
      SevenBits(p[..|p| - 1]);
    }
  }

  /** A frame with noise before it. */
  datatype Noisy = Noisy(noise: seq<byte>, body: seq<byte>, hi: byte, lo: byte)

  function Text(f: Noisy): seq<byte> {
    f.noise + [START] + f.body + [END, f.hi, f.lo]
  }

  predicate WellFormed(f: Noisy) {
    Without(f.noise, START) && Without(f.body, END)
  }

  predicate Stands(s: seq<byte>, i: nat, t: seq<byte>) {
    i + |t| <= |s| && s[i..i + |t|] == t
  }

  lemma BothStand(s: seq<byte>, i: nat, t: seq<byte>, u: seq<byte>)
    requires Stands(s, i, t + u)
    ensures Stands(s, i, t) && Stands(s, i + |t|, u)
  {
    var w := s[i..i + |t + u|];
    assert s[i..i + |t|] == w[..|t|] && s[i + |t|..i + |t| + |u|] == w[|t|..];
  }

  lemma TextStands(s: seq<byte>, i: nat, f: Noisy)
    requires Stands(s, i, Text(f)) && WellFormed(f)
    ensures FrameAt(s, i, |f.noise|, f.body, f.hi, f.lo)
  {
    var last := [END, f.hi, f.lo];
    BothStand(s, i, f.noise + [START] + f.body, last);
    BothStand(s, i, f.noise + [START], f.body);
    BothStand(s, i, f.noise, [START]);
    var k := i + |f.noise|;
    assert s[k..k + 1][0] == START;
    forall x | i <= x < k
      ensures s[x] != START
    {
      assert s[x] == s[i..k][x - i];
    }
    var j := k + 1 + |f.body|;
    assert j == i + |f.noise + [START] + f.body|;
    assert forall x | 0 <= x < 3 :: s[j + x] == s[j..j + 3][x] == last[x];
  }

  /** What the sender puts out for p, after noise. */
  function Sent(noise: seq<byte>, p: seq<byte>): (f: Noisy)
    ensures Text(f) == noise + Frame(p)
  {
    var f := Noisy(noise, p, I2digit(Sum(p) % 256 / 16), I2digit(Sum(p) % 256));
    assert Text(f) == noise + Frame(p);
    f
  }

  /** What a sent packet is received as: its own bytes, without bit 7, or not at all. */
  lemma SentIsReceived(s: seq<byte>, i: nat, noise: seq<byte>, p: seq<byte>, maxlen: nat)
    requires Stands(s, i, noise + Frame(p)) && Without(noise, START) && Without(p, END) && |p| < maxlen
    ensures var next := i + |noise + Frame(p)|;
            Attempted(s, i, maxlen) == if High(p) % 2 == 0 then Good(Masked(p), next) else Bad(Masked(p), next)
  {
    var f := Sent(noise, p);
    TextStands(s, i, f);
    FrameTaken(s, i, |noise|, p, f.hi, f.lo, maxlen);
    ChecksumIff(p);
  }

  /** A packet whose only byte has bit 7 set is taken for a bad one. */
  lemma HighByteRefused(maxlen: nat)
    requires maxlen >= 2
    ensures Attempted(Frame([0x80]), 0, maxlen) == Bad([0], |Frame([0x80])|)
  {
    OneHighByte();
    AllStands(Frame([0x80]));
    SentIsReceived(Frame([0x80]), 0, [], [0x80], maxlen);
  }

  lemma OneHighByte()
    ensures High([0x80]) == 1 && Masked([0x80]) == [0]
  {
    assert [0x80][..0] == [];
  }

  lemma AllStands(s: seq<byte>)
    ensures [] + s == s && Stands(s, 0, [] + s)
  {
  }

  function Texts(fs: seq<Noisy>): seq<byte> {
    if fs == [] then [] else Text(fs[0]) + Texts(fs[1..])
  }

  /** A frame that is whole but has a wrong checksum. */
  predicate Broken(f: Noisy, maxlen: nat) {
    WellFormed(f) && |f.body| < maxlen && !Checks(Masked(f.body), f.hi, f.lo)
  }

  /** A payload that recv can give back as it is. */
  predicate Plain(p: seq<byte>, maxlen: nat) {
    2 <= |p| < maxlen && (forall x | 0 <= x < |p| :: p[x] < 128) && (|p| > 2 ==> p[2] != COLON)
  }

  /** The payload is delivered, with its terminator, after the given replies. */
  predicate Delivers(o: Outcome, p: seq<byte>, size: nat, next: nat, replies: seq<byte>) {
    && o.Received? && o.len == |p| < size == |o.buf| && o.buf[..|p|] == p && o.buf[|p|] == 0
    && o.next == next && o.replies == replies
  }

  /** n bad attempts, of whatever kind, lead from i to `at`. */
  predicate BadRun(s: seq<byte>, i: nat, n: nat, at: nat, maxlen: nat)
    requires i <= |s|
    decreases n
  {
    if n == 0 then i == at
    else
      var a := Attempted(s, i, maxlen);
      a.Bad? && BadRun(s, a.next, n - 1, at, maxlen)
  }

  lemma BrokenIsBad(s: seq<byte>, i: nat, f: Noisy, maxlen: nat)
    requires Stands(s, i, Text(f)) && Broken(f, maxlen)
    ensures Attempted(s, i, maxlen) == Bad(Masked(f.body), i + |Text(f)|)
  {
    TextStands(s, i, f);
    FrameTaken(s, i, |f.noise|, f.body, f.hi, f.lo, maxlen);
  }

  lemma FirstIsBad(s: seq<byte>, i: nat, fs: seq<Noisy>, maxlen: nat)
    requires fs != [] && Stands(s, i, Texts(fs)) && Broken(fs[0], maxlen)
    ensures var next := i + |Text(fs[0])|;
            && Attempted(s, i, maxlen) == Bad(Masked(fs[0].body), next)
            && Stands(s, next, Texts(fs[1..])) && next + |Texts(fs[1..])| == i + |Texts(fs)|
  {
    BothStand(s, i, Text(fs[0]), Texts(fs[1..]));
    BrokenIsBad(s, i, fs[0], maxlen);
  }

  lemma {:induction false} BrokenAreBad(s: seq<byte>, i: nat, fs: seq<Noisy>, n: nat, at: nat, maxlen: nat)
    requires Stands(s, i, Texts(fs)) && forall x | 0 <= x < |fs| :: Broken(fs[x], maxlen)
    requires n == |fs| && at == i + |Texts(fs)|
    ensures BadRun(s, i, n, at, maxlen)
    decreases |fs|
  {
    if fs == [] {
    } else {
      FirstIsBad(s, i, fs, maxlen);
      BrokenAreBad(s, Attempted(s, i, maxlen).next, fs[1..], n - 1, at, maxlen);
    }
  }

  lemma Delivered(s: seq<byte>, i: nat, p: seq<byte>, next: nat, maxlen: nat, buf: seq<byte>)
    requires i <= |s| && Plain(p, maxlen) && maxlen < |buf| && Attempted(s, i, maxlen) == Good(p, next)
    ensures Delivers(Receive(s, i, maxlen, buf), p, |buf|, next, [GOOD])
  {
    var b := Filled(buf, p);
    assert b[..|p|] == p && b[|p|] == 0;
    assert |p| > 2 ==> b[2] == p[2];
  }

  /** Bad attempts add a - each, and leave their traces in the buffer. */
  lemma {:induction false} BadRunReplies(s: seq<byte>, i: nat, n: nat, at: nat, maxlen: nat, buf: seq<byte>)
    returns (b: seq<byte>)
    requires i <= |s| && at <= |s| && maxlen < |buf| && |buf| >= 3 && BadRun(s, i, n, at, maxlen)
    ensures |b| == |buf| && Receive(s, i, maxlen, buf) == Replied(Repeat([BAD], n), Receive(s, at, maxlen, b))
    decreases n
  {
    if n == 0 {
      b := buf;
      var o := Receive(s, at, maxlen, b);
      assert o.Received? ==> [] + o.replies == o.replies;
    } else {
      var a := Attempted(s, i, maxlen);
      b := BadRunReplies(s, a.next, n - 1, at, maxlen, Filled(buf, a.body));
      OneMoreReply(n - 1, Receive(s, at, maxlen, b));
    }
  }

  lemma OneMoreReply(n: nat, o: Outcome)
    ensures AfterBad(Replied(Repeat([BAD], n), o)) == Replied(Repeat([BAD], n + 1), o)
  {
    assert o.Received? ==> [BAD] + (Repeat([BAD], n) + o.replies) == Repeat([BAD], n + 1) + o.replies;
  }

  /** After any number of bad attempts, each answered with -, a good packet is delivered and answered with +. */
  lemma GoodAfterBad(s: seq<byte>, i: nat, n: nat, at: nat, p: seq<byte>, next: nat, maxlen: nat, buf: seq<byte>)
    requires i <= |s| && at <= |s| && Plain(p, maxlen) && maxlen < |buf|
    requires BadRun(s, i, n, at, maxlen) && Attempted(s, at, maxlen) == Good(p, next)
    ensures Delivers(Receive(s, i, maxlen, buf), p, |buf|, next, Repeat([BAD], n) + [GOOD])
  {
    var b := BadRunReplies(s, i, n, at, maxlen, buf);
    Delivered(s, at, p, next, maxlen, b);
  }

  /** A payload with a sequence mark: two characters and a colon in front. */
  predicate Sequenced(p: seq<byte>, maxlen: nat) {
    3 <= |p| < maxlen && (forall x | 0 <= x < |p| :: p[x] < 128) && p[2] == COLON
  }

  /**
   The payload is delivered without its sequence mark, which is among the
   replies. The last three bytes stay where they were, and the terminator too.
   */
  predicate DeliversRest(o: Outcome, p: seq<byte>, size: nat, next: nat, replies: seq<byte>) {
    && o.Received? && |p| < size == |o.buf| && o.len == |p| - 3
    && o.buf[..|p| + 1] == p[3..] + p[|p| - 3..] + [0]
    && o.next == next && o.replies == replies
  }

  lemma DeliveredRest(s: seq<byte>, i: nat, p: seq<byte>, next: nat, maxlen: nat, buf: seq<byte>)
    requires i <= |s| && Sequenced(p, maxlen) && maxlen < |buf| && Attempted(s, i, maxlen) == Good(p, next)
    ensures |p| >= 3 && DeliversRest(Receive(s, i, maxlen, buf), p, |buf|, next, [GOOD, p[0], p[1]])
  {
    var b, n := Filled(buf, p), |p|;
    assert b[..n] == p && b[n] == 0;
    assert b[0] == p[0] && b[1] == p[1] && b[2] == p[2];
    assert b[3..n] == p[3..] && b[n - 3..n + 1] == p[n - 3..] + [0];
    var r := b[3..n] + b[n - 3..];
    assert r[..n + 1] == b[3..n] + b[n - 3..n + 1];
  }

  /** The same with a sequence mark: it is sent back after the +, and taken off. */
  lemma SequencedGetsThrough(s: seq<byte>, i: nat, fs: seq<Noisy>, noise: seq<byte>, p: seq<byte>,
                             maxlen: nat, buf: seq<byte>)
    requires Stands(s, i, Texts(fs) + (noise + Frame(p))) && forall x | 0 <= x < |fs| :: Broken(fs[x], maxlen)
    requires Sequenced(p, maxlen) && maxlen < |buf| && Without(noise, START) && Without(p, END)
    ensures DeliversRest(Receive(s, i, maxlen, buf), p, |buf|, i + |Texts(fs) + (noise + Frame(p))|,
                         Repeat([BAD], |fs|) + [GOOD, p[0], p[1]])
  {
    var at := i + |Texts(fs)|;
    BothStand(s, i, Texts(fs), noise + Frame(p));
    BrokenAreBad(s, i, fs, |fs|, at, maxlen);
    SevenBits(p);
    SentIsReceived(s, at, noise, p, maxlen);
    var b := BadRunReplies(s, i, |fs|, at, maxlen, buf);
    DeliveredRest(s, at, p, at + |noise + Frame(p)|, maxlen, b);
  }

  /** Taking the mark off leaves the payload terminated only if the third byte from its end was 0. */
  lemma RestTerminatedIff(o: Outcome, p: seq<byte>, size: nat, next: nat, replies: seq<byte>)
    requires |p| >= 3 && DeliversRest(o, p, size, next, replies)
    ensures o.buf[o.len] == 0 <==> p[|p| - 3] == 0
  {
    assert o.buf[o.len] == o.buf[..|p| + 1][o.len] == p[|p| - 3..][0];
  }

  /** A payload of less than two bytes gets through exactly when the third place of the buffer holds no colon. */
  lemma ShortPacketIff(s: seq<byte>, i: nat, p: seq<byte>, next: nat, maxlen: nat, buf: seq<byte>)
    requires i <= |s| && |p| < 2 && |p| < maxlen < |buf| && |buf| >= 3 && Attempted(s, i, maxlen) == Good(p, next)
    ensures var o := Receive(s, i, maxlen, buf);
            if buf[2] == COLON then o == Overrun else Delivers(o, p, |buf|, next, [GOOD])
  {
    var b := Filled(buf, p);
    assert b[..|p|] == p && b[|p|] == 0 && b[2] == buf[2];
  }

  /**
   Fed any broken frames and then what the sender puts out for p, with noise in
   between, recv answers - to each broken frame and then +, gives exactly the
   payload, and takes nothing beyond the packet.
   */
  lemma PacketGetsThrough(s: seq<byte>, i: nat, fs: seq<Noisy>, noise: seq<byte>, p: seq<byte>,
                          maxlen: nat, buf: seq<byte>)
    requires Stands(s, i, Texts(fs) + (noise + Frame(p))) && forall x | 0 <= x < |fs| :: Broken(fs[x], maxlen)
    requires Plain(p, maxlen) && maxlen < |buf| && Without(noise, START) && Without(p, END)
    ensures Delivers(Receive(s, i, maxlen, buf), p, |buf|, i + |Texts(fs) + (noise + Frame(p))|,
                     Repeat([BAD], |fs|) + [GOOD])
  {
    var at := i + |Texts(fs)|;
    BothStand(s, i, Texts(fs), noise + Frame(p));
    BrokenAreBad(s, i, fs, |fs|, at, maxlen);
    SevenBits(p);
    SentIsReceived(s, at, noise, p, maxlen);
    GoodAfterBad(s, i, |fs|, at, p, at + |noise + Frame(p)|, maxlen, buf);
  }
}
