/** Splitting strings and reading numbers, as base/str.cc does. */
module Strings {
  import opened Basics

  // ----- tokenize

  /** The first place at or after `from` where s has c (or, negated, something else), |s| when there is none. */
  function Find(s: string, c: char, from: nat, negated: bool): (k: nat)
    requires from <= |s|
    ensures from <= k <= |s| && (forall j | from <= j < k :: (s[j] == c) == negated)
            && (k < |s| ==> (s[k] == c) != negated)
    decreases |s| - from
  {
    if from == |s| || (s[from] == c) != negated then from else Find(s, c, from + 1, negated)
  }

  /** The pieces between separators: always one more than there are separators. */
  function Split(s: string, c: char): (v: seq<string>)
    ensures v != []
  {
    if s == "" then [""]
    else
      var rest := Split(s[1..], c);
      if s[0] == c then [""] + rest else [[s[0]] + rest[0]] + rest[1..]
  }

  function Join(v: seq<string>, c: char): string {
    if v == [] then "" else if |v| == 1 then v[0] else v[0] + [c] + Join(v[1..], c)
  }

  function NonEmpty(v: seq<string>): seq<string> {
    if v == [] then [] else (if v[0] == "" then [] else [v[0]]) + NonEmpty(v[1..])
  }

  /** Splitting loses nothing, and the pieces hold no separators. */
  lemma {:induction false} SplitJoin(s: string, c: char)
    ensures Join(Split(s, c), c) == s && forall i | 0 <= i < |Split(s, c)| :: c !in Split(s, c)[i]
  {
    if s == "" {
    } else {
      SplitJoin(s[1..], c);
      var v, rest := Split(s, c), Split(s[1..], c);
      assert v[1..] == if s[0] == c then rest else rest[1..];
    }
  }

  lemma {:induction false} SplitNone(s: string, c: char)
    requires c !in s
    ensures Split(s, c) == [s]
  {
    if s == "" {
    } else {
      SplitNone(s[1..], c);
      assert [s[0]] + s[1..] == s;
    }
  }

  lemma {:induction false} SplitFirst(a: string, b: string, c: char)
    requires c !in a
    ensures Split(a + [c] + b, c) == [a] + Split(b, c)
  {
    if a == "" {
      assert (a + [c] + b)[1..] == b;
    } else {
      assert (a + [c] + b)[1..] == a[1..] + [c] + b;
      SplitFirst(a[1..], b, c);
      assert [a[0]] + a[1..] == a;
    }
  }

  /** The pieces of the rest of s from `first` on, whose next separator is at `last`. */
  lemma SplitAt(s: string, c: char, first: nat, last: nat)
    requires first <= |s| && last == Find(s, c, first, false)
    ensures Split(s[first..], c) == if last == |s| then [s[first..]] else [s[first..last]] + Split(s[last + 1..], c)
  {
    if last == |s| {
      SplitNone(s[first..], c);
    } else {
      assert s[first..] == s[first..last] + [c] + s[last + 1..];
      SplitFirst(s[first..last], s[last + 1..], c);
    }
  }

  /** Separators at the front only give empty pieces. */
  lemma {:induction false} SkipSeparators(s: string, c: char, from: nat, to: nat)
    requires from <= to <= |s| && forall j | from <= j < to :: s[j] == c
    ensures NonEmpty(Split(s[from..], c)) == NonEmpty(Split(s[to..], c))
    decreases |s| - from
  {
    if from == to {
    } else {
      SkipSeparators(s, c, from + 1, to);
      assert s[from..][1..] == s[from + 1..];
      assert ([""] + Split(s[from + 1..], c))[1..] == Split(s[from + 1..], c);
    }
  }

  lemma NonEmptyCons(x: string, v: seq<string>)
    ensures NonEmpty([x] + v) == (if x == "" then [] else [x]) + NonEmpty(v)
  {
    assert ([x] + v)[1..] == v;
  }

  /** All pieces of s, or the non-empty ones. */
  function Pieces(s: string, c: char, ignore: bool): seq<string> {
    if ignore then NonEmpty(Split(s, c)) else Split(s, c)
  }

  /** The pieces from a place on. */
  function PiecesFrom(s: string, c: char, ignore: bool, first: nat): seq<string>
    requires first <= |s|
  {
    Pieces(s[first..], c, ignore)
  }

  /** The pieces from `first` on: the one up to the next separator, and those after it. */
  lemma PiecesAt(s: string, c: char, ignore: bool, first: nat, last: nat)
    requires first <= |s| && last == Find(s, c, first, false) && (ignore ==> first < last)
    ensures PiecesFrom(s, c, ignore, first) ==
            if last == |s| then [s[first..]] else [s[first..last]] + PiecesFrom(s, c, ignore, last + 1)
  {
    SplitAt(s, c, first, last);
    if ignore {
      NonEmptyCons(s[first..last], if last == |s| then [] else Split(s[last + 1..], c));
      assert last == |s| ==> s[first..] == s[first..last];
    }
  }

  lemma NothingLeft(s: string, c: char)
    ensures PiecesFrom(s, c, true, |s|) == []
  {
    assert s[|s|..] == "" && [""] + [] == [""];
    NonEmptyCons("", []);
  }

  /** The loop that takes one piece after another, `last` being the separator after `first`. */
  method TakePieces(s: string, token: char, ignore: bool, from: nat) returns (v: seq<string>)
    requires from <= |s| && (ignore ==> from < Find(s, token, from, false))
    ensures v == PiecesFrom(s, token, ignore, from)
  {
    v := [];
    var first, last := from, Find(s, token, from, false);
    while last != |s|
      invariant first <= last <= |s| && last == Find(s, token, first, false) && (ignore ==> first < last)
      invariant v + PiecesFrom(s, token, ignore, first) == PiecesFrom(s, token, ignore, from)
      decreases |s| - first
    {
      PiecesAt(s, token, ignore, first, last);
      v := v + [s[first..last]];
      assert v + PiecesFrom(s, token, ignore, last + 1) == PiecesFrom(s, token, ignore, from);
      first := NextFirst(s, token, ignore, last);
      if ignore && first == |s| {
        NothingLeft(s, token);
        return;
      }
      last := Find(s, token, first, false);
    }
    PiecesAt(s, token, ignore, first, last);
    v := v + [s[first..]];
  }

  /** Where the piece after a separator starts; with `ignore`, further separators are skipped. */
  function NextFirst(s: string, token: char, ignore: bool, last: nat): (first: nat)
    requires last < |s|
    ensures last < first <= |s| && PiecesFrom(s, token, ignore, first) == PiecesFrom(s, token, ignore, last + 1)
    ensures ignore && first < |s| ==> s[first] != token
  {
    if ignore then
      var first := Find(s, token, last + 1, true);
      SkipSeparators(s, token, last + 1, first);
      first
    else last + 1
  }

  /**
   Splits s at a separator: all pieces, or with `ignore` the non-empty ones. The
   empty string gives none.
   */
  method Tokenize(s: string, token: char, ignore: bool) returns (v: seq<string>)
    ensures v == if s == "" then [] else Pieces(s, token, ignore)
  {
    if s == "" {
      return [];
    }
    var first, last := 0, Find(s, token, 0, false);
    assert s[0..] == s;
    if ignore && last == first {
      while last == first && first < |s|
        invariant first <= last <= |s| && last == Find(s, token, first, false)
        invariant PiecesFrom(s, token, true, first) == Pieces(s, token, true)
        decreases |s| - first
      {
        SkipSeparators(s, token, first, first + 1);
        first := first + 1;
        last := Find(s, token, first, false);
      }
      if last == |s| {
        if first == |s| {
          NothingLeft(s, token);
          return [];
        }
        PiecesAt(s, token, ignore, first, last);
        return [s[first..]];
      }
    }
    v := TakePieces(s, token, ignore, first);
  }

  /** Joining what `tokenize` gives restores the string; ignoring empty pieces drops just those. */
  lemma TokensRestore(s: string, c: char)
    ensures Join(if s == "" then [] else Pieces(s, c, false), c) == s
    ensures Pieces(s, c, true) == NonEmpty(Pieces(s, c, false))
  {
    SplitJoin(s, c);
  }

  // ----- numbers

  function Pow(b: nat, e: nat): (p: nat)
    ensures b > 0 ==> p > 0
  {
    if e == 0 then 1 else b * Pow(b, e - 1)
  }

  /** The value of a digit; anything else counts as a digit of no base. */
  function Digit(c: char): nat {
    if '0' <= c <= '9' then (c - '0') as nat
    else if 'a' <= c <= 'f' then (c - 'a') as nat + 10
    else if 'A' <= c <= 'F' then (c - 'A') as nat + 10
    else 99
  }

  predicate IsDigit(c: char, base: nat) {
    Digit(c) < base
  }

  predicate AllDigits(s: string, base: nat) {
    forall i | 0 <= i < |s| :: IsDigit(s[i], base)
  }

  /** The number a string of digits stands for. */
  function Value(s: string, base: nat): nat {
    if s == "" then 0 else base * Value(s[..|s| - 1], base) + Digit(s[|s| - 1])
  }

  lemma ValueSnoc(s: string, i: nat, base: nat)
    requires i < |s|
    ensures Value(s[..i + 1], base) == base * Value(s[..i], base) + Digit(s[i])
  {
    assert s[..i + 1][..i] == s[..i];
  }

  lemma {:induction false} ValueGrows(s: string, i: nat, base: nat)
    requires i <= |s| && base >= 1
    ensures Value(s[..i], base) <= Value(s, base)
    decreases |s| - i
  {
    if i == |s| {
      assert s[..i] == s;
    } else {
      ValueSnoc(s, i, base);
      ValueGrows(s, i + 1, base);
      MulGrows(base, Value(s[..i], base));
    }
  }

  lemma MulGrows(b: nat, x: nat)
    requires b >= 1
    ensures b * x >= x
  {
    assert b * x == (b - 1) * x + x;
  }

  /** What the digits of s stand for, if they are digits and the number fits. */
  function Fits(v: nat, max: nat): Option<nat> {
    if v <= max then Some(v) else None
  }

  function Multiplier(c: char): nat {
    if c == 'k' || c == 'K' then 1024
    else if c == 'm' || c == 'M' then 1024 * 1024
    else if c == 'g' || c == 'G' then 1024 * 1024 * 1024
    else 0
  }

  /** Where the decimal digits of s end. */
  function DecEnd(s: string, from: nat): (k: nat)
    requires from <= |s|
    ensures from <= k <= |s| && (forall i | from <= i < k :: IsDigit(s[i], 10)) && (k < |s| ==> !IsDigit(s[k], 10))
    decreases |s| - from
  {
    if from == |s| || !IsDigit(s[from], 10) then from else DecEnd(s, from + 1)
  }

  /** A number followed by what stands after its digits: nothing, a multiplier, or an exponent. */
  function Scaled(v: nat, suffix: string): Option<nat> {
    if suffix == "" then Some(v)
    else if |suffix| == 1 && Multiplier(suffix[0]) != 0 then Some(v * Multiplier(suffix[0]))
    else if (suffix[0] == 'e' || suffix[0] == 'E') && |suffix| > 1 && AllDigits(suffix[1..], 10) then
      Some(v * Pow(10, Value(suffix[1..], 10)))
    else None
  }

  /** The number a string stands for, in the notations the parser knows, without regard to any word size. */
  function Denoted(s: string): Option<nat> {
    if s == "" || !IsDigit(s[0], 10) then None
    else if |s| == 1 then Some(Digit(s[0]))
    else if s[0] == '0' then
      if s[1] == 'x' || s[1] == 'X' then
        if |s| > 2 && AllDigits(s[2..], 16) then Some(Value(s[2..], 16)) else None
      else if AllDigits(s[1..], 8) then Some(Value(s[1..], 8)) else None
    else
      var k := DecEnd(s, 1);
      Scaled(Value(s[..k], 10), s[k..])
  }

  lemma ModOnce(x: nat, m: nat)
    requires m > 0 && x < 2 * m
    ensures x % m == if x < m then x else x - m
  {
    if x >= m {
      assert x == m * 1 + (x - m);
      assert x / m == 1;
    } else {
      assert x / m == 0;
    }
  }

  /** One more decimal digit, with the tests that catch an overflow; the arithmetic wraps at max + 1. */
  function DecStep(retval: nat, d: nat, max: nat): Option<nat> {
    var decmax := max / 10;
    if retval > decmax then None
    else
      var next := (retval * 10 + d) % (max + 1);
      if retval == decmax && next < decmax then None else Some(next)
  }

  /** The overflow tests are exact. */
  lemma DecStepExact(retval: nat, d: nat, max: nat)
    requires max >= 255 && d <= 9
    ensures DecStep(retval, d, max) == Fits(retval * 10 + d, max)
  {
    var decmax := max / 10;
    if retval <= decmax {
      ModOnce(retval * 10 + d, max + 1);
    }
  }

  datatype Scan = Rejected | Number(value: nat) | Suffix(value: nat, at: nat)

  /** The decimal loop: it stops at the end, at an overflow, or at the first character that is no digit. */
  method ScanDecimal(s: string, max: nat) returns (r: Scan)
    requires max >= 255 && |s| >= 2 && IsDigit(s[0], 10)
    ensures var k := DecEnd(s, 1); var v := Value(s[..k], 10);
            r == if v > max then Rejected else if k == |s| then Number(v) else Suffix(v, k)
  {
    var retval := Digit(s[0]);
    var i := 1;
    ghost var k := DecEnd(s, 1);
    assert s[..1] == [s[0]] && s[..0] == "";
    ValueSnoc(s, 0, 10);
    while i < |s|
      invariant 1 <= i <= k && k == DecEnd(s, i)
      invariant retval == Value(s[..i], 10) <= max && (i == 1 ==> retval <= 9)
    {
      if !IsDigit(s[i], 10) {
        return Suffix(retval, i);
      }
      ValueSnoc(s, i, 10);
      if i == 1 {
        // the second digit is added without a test
        ModOnce(retval * 10 + Digit(s[1]), max + 1);
        retval := (retval * 10 + Digit(s[1])) % (max + 1);
      } else {
        DecStepExact(retval, Digit(s[i]), max);
        var next := DecStep(retval, Digit(s[i]), max);
        if next.None? {
          ValueGrows(s[..k], i + 1, 10);
          assert s[..k][..i + 1] == s[..i + 1];
          return Rejected;
        }
        retval := next.value;
      }
      i := i + 1;
    }
    r := Number(retval);
  }

  /** One more digit is a shift, which must not lose bits: `room` numbers have room for it. */
  lemma ShiftExact(retval: nat, d: nat, base: nat, room: nat)
    requires (base == 8 || base == 16) && d < base && room > 0
    ensures retval > room - 1 ==> base * retval + d >= base * room
    ensures retval <= room - 1 ==> (retval * base + d) % (base * room) == base * retval + d < base * room
  {
    if retval <= room - 1 {
      assert base == 8 ==> base * retval + d < base * room;
      assert base == 16 ==> base * retval + d < base * room;
      ModOnce(retval * base + d, base * room);
    }
  }

  /** The hexadecimal and octal loops, for words of base * room values. */
  method ScanDigits(s: string, base: nat, room: nat) returns (r: Option<nat>)
    requires (base == 8 || base == 16) && room > 0
    ensures r == if AllDigits(s, base) then Fits(Value(s, base), base * room - 1) else None
  {
    var retval := 0;
    for i := 0 to |s|
      invariant AllDigits(s[..i], base) && retval == Value(s[..i], base) < base * room
    {
      if !IsDigit(s[i], base) {
        return None;
      }
      ValueSnoc(s, i, base);
      ShiftExact(retval, Digit(s[i]), base, room);
      if retval > room - 1 {
        ValueGrows(s, i + 1, base);
        return None;
      }
      retval := (retval * base + Digit(s[i])) % (base * room);
    }
    assert s[..|s|] == s;
    r := Some(retval);
  }

  method ScanPower(s: string, bits: nat, shift: nat) returns (r: Option<nat>)
    requires bits >= 8 && (shift == 3 || shift == 4)
    ensures var base := Pow(2, shift);
            r == if AllDigits(s, base) then Fits(Value(s, base), Pow(2, bits) - 1) else None
  {
    PowSplit(bits, shift);
    r := ScanDigits(s, Pow(2, shift), Pow(2, bits - shift));
  }

  /** A word is made of whole digits and the digits' room. */
  lemma PowSplit(bits: nat, shift: nat)
    requires bits >= 8 && (shift == 3 || shift == 4)
    ensures Pow(2, shift) == (if shift == 3 then 8 else 16) && Pow(2, bits) == Pow(2, shift) * Pow(2, bits - shift)
    ensures Pow(2, bits) >= 256
  {
    PowAdd(shift, bits - shift);
    PowAdd(8, bits - 8);
    assert Pow(2, 3) == 8 && Pow(2, 4) == 16;
    assert Pow(2, 8) == 256;
  }

  lemma {:induction false} PowAdd(a: nat, b: nat)
    ensures Pow(2, a + b) == Pow(2, a) * Pow(2, b)
  {
    if a == 0 {
    } else {
      PowAdd(a - 1, b);
    }
  }

  /** The exponent loop multiplies by ten as long as the number fits. */
  method Raise(v: nat, e: nat, max: nat) returns (r: Option<nat>)
    requires 1 <= v <= max
    ensures r == Fits(v * Pow(10, e), max)
  {
    var retval := v;
    for i := 0 to e
      invariant retval == v * Pow(10, i) <= max
    {
      assert v * Pow(10, i + 1) == 10 * (v * Pow(10, i));
      if retval > max / 10 {
        PowGrows(v, i + 1, e);
        return None;
      }
      retval := retval * 10;
    }
    r := Some(retval);
  }

  lemma {:induction false} PowGrows(v: nat, i: nat, e: nat)
    requires i <= e
    ensures v * Pow(10, i) <= v * Pow(10, e)
    decreases e - i
  {
    if i == e {
    } else {
      PowGrows(v, i + 1, e);
      assert v * Pow(10, i + 1) == 10 * (v * Pow(10, i));
    }
  }

  /** The value of a string of decimal digits, accumulated from the front. */
  method ReadDigits(s: string) returns (r: Option<nat>)
    ensures r == if AllDigits(s, 10) then Some(Value(s, 10)) else None
  {
    var mult := 0;
    for i := 0 to |s|
      invariant AllDigits(s[..i], 10) && mult == Value(s[..i], 10)
    {
      if !IsDigit(s[i], 10) {
        return None;
      }
      ValueSnoc(s, i, 10);
      mult := mult * 10 + Digit(s[i]);
    }
    assert s[..|s|] == s;
    r := Some(mult);
  }

  /** A number with something behind its digits. */
  method Multiply(v: nat, suffix: string, max: nat) returns (r: Option<nat>)
    requires 1 <= v <= max && suffix != "" && !IsDigit(suffix[0], 10)
    ensures var d := Scaled(v, suffix);
            r == if d.Some? then Fits(d.value, max) else None
  {
    var mult := Multiplier(suffix[0]);
    if mult != 0 {
      if |suffix| != 1 || mult > max || v > max / mult {
        if |suffix| == 1 {
          TooBig(v, mult, max);
        }
        return None;
      }
      JustFits(v, mult, max);
      return Some(v * mult);
    }
    if (suffix[0] != 'e' && suffix[0] != 'E') || |suffix| == 1 {
      return None;
    }
    var e := ReadDigits(suffix[1..]);
    if e.None? {
      return None;
    }
    r := Raise(v, e.value, max);
  }

  lemma TooBig(v: nat, mult: nat, max: nat)
    requires v >= 1 && mult >= 1 && (mult > max || v > max / mult)
    ensures v * mult > max
  {
    if mult > max {
      MulGrows(v, mult);
    } else {
      var q := max / mult;
      assert max < (q + 1) * mult;
      assert v * mult == (q + 1) * mult + (v - (q + 1)) * mult;
    }
  }

  lemma JustFits(v: nat, mult: nat, max: nat)
    requires mult >= 1 && v <= max / mult
    ensures v * mult <= max
  {
    var q := max / mult;
    assert q * mult <= max;
    assert q * mult == v * mult + (q - v) * mult;
  }

  /**
   Reads an unsigned number of `bits` bits from a string without white space
   around it. It succeeds exactly when the string denotes a number that fits,
   and then gives that number.
   */
  method ToNumber(s: string, bits: nat) returns (r: Option<nat>)
    requires bits >= 8
    ensures var d := Denoted(s);
            r == if d.Some? then Fits(d.value, Pow(2, bits) - 1) else None
  {
    PowSplit(bits, 3);
    PowSplit(bits, 4);
    var max := Pow(2, bits) - 1;
    if s == "" || !IsDigit(s[0], 10) {
      return None;
    }
    if |s| == 1 {
      return Some(Digit(s[0]));
    }
    if s[0] == '0' {
      if s[1] == 'x' || s[1] == 'X' {
        if |s| == 2 {
          return None;
        }
        r := ScanPower(s[2..], bits, 4);
      } else {
        r := ScanPower(s[1..], bits, 3);
      }
      return;
    }
    var scan := ScanDecimal(s, max);
    match scan
    case Rejected =>
      ScaledGrows(Value(s[..DecEnd(s, 1)], 10), s[DecEnd(s, 1)..]);
      return None;
    case Number(v) =>
      return Some(v);
    case Suffix(v, at) =>
      LeadingDigit(s, at);
      r := Multiply(v, s[at..], max);
  }

  /** A suffix never makes a number smaller. */
  lemma ScaledGrows(v: nat, suffix: string)
    ensures var d := Scaled(v, suffix); d.Some? ==> d.value >= v
  {
    if |suffix| > 1 {
      MulGrows(Pow(10, Value(suffix[1..], 10)), v);
    } else if |suffix| == 1 && Multiplier(suffix[0]) != 0 {
      MulGrows(Multiplier(suffix[0]), v);
    }
  }

  /** A number that does not start with 0 is at least 1. */
  lemma LeadingDigit(s: string, k: nat)
    requires 1 <= k <= |s| && IsDigit(s[0], 10) && s[0] != '0'
    ensures Value(s[..k], 10) >= 1
  {
    ValueGrows(s[..k], 1, 10);
    assert s[..k][..1] == s[..1] == [s[0]];
    ValueSnoc(s, 0, 10);
    assert s[..0] == "";
  }

  // ----- the notation, by example

  /** Digits in either case. */
  lemma DigitTable(d: nat)
    requires d < 16
    ensures Digit("0123456789abcdef"[d]) == d && Digit("0123456789ABCDEF"[d]) == d
  {
  }

  /** The multipliers are powers of 1024, in either case, and stand alone; an exponent is a power of ten. */
  lemma Suffixes(v: nat)
    ensures Scaled(v, "k") == Scaled(v, "K") == Some(1024 * v)
    ensures Scaled(v, "m") == Scaled(v, "M") == Some(1048576 * v)
    ensures Scaled(v, "g") == Scaled(v, "G") == Some(1073741824 * v)
    ensures Scaled(v, "e3") == Scaled(v, "E3") == Some(1000 * v)
    ensures Scaled(v, "kB") == None && Scaled(v, "e") == None && Scaled(v, "t") == None
  {
    assert "e3"[1..] == "3" && "E3"[1..] == "3" && "3"[..0] == "";
    assert Value("3", 10) == 3;
    assert Pow(10, 1) == 10 && Pow(10, 2) == 100 && Pow(10, 3) == 1000;
  }

  /** A leading 0 means octal, 0x hexadecimal. */
  lemma Bases()
    ensures Denoted("0x1F") == Denoted("0X1f") == Some(31) && Denoted("017") == Some(15) && Denoted("17") == Some(17)
    ensures Denoted("08") == None && Denoted("0x") == None && Denoted("") == None
  {
    assert "0x1F"[2..] == "1F" && "0X1f"[2..] == "1f" && "017"[1..] == "17" && "08"[1..] == "8";
    assert "1F"[..1] == "1" && "1f"[..1] == "1" && "17"[..1] == "1" && "1"[..0] == "";
    assert Value("1", 16) == 1 && Value("1", 8) == 1 && Value("1", 10) == 1;
    assert DecEnd("17", 1) == 2;
    assert "17"[..2] == "17" && "17"[2..] == "";
    assert !IsDigit("8"[0], 8);
  }
}
