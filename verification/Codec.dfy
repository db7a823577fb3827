/** The transport's encoding of integers, strings, and times, and its inverse. */
module Codec {
  import opened Common
  import opened ByteOrder

  /** The outcome of reading a value from the bytes that are still to come: the value and the bytes
      after it, too few bytes before the connection was lost, or an exception. */
  datatype Parse<+T> = Got(value: T, rest: Bytes) | Lost | Thrown {
    predicate IsFailure() {
      !Got?
    }

    function PropagateFailure<U>(): Parse<U>
      requires IsFailure()
    {
      if Lost? then Lost else Thrown
    }

    function Extract(): (T, Bytes)
      requires !IsFailure()
    {
      (value, rest)
    }
  }

  /** The bytes `s` with `t` after them are read like `s`, except that `t` is left over too. */
  ghost predicate Extends<T>(whole: Parse<T>, part: Parse<T>, t: Bytes) {
    part.Got? ==> whole == Got(part.value, part.rest + t)
  }

  /** Concatenation associates; stated once, so that it is not reproved for every encoding. */
  lemma Assoc(a: Bytes, b: Bytes, c: Bytes)
    ensures a + b + c == a + (b + c)
  {
  }

  lemma CutConcat(a: Bytes, b: Bytes, n: nat)
    requires n <= |a| + |b|
    ensures (a + b)[..n] == if n < |a| then a[..n] else a + b[..n - |a|]
  {
  }

  function DecBytes(s: Bytes, n: nat): (r: Parse<Bytes>)
    ensures r.Got? ==> |r.value| == n && r.value + r.rest == s
  {
    if |s| < n then Lost else Got(s[..n], s[n..])
  }

  lemma DecBytesBack(b: Bytes, t: Bytes)
    ensures DecBytes(b + t, |b|) == Got(b, t)
  {
  }

  lemma DecBytesExtends(s: Bytes, t: Bytes, n: nat)
    ensures Extends(DecBytes(s + t, n), DecBytes(s, n), t)
  {
    if n <= |s| {
      assert s + t == s[..n] + (s[n..] + t);
    }
  }

  // Integers

  function DecInt(s: Bytes, n: nat): (r: Parse<nat>)
    ensures r.Got? ==> |r.rest| == |s| - n && r.value < Pow256(n)
  {
    var (b, rest) :- DecBytes(s, n);
    ValueFits(b);
    Got(Value(b), rest)
  }

  function Dec8(s: Bytes): (r: Parse<u8>)
    ensures r.Got? ==> |r.rest| < |s|
  {
    Pow256Values();
    var (x, rest) :- DecInt(s, 1);
    Got(x, rest)
  }

  function Dec16(s: Bytes): (r: Parse<u16>)
    ensures r.Got? ==> |r.rest| < |s|
  {
    Pow256Values();
    var (x, rest) :- DecInt(s, 2);
    Got(x, rest)
  }

  function Dec32(s: Bytes): (r: Parse<u32>)
    ensures r.Got? ==> |r.rest| < |s|
  {
    Pow256Values();
    var (x, rest) :- DecInt(s, 4);
    Got(x, rest)
  }

  function Dec64(s: Bytes): (r: Parse<u64>)
    ensures r.Got? ==> |r.rest| < |s|
  {
    Pow256Values();
    var (x, rest) :- DecInt(s, 8);
    Got(x, rest)
  }

  function ToU16(x: i16): u16 {
    x % 0x1_0000
  }

  function ToU64(x: int): u64 {
    x % 0x1_0000_0000_0000_0000
  }

  function ToI64(x: int): i64 {
    var low := x % 0x1_0000_0000_0000_0000;
    if low < 0x8000_0000_0000_0000 then low else low - 0x1_0000_0000_0000_0000
  }

  lemma DecIntBack(n: nat, x: nat, t: Bytes)
    requires x < Pow256(n)
    ensures DecInt(Big(n, x) + t, n) == Got(x, t)
  {
    ValueBig(n, x);
    DecBytesBack(Big(n, x), t);
  }

  lemma Dec8Back(x: u8, t: Bytes)
    ensures Dec8(Big(1, x) + t) == Got(x, t)
  {
    Pow256Values();
    DecIntBack(1, x, t);
  }

  lemma Dec16Back(x: u16, t: Bytes)
    ensures Dec16(Big(2, x) + t) == Got(x, t)
  {
    Pow256Values();
    DecIntBack(2, x, t);
  }

  lemma Dec32Back(x: u32, t: Bytes)
    ensures Dec32(Big(4, x) + t) == Got(x, t)
  {
    Pow256Values();
    DecIntBack(4, x, t);
  }

  lemma Dec64Back(x: u64, t: Bytes)
    ensures Dec64(Big(8, x) + t) == Got(x, t)
  {
    Pow256Values();
    DecIntBack(8, x, t);
  }

  lemma Dec8Extends(s: Bytes, t: Bytes)
    ensures Extends(Dec8(s + t), Dec8(s), t)
  {
    DecBytesExtends(s, t, 1);
  }

  lemma Dec16Extends(s: Bytes, t: Bytes)
    ensures Extends(Dec16(s + t), Dec16(s), t)
  {
    DecBytesExtends(s, t, 2);
  }

  lemma Dec32Extends(s: Bytes, t: Bytes)
    ensures Extends(Dec32(s + t), Dec32(s), t)
  {
    DecBytesExtends(s, t, 4);
  }

  lemma Dec64Extends(s: Bytes, t: Bytes)
    ensures Extends(Dec64(s + t), Dec64(s), t)
  {
    DecBytesExtends(s, t, 8);
  }

  lemma ToI64Inverse(x: i64, y: i16)
    ensures ToI64(ToU64(x)) == x
    ensures ToI16(ToU16(y)) == y
  {
  }

  // Time points: nanoseconds since the epoch, which are sent as seconds and microseconds

  const NANOS := 1_000_000_000
  const MICROS := 1_000_000

  /** The source's division: it truncates toward zero. */
  function TruncDiv(a: int, b: int): int
    requires b > 0
  {
    if a >= 0 then a / b else -(-a / b)
  }

  function FromTimeT(secs: u64): i64 {
    ToI64(ToI64(secs) * NANOS)
  }

  lemma FromTimeTInRange(secs: int)
    requires -9223372036 <= secs <= 9223372036
    ensures FromTimeT(ToU64(secs)) == secs * NANOS
  {
  }

  /** The whole seconds toward zero, and what is left of the time in microseconds. */
  function Split(time: i64): (r: (int, int))
    ensures -MICROS < r.1 < MICROS && -9223372036 <= r.0 <= 9223372036
    ensures r.0 * MICROS + r.1 == TruncDiv(time, 1000)
  {
    var secs := TruncDiv(time, NANOS);
    FromTimeTInRange(secs);
    (secs, TruncDiv(time - FromTimeT(ToU64(secs)), 1000))
  }

  function TimeParts(time: i64): (u64, u32) {
    var (secs, usecs) := Split(time);
    if usecs < 0 then (ToU64(secs - 1), usecs + MICROS) else (ToU64(secs), usecs)
  }

  function TimeOf(secs: u64, usecs: u32): i64 {
    ToI64(FromTimeT(secs) + usecs * 1000)
  }

  function EncTime(time: i64): Bytes {
    var (secs, usecs) := TimeParts(time);
    Big(8, secs) + Big(4, usecs)
  }

  function DecTime(s: Bytes): (r: Parse<i64>)
    ensures r.Got? ==> |r.rest| < |s|
  {
    var (secs, s1) :- Dec64(s);
    var (usecs, rest) :- Dec32(s1);
    Got(TimeOf(secs, usecs), rest)
  }

  /** What arrives when a time is sent: the time truncated toward zero to microseconds. */
  function Arriving(time: i64): (r: i64)
    ensures -1000 < time - r < 1000
    ensures time >= 0 ==> r <= time
    ensures time <= 0 ==> r >= time
  {
    TruncDiv(time, 1000) * 1000
  }

  lemma ToI64Sum(x: int, y: int)
    ensures ToI64(ToI64(x) + y) == ToI64(x + y)
  {
    var k := x / 0x1_0000_0000_0000_0000;
    assert ToI64(x) == x - k * 0x1_0000_0000_0000_0000 || ToI64(x) == x - (k + 1) * 0x1_0000_0000_0000_0000;
    ToI64Shift(x + y, k);
    ToI64Shift(x + y, k + 1);
  }

  lemma ToI64Shift(x: int, k: int)
    ensures ToI64(x - k * 0x1_0000_0000_0000_0000) == ToI64(x)
  {
    var m := 0x1_0000_0000_0000_0000;
    assert (x - k * m) / m == x / m - k;
  }

  lemma ToI64Identity(x: i64)
    ensures ToI64(x) == x
  {
  }

  lemma TimeOfSum(secs: i64, usecs: u32, time: i64)
    requires secs * NANOS + usecs * 1000 == time
    ensures TimeOf(ToU64(secs), usecs) == time
  {
    ToI64Inverse(secs, 0);
    var x := secs * NANOS;
    assert FromTimeT(ToU64(secs)) == ToI64(x);
    ToI64Sum(x, usecs * 1000);
    ToI64Identity(time);
  }

  /** The parts that are sent make up the truncated time, before the epoch as well. */
  lemma TimePartsBack(time: i64)
    ensures TimeOf(TimeParts(time).0, TimeParts(time).1) == Arriving(time)
  {
    var (secs, usecs) := Split(time);
    if usecs < 0 {
      TimeOfSum(secs - 1, usecs + MICROS, Arriving(time));
    } else {
      TimeOfSum(secs, usecs, Arriving(time));
    }
  }

  /** Sending a time that has arrived once loses nothing more. */
  lemma ArrivingIsExact(time: i64)
    ensures Arriving(Arriving(time)) == Arriving(time)
    ensures Arriving(time) == time <==> time % 1000 == 0
  {
    var q := TruncDiv(time, 1000);
    assert TruncDiv(q * 1000, 1000) == q;
  }

  lemma DecTimeBack(time: i64, t: Bytes)
    ensures DecTime(EncTime(time) + t) == Got(Arriving(time), t)
  {
    var (secs, usecs) := TimeParts(time);
    Dec32Back(usecs, t);
    Dec64Back(secs, Big(4, usecs) + t);
    Assoc(Big(8, secs), Big(4, usecs), t);
    TimePartsBack(time);
  }

  lemma DecTimeExtends(s: Bytes, t: Bytes)
    ensures Extends(DecTime(s + t), DecTime(s), t)
  {
    Dec64Extends(s, t);
    if Dec64(s).Got? {
      Dec32Extends(Dec64(s).rest, t);
    }
  }
}
