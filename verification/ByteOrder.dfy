/** Byte order: what the network functions and the memory of a machine make of an integer. */
module ByteOrder {
  import opened Common
  import opened Address

  datatype Host = LittleEndian | BigEndian

  /** The `n` bytes of an integer in big-endian order. */
  function Big(n: nat, x: nat): (r: Bytes)
    ensures |r| == n
    decreases n, x
  {
    if n == 0 then [] else Big(n - 1, x / 0x100) + [x % 0x100]
  }

  function Value(b: Bytes): nat {
    if b == [] then 0 else Value(b[..|b| - 1]) * 0x100 + b[|b| - 1]
  }

  function Pow256(n: nat): (r: nat)
    ensures r > 0
    decreases n
  {
    if n == 0 then 1 else 0x100 * Pow256(n - 1)
  }

  lemma {:induction false} ValueBig(n: nat, x: nat)
    requires x < Pow256(n)
    ensures Value(Big(n, x)) == x
    decreases n
  {
    if n > 0 {
      ValueBig(n - 1, x / 0x100);
      assert Big(n, x)[..n - 1] == Big(n - 1, x / 0x100);
    }
  }

  lemma {:induction false} ValueFits(b: Bytes)
    ensures Value(b) < Pow256(|b|)
  {
    if b != [] {
      ValueFits(b[..|b| - 1]);
    }
  }

  lemma Pow256Values()
    ensures Pow256(1) == 0x100 && Pow256(2) == 0x1_0000 && Pow256(4) == 0x1_0000_0000
    ensures Pow256(8) == 0x1_0000_0000_0000_0000
  {
  }

  lemma Big2(x: u16)
    ensures Big(2, x) == [x / 0x100, x % 0x100]
  {
    assert Big(1, x / 0x100) == [x / 0x100];
  }

  lemma Big4(x: u32)
    ensures Big(4, x) == [x / 0x100_0000, x / 0x1_0000 % 0x100, x / 0x100 % 0x100, x % 0x100]
  {
    var b3, b2, b1, b0 := x / 0x100_0000, x / 0x1_0000 % 0x100, x / 0x100 % 0x100, x % 0x100;
    assert x / 0x1_0000 == b3 * 0x100 + b2 && x / 0x100 == (b3 * 0x100 + b2) * 0x100 + b1;
    Big2(x / 0x1_0000);
    assert x / 0x100 / 0x100 == x / 0x1_0000;
    assert Big(3, x / 0x100) == Big(2, x / 0x1_0000) + [b1];
  }

  /** The most significant bytes come first. */
  lemma {:induction false} BigSplit(n: nat, k: nat, q: nat, r: nat)
    requires r < Pow256(n)
    ensures Big(k + n, q * Pow256(n) + r) == Big(k, q) + Big(n, r)
    decreases n
  {
    if n == 0 {
      assert Big(k, q) + [] == Big(k, q);
    } else {
      var p, low := Pow256(n - 1), r / 0x100;
      var x, y := q * Pow256(n) + r, q * p + low;
      TimesPow(q, p);
      assert x / 0x100 == y && x % 0x100 == r % 0x100;
      BigSplit(n - 1, k, q, low);
      assert Big(k, q) + Big(n - 1, low) + [r % 0x100] == Big(k, q) + (Big(n - 1, low) + [r % 0x100]);
    }
  }

  lemma TimesPow(q: nat, p: nat)
    ensures q * (0x100 * p) == 0x100 * (q * p)
  {
  }

  // The machine's view

  function Memory16(h: Host, x: u16): Bytes {
    if h.BigEndian? then [x / 0x100, x % 0x100] else [x % 0x100, x / 0x100]
  }

  function Memory32(h: Host, x: u32): Bytes {
    if h.BigEndian? then [x / 0x100_0000, x / 0x1_0000 % 0x100, x / 0x100 % 0x100, x % 0x100]
    else [x % 0x100, x / 0x100 % 0x100, x / 0x1_0000 % 0x100, x / 0x100_0000]
  }

  function Load32(h: Host, b: Bytes): u32
    requires |b| == 4
  {
    if h.BigEndian? then Word(b[3], b[2], b[1], b[0]) else Word(b[0], b[1], b[2], b[3])
  }

  /** `htons` and `ntohs`. */
  function Hton16(h: Host, x: u16): u16 {
    if h.BigEndian? then x else x % 0x100 * 0x100 + x / 0x100
  }

  /** `htonl` and `ntohl`. */
  function Hton32(h: Host, x: u32): u32 {
    if h.BigEndian? then x else Ntohl(x)
  }

  /** The bytes that are sent for a 64-bit integer: its halves, each translated and stored in turn. */
  function Sent64(h: Host, x: u64): Bytes {
    Memory32(h, Hton32(h, x / 0x1_0000_0000)) + Memory32(h, Hton32(h, x % 0x1_0000_0000))
  }

  lemma Memory32Load32(h: Host, b: Bytes)
    requires |b| == 4
    ensures Memory32(h, Load32(h, b)) == b
  {
    if h.BigEndian? {
      WordBytes(b[3], b[2], b[1], b[0]);
    } else {
      WordBytes(b[0], b[1], b[2], b[3]);
    }
  }

  lemma Sent16IsBigEndian(h: Host, x: u16)
    ensures Memory16(h, Hton16(h, x)) == Big(2, x)
  {
    Big2(x);
  }

  lemma Sent32IsBigEndian(h: Host, x: u32)
    ensures Memory32(h, Hton32(h, x)) == Big(4, x)
  {
    Big4(x);
    if h.LittleEndian? {
      var b := Big(4, x);
      WordBytes(b[0], b[1], b[2], b[3]);
      assert Ntohl(x) == Word(b[0], b[1], b[2], b[3]);
    }
  }

  lemma BigHalves(q: u32, r: u32)
    ensures Big(8, q * 0x1_0000_0000 + r) == Big(4, q) + Big(4, r)
  {
    Pow256Values();
    BigSplit(4, 4, q, r);
  }

  /** Whatever the machine, what is sent is the integer in big-endian order. */
  lemma Sent64IsBigEndian(h: Host, x: u64)
    ensures Sent64(h, x) == Big(8, x)
  {
    var q, r := x / 0x1_0000_0000, x % 0x1_0000_0000;
    Sent32IsBigEndian(h, q);
    Sent32IsBigEndian(h, r);
    BigHalves(q, r);
  }

  function Load16(h: Host, b: Bytes): u16
    requires |b| == 2
  {
    var first: int, second: int := b[0], b[1];
    if h.BigEndian? then first * 0x100 + second else second * 0x100 + first
  }

  /** The integer that the machine makes of received bytes. */
  function Received64(h: Host, b: Bytes): u64
    requires |b| == 8
  {
    Hton32(h, Load32(h, b[..4])) as int * 0x1_0000_0000 + Hton32(h, Load32(h, b[4..]))
  }

  lemma Value2(b: Bytes)
    requires |b| == 2
    ensures Value(b) == b[0] as int * 0x100 + b[1]
  {
    assert b[..1] == [b[0]];
    assert Value([b[0]]) == b[0];
  }

  lemma Value4(b: Bytes)
    requires |b| == 4
    ensures Value(b) == Word(b[3], b[2], b[1], b[0])
  {
    Value2(b[..2]);
    assert b[..3][..2] == b[..2];
    assert Value(b[..3]) == Value(b[..2]) * 0x100 + b[2];
  }

  lemma {:induction false} ValueSplit(a: Bytes, b: Bytes)
    ensures Value(a + b) == Value(a) * Pow256(|b|) + Value(b)
  {
    if b == [] {
      assert a + b == a;
    } else {
      var c, n := b[..|b| - 1], |b| - 1;
      assert (a + b)[..|a + b| - 1] == a + c;
      ValueSplit(a, c);
      TimesPow(Value(a), Pow256(n));
    }
  }

  lemma Received16IsBigEndian(h: Host, b: Bytes)
    requires |b| == 2
    ensures Hton16(h, Load16(h, b)) == Value(b)
  {
    Value2(b);
  }

  lemma Received32IsBigEndian(h: Host, b: Bytes)
    requires |b| == 4
    ensures Hton32(h, Load32(h, b)) == Value(b)
  {
    Value4(b);
    if h.LittleEndian? {
      NtohlWord(b[0], b[1], b[2], b[3]);
    }
  }

  /** Whatever the machine, received bytes are read in big-endian order. */
  lemma Received64IsBigEndian(h: Host, b: Bytes)
    requires |b| == 8
    ensures Received64(h, b) == Value(b)
  {
    Received32IsBigEndian(h, b[..4]);
    Received32IsBigEndian(h, b[4..]);
    Pow256Values();
    assert b == b[..4] + b[4..];
    ValueSplit(b[..4], b[4..]);
  }

  /** The integer that is read of the bytes that are sent for an integer. */
  function Arrived32(x: u32): u32 {
    ValueFits(Big(4, x));
    Pow256Values();
    Value(Big(4, x))
  }

  /** An IPv4 address is held in network order already and is nevertheless translated when it is
      sent. Hence its four bytes arrive as they were if and only if both machines have the same byte
      order, or it reads the same backwards. */
  lemma Inet4ArrivesIff(sender: Host, receiver: Host, b: Bytes)
    requires |b| == 4
    ensures Memory32(receiver, Arrived32(Load32(sender, b))) == b <==>
              sender == receiver || (b[0] == b[3] && b[1] == b[2])
  {
    var x := Load32(sender, b);
    Pow256Values();
    ValueBig(4, x);
    Memory32Load32(sender, b);
    if sender != receiver {
      assert Memory32(receiver, x) == [b[3], b[2], b[1], b[0]];
    }
  }

  /** For example, 10.0.0.1 sent by the one kind of machine to the other one becomes 1.0.0.10. */
  lemma Inet4Reversed()
    ensures Memory32(BigEndian, Arrived32(Load32(LittleEndian, [10, 0, 0, 1]))) == [1, 0, 0, 10]
  {
    Pow256Values();
    ValueBig(4, Load32(LittleEndian, [10, 0, 0, 1]));
    WordBytes(10, 0, 0, 1);
  }
}
