/** Internet and socket addresses and their order, which is decided by double dispatch on the kinds
    of the two addresses. */
module Address {
  import opened Common

  type Bytes16 = s: seq<u8> | |s| == 16 witness seq(16, _ => 0)

  /** An Internet address. An IPv4 address is the machine's `s_addr` word. */
  datatype InetAddr = NoInet | Inet4(sAddr: u32) | Inet6(addr: Bytes16) | Name(name: seq<u8>)

  datatype SockAddr = NoSock | Sock(inet: InetAddr, port: u16)

  function Word(b0: u8, b1: u8, b2: u8, b3: u8): u32 {
    ((b3 * 0x100 + b2) * 0x100 + b1) * 0x100 + b0
  }

  /** `ntohl` on a little-endian machine: the bytes of the word in reverse order. */
  function Ntohl(x: u32): u32 {
    Word(x / 0x100_0000, x / 0x1_0000 % 0x100, x / 0x100 % 0x100, x % 0x100)
  }

  lemma WordBytes(b0: u8, b1: u8, b2: u8, b3: u8)
    ensures var w := Word(b0, b1, b2, b3);
      w % 0x100 == b0 && w / 0x100 % 0x100 == b1 && w / 0x1_0000 % 0x100 == b2 && w / 0x100_0000 == b3
  {
  }

  lemma NtohlWord(b0: u8, b1: u8, b2: u8, b3: u8)
    ensures Ntohl(Word(b0, b1, b2, b3)) == Word(b3, b2, b1, b0)
  {
    WordBytes(b0, b1, b2, b3);
  }

  lemma WordOfBytes(x: u32) returns (b0: u8, b1: u8, b2: u8, b3: u8)
    ensures x == Word(b0, b1, b2, b3)
  {
    var y := x / 0x100;
    var z := y / 0x100;
    b0, b1, b2, b3 := x % 0x100, y % 0x100, z % 0x100, z / 0x100;
  }

  lemma NtohlInvolution(x: u32)
    ensures Ntohl(Ntohl(x)) == x
  {
    var b0, b1, b2, b3 := WordOfBytes(x);
    NtohlWord(b0, b1, b2, b3);
    NtohlWord(b3, b2, b1, b0);
  }

  lemma NtohlInjective(x: u32, y: u32)
    requires Ntohl(x) == Ntohl(y)
    ensures x == y
  {
    NtohlInvolution(x);
    NtohlInvolution(y);
  }

  lemma Inet4LessTotal(x: u32, y: u32)
    ensures var a, b := Inet4(x), Inet4(y);
      && (a == b <==> !InetLess(a, b) && !InetLess(b, a))
      && !(InetLess(a, b) && InetLess(b, a))
  {
    if Ntohl(x) == Ntohl(y) {
      NtohlInjective(x, y);
    }
  }

  /** Byte-wise lexicographic order, which `memcmp` and string comparison implement. */
  predicate BytesLess(a: seq<u8>, b: seq<u8>) {
    if b == [] then false
    else if a == [] then true
    else a[0] < b[0] || (a[0] == b[0] && BytesLess(a[1..], b[1..]))
  }

  // The comparisons of an address with an address of a known kind, one per kind.

  predicate LessThan4(x: InetAddr, y: u32)
    requires x != NoInet
  {
    match x
    case Inet4(a) => Ntohl(a) < Ntohl(y)
    case Inet6(_) => false
    case Name(_) => false
  }

  predicate LessThan6(x: InetAddr, y: Bytes16)
    requires x != NoInet
  {
    match x
    case Inet4(_) => true
    case Inet6(a) => BytesLess(a, y)
    case Name(_) => false
  }

  predicate LessThanName(x: InetAddr, y: seq<u8>)
    requires x != NoInet
  {
    match x
    case Inet4(_) => true
    case Inet6(_) => true
    case Name(a) => BytesLess(a, y)
  }

  /** Comparison of implementations: the right-hand side is asked about the left-hand side. */
  predicate ImplLess(a: InetAddr, b: InetAddr)
    requires a != NoInet && b != NoInet
  {
    match a
    case Inet4(x) => !LessThan4(b, x) && !(b.Inet4? && b.sAddr == x)
    case Inet6(x) => !LessThan6(b, x) && !(b.Inet6? && b.addr == x)
    case Name(x) => !LessThanName(b, x) && !(b.Name? && b.name == x)
  }

  predicate InetLess(a: InetAddr, b: InetAddr) {
    if a == NoInet && b == NoInet then false
    else if a == NoInet || b == NoInet then a == NoInet
    else ImplLess(a, b)
  }

  predicate SockLess(a: SockAddr, b: SockAddr) {
    if a == NoSock && b == NoSock then false
    else if a == NoSock || b == NoSock then a == NoSock
    else if InetLess(a.inet, b.inet) then true
    else if InetLess(b.inet, a.inet) then false
    else a.port < b.port
  }

  /** Equality of addresses is the absence of an order between them. */
  predicate SockEqual(a: SockAddr, b: SockAddr) {
    !SockLess(a, b) && !SockLess(b, a)
  }

  /** One string is before another if and only if it is a proper beginning of it or its byte is less at the
      first place where they differ. */
  lemma {:induction false} BytesLessMeaning(a: seq<u8>, b: seq<u8>)
    ensures BytesLess(a, b) <==>
              exists i: nat :: i <= |a| && i < |b| && a[..i] == b[..i] && (i == |a| || a[i] < b[i])
  {
    if a != [] && b != [] && a[0] == b[0] {
      assert a == [a[0]] + a[1..] && b == [b[0]] + b[1..];
      BytesLessMeaning(a[1..], b[1..]);
      if BytesLess(a[1..], b[1..]) {
        var i: nat :| i <= |a[1..]| && i < |b[1..]| && a[1..][..i] == b[1..][..i]
                      && (i == |a[1..]| || a[1..][i] < b[1..][i]);
        assert a[..i + 1] == [a[0]] + a[1..][..i] && b[..i + 1] == [b[0]] + b[1..][..i];
      }
      if i: nat :| i <= |a| && i < |b| && a[..i] == b[..i] && (i == |a| || a[i] < b[i]) {
        assert i > 0;
        assert a[..i][1..] == a[1..][..i - 1] && b[..i][1..] == b[1..][..i - 1];
      }
    } else if BytesLess(a, b) {
      assert a[..0] == b[..0];
    }
  }

  lemma HighFirst(h: nat, l: u8, h': nat, l': u8)
    ensures h * 0x100 + l < h' * 0x100 + l' <==> h < h' || (h == h' && l < l')
  {
  }

  lemma BytesLessCons(x: u8, s: seq<u8>, y: u8, t: seq<u8>)
    ensures BytesLess([x] + s, [y] + t) <==> x < y || (x == y && BytesLess(s, t))
  {
  }

  lemma BytesLess4(a0: u8, a1: u8, a2: u8, a3: u8, b0: u8, b1: u8, b2: u8, b3: u8)
    ensures BytesLess([a0, a1, a2, a3], [b0, b1, b2, b3]) <==>
              || a0 < b0
              || (a0 == b0 && (a1 < b1 || (a1 == b1 && (a2 < b2 || (a2 == b2 && a3 < b3)))))
  {
    assert [a0, a1, a2, a3] == [a0] + ([a1] + ([a2] + ([a3] + [])));
    assert [b0, b1, b2, b3] == [b0] + ([b1] + ([b2] + ([b3] + [])));
    BytesLessCons(a0, [a1] + ([a2] + ([a3] + [])), b0, [b1] + ([b2] + ([b3] + [])));
    BytesLessCons(a1, [a2] + ([a3] + []), b1, [b2] + ([b3] + []));
    BytesLessCons(a2, [a3] + [], b2, [b3] + []);
    BytesLessCons(a3, [], b3, []);
  }

  /** IPv4 addresses are ordered like their four bytes in the order in which they are written. */
  lemma Inet4LessIsBytewise(a0: u8, a1: u8, a2: u8, a3: u8, b0: u8, b1: u8, b2: u8, b3: u8)
    ensures InetLess(Inet4(Word(a0, a1, a2, a3)), Inet4(Word(b0, b1, b2, b3))) <==>
              BytesLess([a0, a1, a2, a3], [b0, b1, b2, b3])
  {
    var x, y := Word(a0, a1, a2, a3), Word(b0, b1, b2, b3);
    NtohlWord(a0, a1, a2, a3);
    NtohlWord(b0, b1, b2, b3);
    Inet4LessTotal(x, y);
    BytesLess4(a0, a1, a2, a3, b0, b1, b2, b3);
    HighFirst((a0 * 0x100 + a1) * 0x100 + a2, a3, (b0 * 0x100 + b1) * 0x100 + b2, b3);
    HighFirst(a0 * 0x100 + a1, a2, b0 * 0x100 + b1, b2);
    HighFirst(a0, a1, b0, b1);
    Inet4Less(x, y);
  }

  lemma Inet4Less(x: u32, y: u32)
    ensures InetLess(Inet4(x), Inet4(y)) <==> Ntohl(x) < Ntohl(y)
  {
    if Ntohl(x) == Ntohl(y) {
      NtohlInjective(x, y);
    }
  }

  /** Unset addresses come first, then IPv4, IPv6 and names; and within the latter two kinds, bytes decide. */
  lemma KindsInOrder(a: InetAddr, b: InetAddr)
    ensures a == NoInet && b != NoInet ==> InetLess(a, b)
    ensures a.Inet4? && (b.Inet6? || b.Name?) ==> InetLess(a, b)
    ensures a.Inet6? && b.Name? ==> InetLess(a, b)
    ensures a.Inet6? && b.Inet6? ==> (InetLess(a, b) <==> BytesLess(a.addr, b.addr))
    ensures a.Name? && b.Name? ==> (InetLess(a, b) <==> BytesLess(a.name, b.name))
  {
    if a.Inet6? && b.Inet6? {
      BytesLessTotal(a.addr, b.addr);
    }
    if a.Name? && b.Name? {
      BytesLessTotal(a.name, b.name);
    }
  }

  /** The unset socket address comes first; otherwise the Internet address decides, and then the port. */
  lemma SockLessMeaning(a: SockAddr, b: SockAddr)
    ensures SockLess(a, b) <==>
              && b != NoSock
              && (a == NoSock || InetLess(a.inet, b.inet) || (a.inet == b.inet && a.port < b.port))
  {
    if a != NoSock && b != NoSock {
      InetLessTotal(a.inet, b.inet);
    }
  }

  lemma {:induction false} BytesLessTotal(a: seq<u8>, b: seq<u8>)
    ensures a == b <==> !BytesLess(a, b) && !BytesLess(b, a)
    ensures !(BytesLess(a, b) && BytesLess(b, a))
  {
    if a != [] && b != [] {
      BytesLessTotal(a[1..], b[1..]);
      assert a == [a[0]] + a[1..] && b == [b[0]] + b[1..];
    }
  }

  lemma {:induction false} BytesLessTransitive(a: seq<u8>, b: seq<u8>, c: seq<u8>)
    requires BytesLess(a, b) && BytesLess(b, c)
    ensures BytesLess(a, c)
  {
    if a != [] && a[0] == b[0] == c[0] {
      BytesLessTransitive(a[1..], b[1..], c[1..]);
    }
  }

  lemma InetLessTotal(a: InetAddr, b: InetAddr)
    ensures a == b <==> !InetLess(a, b) && !InetLess(b, a)
    ensures !(InetLess(a, b) && InetLess(b, a))
  {
    match (a, b)
    case (Inet4(x), Inet4(y)) => Inet4LessTotal(x, y);
    case (Inet6(x), Inet6(y)) => BytesLessTotal(x, y);
    case (Name(x), Name(y)) => BytesLessTotal(x, y);
    case _ =>
  }

  lemma InetLessTransitive(a: InetAddr, b: InetAddr, c: InetAddr)
    requires InetLess(a, b) && InetLess(b, c)
    ensures InetLess(a, c)
  {
    InetLessTotal(a, b);
    InetLessTotal(b, c);
    InetLessTotal(a, c);
    match (a, b, c)
    case (Inet6(x), Inet6(y), Inet6(z)) =>
      BytesLessTotal(x, y); BytesLessTotal(y, z); BytesLessTotal(x, z);
      BytesLessTransitive(x, y, z);
    case (Name(x), Name(y), Name(z)) =>
      BytesLessTotal(x, y); BytesLessTotal(y, z); BytesLessTotal(x, z);
      BytesLessTransitive(x, y, z);
    case _ =>
  }

  /** Socket addresses, unset ones included, are strictly and totally ordered, and the equality
      that the order induces is identity. */
  lemma SockLessTotal(a: SockAddr, b: SockAddr)
    ensures SockEqual(a, b) <==> a == b
    ensures !(SockLess(a, b) && SockLess(b, a))
  {
    if a.Sock? && b.Sock? {
      InetLessTotal(a.inet, b.inet);
    }
  }

  lemma SockLessTransitive(a: SockAddr, b: SockAddr, c: SockAddr)
    requires SockLess(a, b) && SockLess(b, c)
    ensures SockLess(a, c)
  {
    if a.Sock? {
      InetLessTotal(a.inet, b.inet);
      InetLessTotal(b.inet, c.inet);
      InetLessTotal(a.inet, c.inet);
      if InetLess(a.inet, b.inet) && InetLess(b.inet, c.inet) {
        InetLessTransitive(a.inet, b.inet, c.inet);
      }
    }
  }
}
