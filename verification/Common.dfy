/** Types and sequence vocabulary shared by the other modules. */
module Common {
  datatype Option<+T> = None | Some(value: T)

  /** The fixed-width integers of the source. */
  type u8 = x: int | 0 <= x < 0x100
  type u16 = x: int | 0 <= x < 0x1_0000
  type u32 = x: int | 0 <= x < 0x1_0000_0000
  type u64 = x: int | 0 <= x < 0x1_0000_0000_0000_0000
  type i16 = x: int | -0x8000 <= x < 0x8000
  type i32 = x: int | -0x8000_0000 <= x < 0x8000_0000
  type i64 = x: int | -0x8000_0000_0000_0000 <= x < 0x8000_0000_0000_0000

  type Bytes = seq<u8>

  /** Conversion of an `int` to a signed 16-bit integer: keeps the low 16 bits. */
  function ToI16(x: int): (r: i16)
    ensures -0x8000 <= x < 0x8000 ==> r == x
    ensures (r - x) % 0x1_0000 == 0
  {
    var low := x % 0x1_0000;
    if low < 0x8000 then low else low - 0x1_0000
  }

  /** An `int` as its comparison with an unsigned 64-bit size sees it: a negative one is huge. */
  function ToSize(x: i32): (r: nat)
    ensures x >= 0 ==> r == x
    ensures x < 0 ==> r >= 0xFFFF_FFFF_8000_0000 && (r - x) % 0x1_0000_0000_0000_0000 == 0
  {
    if x < 0 then x + 0x1_0000_0000_0000_0000 else x
  }

  ghost predicate NoDup<T>(s: seq<T>) {
    forall i, j :: 0 <= i < j < |s| ==> s[i] != s[j]
  }

  function Elems<T>(s: seq<T>): set<T> {
    set x | x in s
  }

  lemma NoDupAppend<T>(s: seq<T>, x: T)
    requires NoDup(s) && x !in s
    ensures NoDup(s + [x])
    ensures Elems(s + [x]) == Elems(s) + {x}
  {
    assert forall y :: y in s + [x] <==> y in s || y == x;
  }

  lemma NoDupTail<T>(s: seq<T>)
    requires NoDup(s) && |s| > 0
    ensures NoDup(s[1..]) && s[0] !in s[1..]
    ensures Elems(s[1..]) == Elems(s) - {s[0]}
  {
    assert s == [s[0]] + s[1..];
  }

  /** A duplicate-free sequence is as long as its set of elements is large. */
  lemma {:induction false} NoDupCard<T>(s: seq<T>)
    requires NoDup(s)
    ensures |Elems(s)| == |s|
  {
    if s == [] {
      assert Elems(s) == {};
    } else {
      NoDupTail(s);
      NoDupCard(s[1..]);
      assert Elems(s) == {s[0]} + Elems(s[1..]);
    }
  }

  lemma MulMonotone(a: int, b: int, m: nat)
    requires a <= b
    ensures a * m <= b * m
  {
  }

  lemma Distribute(a: int, x: int, y: int)
    ensures a * (x + y) == a * x + a * y
    ensures (x + y) * a == x * a + y * a
  {
  }

  lemma QuotientUnique(x: nat, d: nat, q: nat, r: nat)
    requires x == q * d + r && r < d
    ensures x / d == q && x % d == r
  {
    var q' := x / d;
    if q' < q {
      MulMonotone(q' + 1, q, d);
      Distribute(d, q', 1);
    } else if q' > q {
      MulMonotone(q + 1, q', d);
      Distribute(d, q, 1);
    }
  }
}
