/** Bytes, and numbers laid out in memory with the low byte first. */
module Bytes {

  type Byte = x: int | 0 <= x < 256

  // How many values fit in n bytes.
  function Range(n: nat): (r: nat)
    ensures r > 0
  {
    if n == 0 then 1 else 256 * Range(n - 1)
  }

  function Little(n: nat, v: nat): (s: seq<Byte>)
    ensures |s| == n
  {
    if n == 0 then [] else [v % 256] + Little(n - 1, v / 256)
  }

  function Value(s: seq<Byte>): nat {
    if s == [] then 0 else s[0] + 256 * Value(s[1..])
  }

  lemma {:induction false} ValueOfLittle(n: nat, v: nat)
    ensures Value(Little(n, v)) == v % Range(n)
  {
    if n > 0 {
      ValueOfLittle(n - 1, v / 256);
      var low, high, r := v % 256, v / 256, Range(n - 1);
      assert Little(n, v)[1..] == Little(n - 1, high);
      ModOfProduct(low, high, r);
    }
  }

  lemma ModOfProduct(low: nat, high: nat, r: nat)
    requires low < 256 && r > 0
    ensures (low + 256 * high) % (256 * r) == low + 256 * (high % r)
  {
    var q, rest := high / r, high % r;
    assert low + 256 * high == (256 * r) * q + (low + 256 * rest) by {
      assert high == r * q + rest;
    }
    assert low + 256 * rest < 256 * r;
    QuotientRemainder(256 * r, q, low + 256 * rest);
  }

  lemma QuotientRemainder(d: int, q: int, rest: int)
    requires 0 <= rest < d
    ensures (d * q + rest) % d == rest
  {
    var x := d * q + rest;
    var k := x / d - q;
    assert d * k == rest - x % d;
    assert k >= 1 ==> d * k >= d;
    assert k <= -1 ==> d * k <= -d;
  }

  lemma {:induction false} LittleOfValue(s: seq<Byte>)
    ensures Little(|s|, Value(s)) == s
    ensures Value(s) < Range(|s|)
  {
    if s != [] {
      LittleOfValue(s[1..]);
      assert Value(s) % 256 == s[0] && Value(s) / 256 == Value(s[1..]);
    }
  }

  // A 32-bit pattern read as a signed number, and back.
  function Signed(w: nat): int {
    if w < 0x8000_0000 then w else w - 0x1_0000_0000
  }

  function Pattern(x: int): nat
    requires -0x8000_0000 <= x < 0x8000_0000
  {
    if x < 0 then x + 0x1_0000_0000 else x
  }

  predicate IsInt32(x: int) {
    -0x8000_0000 <= x < 0x8000_0000
  }

  lemma RangeOf4()
    ensures Range(0) == 1 && Range(1) == 0x100 && Range(2) == 0x1_0000 && Range(4) == 0x1_0000_0000
  {
  }

  // The low byte comes first; a negative number is its pattern in two's complement.
  lemma LowByteFirst(v: nat)
    requires v == 0x0102_0304
    ensures Little(4, v) == [4, 3, 2, 1] && Value([4, 3, 2, 1]) == v
    ensures Little(2, 0xABCD) == [0xCD, 0xAB]
    ensures Pattern(-2) == 0xFFFF_FFFE && Signed(0xFFFF_FFFE) == -2
  {
    assert Little(4, v) == [4] + Little(3, 0x01_0203);
    assert Little(3, 0x01_0203) == [3] + Little(2, 0x0102);
    assert Little(2, 0x0102) == [2] + Little(1, 1);
    assert Little(2, 0xABCD) == [0xCD] + Little(1, 0xAB);
    LittleOfValue([4, 3, 2, 1]);
    ValueOfLittle(4, v);
  }
}
