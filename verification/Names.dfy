/** The names under which flows are registered, "direction:ip:port", and the words
    that carry an id and a priority to the kernel. */
module Names {
  import opened Throttle
  import opened Edt

  function Digit(d: nat): char
    requires d < 10
  {
    ['0', '1', '2', '3', '4', '5', '6', '7', '8', '9'][d]
  }

  function Itoa(n: nat): string {
    if n < 10 then [Digit(n)] else Itoa(n / 10) + [Digit(n % 10)]
  }

  /** nets.ConvertUint32ToIp: the dotted quad of the four bytes, lowest first. */
  function IpText(ip: uint32): string {
    Quad(ip % 256, ip / 256 % 256, ip / 0x1_0000 % 256, ip / 0x100_0000)
  }

  function ProcessId(direct: string, ip: uint32, port: uint32): string {
    direct + ":" + IpText(ip) + ":" + Itoa(port)
  }

  predicate Without(s: string, c: char) {
    forall i :: 0 <= i < |s| ==> s[i] != c
  }

  lemma {:induction false} ItoaHasDigitsOnly(n: nat)
    ensures Without(Itoa(n), ':') && Without(Itoa(n), '.')
  {
    if n >= 10 {
      ItoaHasDigitsOnly(n / 10);
    }
  }

  lemma {:induction false} ItoaInjective(m: nat, n: nat)
    requires Itoa(m) == Itoa(n)
    ensures m == n
  {
    var a, b := Itoa(m), Itoa(n);
    assert a[|a| - 1] == Digit(m % 10) && b[|b| - 1] == Digit(n % 10);
    if m >= 10 && n >= 10 {
      assert a[..|a| - 1] == Itoa(m / 10) && b[..|b| - 1] == Itoa(n / 10);
      ItoaInjective(m / 10, n / 10);
    }
  }

  /** A string splits at its last separator in one way only. */
  lemma SplitAtLast(a: string, x: string, b: string, y: string, c: char)
    requires Without(x, c) && Without(y, c)
    requires a + [c] + x == b + [c] + y
    ensures a == b && x == y
  {
    var s, t := a + [c] + x, b + [c] + y;
    assert s[|a|] == c && t[|b|] == c;
    if |a| < |b| {
      assert false;
    } else if |b| < |a| {
      assert false;
    }
    assert a == s[..|a|] && b == t[..|b|] && x == s[|a| + 1..] && y == t[|b| + 1..];
  }

  function Quad(a: nat, b: nat, c: nat, d: nat): string {
    Itoa(a) + "." + Itoa(b) + "." + Itoa(c) + "." + Itoa(d)
  }

  lemma QuadInjective(m0: nat, m1: nat, m2: nat, m3: nat, n0: nat, n1: nat, n2: nat, n3: nat)
    requires Quad(m0, m1, m2, m3) == Quad(n0, n1, n2, n3)
    ensures m0 == n0 && m1 == n1 && m2 == n2 && m3 == n3
  {
    ItoaHasDigitsOnly(m1); ItoaHasDigitsOnly(m2); ItoaHasDigitsOnly(m3);
    ItoaHasDigitsOnly(n1); ItoaHasDigitsOnly(n2); ItoaHasDigitsOnly(n3);
    SplitAtLast(Itoa(m0) + "." + Itoa(m1) + "." + Itoa(m2), Itoa(m3),
                Itoa(n0) + "." + Itoa(n1) + "." + Itoa(n2), Itoa(n3), '.');
    SplitAtLast(Itoa(m0) + "." + Itoa(m1), Itoa(m2), Itoa(n0) + "." + Itoa(n1), Itoa(n2), '.');
    SplitAtLast(Itoa(m0), Itoa(m1), Itoa(n0), Itoa(n1), '.');
    ItoaInjective(m0, n0); ItoaInjective(m1, n1); ItoaInjective(m2, n2); ItoaInjective(m3, n3);
  }

  lemma BytesOf(m: uint32)
    ensures m == m % 256 + 256 * (m / 256 % 256) + 0x1_0000 * (m / 0x1_0000 % 256) + 0x100_0000 * (m / 0x100_0000)
  {
  }

  lemma IpTextInjective(m: uint32, n: uint32)
    requires IpText(m) == IpText(n)
    ensures m == n
  {
    BytesOf(m);
    BytesOf(n);
    QuadInjective(m % 256, m / 256 % 256, m / 0x1_0000 % 256, m / 0x100_0000,
      n % 256, n / 256 % 256, n / 0x1_0000 % 256, n / 0x100_0000);
  }

  lemma IpTextHasNoColon(ip: uint32)
    ensures Without(IpText(ip), ':')
  {
    ItoaHasDigitsOnly(ip % 256);
    ItoaHasDigitsOnly(ip / 256 % 256);
    ItoaHasDigitsOnly(ip / 0x1_0000 % 256);
    ItoaHasDigitsOnly(ip / 0x100_0000);
  }

  /** No two flows share a name, whatever the direction strings contain. */
  lemma ProcessIdInjective(d: string, m: uint32, p: uint32, e: string, n: uint32, q: uint32)
    requires ProcessId(d, m, p) == ProcessId(e, n, q)
    ensures d == e && m == n && p == q
  {
    ItoaHasDigitsOnly(p);
    ItoaHasDigitsOnly(q);
    SplitAtLast(d + ":" + IpText(m), Itoa(p), e + ":" + IpText(n), Itoa(q), ':');
    IpTextHasNoColon(m);
    IpTextHasNoColon(n);
    SplitAtLast(d, IpText(m), e, IpText(n), ':');
    IpTextInjective(m, n);
    ItoaInjective(p, q);
  }

  /** Bitwise or. */
  function BitOr(a: nat, b: nat): nat {
    if a == 0 then b else if b == 0 then a
    else 2 * BitOr(a / 2, b / 2) + if a % 2 == 1 || b % 2 == 1 then 1 else 0
  }

  function Shl(x: nat, k: nat): nat {
    if k == 0 then x else 2 * Shl(x, k - 1)
  }

  lemma ShlByFour(x: nat, k: nat)
    ensures Shl(x, k + 4) == 16 * Shl(x, k)
  {
    assert Shl(x, k + 4) == 4 * Shl(x, k + 2);
  }

  lemma ShlBySixteen(x: nat, k: nat)
    ensures Shl(x, k + 16) == 0x1_0000 * Shl(x, k)
  {
    ShlByFour(x, k);
    ShlByFour(x, k + 4);
    ShlByFour(x, k + 8);
    ShlByFour(x, k + 12);
  }

  lemma {:induction false} BitOrBounded(a: nat, b: nat, k: nat)
    requires a < Shl(1, k) && b < Shl(1, k)
    ensures BitOr(a, b) < Shl(1, k)
  {
    if k > 0 {
      BitOrBounded(a / 2, b / 2, k - 1);
    }
  }

  /** Or-ing a value into zero low bits adds it. */
  lemma {:induction false} BitOrIntoLow(x: nat, p: nat, k: nat)
    requires p < Shl(1, k)
    ensures BitOr(Shl(x, k), p) == Shl(x, k) + p
  {
    if k > 0 {
      BitOrIntoLow(x, p / 2, k - 1);
    }
  }

  lemma WidthOfHalves(id: nat)
    ensures Shl(1, 16) == 0x1_0000 && Shl(1, 32) == 0x1_0000_0000 && Shl(id, 16) == 0x1_0000 * id
  {
    ShlBySixteen(1, 0);
    ShlBySixteen(1, 16);
    ShlBySixteen(id, 0);
  }

  /** Id in the high half, priority or-ed in below. */
  function GenerateClassId(priority: uint32, id: uint16): uint32 {
    WidthOfHalves(id);
    BitOrBounded(id * 0x1_0000, priority, 32);
    BitOr(id * 0x1_0000, priority)
  }

  /** The kernel recovers id and priority exactly when the priority fits its half. */
  lemma ClassIdRoundTrip(priority: uint32, id: uint16)
    ensures SplitId(GenerateClassId(priority, id)) == id && SplitPriority(GenerateClassId(priority, id)) == priority
       <==> priority < 0x1_0000
  {
    if priority < 0x1_0000 {
      WidthOfHalves(id);
      BitOrIntoLow(id, priority, 16);
    }
  }

  /** Below 2^16 the word is the id shifted by 16 bits plus the priority. */
  lemma ClassIdIs(priority: uint32, id: uint16)
    requires priority < 0x1_0000
    ensures GenerateClassId(priority, id) == 65536 * id + priority
  {
    WidthOfHalves(id);
    BitOrIntoLow(id, priority, 16);
  }

  function Atoi(s: string): int {
    if s == "" then 0 else 10 * Atoi(s[..|s| - 1]) + (s[|s| - 1] as int - '0' as int)
  }

  /** A number is written in decimal digits, the highest first. */
  lemma {:induction false} AtoiOfItoa(n: nat)
    ensures Atoi(Itoa(n)) == n && (n > 0 ==> Itoa(n)[0] != '0')
  {
    var s := Itoa(n);
    if n >= 10 {
      AtoiOfItoa(n / 10);
      assert s[..|s| - 1] == Itoa(n / 10);
      assert s[0] == Itoa(n / 10)[0];
    } else {
      assert s[..0] == "" && Atoi("") == 0;
    }
  }

  /** The lowest byte of an address is written first. */
  lemma IpTextOf(a: nat, b: nat, c: nat, d: nat)
    requires a < 256 && b < 256 && c < 256 && d < 256
    ensures IpText(a + 256 * b + 0x1_0000 * c + 0x100_0000 * d)
         == Itoa(a) + "." + Itoa(b) + "." + Itoa(c) + "." + Itoa(d)
  {
    FourBytes(a, b, c, d);
  }

  lemma FourBytes(a: nat, b: nat, c: nat, d: nat)
    requires a < 256 && b < 256 && c < 256 && d < 256
    ensures var ip := a + 256 * b + 0x1_0000 * c + 0x100_0000 * d;
      && ip < 0x1_0000_0000 && ip % 256 == a && ip / 256 % 256 == b
      && ip / 0x1_0000 % 256 == c && ip / 0x100_0000 == d
  {
    var high := c + 256 * d;
    var mid := b + 256 * high;
    var ip := a + 256 * b + 0x1_0000 * c + 0x100_0000 * d;
    assert ip == a + 256 * mid;
    LowByte(a, mid);
    LowByte(b, high);
    LowByte(c, d);
    DivideTwice(ip);
  }

  lemma DivideTwice(x: nat)
    ensures x / 0x1_0000 == x / 256 / 256 && x / 0x100_0000 == x / 256 / 256 / 256
  {
  }

  lemma LowByte(a: nat, rest: nat)
    requires a < 256
    ensures (a + 256 * rest) % 256 == a && (a + 256 * rest) / 256 == rest
  {
  }
}
