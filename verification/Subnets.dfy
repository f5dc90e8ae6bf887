/**
 * IPv4 subnet enumeration under 32-bit integer semantics: shifts and bitwise operators
 * yield signed 32-bit numbers, `>>>` yields an unsigned one, and the candidate loop runs on
 * plain numbers between two signed bounds.
 */
module Subnets {
  import opened Text


  function Pow2(n: nat): (p: int)
    ensures p >= 1
  {
    if n == 0 then 1 else 2 * Pow2(n - 1)
  }

  // -------------------------------------------------------- 32-bit operators

  function ToUint32(x: int): int { x % 0x1_0000_0000 }

  function ToInt32(x: int): int {
    if x % 0x1_0000_0000 >= 0x8000_0000 then x % 0x1_0000_0000 - 0x1_0000_0000 else x % 0x1_0000_0000
  }

  /** Bitwise and of the low `bits` bits. */
  function And(a: int, b: int, bits: nat): int
    requires a >= 0 && b >= 0
  {
    if bits == 0 then 0 else 2 * And(a / 2, b / 2, bits - 1) + (a % 2) * (b % 2)
  }

  /** Bitwise or of the low `bits` bits. */
  function Or(a: int, b: int, bits: nat): int
    requires a >= 0 && b >= 0
  {
    if bits == 0 then 0 else 2 * Or(a / 2, b / 2, bits - 1) + if a % 2 == 1 || b % 2 == 1 then 1 else 0
  }

  function BitAnd(a: int, b: int): int { ToInt32(And(ToUint32(a), ToUint32(b), 32)) }
  function BitOr(a: int, b: int): int { ToInt32(Or(ToUint32(a), ToUint32(b), 32)) }
  function BitNot(a: int): int { -ToInt32(a) - 1 }
  function ShiftLeft(a: int, n: nat): int { ToInt32(ToInt32(a) * Pow2(n)) }
  function ShiftRightUnsigned(a: int, n: nat): int { ToUint32(a) / Pow2(n) }

  // --------------------------------------------------------------- addresses

  /** Four dot-separated decimal numbers below 256. */
  predicate IsAddress(ip: string) {
    var parts := Split(ip, '.');
    |parts| == 4 && forall part <- parts :: part != "" && AllDigits(part) && Number(part) < 256
  }

  function FoldOctets(parts: seq<string>, acc: int): int
    requires forall part <- parts :: AllDigits(part)
  {
    if parts == [] then acc else FoldOctets(parts[1..], ShiftLeft(acc, 8) + Number(parts[0]))
  }

  function IpToLong(ip: string): int
    requires IsAddress(ip)
  {
    ShiftRightUnsigned(FoldOctets(Split(ip, '.'), 0), 0)
  }

  function OctetText(value: int, shift: nat): string {
    var octet := BitAnd(ShiftRightUnsigned(value, shift), 255);
    if octet >= 0 then Decimal(octet) else ""
  }

  function LongToIp(value: int): string {
    Join([OctetText(value, 24), OctetText(value, 16), OctetText(value, 8), OctetText(value, 0)], '.')
  }

  function Binary(n: int): string
    requires n >= 0
  {
    if n < 2 then [Digit(n)] else Binary(n / 2) + [Digit(n % 2)]
  }

  function WithoutZeros(s: string): string {
    if s == "" then "" else (if s[0] == '0' then "" else [s[0]]) + WithoutZeros(s[1..])
  }

  function OnesInOctets(parts: seq<string>): int
    requires forall part <- parts :: AllDigits(part)
  {
    if parts == [] then 0 else |WithoutZeros(Binary(Number(parts[0])))| + OnesInOctets(parts[1..])
  }

  function NetmaskToCidr(netmask: string): int
    requires IsAddress(netmask)
  {
    OnesInOctets(Split(netmask, '.'))
  }

  // --------------------------------------------------- the operators on masks

  lemma {:induction false} PowAdd(a: nat, b: nat)
    ensures Pow2(a + b) == Pow2(a) * Pow2(b)
  {
    if a > 0 { PowAdd(a - 1, b); }
  }

  lemma PowValues()
    ensures Pow2(8) == 256 && Pow2(16) == 65536 && Pow2(24) == 16777216 && Pow2(20) == 1048576 && Pow2(32) == 0x1_0000_0000 && Pow2(31) == 0x8000_0000 && Pow2(0) == 1
  {
    assert Pow2(4) == 16;
    PowAdd(4, 4);
    PowAdd(8, 8);
    PowAdd(16, 4);
    PowAdd(16, 8);
    PowAdd(16, 16);
    assert Pow2(32) == 2 * Pow2(31);
  }

  /** Halving a number halves its remainder by a power of two. */
  lemma {:induction false} HalfRemainder(x: int, h: nat)
    requires x >= 0 && h > 0
    ensures x % Pow2(h) == 2 * ((x / 2) % Pow2(h - 1)) + x % 2
  {
    var m, q, r := Pow2(h - 1), (x / 2) / Pow2(h - 1), (x / 2) % Pow2(h - 1);
    assert x == 2 * (q * m + r) + x % 2;
    assert x == q * (2 * m) + (2 * r + x % 2);
    RemainderIs(x, 2 * m, q, 2 * r + x % 2);
  }

  lemma {:induction false} RemainderIs(x: int, m: int, q: int, r: int)
    requires m > 0 && x == q * m + r && 0 <= r < m
    ensures x % m == r && x / m == q
  {
    var d := x / m - q;
    assert d * m == r - x % m;
    assert d >= 1 ==> d * m >= m;
    assert d <= -1 ==> d * m <= -m;
  }

  /** And with a number whose low h bits are 0 and next bits are 1 clears the low h bits. */
  lemma {:induction false} AndMask(x: int, h: nat, bits: nat)
    requires h <= bits && 0 <= x < Pow2(bits)
    ensures Pow2(bits) - Pow2(h) >= 0
    ensures And(x, Pow2(bits) - Pow2(h), bits) == x - x % Pow2(h)
  {
    if bits > 0 {
      var half := if h == 0 then 0 else h - 1;
      AndMask(x / 2, half, bits - 1);
      var mask, bit := Pow2(bits - 1) - Pow2(half), if h == 0 then 1 else 0;
      assert Pow2(bits) - Pow2(h) == 2 * mask + bit;
      if h > 0 { HalfRemainder(x, h); }
      AndStep(x, mask, bit, bits);
      hide And;
    }
  }

  lemma AndStep(x: int, b: int, bit: int, bits: nat)
    requires x >= 0 && b >= 0 && 0 <= bit <= 1 && bits > 0
    ensures And(x, 2 * b + bit, bits) == 2 * And(x / 2, b, bits - 1) + if bit == 1 then x % 2 else 0
  {
  }

  /** And with h ones keeps the low h bits. */
  lemma {:induction false} AndOnes(x: int, h: nat, bits: nat)
    requires h <= bits && 0 <= x < Pow2(bits)
    ensures And(x, Pow2(h) - 1, bits) == x % Pow2(h)
  {
    if h == 0 {
      AndZero(x, bits);
    } else {
      hide And;
      AndOnes(x / 2, h - 1, bits - 1);
      HalfRemainder(x, h);
      AndStep(x, Pow2(h - 1) - 1, 1, bits);
      assert Pow2(h) - 1 == 2 * (Pow2(h - 1) - 1) + 1;
    }
  }

  lemma {:induction false} AndZero(x: int, bits: nat)
    requires x >= 0
    ensures And(x, 0, bits) == 0
  {
    if bits > 0 { AndZero(x / 2, bits - 1); }
  }

  lemma HalfOnes(h: nat)
    requires h > 0
    ensures (Pow2(h) - 1) / 2 == Pow2(h - 1) - 1 && (Pow2(h) - 1) % 2 == 1
  {
    assert Pow2(h) - 1 == 2 * (Pow2(h - 1) - 1) + 1;
  }

  /** Or of a multiple of 2^h with h ones adds the ones. */
  lemma {:induction false} OrOnes(x: int, h: nat, bits: nat)
    requires h <= bits && 0 <= x < Pow2(bits) && x % Pow2(h) == 0
    ensures Or(x, Pow2(h) - 1, bits) == x + Pow2(h) - 1
  {
    if h == 0 {
      OrZero(x, bits);
    } else {
      HalfRemainder(x, h);
      HalfOnes(h);
      assert x / 2 < Pow2(bits - 1);
      OrOnes(x / 2, h - 1, bits - 1);
    }
  }

  lemma {:induction false} OrZero(x: int, bits: nat)
    requires 0 <= x < Pow2(bits)
    ensures Or(x, 0, bits) == x
  {
    if bits > 0 { OrZero(x / 2, bits - 1); }
  }

  // ------------------------------------------------------- text and back again

  lemma ToUint32Of(x: int)
    requires 0 <= x < 0x1_0000_0000
    ensures ToUint32(x) == x && ToUint32(ToInt32(x)) == x
    ensures x < 0x8000_0000 ==> ToInt32(x) == x
    ensures x >= 0x8000_0000 ==> ToInt32(x) == x - 0x1_0000_0000
  {
  }

  /** On unsigned operands the bitwise operators only convert their result. */
  lemma {:induction false} BitwiseOf(a: int, b: int)
    requires 0 <= a < 0x1_0000_0000 && 0 <= b < 0x1_0000_0000
    ensures BitAnd(a, b) == ToInt32(And(a, b, 32)) && BitOr(a, b) == ToInt32(Or(a, b, 32))
  {
    hide And, Or, ToInt32, ToUint32;
    ToUint32Of(a);
    ToUint32Of(b);
  }

  lemma LowByte(x: int)
    requires 0 <= x < 0x1_0000_0000
    ensures BitAnd(x, 255) == x % 256
  {
    hide And, BitAnd, Pow2, ToInt32;
    PowValues();
    AndOnes(x, 8, 32);
    BitwiseOf(x, 255);
    ToUint32Of(x % 256);
  }

  /** The octet at a shift, as an unsigned base-256 digit. */
  lemma {:induction false} OctetIs(value: int, shift: nat)
    ensures var x := ToUint32(value) / Pow2(shift); x >= 0 && OctetText(value, shift) == Decimal(x % 256)
  {
    QuotientBound(ToUint32(value), Pow2(shift));
    LowByte(ShiftRightUnsigned(value, shift));
    hide BitAnd, Pow2, Decimal;
  }

  lemma QuotientBound(x: int, d: int)
    requires x >= 0 && d >= 1
    ensures 0 <= x / d <= x
  {
    var q := x / d;
    if q < 0 {
      OrderedProducts(q, -1, d);
    } else {
      NonNegativeProduct(q, d - 1);
      assert q * (d - 1) == q * d - q;
    }
  }

  lemma NonNegativeProduct(a: int, b: int)
    requires a >= 0 && b >= 0
    ensures a * b >= 0
  {
  }

  function Combine(a: int, b: int, c: int, d: int): int { ((a * 256 + b) * 256 + c) * 256 + d }

  /** Shifting in one octet; the result may have wrapped to a negative number. */
  lemma ShiftInOctet(x: int)
    requires 0 <= x < 16777216
    ensures ShiftLeft(x, 8) == if x * 256 >= 0x8000_0000 then x * 256 - 0x1_0000_0000 else x * 256
  {
    PowValues();
    hide Pow2;
  }

  lemma FoldStep(parts: seq<string>, acc: int)
    requires parts != [] && forall part <- parts :: AllDigits(part)
    ensures FoldOctets(parts, acc) == FoldOctets(parts[1..], ShiftLeft(acc, 8) + Number(parts[0]))
    ensures |parts| == 1 ==> FoldOctets(parts, acc) == ShiftLeft(acc, 8) + Number(parts[0])
  {
  }

  lemma FoldFour(parts: seq<string>)
    requires |parts| == 4 && forall part <- parts :: AllDigits(part)
    ensures FoldOctets(parts, 0) ==
            ShiftLeft(ShiftLeft(ShiftLeft(ShiftLeft(0, 8) + Number(parts[0]), 8) + Number(parts[1]), 8) + Number(parts[2]), 8) + Number(parts[3])
  {
    hide ShiftLeft, Number, AllDigits, FoldOctets;
    var x1 := ShiftLeft(0, 8) + Number(parts[0]);
    var x2 := ShiftLeft(x1, 8) + Number(parts[1]);
    var x3 := ShiftLeft(x2, 8) + Number(parts[2]);
    assert parts[1..][1..] == parts[2..] && parts[2..][1..] == parts[3..];
    FoldStep(parts, 0);
    FoldStep(parts[1..], x1);
    FoldStep(parts[2..], x2);
    FoldStep(parts[3..], x3);
  }

  /** ipToLong is the base-256 number of the octets, whatever sign the shifts gave in between. */
  lemma IpToLongIs(ip: string)
    requires IsAddress(ip)
    ensures var parts := Split(ip, '.');
            && IpToLong(ip) == Combine(Number(parts[0]), Number(parts[1]), Number(parts[2]), Number(parts[3]))
            && 0 <= IpToLong(ip) < 0x1_0000_0000
  {
    var parts := Split(ip, '.');
    var a, b, c, d := Number(parts[0]), Number(parts[1]), Number(parts[2]), Number(parts[3]);
    FoldFour(parts);
    var fold := FoldOctets(parts, 0);
    ShiftInAll(a, b, c, d, fold);
    assert IpToLong(ip) == ToUint32(fold) by { assert Pow2(0) == 1; }
  }

  lemma {:induction false} ShiftInAll(a: int, b: int, c: int, d: int, fold: int)
    requires 0 <= a < 256 && 0 <= b < 256 && 0 <= c < 256 && 0 <= d < 256
    requires fold == ShiftLeft(ShiftLeft(ShiftLeft(ShiftLeft(0, 8) + a, 8) + b, 8) + c, 8) + d
    ensures ToUint32(fold) == Combine(a, b, c, d) && 0 <= Combine(a, b, c, d) < 0x1_0000_0000
  {
    hide ShiftLeft;
    ShiftInOctet(0);
    ShiftInOctet(a);
    ShiftInOctet(a * 256 + b);
    ShiftInOctet((a * 256 + b) * 256 + c);
    assert fold == Combine(a, b, c, d) || fold == Combine(a, b, c, d) - 0x1_0000_0000;
  }

  lemma JoinFour(a: string, b: string, c: string, d: string)
    requires AllDigits(a) && AllDigits(b) && AllDigits(c) && AllDigits(d)
    ensures Split(Join([a, b, c, d], '.'), '.') == [a, b, c, d]
  {
    SplitJoin([a, b, c, d], '.');
  }

  lemma Digits256(x: int)
    requires 0 <= x < 0x1_0000_0000
    ensures x == Combine(x / 16777216 % 256, x / 65536 % 256, x / 256 % 256, x % 256)
  {
    var y, z, w := x / 256, x / 65536, x / 16777216;
    assert z == y / 256 && w == z / 256;
    assert x == y * 256 + x % 256 && y == z * 256 + y % 256 && z == w * 256 + z % 256;
    assert w % 256 == w;
  }

  /** longToIp writes the four base-256 digits of the number modulo 2^32. */
  lemma LongToIpIs(value: int)
    ensures var x := ToUint32(value);
            LongToIp(value) == Join([Decimal(x / 16777216 % 256), Decimal(x / 65536 % 256), Decimal(x / 256 % 256), Decimal(x % 256)], '.')
  {
    PowValues();
    OctetIs(value, 24);
    OctetIs(value, 16);
    OctetIs(value, 8);
    OctetIs(value, 0);
    assert Pow2(0) == 1;
    hide OctetText, Decimal, Join, Pow2;
  }

  /** longToIp of any number is an address, and reads back as the number modulo 2^32. */
  lemma {:induction false} LongToIpReadsBack(value: int)
    ensures IsAddress(LongToIp(value)) && IpToLong(LongToIp(value)) == ToUint32(value)
  {
    var x := ToUint32(value);
    LongToIpIs(value);
    Digits256(x);
    var a, b, c, d := x / 16777216 % 256, x / 65536 % 256, x / 256 % 256, x % 256;
    JoinFour(Decimal(a), Decimal(b), Decimal(c), Decimal(d));
    NumberOfDecimal(a);
    NumberOfDecimal(b);
    NumberOfDecimal(c);
    NumberOfDecimal(d);
    hide Decimal, Join, Split, LongToIp, IpToLong, Combine, Number, ToUint32;
    IpToLongIs(LongToIp(value));
  }

  /** No octet is written with superfluous zeros. */
  predicate IsCanonical(ip: string)
    requires IsAddress(ip)
  {
    forall part <- Split(ip, '.') :: part == Decimal(Number(part))
  }

  lemma DigitsOfCombine(a: int, b: int, c: int, d: int)
    requires 0 <= a < 256 && 0 <= b < 256 && 0 <= c < 256 && 0 <= d < 256
    ensures var x := Combine(a, b, c, d);
            x / 16777216 % 256 == a && x / 65536 % 256 == b && x / 256 % 256 == c && x % 256 == d
  {
    RemainderIs(Combine(a, b, c, d), 16777216, a, (b * 256 + c) * 256 + d);
    RemainderIs(Combine(a, b, c, d), 65536, a * 256 + b, c * 256 + d);
    RemainderIs(Combine(a, b, c, d), 256, (a * 256 + b) * 256 + c, d);
    RemainderIs(a * 256 + b, 256, a, b);
    RemainderIs((a * 256 + b) * 256 + c, 256, a * 256 + b, c);
  }

  lemma FourParts(parts: seq<string>)
    requires |parts| == 4
    ensures parts == [parts[0], parts[1], parts[2], parts[3]]
  {
  }

  /** Writing the number of an address gives the address back exactly when it is canonical. */
  lemma {:induction false} AddressReadsBack(ip: string)
    requires IsAddress(ip)
    ensures LongToIp(IpToLong(ip)) == ip <==> IsCanonical(ip)
  {
    hide IpToLong, LongToIp, Decimal, Number, Join, Split, AllDigits, Combine;
    var parts, x := Split(ip, '.'), IpToLong(ip);
    var a, b, c, d := Number(parts[0]), Number(parts[1]), Number(parts[2]), Number(parts[3]);
    IpToLongIs(ip);
    LongToIpIs(x);
    ToUint32Of(x);
    DigitsOfCombine(a, b, c, d);
    JoinSplit(ip, '.');
    JoinFour(Decimal(a), Decimal(b), Decimal(c), Decimal(d));
    FourParts(parts);
    if IsCanonical(ip) {
      assert parts == [Decimal(a), Decimal(b), Decimal(c), Decimal(d)];
    }
  }

  /** Numbers that agree modulo 2^32 have the same text. */
  lemma LongToIpWraps(value: int)
    ensures LongToIp(value - 0x1_0000_0000) == LongToIp(value)
  {
    hide LongToIp, ToUint32, Decimal, Join;
    ToUint32Wraps(value);
    LongToIpIs(value);
    LongToIpIs(value - 0x1_0000_0000);
  }

  lemma ToUint32Wraps(value: int)
    ensures ToUint32(value - 0x1_0000_0000) == ToUint32(value)
  {
  }

  // ------------------------------------------------------------- enumeration

  function Network(address: string, netmask: string): int
    requires IsAddress(address) && IsAddress(netmask)
  {
    BitAnd(IpToLong(address), IpToLong(netmask))
  }

  function Broadcast(address: string, netmask: string): int
    requires IsAddress(address) && IsAddress(netmask)
  {
    BitOr(Network(address, netmask), ShiftRightUnsigned(BitNot(IpToLong(netmask)), 0))
  }

  /** The texts of the candidates from lo up to but not including hi that are not excluded. */
  function HostTexts(lo: int, hi: int, excluded: set<string>): seq<string>
    decreases hi - lo
  {
    if lo >= hi then []
    else (if LongToIp(lo) in excluded then [] else [LongToIp(lo)]) + HostTexts(lo + 1, hi, excluded)
  }

  lemma {:induction false} HostTextsSnoc(lo: int, hi: int, excluded: set<string>)
    requires lo <= hi
    ensures HostTexts(lo, hi + 1, excluded) ==
            HostTexts(lo, hi, excluded) + if LongToIp(hi) in excluded then [] else [LongToIp(hi)]
    decreases hi - lo
  {
    if lo < hi { HostTextsSnoc(lo + 1, hi, excluded); }
  }

  method EnumerateHostAddresses(address: string, netmask: string, excludeAddresses: seq<string>) returns (hosts: seq<string>)
    requires IsAddress(address) && IsAddress(netmask)
    ensures hosts == Hosts(address, netmask, set e | e in excludeAddresses)
    ensures forall p :: 1 <= p && IsPrefixMask(netmask, p) ==>
              var base := Base(IpToLong(address), 32 - p);
              ListsExactly(hosts, base + 1, base + Pow2(32 - p) - 1, set e | e in excludeAddresses)
  {
    hide BitAnd, BitOr, BitNot, ShiftRightUnsigned, IpToLong, LongToIp, IsAddress, ListsExactly, ExcludedBetween, Base, Pow2;
    var mask := IpToLong(netmask);
    var network := BitAnd(IpToLong(address), mask);
    var broadcast := BitOr(network, ShiftRightUnsigned(BitNot(mask), 0));
    var excluded := set e | e in excludeAddresses;
    hosts := [];
    var candidate := network + 1;
    while candidate < broadcast
      invariant network + 1 <= candidate
      invariant candidate <= broadcast || candidate == network + 1
      invariant hosts == HostTexts(network + 1, candidate, excluded)
    {
      HostTextsSnoc(network + 1, candidate, excluded);
      var ip := LongToIp(candidate);
      if ip !in excluded {
        hosts := hosts + [ip];
      }
      candidate := candidate + 1;
    }
    forall p | 1 <= p && IsPrefixMask(netmask, p)
      ensures var base := Base(IpToLong(address), 32 - p); ListsExactly(hosts, base + 1, base + Pow2(32 - p) - 1, excluded) {
      SubnetHosts(address, netmask, p, excluded);
    }
  }

  /** The unsigned number of the first address of the subnet of size 2^h that holds x. */
  function Base(x: int, h: nat): int { x - x % Pow2(h) }

  predicate IsPrefixMask(netmask: string, p: int) {
    0 <= p <= 32 && IsAddress(netmask) && IpToLong(netmask) == 0x1_0000_0000 - Pow2(32 - p)
  }

  /** Blocks of size m lie on one side of a boundary that is a multiple of m. */
  lemma {:induction false} BlocksDoNotStraddle(q: int, m: int, r: int, half: int)
    requires m >= 1 && half >= 1 && q >= 0 && 0 <= r < m && q * m + r < 2 * (half * m)
    ensures q * m + m <= 2 * (half * m)
    ensures q * m >= half * m || q * m + m <= half * m
  {
    if q < half {
      NonNegativeProduct(half - q - 1, m);
      assert (half - q - 1) * m == half * m - q * m - m;
    } else {
      NonNegativeProduct(q - half, m);
      assert (q - half) * m == q * m - half * m;
      BlockEnds(q - half, m, half);
    }
  }

  /** A block that starts below n blocks ends there at the latest. */
  lemma {:induction false} BlockEnds(q: int, m: int, n: int)
    requires m >= 1 && q * m < n * m
    ensures q * m + m <= n * m
  {
    if q < n {
      NonNegativeProduct(n - q - 1, m);
      assert (n - q - 1) * m == n * m - q * m - m;
    } else {
      OrderedProducts(n, q, m);
    }
  }

  lemma OrderedProducts(a: int, b: int, m: int)
    requires a <= b && m >= 0
    ensures a * m <= b * m
  {
    NonNegativeProduct(b - a, m);
    assert (b - a) * m == b * m - a * m;
  }

  /** A subnet of at most half the address space lies on one side of the sign boundary. */
  lemma {:induction false} OneSide(x: int, h: nat)
    requires 0 <= x < 0x1_0000_0000 && h <= 31
    ensures 0 <= Base(x, h) && Base(x, h) + Pow2(h) <= 0x1_0000_0000
    ensures Base(x, h) >= 0x8000_0000 || Base(x, h) + Pow2(h) <= 0x8000_0000
  {
    PowValues();
    PowAdd(31 - h, h);
    BaseIsMultiple(x, h);
    QuotientBound(x, Pow2(h));
    BlocksDoNotStraddle(x / Pow2(h), Pow2(h), x % Pow2(h), Pow2(31 - h));
    hide Pow2;
  }

  /** The start of a block is the block number times the block size. */
  lemma {:induction false} BaseIsMultiple(x: int, h: nat)
    requires x >= 0
    ensures Base(x, h) == (x / Pow2(h)) * Pow2(h) && Base(x, h) % Pow2(h) == 0
    ensures 0 <= Base(x, h) <= x < Base(x, h) + Pow2(h)
  {
    hide Pow2;
    BlockStart(x, Pow2(h));
  }

  lemma {:induction false} BlockStart(x: int, m: int)
    requires x >= 0 && m >= 1
    ensures x - x % m == (x / m) * m && (x - x % m) % m == 0 && x - x % m >= 0
  {
    var q := x / m;
    QuotientBound(x, m);
    NonNegativeProduct(q, m);
    RemainderIs(q * m, m, q, 0);
  }

  lemma {:induction false} NetworkIs(a: int, h: nat)
    requires 0 <= a < 0x1_0000_0000 && h <= 32
    ensures BitAnd(a, 0x1_0000_0000 - Pow2(h)) == ToInt32(Base(a, h))
  {
    hide And, BitAnd, Pow2, ToInt32;
    PowValues();
    PowMonotone(h, 32);
    AndMask(a, h, 32);
    BitwiseOf(a, 0x1_0000_0000 - Pow2(h));
  }

  lemma HostMask(h: nat)
    requires h <= 32
    ensures ShiftRightUnsigned(BitNot(0x1_0000_0000 - Pow2(h)), 0) == Pow2(h) - 1
  {
    hide Pow2, ShiftRightUnsigned;
    PowValues();
    PowMonotone(h, 32);
    if h <= 31 { PowMonotone(h, 31); }
    NotOfMask(Pow2(h));
    ShiftByZero(BitNot(0x1_0000_0000 - Pow2(h)));
  }

  lemma NotOfMask(m: int)
    requires 1 <= m <= 0x8000_0000 || m == 0x1_0000_0000
    ensures ToUint32(BitNot(0x1_0000_0000 - m)) == m - 1
  {
    assert BitNot(0x1_0000_0000 - m) == if m == 0x1_0000_0000 then -1 else m - 1;
  }

  lemma ShiftByZero(x: int)
    ensures ShiftRightUnsigned(x, 0) == ToUint32(x)
  {
  }

  lemma {:induction false} BroadcastIs(base: int, h: nat)
    requires 0 <= base < 0x1_0000_0000 && h <= 32 && base % Pow2(h) == 0
    ensures BitOr(ToInt32(base), Pow2(h) - 1) == ToInt32(base + Pow2(h) - 1)
  {
    hide Or, Pow2, ToInt32, ToUint32;
    PowValues();
    PowMonotone(h, 32);
    OrOnes(base, h, 32);
    BitwiseOf(base, Pow2(h) - 1);
    ToUint32Of(base);
    ToUint32Of(Pow2(h) - 1);
  }

  /** The signed network and broadcast numbers of a prefix mask. */
  lemma {:induction false} SignedBounds(address: string, netmask: string, p: int)
    requires IsAddress(address) && IsPrefixMask(netmask, p)
    ensures var h := 32 - p; var base := Base(IpToLong(address), h);
            && Network(address, netmask) == ToInt32(base)
            && Broadcast(address, netmask) == ToInt32(base + Pow2(h) - 1)
  {
    hide BitAnd, BitOr, BitNot, ShiftRightUnsigned, ToInt32, Pow2, Base, IsAddress, IpToLong;
    var h, a := 32 - p, IpToLong(address);
    IpToLongIs(address);
    NetworkIs(a, h);
    HostMask(h);
    BaseIsMultiple(a, h);
    BroadcastIs(Base(a, h), h);
  }

  lemma {:induction false} PowMonotone(a: nat, b: nat)
    requires a <= b
    ensures Pow2(a) <= Pow2(b)
  {
    if a < b { PowMonotone(a, b - 1); }
  }

  lemma {:induction false} HostTextsWrap(lo: int, hi: int, excluded: set<string>)
    ensures HostTexts(lo - 0x1_0000_0000, hi - 0x1_0000_0000, excluded) == HostTexts(lo, hi, excluded)
    decreases hi - lo
  {
    if lo < hi {
      LongToIpWraps(lo);
      HostTextsWrap(lo + 1, hi, excluded);
    }
    hide LongToIp;
  }

  // ---------------------------------------------------------- what is enumerated

  /** The numbers strictly between the bounds whose text is excluded. */
  ghost function ExcludedBetween(lo: int, hi: int, excluded: set<string>): set<int> {
    set u | lo <= u < hi && LongToIp(u) in excluded
  }

  /** Ascending, free of duplicates, and exactly the addresses from lo below hi that are not excluded. */
  ghost predicate ListsExactly(hosts: seq<string>, lo: int, hi: int, excluded: set<string>) {
    && (forall i | 0 <= i < |hosts| :: IsAddress(hosts[i]) && lo <= IpToLong(hosts[i]) < hi && hosts[i] !in excluded)
    && (forall i, j | 0 <= i < j < |hosts| :: IpToLong(hosts[i]) < IpToLong(hosts[j]))
    && (forall u | lo <= u < hi && LongToIp(u) !in excluded :: LongToIp(u) in hosts)
  }

  /** Putting the lowest candidate in front, unless it is excluded. */
  lemma {:induction false} ListsOneMore(rest: seq<string>, text: string, lo: int, hi: int, excluded: set<string>)
    requires lo < hi && ListsExactly(rest, lo + 1, hi, excluded)
    requires text == LongToIp(lo) && IsAddress(text) && IpToLong(text) == lo
    ensures ListsExactly((if text in excluded then [] else [text]) + rest, lo, hi, excluded)
  {
    hide LongToIp, IpToLong, IsAddress;
    var hosts := (if text in excluded then [] else [text]) + rest;
    forall u | lo <= u < hi && LongToIp(u) !in excluded ensures LongToIp(u) in hosts {
      if u == lo { assert hosts[0] == text; }
    }
  }

  lemma {:induction false} ExcludedOneMore(lo: int, hi: int, excluded: set<string>)
    requires lo < hi
    ensures |ExcludedBetween(lo, hi, excluded)| ==
            |ExcludedBetween(lo + 1, hi, excluded)| + if LongToIp(lo) in excluded then 1 else 0
  {
    hide LongToIp;
    var rest := ExcludedBetween(lo + 1, hi, excluded);
    assert ExcludedBetween(lo, hi, excluded) == if LongToIp(lo) in excluded then rest + {lo} else rest;
  }

  lemma {:induction false} HostTextsExact(lo: int, hi: int, excluded: set<string>)
    requires 0 <= lo && hi <= 0x1_0000_0000
    ensures ListsExactly(HostTexts(lo, hi, excluded), lo, hi, excluded)
    ensures |HostTexts(lo, hi, excluded)| == (if lo < hi then hi - lo else 0) - |ExcludedBetween(lo, hi, excluded)|
    decreases hi - lo
  {
    hide LongToIp, IpToLong, IsAddress, ToUint32;
    if lo < hi {
      hide ListsExactly, ExcludedBetween;
      HostTextsExact(lo + 1, hi, excluded);
      LongToIpReadsBack(lo);
      ToUint32Of(lo);
      ListsOneMore(HostTexts(lo + 1, hi, excluded), LongToIp(lo), lo, hi, excluded);
      ExcludedOneMore(lo, hi, excluded);
    } else {
      assert ExcludedBetween(lo, hi, excluded) == {};
    }
  }

  /** The enumeration of a subnet as the specification of its loop. */
  function Hosts(address: string, netmask: string, excluded: set<string>): seq<string>
    requires IsAddress(address) && IsAddress(netmask)
  {
    HostTexts(Network(address, netmask) + 1, Broadcast(address, netmask), excluded)
  }

  /**
   * For every prefix mask from /1 to /32 the enumeration is strictly ascending as unsigned
   * addresses and exactly the addresses strictly between network and broadcast that are not
   * excluded, although the loop runs on signed numbers.
   */
  lemma {:induction false} SubnetHosts(address: string, netmask: string, p: int, excluded: set<string>)
    requires IsAddress(address) && IsPrefixMask(netmask, p) && p >= 1
    ensures var base := Base(IpToLong(address), 32 - p); var last := base + Pow2(32 - p) - 1;
            && ListsExactly(Hosts(address, netmask, excluded), base + 1, last, excluded)
            && |Hosts(address, netmask, excluded)| ==
               (if p >= 31 then 0 else Pow2(32 - p) - 2) - |ExcludedBetween(base + 1, last, excluded)|
  {
    hide Pow2, Base, LongToIp, IpToLong, IsAddress, Network, Broadcast, HostTexts, ListsExactly, ExcludedBetween;
    var h, a := 32 - p, IpToLong(address);
    var base := Base(a, h);
    var last := base + Pow2(h) - 1;
    IpToLongIs(address);
    SignedBounds(address, netmask, p);
    OneSide(a, h);
    HostTextsExact(base + 1, last, excluded);
    HostTextsWrap(base + 1, last, excluded);
    SmallPowers(h);
  }

  lemma SmallPowers(h: nat)
    ensures h <= 1 ==> Pow2(h) <= 2
    ensures h >= 2 ==> Pow2(h) >= 4
  {
    if h >= 2 {
      PowMonotone(2, h);
      assert Pow2(2) == 4;
    }
  }

  /** For /0 the signed broadcast number is -1, so the loop is empty. */
  lemma {:induction false} SlashZeroIsEmpty(address: string, netmask: string, excluded: set<string>)
    requires IsAddress(address) && IsPrefixMask(netmask, 0)
    ensures Hosts(address, netmask, excluded) == [] && Base(IpToLong(address), 32) == 0
  {
    hide Pow2, LongToIp, IpToLong, IsAddress, Network, Broadcast, ToInt32;
    PowValues();
    IpToLongIs(address);
    SignedBounds(address, netmask, 0);
    ToUint32Of(0);
    ToUint32Of(0xFFFF_FFFF);
  }

  /** The enumeration covers the subnet exactly when the prefix is at least 1. */
  lemma CoversUnlessSlashZero(address: string, netmask: string, p: int)
    requires IsAddress(address) && IsPrefixMask(netmask, p)
    ensures var base := Base(IpToLong(address), 32 - p);
            (forall u | base < u < base + Pow2(32 - p) - 1 :: LongToIp(u) in Hosts(address, netmask, {})) <==> p >= 1
  {
    hide LongToIp, IpToLong, IsAddress, Hosts;
    if p >= 1 {
      SubnetHosts(address, netmask, p, {});
    } else {
      SlashZeroIsEmpty(address, netmask, {});
      PowValues();
      assert LongToIp(1) !in Hosts(address, netmask, {});
    }
  }

  // --------------------------------------------------------- private addresses

  predicate IsPrivateIPv4(address: string)
    requires IsAddress(address)
  {
    var parts := Split(address, '.');
    var first, second := Number(parts[0]), Number(parts[1]);
    first == 10 || (first == 172 && 16 <= second <= 31) || (first == 192 && second == 168)
  }

  /** The private addresses are those of 10/8, 172.16/12 and 192.168/16 (section 3 of RFC 1918). */
  lemma PrivateBlocks(address: string)
    requires IsAddress(address)
    ensures var x := IpToLong(address);
            IsPrivateIPv4(address) <==>
            Base(x, 24) == Combine(10, 0, 0, 0) || Base(x, 20) == Combine(172, 16, 0, 0) || Base(x, 16) == Combine(192, 168, 0, 0)
  {
    hide Pow2, IpToLong, Number;
    PowValues();
    IpToLongIs(address);
    var parts := Split(address, '.');
    BlockOfOctets(Number(parts[0]), Number(parts[1]), Number(parts[2]), Number(parts[3]));
  }

  /** The /8, /12 and /16 blocks of an address, from its octets. */
  lemma BlockOfOctets(a: int, b: int, c: int, d: int)
    requires 0 <= a < 256 && 0 <= b < 256 && 0 <= c < 256 && 0 <= d < 256
    ensures var x := Combine(a, b, c, d);
            && x - x % 16777216 == a * 16777216
            && x - x % 1048576 == a * 16777216 + b / 16 * 1048576
            && x - x % 65536 == a * 16777216 + b * 65536
  {
    var x := Combine(a, b, c, d);
    RemainderIs(x, 16777216, a, (b * 256 + c) * 256 + d);
    RemainderIs(x, 1048576, a * 16 + b / 16, (b % 16 * 256 + c) * 256 + d);
    RemainderIs(x, 65536, a * 256 + b, c * 256 + d);
  }

  // ------------------------------------------------------------------ netmasks

  lemma {:induction false} DropZerosAppend(a: string, b: string)
    ensures WithoutZeros(a + b) == WithoutZeros(a) + WithoutZeros(b)
  {
    if a == "" {
      assert a + b == b;
    } else {
      assert (a + b)[1..] == a[1..] + b;
      DropZerosAppend(a[1..], b);
    }
  }

  function Ones(n: int): int
    requires n >= 0
  {
    |WithoutZeros(Binary(n))|
  }

  lemma OnesDouble(n: int)
    requires n >= 0
    ensures Ones(2 * n) == Ones(n) && Ones(2 * n + 1) == Ones(n) + 1
  {
    OneDigit('0');
    OneDigit('1');
    if n > 0 {
      assert (2 * n) / 2 == n && (2 * n + 1) / 2 == n && (2 * n) % 2 == 0 && (2 * n + 1) % 2 == 1;
      DropZerosAppend(Binary(n), "0");
      DropZerosAppend(Binary(n), "1");
    }
  }

  lemma OneDigit(c: char)
    ensures WithoutZeros([c]) == if c == '0' then "" else [c]
  {
    assert [c][1..] == "";
  }

  /** The ones of the octet with k leading ones. */
  lemma {:induction false} OnesOfRun(k: nat, z: nat)
    ensures (Pow2(k) - 1) * Pow2(z) >= 0 && Ones((Pow2(k) - 1) * Pow2(z)) == k
  {
    if z > 0 {
      hide Ones;
      OnesOfRun(k, z - 1);
      OnesDouble((Pow2(k) - 1) * Pow2(z - 1));
      DoubleProduct(Pow2(k) - 1, Pow2(z - 1));
    } else {
      OnesOfAll(k);
      assert (Pow2(k) - 1) * Pow2(z) == Pow2(k) - 1;
    }
  }

  lemma {:induction false} OnesOfAll(k: nat)
    ensures Ones(Pow2(k) - 1) == k
  {
    if k > 0 {
      hide Ones;
      OnesOfAll(k - 1);
      var n := Pow2(k - 1) - 1;
      assert n >= 0 && Pow2(k) - 1 == 2 * n + 1;
      hide Pow2;
      OnesDouble(n);
    } else {
      OneDigit('0');
      assert Pow2(k) == 1 && Binary(0) == "0";
    }
  }

  lemma DoubleProduct(a: int, b: int)
    ensures a * (2 * b) == 2 * (a * b)
  {
  }

  /** The i-th octet of a prefix mask has this many leading ones. */
  function OnesInOctet(p: int, i: int): int {
    if p <= 8 * i then 0 else if p >= 8 * i + 8 then 8 else p - 8 * i
  }

  lemma MaskOctet(k: int)
    requires 0 <= k <= 8
    ensures 0 <= 256 - Pow2(8 - k) <= 255 && Ones(256 - Pow2(8 - k)) == k
  {
    hide Pow2, Ones;
    PowValues();
    PowAdd(k, 8 - k);
    PowMonotone(8 - k, 8);
    OnesOfRun(k, 8 - k);
    OneLess(Pow2(k), Pow2(8 - k));
  }

  lemma OneLess(a: int, b: int)
    ensures (a - 1) * b == a * b - b
  {
  }

  /** The base-256 digits of a prefix mask. */
  lemma MaskDigits(p: int, a: int, b: int, c: int, d: int)
    requires 0 <= p <= 32 && 0 <= a < 256 && 0 <= b < 256 && 0 <= c < 256 && 0 <= d < 256
    requires Combine(a, b, c, d) == 0x1_0000_0000 - Pow2(32 - p)
    ensures a == 256 - Pow2(8 - OnesInOctet(p, 0)) && b == 256 - Pow2(8 - OnesInOctet(p, 1))
    ensures c == 256 - Pow2(8 - OnesInOctet(p, 2)) && d == 256 - Pow2(8 - OnesInOctet(p, 3))
  {
    hide Pow2, Combine;
    var q := if p < 8 then 0 else if p < 16 then 1 else if p < 24 then 2 else 3;
    PowEnds();
    PowMonotone(8 * q + 8 - p, 8);
    PowBytes(8 * q + 8 - p);
    DigitsOfRun(q, Pow2(8 * q + 8 - p), a, b, c, d);
  }

  lemma PowEnds()
    ensures Pow2(0) == 1 && Pow2(8) == 256
  {
    PowValues();
  }

  lemma PowBytes(a: nat)
    ensures Pow2(a + 8) == 256 * Pow2(a) && Pow2(a + 16) == 65536 * Pow2(a) && Pow2(a + 24) == 16777216 * Pow2(a)
  {
    PowValues();
    PowAdd(a, 8);
    PowAdd(a, 16);
    PowAdd(a, 24);
    hide Pow2;
  }

  /** Subtracting z units of the q-th digit from 256^4. */
  lemma DigitsOfRun(q: int, z: int, a: int, b: int, c: int, d: int)
    requires 0 <= q <= 3 && 1 <= z <= 256
    requires 0 <= a < 256 && 0 <= b < 256 && 0 <= c < 256 && 0 <= d < 256
    requires q == 0 ==> Combine(a, b, c, d) == 0x1_0000_0000 - 16777216 * z
    requires q == 1 ==> Combine(a, b, c, d) == 0x1_0000_0000 - 65536 * z
    requires q == 2 ==> Combine(a, b, c, d) == 0x1_0000_0000 - 256 * z
    requires q == 3 ==> Combine(a, b, c, d) == 0x1_0000_0000 - z
    ensures a == if q == 0 then 256 - z else 255
    ensures b == if q < 1 then 0 else if q == 1 then 256 - z else 255
    ensures c == if q < 2 then 0 else if q == 2 then 256 - z else 255
    ensures d == if q < 3 then 0 else 256 - z
  {
  }

  /** netmaskToCidr of a prefix mask is the prefix length (section 3.1 of RFC 4632). */
  lemma CidrOfPrefixMask(netmask: string, p: int)
    requires IsPrefixMask(netmask, p)
    ensures NetmaskToCidr(netmask) == p
  {
    var parts := Split(netmask, '.');
    assert parts == [parts[0], parts[1], parts[2], parts[3]];
    IpToLongIs(netmask);
    OnesFour(parts[0], parts[1], parts[2], parts[3]);
    MaskOnes(p, Number(parts[0]), Number(parts[1]), Number(parts[2]), Number(parts[3]));
  }

  lemma MaskOnes(p: int, a: int, b: int, c: int, d: int)
    requires 0 <= p <= 32 && 0 <= a < 256 && 0 <= b < 256 && 0 <= c < 256 && 0 <= d < 256
    requires Combine(a, b, c, d) == 0x1_0000_0000 - Pow2(32 - p)
    ensures Ones(a) + Ones(b) + Ones(c) + Ones(d) == p
  {
    hide Ones, Pow2, Combine;
    MaskDigits(p, a, b, c, d);
    MaskOctet(OnesInOctet(p, 0));
    MaskOctet(OnesInOctet(p, 1));
    MaskOctet(OnesInOctet(p, 2));
    MaskOctet(OnesInOctet(p, 3));
  }

  lemma OnesStep(parts: seq<string>)
    requires parts != [] && forall part <- parts :: AllDigits(part)
    ensures OnesInOctets(parts) == Ones(Number(parts[0])) + OnesInOctets(parts[1..])
    ensures |parts| == 1 ==> OnesInOctets(parts) == Ones(Number(parts[0]))
  {
  }

  lemma {:induction false} OnesFour(a: string, b: string, c: string, d: string)
    requires AllDigits(a) && AllDigits(b) && AllDigits(c) && AllDigits(d)
    ensures OnesInOctets([a, b, c, d]) == Ones(Number(a)) + Ones(Number(b)) + Ones(Number(c)) + Ones(Number(d))
  {
    hide Ones, Number, AllDigits, OnesInOctets;
    OnesStep([a, b, c, d]);
    assert [a, b, c, d][1..] == [b, c, d];
    OnesStep([b, c, d]);
    assert [b, c, d][1..] == [c, d];
    OnesStep([c, d]);
    assert [c, d][1..] == [d];
    OnesStep([d]);
  }

}
