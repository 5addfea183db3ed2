/** The typed reads and writes of ByteArray: fixed widths, varints, zigzag, strings with a length in front. */
module ByteCodec {
  import opened ByteBlocks
  import opened ByteArrays

  // ---- fixed widths ----

  function Pow256(n: nat): (p: nat)
    ensures p > 0
  {
    if n == 0 then 1 else 256 * Pow256(n - 1)
  }

  /** The `n` bytes of `v`, the lowest first. */
  function LittleEndian(v: nat, n: nat): (s: seq<byte>)
    ensures |s| == n
  {
    if n == 0 then [] else [v % 256] + LittleEndian(v / 256, n - 1)
  }

  function FromLittle(s: seq<byte>): nat {
    if s == [] then 0 else s[0] + 256 * FromLittle(s[1..])
  }

  function Reverse(s: seq<byte>): (r: seq<byte>)
    ensures |r| == |s| && forall i :: 0 <= i < |s| ==> r[i] == s[|s| - 1 - i]
  {
    if s == [] then [] else Reverse(s[1..]) + [s[0]]
  }

  /** bswap_16, bswap_32, bswap_64: the same bytes the other way round. */
  function Byteswap(v: nat, n: nat): nat {
    FromLittle(Reverse(LittleEndian(v, n)))
  }

  /** An `n`-byte integer as it lies in the memory of the host. */
  function Image(v: nat, n: nat, hostLittle: bool): seq<byte> {
    if hostLittle then LittleEndian(v, n) else Reverse(LittleEndian(v, n))
  }

  function FromImage(s: seq<byte>, hostLittle: bool): nat {
    FromLittle(if hostLittle then s else Reverse(s))
  }

  lemma {:induction false} LittleRange(s: seq<byte>)
    ensures FromLittle(s) < Pow256(|s|)
  {
    if s == [] {
    } else {
      LittleRange(s[1..]);
    }
  }

  lemma {:induction false} LittleInverse(v: nat, n: nat)
    requires v < Pow256(n)
    ensures FromLittle(LittleEndian(v, n)) == v
  {
    if n == 0 {
    } else {
      LittleInverse(v / 256, n - 1);
      assert LittleEndian(v, n)[1..] == LittleEndian(v / 256, n - 1);
    }
  }

  lemma {:induction false} BytesInverse(s: seq<byte>)
    ensures LittleEndian(FromLittle(s), |s|) == s
  {
    if s == [] {
    } else {
      BytesInverse(s[1..]);
      var v := FromLittle(s);
      assert v % 256 == s[0] && v / 256 == FromLittle(s[1..]);
      assert s == [s[0]] + s[1..];
    }
  }

  /** The lowest byte comes first. */
  lemma {:induction false} LittleEndianAt(v: nat, n: nat, i: nat)
    requires i < n
    ensures LittleEndian(v, n)[i] == (v / Pow256(i)) % 256
  {
    if i == 0 {
      assert Pow256(0) == 1;
    } else {
      LittleEndianAt(v / 256, n - 1, i - 1);
      assert Pow256(i) == 256 * Pow256(i - 1);
      DivTwice(v, 256, Pow256(i - 1));
    }
  }

  lemma DivTwice(v: nat, a: nat, b: nat)
    requires a > 0 && b > 0
    ensures a * b > 0 && v / a / b == v / (a * b)
  {
    var u, w, q, r := v / a, v % a, v / a / b, (v / a) % b;
    DivModIs(v, a);
    DivModIs(u, b);
    Nested(v, a, b, u, w, q, r);
    DivModOf(v, a * b, q, a * r + w);
  }

  lemma DivModIs(v: nat, d: nat)
    requires d > 0
    ensures v == d * (v / d) + v % d && v % d < d
  {
  }

  lemma Nested(v: nat, a: nat, b: nat, u: nat, w: nat, q: nat, r: nat)
    requires v == a * u + w && w < a && u == b * q + r && r < b
    ensures a * b > 0 && a * r + w < a * b && v == q * (a * b) + (a * r + w)
  {
    Spread(a, b * q, r);
    Regrouped(a, b, q);
    Spread(a, r + 1, b - 1 - r);
    Spread(a, r, 1);
    MulMono(0, b - 1 - r, a);
  }

  lemma Spread(a: nat, x: nat, y: nat)
    ensures a * (x + y) == a * x + a * y
  {
  }

  lemma Regrouped(a: nat, b: nat, q: nat)
    ensures a * (b * q) == q * (a * b)
  {
  }

  lemma ReverseTwice(s: seq<byte>)
    ensures Reverse(Reverse(s)) == s
  {
  }

  /** The bytes written do not depend on the host: the array's own order decides. */
  lemma HostDoesNotMatter(v: nat, n: nat, little: bool, hostLittle: bool)
    ensures Image(if little != hostLittle then Byteswap(v, n) else v, n, hostLittle)
         == if little then LittleEndian(v, n) else Reverse(LittleEndian(v, n))
  {
    BytesInverse(Reverse(LittleEndian(v, n)));
    ReverseTwice(LittleEndian(v, n));
  }

  /** What a fixed-width read makes of its bytes. */
  function FromBytes(s: seq<byte>, little: bool, hostLittle: bool): nat {
    var v := FromImage(s, hostLittle);
    if little == hostLittle then v else Byteswap(v, |s|)
  }

  lemma FixedInverse(v: nat, n: nat, little: bool, hostLittle: bool)
    requires v < Pow256(n)
    ensures FromBytes(if little then LittleEndian(v, n) else Reverse(LittleEndian(v, n)), little, hostLittle) == v
  {
    var x := LittleEndian(v, n);
    ReverseTwice(x);
    BytesInverse(x);
    BytesInverse(Reverse(x));
    LittleInverse(v, n);
  }

  /** The unsigned value with the bits of `v`. */
  function Residue(v: int, n: nat): nat {
    v % Pow256(n)
  }

  function AsSigned(u: nat, n: nat): int {
    if 2 * u < Pow256(n) then u else u - Pow256(n)
  }

  lemma SignedInverse(v: int, n: nat)
    requires 0 - Pow256(n) <= 2 * v < Pow256(n)
    ensures AsSigned(Residue(v, n), n) == v && Residue(v, n) < Pow256(n)
  {
    hide Pow256;
    ModWrap(v, Pow256(n));
  }

  lemma ModWrap(v: int, p: nat)
    requires p > 0 && 0 - p <= v < p
    ensures v % p == if v < 0 then v + p else v
  {
  }

  // ---- varints ----

  function Pow2(n: nat): (p: nat)
    ensures p > 0
  {
    if n == 0 then 1 else 2 * Pow2(n - 1)
  }

  function Varint(v: nat): (s: seq<byte>)
    ensures s != []
  {
    if v < 0x80 then [v] else [v % 0x80 + 0x80] + Varint(v / 0x80)
  }

  /** EncodeZigzag: 0, -1, 1, -2 to 0, 1, 2, 3; in the unsigned arithmetic of the width, which wraps for the
      most negative value. */
  function EncodeZigzag(v: int, bits: nat): nat {
    var p := Pow2(bits);
    if v < 0 then (((0 - v) % p) * 2 - 1) % p else (v * 2) % p
  }

  /** DecodeZigzag: (v >> 1) ^ -(v & 1). The right operand is zero or all ones, so the bits of the left one
      stay or are inverted; the result is read as a signed number. */
  function DecodeZigzag(u: nat, bits: nat): int {
    var p := Pow2(bits);
    var x := if u % 2 == 0 then u / 2 else p - 1 - u / 2;
    if 2 * x < p then x else x - p
  }

  predicate InSigned(v: int, bits: nat) {
    0 - Pow2(bits) <= 2 * v < Pow2(bits)
  }

  lemma ZigzagInverse(v: int, bits: nat)
    requires bits > 0 && InSigned(v, bits)
    ensures EncodeZigzag(v, bits) < Pow2(bits) && DecodeZigzag(EncodeZigzag(v, bits), bits) == v
    ensures EncodeZigzag(v, bits) == if v < 0 then (0 - v) * 2 - 1 else v * 2
  {
    hide *;
    Halves(bits);
    SignedRange(v, bits);
    ZigzagIs(v, bits, Pow2(bits - 1));
    UnzigzagIs(EncodeZigzag(v, bits), bits, Pow2(bits - 1));
  }

  lemma Halves(bits: nat)
    requires bits > 0
    ensures Pow2(bits) == 2 * Pow2(bits - 1)
  {
  }

  lemma SignedRange(v: int, bits: nat)
    ensures InSigned(v, bits) <==> 0 - Pow2(bits) <= 2 * v < Pow2(bits)
  {
    hide Pow2;
  }

  /** What the wrapping arithmetic comes to on the signed range. */
  lemma ZigzagIs(v: int, bits: nat, half: nat)
    requires Pow2(bits) == 2 * half && 0 - half <= v < half
    ensures EncodeZigzag(v, bits) == if v < 0 then (0 - v) * 2 - 1 else v * 2
  {
    hide Pow2;
    if v < 0 {
      ZigzagNegative(v, Pow2(bits));
    } else {
      ModWrap(v * 2, Pow2(bits));
    }
  }

  lemma ZigzagNegative(v: int, p: nat)
    requires p > 0 && 0 - p <= 2 * v < 0
    ensures (((0 - v) % p) * 2 - 1) % p == (0 - v) * 2 - 1
  {
    ModWrap(0 - v, p);
    ModWrap((0 - v) * 2 - 1, p);
  }

  lemma UnzigzagIs(u: nat, bits: nat, half: nat)
    requires Pow2(bits) == 2 * half && u < 2 * half
    ensures DecodeZigzag(u, bits) == if u % 2 == 0 then u / 2 else -1 - u / 2
  {
    hide Pow2;
  }

  lemma Pow2Values()
    ensures Pow2(7) == 0x80 && Pow2(32) == 0x1_0000_0000 && Pow2(64) == 0x1_0000_0000_0000_0000
  {
    Pow2Small();
    hide Pow2;
    Pow2Add(4, 3);
    Pow2Add(4, 4);
    Pow2Add(8, 8);
    Pow2Add(16, 16);
    Pow2Add(32, 32);
  }

  lemma Pow2Small()
    ensures Pow2(3) == 8 && Pow2(4) == 16
  {
    assert Pow2(1) == 2 && Pow2(2) == 4;
  }

  lemma {:induction false} Pow2Add(a: nat, b: nat)
    ensures Pow2(a + b) == Pow2(a) * Pow2(b)
  {
    if a == 0 {
    } else {
      Pow2Add(a - 1, b);
      assert Pow2(a) == 2 * Pow2(a - 1);
      assert 2 * (Pow2(a - 1) * Pow2(b)) == (2 * Pow2(a - 1)) * Pow2(b);
    }
  }

  /** A value below 2^(7k) takes at most k bytes: 5 for 32 bits, 10 for 64. */
  lemma {:induction false} VarintLength(v: nat, k: nat)
    requires v < Pow2(7 * k) && k > 0
    ensures |Varint(v)| <= k
    decreases k
  {
    Pow2Values();
    if v < 0x80 {
    } else {
      Pow2Add(7, 7 * (k - 1));
      assert 7 * k == 7 + 7 * (k - 1);
      if k > 1 {
        DivBelow(v, 0x80, Pow2(7 * (k - 1)));
        VarintLength(v / 0x80, k - 1);
      }
    }
  }

  lemma DivBelow(v: nat, d: nat, q: nat)
    requires d > 0 && v < d * q
    ensures v / d < q
  {
    if v / d >= q {
      MulMono(q, v / d, d);
    }
  }

  // ---- items ----

  datatype Prefix = F16 | F32 | F64 | Vint

  /** What one read or write call is for: a fixed width, a varint, a zigzag varint, a string with its length. */
  datatype Kind = KFixed(width: nat, signed: bool) | KUint(bits: nat) | KInt(bits: nat) | KString(prefix: Prefix)

  datatype Item = Fixed(width: nat, signed: bool, v: int) | Uint(bits: nat, u: nat) | Int(bits: nat, i: int)
                | String(prefix: Prefix, text: seq<byte>)

  predicate WidthOk(width: nat) {
    width == 1 || width == 2 || width == 4 || width == 8
  }

  predicate BitsOk(bits: nat) {
    bits == 32 || bits == 64
  }

  /** How many lengths the prefix can tell apart. */
  function PrefixRange(p: Prefix): nat {
    match p case F16 => Pow256(2) case F32 => Pow256(4) case F64 => Pow256(8) case Vint => Pow2(64)
  }

  /** The values of the C++ type, and strings whose length fits the prefix. */
  predicate ItemOk(x: Item) {
    match x
    case Fixed(width, signed, v) =>
      WidthOk(width) && (if signed then 0 - Pow256(width) <= 2 * v < Pow256(width) else 0 <= v < Pow256(width))
    case Uint(bits, u) => BitsOk(bits) && u < Pow2(bits)
    case Int(bits, i) => BitsOk(bits) && InSigned(i, bits)
    case String(prefix, text) => |text| < PrefixRange(prefix)
  }

  function KindOf(x: Item): Kind {
    match x
    case Fixed(width, signed, v) => KFixed(width, signed)
    case Uint(bits, u) => KUint(bits)
    case Int(bits, i) => KInt(bits)
    case String(prefix, text) => KString(prefix)
  }

  function FixedBytes(v: nat, n: nat, little: bool): seq<byte> {
    if little then LittleEndian(v, n) else Reverse(LittleEndian(v, n))
  }

  /** The bytes of a fixed-width value on the wire: byte `i` of a big-endian array is the one `n - 1 - i` places
      above the lowest, of a little-endian array the one `i` places above it. */
  lemma FixedBytesAt(v: nat, n: nat, little: bool, i: nat)
    requires i < n
    ensures |FixedBytes(v, n, little)| == n
    ensures FixedBytes(v, n, little)[i] == (v / Pow256(if little then i else n - 1 - i)) % 256
  {
    hide Pow256, LittleEndian;
    LittleEndianAt(v, n, if little then i else n - 1 - i);
  }

  lemma Pow256Values()
    ensures Pow256(0) == 1 && Pow256(1) == 0x100 && Pow256(2) == 0x1_0000 && Pow256(3) == 0x100_0000
    ensures Pow256(4) == 0x1_0000_0000 && Pow256(8) == 0x1_0000_0000_0000_0000
  {
    assert Pow256(5) == 256 * Pow256(4) && Pow256(6) == 256 * Pow256(5) && Pow256(7) == 256 * Pow256(6);
  }

  /** Seven bits a byte, the lowest first, and the top bit set on all bytes but the last. */
  lemma {:induction false} VarintAt(v: nat, i: nat)
    requires i < |Varint(v)|
    ensures Varint(v)[i] == (v / Pow2(7 * i)) % 0x80 + if i < |Varint(v)| - 1 then 0x80 else 0
    decreases i
  {
    if i == 0 {
      assert Pow2(0) == 1;
    } else {
      hide Pow2;
      VarintAt(v / 0x80, i - 1);
      Pow2Values();
      Pow2Add(7, 7 * (i - 1));
      DivTwice(v, 0x80, Pow2(7 * (i - 1)));
    }
  }

  function PrefixBytes(p: Prefix, len: nat, little: bool): seq<byte> {
    match p
    case F16 => FixedBytes(len % Pow256(2), 2, little)
    case F32 => FixedBytes(len % Pow256(4), 4, little)
    case F64 => FixedBytes(len % Pow256(8), 8, little)
    case Vint => Varint(len % Pow2(64))
  }

  function Encode(x: Item, little: bool): seq<byte> {
    match x
    case Fixed(width, signed, v) => FixedBytes(Residue(v, width), width, little)
    case Uint(bits, u) => Varint(u)
    case Int(bits, i) => Varint(EncodeZigzag(i, bits))
    case String(prefix, text) => PrefixBytes(prefix, |text|, little) + text
  }

  function EncodeAll(xs: seq<Item>, little: bool): seq<byte> {
    if xs == [] then [] else Encode(xs[0], little) + EncodeAll(xs[1..], little)
  }

  // ---- reading, on the flat sequence ----

  /** A value and the cursor behind it, or the way the read went wrong, with the cursor where it stopped. */
  datatype Got<T> = Got(value: T, position: nat) | Threw(outcome: Outcome, position: nat)

  /** What a read sees: the bytes filled, the capacity, the byte orders. */
  datatype Source = Source(bytes: seq<byte>, capacity: nat, little: bool, hostLittle: bool)

  function TakeBytes(s: Source, pos: nat, n: nat): Got<seq<byte>>
    requires pos <= |s.bytes|
  {
    if n > |s.bytes| - pos then Threw(OutOfRange, pos)
    else if n == 0 && pos == s.capacity then Threw(NullPointer, pos)
    else Got(s.bytes[pos..pos + n], pos + n)
  }

  function TakeFixed(s: Source, pos: nat, width: nat): Got<nat>
    requires pos <= |s.bytes|
  {
    match TakeBytes(s, pos, width)
    case Threw(o, p) => Threw(o, p)
    case Got(b, p) => Got(FromBytes(b, s.little, s.hostLittle), p)
  }

  /** readUint32 and readUint64 from the turn for bit `i` on, with `acc` read so far. The shifted bits lie above
      those of `acc`, so or-ing them in is adding them, within the width. */
  function TakeUint(s: Source, pos: nat, bits: nat, i: nat, acc: nat): Got<nat>
    requires pos <= |s.bytes|
    decreases bits - i
  {
    if i >= bits then Got(acc, pos)
    else match TakeBytes(s, pos, 1)
      case Threw(o, p) => Threw(o, p)
      case Got(b, p) =>
        var more := (acc + b[0] % 0x80 * Pow2(i)) % Pow2(bits);
        if b[0] < 0x80 then Got(more, p) else TakeUint(s, p, bits, i + 7, more)
  }

  function TakeLength(s: Source, pos: nat, p: Prefix): Got<nat>
    requires pos <= |s.bytes|
  {
    match p
    case F16 => TakeFixed(s, pos, 2)
    case F32 => TakeFixed(s, pos, 4)
    case F64 => TakeFixed(s, pos, 8)
    case Vint => TakeUint(s, pos, 64, 0, 0)
  }

  lemma {:induction false} TakeUintStays(s: Source, pos: nat, bits: nat, i: nat, acc: nat)
    requires pos <= |s.bytes|
    ensures TakeUint(s, pos, bits, i, acc).position <= |s.bytes|
    decreases bits - i
  {
    if i < bits && TakeBytes(s, pos, 1).Got? && s.bytes[pos] >= 0x80 {
      TakeUintStays(s, pos + 1, bits, i + 7, (acc + s.bytes[pos] % 0x80 * Pow2(i)) % Pow2(bits));
    }
  }

  function Take(s: Source, pos: nat, kind: Kind): (r: Got<Item>)
    requires pos <= |s.bytes|
    ensures r.position <= |s.bytes|
  {
    match kind
    case KFixed(width, signed) =>
      (match TakeFixed(s, pos, width)
       case Threw(o, p) => Threw(o, p)
       case Got(v, p) => Got(Fixed(width, signed, if signed then AsSigned(v, width) else v), p))
    case KUint(bits) =>
      TakeUintStays(s, pos, bits, 0, 0);
      (match TakeUint(s, pos, bits, 0, 0)
       case Threw(o, p) => Threw(o, p)
       case Got(u, p) => Got(Uint(bits, u), p))
    case KInt(bits) =>
      TakeUintStays(s, pos, bits, 0, 0);
      (match TakeUint(s, pos, bits, 0, 0)
       case Threw(o, p) => Threw(o, p)
       case Got(u, p) => Got(Int(bits, DecodeZigzag(u, bits)), p))
    case KString(prefix) =>
      TakeUintStays(s, pos, 64, 0, 0);
      (match TakeLength(s, pos, prefix)
       case Threw(o, p) => Threw(o, p)
       case Got(n, p) =>
         match TakeBytes(s, p, n)
         case Threw(o, q) => Threw(o, q)
         case Got(text, q) => Got(String(prefix, text), q))
  }

  /** The matching reads one after the other, up to the first that goes wrong. */
  function TakeAll(s: Source, pos: nat, kinds: seq<Kind>): Got<seq<Item>>
    requires pos <= |s.bytes|
    decreases |kinds|
  {
    if kinds == [] then Got([], pos)
    else match Take(s, pos, kinds[0])
      case Threw(o, p) => Threw(o, p)
      case Got(x, p) =>
        match TakeAll(s, p, kinds[1..])
        case Threw(o, q) => Threw(o, q)
        case Got(xs, q) => Got([x] + xs, q)
  }

  // ---- the round trip ----

  predicate At(s: Source, pos: nat, x: seq<byte>) {
    pos + |x| <= |s.bytes| && s.bytes[pos..pos + |x|] == x
  }

  lemma AtParts(s: Source, pos: nat, x: seq<byte>, y: seq<byte>)
    requires At(s, pos, x + y)
    ensures At(s, pos, x) && At(s, pos + |x|, y)
  {
    var z := s.bytes[pos..pos + |x + y|];
    assert s.bytes[pos..pos + |x|] == z[..|x|] == x;
    assert s.bytes[pos + |x|..pos + |x| + |y|] == z[|x|..] == y;
  }

  lemma {:induction false} Pow2Mono(a: nat, b: nat)
    requires a <= b
    ensures Pow2(a) <= Pow2(b)
  {
    if a == b {
    } else {
      Pow2Mono(a, b - 1);
    }
  }

  /** The two parts of a varint's value, shifted. */
  lemma VarintSplit(v: nat, i: nat)
    ensures v % 0x80 * Pow2(i) + v / 0x80 * Pow2(i + 7) == v * Pow2(i)
  {
    Pow2Values();
    Pow2Add(i, 7);
    hide Pow2;
    var q, r, p := v / 0x80, v % 0x80, Pow2(i);
    assert v == q * 0x80 + r;
    Distribute(q, r, p);
  }

  lemma Distribute(q: nat, r: nat, p: nat)
    ensures r * p + q * (p * 0x80) == (q * 0x80 + r) * p
  {
  }

  /** The first byte of a varint carries its lowest seven bits and tells whether more follow. */
  lemma VarintHead(v: nat)
    ensures var c := Varint(v)[0];
            && c % 0x80 == v % 0x80 && (c < 0x80 <==> v < 0x80)
            && Varint(v) == [c] + (if v < 0x80 then [] else Varint(v / 0x80))
  {
  }

  lemma VarintFirst(s: Source, pos: nat, v: nat)
    requires At(s, pos, Varint(v))
    ensures pos < |s.bytes| && s.bytes[pos] == Varint(v)[0]
    ensures TakeBytes(s, pos, 1) == Got([s.bytes[pos]], pos + 1)
  {
    hide Varint;
    assert s.bytes[pos] == s.bytes[pos..pos + |Varint(v)|][0];
    assert s.bytes[pos..pos + 1] == [s.bytes[pos]];
  }

  /** One turn keeps the sum and the bound. */
  lemma VarintTurn(v: nat, bits: nat, i: nat, acc: nat)
    requires acc + v * Pow2(i) < Pow2(bits)
    ensures (acc + v % 0x80 * Pow2(i)) % Pow2(bits) + v / 0x80 * Pow2(i + 7) == acc + v * Pow2(i)
    ensures v >= 0x80 ==> i + 7 < bits
  {
    VarintSplit(v, i);
    hide Pow2;
    MulMono(0, v / 0x80, Pow2(i + 7));
    ModWrap(acc + v % 0x80 * Pow2(i), Pow2(bits));
    if v >= 0x80 {
      MulMono(1, v / 0x80, Pow2(i + 7));
      if bits <= i + 7 {
        Pow2Mono(bits, i + 7);
      }
    }
  }

  lemma {:induction false} VarintBack(s: Source, pos: nat, bits: nat, i: nat, acc: nat, v: nat)
    requires At(s, pos, Varint(v)) && i < bits && acc + v * Pow2(i) < Pow2(bits)
    ensures TakeUint(s, pos, bits, i, acc) == Got(acc + v * Pow2(i), pos + |Varint(v)|)
    decreases v
  {
    hide Pow2, TakeBytes, Varint, At;
    VarintFirst(s, pos, v);
    VarintHead(v);
    VarintTurn(v, bits, i, acc);
    if v < 0x80 {
    } else {
      AtParts(s, pos, [s.bytes[pos]], Varint(v / 0x80));
      VarintBack(s, pos + 1, bits, i + 7, (acc + v % 0x80 * Pow2(i)) % Pow2(bits), v / 0x80);
    }
  }

  lemma UintBack(s: Source, pos: nat, bits: nat, v: nat)
    requires At(s, pos, Varint(v)) && BitsOk(bits) && v < Pow2(bits)
    ensures TakeUint(s, pos, bits, 0, 0) == Got(v, pos + |Varint(v)|)
  {
    hide Pow2, TakeUint, Varint, At;
    OnePower();
    VarintBack(s, pos, bits, 0, 0, v);
  }

  lemma OnePower()
    ensures Pow2(0) == 1
  {
  }

  lemma FixedBack(s: Source, pos: nat, width: nat, v: nat)
    requires width > 0 && v < Pow256(width) && At(s, pos, FixedBytes(v, width, s.little))
    ensures TakeFixed(s, pos, width) == Got(v, pos + width)
  {
    hide LittleEndian, Reverse, FromBytes, Pow256;
    FixedInverse(v, width, s.little, s.hostLittle);
  }

  lemma LengthBack(s: Source, pos: nat, p: Prefix, n: nat)
    requires n < PrefixRange(p) && At(s, pos, PrefixBytes(p, n, s.little))
    ensures TakeLength(s, pos, p) == Got(n, pos + |PrefixBytes(p, n, s.little)|) && |PrefixBytes(p, n, s.little)| > 0
  {
    hide Pow256, Pow2, TakeFixed, TakeUint, Varint, FixedBytes;
    ModWrap(n, PrefixRange(p));
    PrefixSize(n, s.little);
    match p {
      case F16 => FixedBack(s, pos, 2, n);
      case F32 => FixedBack(s, pos, 4, n);
      case F64 => FixedBack(s, pos, 8, n);
      case Vint => UintBack(s, pos, 64, n);
    }
  }

  lemma PrefixSize(n: nat, little: bool)
    ensures forall w :: |FixedBytes(n, w, little)| == w
    ensures |Varint(n)| > 0
  {
    hide LittleEndian, Reverse;
  }

  /** An empty string at the very end of the capacity: its text is read through a null cursor. */
  predicate EmptyString(x: Item) {
    x.String? && x.text == []
  }

  lemma EncodeSize(x: Item, little: bool)
    requires ItemOk(x)
    ensures |Encode(x, little)| > 0
  {
    hide Pow256, Pow2, LittleEndian, Reverse;
  }

  /** Each read gives back what the matching write was given, or hits the null cursor. */
  lemma ItemBack(s: Source, pos: nat, x: Item)
    requires ItemOk(x) && At(s, pos, Encode(x, s.little))
    ensures var end := pos + |Encode(x, s.little)|;
            Take(s, pos, KindOf(x)) == if EmptyString(x) && end == s.capacity then Threw(NullPointer, end) else Got(x, end)
  {
    hide Pow256, Pow2, TakeFixed, TakeUint, Varint, FixedBytes, EncodeZigzag, DecodeZigzag, PrefixBytes, TakeLength, AsSigned,
         Residue;
    match x {
      case Fixed(width, signed, v) =>
        FixedValue(v, width, signed);
        FixedBack(s, pos, width, Residue(v, width));
        PrefixSize(Residue(v, width), s.little);
      case Uint(bits, u) => UintBack(s, pos, bits, u);
      case Int(bits, i) =>
        ZigzagInverse(i, bits);
        UintBack(s, pos, bits, EncodeZigzag(i, bits));
      case String(prefix, text) =>
        var n := PrefixBytes(prefix, |text|, s.little);
        AtParts(s, pos, n, text);
        LengthBack(s, pos, prefix, |text|);
    }
  }

  lemma FixedValue(v: int, width: nat, signed: bool)
    requires if signed then 0 - Pow256(width) <= 2 * v < Pow256(width) else 0 <= v < Pow256(width)
    ensures Residue(v, width) < Pow256(width) && v == if signed then AsSigned(Residue(v, width), width) else Residue(v, width)
  {
    hide Pow256;
    if signed {
      SignedInverse(v, width);
    } else {
      ModWrap(v, Pow256(width));
    }
  }

  /** The reads matching a list of writes. */
  function Kinds(xs: seq<Item>): seq<Kind> {
    if xs == [] then [] else [KindOf(xs[0])] + Kinds(xs[1..])
  }

  predicate EndsEmpty(xs: seq<Item>) {
    xs != [] && EmptyString(xs[|xs| - 1])
  }

  lemma {:induction false} AllBack(s: Source, pos: nat, xs: seq<Item>)
    requires forall i :: 0 <= i < |xs| ==> ItemOk(xs[i])
    requires At(s, pos, EncodeAll(xs, s.little)) && pos + |EncodeAll(xs, s.little)| == |s.bytes| <= s.capacity
    ensures TakeAll(s, pos, Kinds(xs)) == if EndsEmpty(xs) && |s.bytes| == s.capacity then Threw(NullPointer, |s.bytes|)
                                          else Got(xs, |s.bytes|)
    decreases |xs|
  {
    hide ItemOk, Encode, Take, KindOf;
    if xs == [] {
    } else {
      var x, rest := xs[0], xs[1..];
      AtParts(s, pos, Encode(x, s.little), EncodeAll(rest, s.little));
      ItemBack(s, pos, x);
      if rest != [] {
        EncodeSize(rest[0], s.little);
      }
      assert Kinds(xs)[1..] == Kinds(rest);
      AllBack(s, pos + |Encode(x, s.little)|, rest);
      assert [x] + rest == xs;
    }
  }

  /** The capacity is a number of whole blocks, at least one, and no block beyond the first is empty. */
  predicate Snug(capacity: nat, position: nat, b: nat)
    requires b > 0
  {
    capacity % b == 0 && capacity >= b && position <= capacity && (capacity == b || capacity - position < b)
  }

  lemma SnugEnd(capacity: nat, position: nat, b: nat)
    requires b > 0 && Snug(capacity, position, b)
    ensures position == capacity <==> position > 0 && position % b == 0
  {
    if position > 0 && position % b == 0 && position < capacity {
      MultiplesApart(capacity, position, b);
    }
  }

  lemma MultiplesApart(c: nat, p: nat, b: nat)
    requires b > 0 && c % b == 0 && p % b == 0 && 0 < p < c
    ensures c - p >= b && c > b
  {
    var i, j := c / b, p / b;
    assert c == i * b && p == j * b && c - p == (i - j) * b by {
      Whole(c, b);
      Whole(p, b);
    }
    if c - p < b {
      OnlyZero(i - j, b);
    }
    if p < b {
      OnlyZero(j, b);
    }
  }

  lemma Whole(c: nat, b: nat)
    requires b > 0 && c % b == 0
    ensures c == (c / b) * b
  {
  }

  /** Typed round trip. Written to a new array and read back from the start with the matching calls, all values
      come back and nothing is left to read; except when the last value is an empty string and the bytes fill
      their blocks exactly, where the last call follows a null pointer. */
  lemma TypedRoundTrip(s: Source, b: nat, xs: seq<Item>)
    requires b > 0 && forall i :: 0 <= i < |xs| ==> ItemOk(xs[i])
    requires s.bytes == EncodeAll(xs, s.little) && Snug(s.capacity, |s.bytes|, b)
    ensures TakeAll(s, 0, Kinds(xs)) == if EndsEmpty(xs) && |s.bytes| % b == 0 then Threw(NullPointer, |s.bytes|)
                                        else Got(xs, |s.bytes|)
  {
    hide ItemOk, Encode;
    SnugEnd(s.capacity, |s.bytes|, b);
    if xs != [] {
      EncodeSize(xs[0], s.little);
    }
    assert s.bytes[0..|s.bytes|] == s.bytes;
    AllBack(s, 0, xs);
  }
}
