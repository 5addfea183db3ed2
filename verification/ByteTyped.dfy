/** The typed methods of ByteArray, over its read and write. */
module ByteTyped {
  import opened ByteBlocks
  import opened ByteArrays
  import opened ByteCodec

  lemma SnugGrown(c: nat, p: nat, n: nat, b: nat)
    requires b > 0 && Snug(c, p, b)
    ensures Snug(Grown(c, p, n, b), p + n, b)
  {
    if n > c - p {
      var m := n - (c - p);
      CeilDivBounds(m, b);
      var k := CeilDiv(m, b);
      Whole(c, b);
      MulNext(k - 1, b);
      Sum(c / b, k, b);
      hide CeilDiv;
      DivModOf(c + k * b, b, c / b + k, 0);
    }
  }

  lemma Sum(i: nat, k: nat, b: nat)
    ensures (i + k) * b == i * b + k * b
  {
  }

  /** What the reads see of an array. */
  ghost function SourceOf(ba: ByteArray, hostLittle: bool): Source
    requires ba.Valid()
    reads ba, ba.repr
  {
    Source(ba.Filled(), ba.capacity, ba.littleEndian, hostLittle)
  }

  /** The bytes of `v`, each in its place: the highest first, or the lowest first if `little`. */
  predicate OnWire(bytes: seq<byte>, v: nat, little: bool) {
    forall k :: 0 <= k < |bytes| ==> bytes[k] == (v / Pow256(if little then k else |bytes| - 1 - k)) % 256
  }

  /** writeFint8 to writeFuint64: the bytes of the value in the array's order. */
  method WriteFixed(ba: ByteArray, v: nat, width: nat, hostLittle: bool)
    requires ba.Valid()
    modifies ba.repr
    ensures ba.Valid() && old(ba.repr) <= ba.repr && fresh(ba.repr - old(ba.repr)) && ba.littleEndian == old(ba.littleEndian)
    ensures var data := FixedBytes(v, width, ba.littleEndian);
            && ba.position == old(ba.position) + |data|
            && ba.capacity == Grown(old(ba.capacity), old(ba.position), |data|, ba.baseSize)
            && ba.Filled() == Overlay(old(ba.Filled()), old(ba.position), data)
    ensures var at, bytes := old(ba.position), ba.Filled();
            at + width == ba.position <= |bytes| && OnWire(bytes[at..at + width], v, ba.littleEndian)
  {
    HostDoesNotMatter(v, width, ba.littleEndian, hostLittle);
    var value := if ba.littleEndian != hostLittle then Byteswap(v, width) else v;
    hide *;
    FixedBytesIs(v, width, ba.littleEndian);
    ba.FilledIs();
    FixedWritten(ba.Filled(), ba.position, v, width, ba.littleEndian);
    ba.Write(Image(value, width, hostLittle));
  }

  lemma FixedWritten(filled: seq<byte>, at: nat, v: nat, width: nat, little: bool)
    requires at <= |filled|
    ensures var bytes := Overlay(filled, at, FixedBytes(v, width, little));
            && |FixedBytes(v, width, little)| == width && at + width <= |bytes|
            && OnWire(bytes[at..at + width], v, little)
  {
    hide FixedBytes, Pow256;
    var data := FixedBytes(v, width, little);
    if width == 0 {
      NoBytes(v, little);
    } else {
      FixedOnWire(v, width, little);
    }
    assert Overlay(filled, at, data)[at..at + width] == data;
  }

  lemma NoBytes(v: nat, little: bool)
    ensures |FixedBytes(v, 0, little)| == 0
  {
  }

  lemma FixedBytesIs(v: nat, n: nat, little: bool)
    ensures FixedBytes(v, n, little) == if little then LittleEndian(v, n) else Reverse(LittleEndian(v, n))
  {
  }

  /** writeUint32 and writeUint64: the loop fills `tmp` from the front and never past its end. */
  method WriteUint(ba: ByteArray, v: nat, bits: nat)
    requires ba.Valid() && BitsOk(bits) && v < Pow2(bits)
    modifies ba.repr
    ensures ba.Valid() && old(ba.repr) <= ba.repr && fresh(ba.repr - old(ba.repr)) && ba.littleEndian == old(ba.littleEndian)
    ensures ba.position == old(ba.position) + |Varint(v)|
    ensures ba.capacity == Grown(old(ba.capacity), old(ba.position), |Varint(v)|, ba.baseSize)
    ensures ba.Filled() == Overlay(old(ba.Filled()), old(ba.position), Varint(v))
  {
    var tmp := EncodeUint(v, bits);
    hide *;
    ba.Write(tmp);
  }

  method EncodeUint(v: nat, bits: nat) returns (tmp: seq<byte>)
    requires BitsOk(bits) && v < Pow2(bits)
    ensures tmp == Varint(v)
  {
    ghost var most := if bits == 32 then 5 else 10;  // the size of tmp
    VarintBound(v, bits);
    hide *;
    tmp := [];
    var value: nat := v;
    assert tmp + Varint(value) == Varint(v);
    while value >= 0x80
      invariant tmp + Varint(value) == Varint(v)
      decreases value
    {
      VarintByte(value);
      VarintRoom(tmp, value, |Varint(v)|);
      assert |tmp| < most;  // tmp[i++]
      ghost var before := tmp;
      tmp := tmp + [value % 0x80 + 0x80];
      assert before + ([value % 0x80 + 0x80] + Varint(value / 0x80)) == tmp + Varint(value / 0x80);
      value := value / 0x80;
    }
    VarintByte(value);
    VarintRoom(tmp, value, |Varint(v)|);
    assert |tmp| < most;
    tmp := tmp + [value];
  }

  lemma VarintByte(v: nat)
    ensures Varint(v) == if v < 0x80 then [v] else [v % 0x80 + 0x80] + Varint(v / 0x80)
  {
  }

  lemma VarintRoom(tmp: seq<byte>, v: nat, n: nat)
    requires |tmp + Varint(v)| == n
    ensures |tmp| < n
  {
    hide Varint;
    VarintHead(v);
  }

  /** Varints take at most 5 bytes for 32 bits and 10 for 64. */
  lemma VarintBound(v: nat, bits: nat)
    requires BitsOk(bits) && v < Pow2(bits)
    ensures 1 <= |Varint(v)| <= if bits == 32 then 5 else 10
  {
    hide Pow2, Varint;
    VarintHead(v);
    if bits == 32 {
      Pow2Mono(32, 35);
      VarintLength(v, 5);
    } else {
      Pow2Mono(64, 70);
      VarintLength(v, 10);
    }
  }

  /** The length in front of a string: writeFuint16, writeFuint32, writeFuint64 or writeUint64 of its size. */
  method WriteLength(ba: ByteArray, n: nat, p: Prefix, hostLittle: bool)
    requires ba.Valid()
    modifies ba.repr
    ensures ba.Valid() && old(ba.repr) <= ba.repr && fresh(ba.repr - old(ba.repr)) && ba.littleEndian == old(ba.littleEndian)
    ensures var data := PrefixBytes(p, n, ba.littleEndian);
            && ba.position == old(ba.position) + |data|
            && ba.capacity == Grown(old(ba.capacity), old(ba.position), |data|, ba.baseSize)
            && ba.Filled() == Overlay(old(ba.Filled()), old(ba.position), data)
  {
    hide *;
    PrefixIs(p, n, ba.littleEndian);
    match p {
      case F16 => WriteFixed(ba, n % Pow256(2), 2, hostLittle);
      case F32 => WriteFixed(ba, n % Pow256(4), 4, hostLittle);
      case F64 => WriteFixed(ba, n % Pow256(8), 8, hostLittle);
      case Vint => WriteUint(ba, n % Pow2(64), 64);
    }
  }

  lemma PrefixIs(p: Prefix, n: nat, little: bool)
    ensures BitsOk(64)
    ensures PrefixBytes(p, n, little)
         == match p
            case F16 => FixedBytes(n % Pow256(2), 2, little)
            case F32 => FixedBytes(n % Pow256(4), 4, little)
            case F64 => FixedBytes(n % Pow256(8), 8, little)
            case Vint => Varint(n % Pow2(64))
  {
    hide FixedBytes, Varint, Pow2, Pow256;
  }

  /** In front of a string stands its length: two, four or eight bytes in the array's order, or a varint. */
  lemma PrefixOnWire(p: Prefix, n: nat, little: bool)
    requires n < PrefixRange(p)
    ensures var b := PrefixBytes(p, n, little);
            match p
            case F16 => n < 0x1_0000 && |b| == 2 && OnWire(b, n, little)
            case F32 => n < 0x1_0000_0000 && |b| == 4 && OnWire(b, n, little)
            case F64 => n < 0x1_0000_0000_0000_0000 && |b| == 8 && OnWire(b, n, little)
            case Vint => n < 0x1_0000_0000_0000_0000 && b == Varint(n)
  {
    hide FixedBytes, Varint, Pow2, Pow256;
    Pow256Values();
    Pow2Values();
    ModWrap(n, PrefixRange(p));
    FixedOnWire(n, 2, little);
    FixedOnWire(n, 4, little);
    FixedOnWire(n, 8, little);
  }

  lemma FixedOnWire(v: nat, width: nat, little: bool)
    requires width > 0
    ensures |FixedBytes(v, width, little)| == width && OnWire(FixedBytes(v, width, little), v, little)
  {
    hide FixedBytes, Pow256;
    FixedBytesAt(v, width, little, 0);
    forall k | 0 <= k < width
      ensures FixedBytes(v, width, little)[k] == (v / Pow256(if little then k else width - 1 - k)) % 256
    {
      FixedBytesAt(v, width, little, k);
    }
  }

  /** writeStringF16 to writeStringVint */
  method WriteString(ba: ByteArray, text: seq<byte>, p: Prefix, hostLittle: bool)
    requires ba.Valid()
    modifies ba.repr
    ensures ba.Valid() && old(ba.repr) <= ba.repr && fresh(ba.repr - old(ba.repr)) && ba.littleEndian == old(ba.littleEndian)
    ensures var data := PrefixBytes(p, |text|, ba.littleEndian) + text;
            && ba.position == old(ba.position) + |data|
            && ba.Filled() == Overlay(old(ba.Filled()), old(ba.position), data)
    ensures Snug(old(ba.capacity), old(ba.position), ba.baseSize) ==> Snug(ba.capacity, ba.position, ba.baseSize)
  {
    hide *;
    ba.ValidHas();
    ghost var c, at, filled := ba.capacity, ba.position, ba.Filled();
    ghost var n := PrefixBytes(p, |text|, ba.littleEndian);
    WriteLength(ba, |text|, p, hostLittle);
    ba.ValidHas();
    ghost var c' := ba.capacity;
    OverlayMore(filled, at, n, text);
    ba.Write(text);
    if Snug(c, at, ba.baseSize) {
      SnugGrown(c, at, |n|, ba.baseSize);
      SnugGrown(c', at + |n|, |text|, ba.baseSize);
    }
  }

  /** The write method for an item. */
  method WriteItem(ba: ByteArray, x: Item, hostLittle: bool)
    requires ba.Valid() && ItemOk(x)
    modifies ba.repr
    ensures ba.Valid() && old(ba.repr) <= ba.repr && fresh(ba.repr - old(ba.repr)) && ba.littleEndian == old(ba.littleEndian)
    ensures var data := Encode(x, ba.littleEndian);
            && ba.position == old(ba.position) + |data|
            && ba.Filled() == Overlay(old(ba.Filled()), old(ba.position), data)
    ensures Snug(old(ba.capacity), old(ba.position), ba.baseSize) ==> Snug(ba.capacity, ba.position, ba.baseSize)
  {
    hide *;
    ba.ValidHas();
    EncodeIs(x, ba.littleEndian);
    ghost var c, at := ba.capacity, ba.position;
    match x {
      case Fixed(width, signed, v) => WriteFixed(ba, Residue(v, width), width, hostLittle);
      case Uint(bits, u) => WriteUint(ba, u, bits);
      case Int(bits, i) => WriteUint(ba, EncodeZigzag(i, bits), bits);
      case String(prefix, text) => WriteString(ba, text, prefix, hostLittle);
    }
    if Snug(c, at, ba.baseSize) && !x.String? {
      SnugGrown(c, at, |Encode(x, ba.littleEndian)|, ba.baseSize);
    }
  }

  lemma EncodeIs(x: Item, little: bool)
    requires ItemOk(x)
    ensures match x
            case Fixed(width, signed, v) => Encode(x, little) == FixedBytes(Residue(v, width), width, little)
            case Uint(bits, u) => Encode(x, little) == Varint(u) && BitsOk(bits) && u < Pow2(bits)
            case Int(bits, i) => Encode(x, little) == Varint(EncodeZigzag(i, bits)) && BitsOk(bits)
                                 && EncodeZigzag(i, bits) < Pow2(bits)
            case String(prefix, text) => Encode(x, little) == PrefixBytes(prefix, |text|, little) + text
  {
    hide FixedBytes, Varint, Pow2, Pow256, PrefixBytes, EncodeZigzag, PrefixRange, Residue;
    if x.Int? {
      ZigzagInverse(x.i, x.bits);
    }
  }

  /** Items written one after the other behind all that has been filled make up the encoding of their list. */
  lemma {:induction false} WrittenSoFar(xs: seq<Item>, x: Item, little: bool)
    ensures var so := EncodeAll(xs, little); Overlay(so, |so|, Encode(x, little)) == EncodeAll(xs + [x], little)
    decreases |xs|
  {
    hide Encode;
    if xs == [] {
      assert [] + [x] == [x] && [x][1..] == [];
      assert Encode(x, little) + [] == Encode(x, little);
    } else {
      WrittenSoFar(xs[1..], x, little);
      assert (xs + [x])[1..] == xs[1..] + [x];
    }
  }

  // ---- reads ----

  /** A new array is snug, and has nothing filled. */
  lemma NewSnug(b: nat)
    requires b > 0
    ensures Snug(b, 0, b)
  {
  }

  /** read of `n` bytes, seen on the flat sequence. */
  method ReadBytes(ba: ByteArray, n: nat, ghost hostLittle: bool) returns (r: Got<seq<byte>>)
    requires ba.Valid()
    modifies ba`position, ba`cur, ba`at
    ensures ba.Valid() && SourceOf(ba, hostLittle) == old(SourceOf(ba, hostLittle)) && ba.position == r.position
    ensures old(ba.position) <= |old(ba.Filled())| && r == TakeBytes(old(SourceOf(ba, hostLittle)), old(ba.position), n)
  {
    hide *;
    ba.ValidHas();
    ba.FilledIs();
    SourceIs(ba, hostLittle);
    ghost var s, pos := SourceOf(ba, hostLittle), ba.position;
    var outcome, bytes := ba.Read(n);
    ba.FilledIs();
    SourceIs(ba, hostLittle);
    assert outcome == Fine ==> bytes == s.bytes[pos..pos + n] by {
      if outcome == Fine {
        PartOfPrefix(ba.Store(), ba.size, pos, n);
      }
    }
    TakeBytesIs(s, pos, n);
    r := if outcome == Fine then Got(bytes, ba.position) else Threw(outcome, ba.position);
  }

  lemma PartOfPrefix(s: seq<byte>, size: nat, from: nat, n: nat)
    requires from + n <= size <= |s|
    ensures s[..size][from..from + n] == s[from..from + n]
  {
  }

  lemma SourceIs(ba: ByteArray, hostLittle: bool)
    requires ba.Valid()
    ensures SourceOf(ba, hostLittle) == Source(ba.Filled(), ba.capacity, ba.littleEndian, hostLittle)
  {
  }

  lemma TakeBytesIs(s: Source, pos: nat, n: nat)
    requires pos <= |s.bytes|
    ensures TakeBytes(s, pos, n) == if n > |s.bytes| - pos then Threw(OutOfRange, pos)
                                    else if n == 0 && pos == s.capacity then Threw(NullPointer, pos)
                                    else Got(s.bytes[pos..pos + n], pos + n)
  {
  }

  /** readFint8 to readFuint64, before the cast to the type. */
  method ReadFixed(ba: ByteArray, width: nat, hostLittle: bool) returns (r: Got<nat>)
    requires ba.Valid()
    modifies ba`position, ba`cur, ba`at
    ensures ba.Valid() && SourceOf(ba, hostLittle) == old(SourceOf(ba, hostLittle)) && ba.position == r.position
    ensures old(ba.position) <= |old(ba.Filled())| && r == TakeFixed(old(SourceOf(ba, hostLittle)), old(ba.position), width)
  {
    hide *;
    SourceIs(ba, hostLittle);
    ghost var s, pos := SourceOf(ba, hostLittle), ba.position;
    var b := ReadBytes(ba, width, hostLittle);
    TakeFixedIs(s, pos, width);
    SourceIs(ba, hostLittle);
    r := match b
      case Threw(o, p) => Threw(o, p)
      case Got(bytes, p) => Got(FromBytes(bytes, ba.littleEndian, hostLittle), p);
  }

  lemma TakeFixedIs(s: Source, pos: nat, width: nat)
    requires pos <= |s.bytes|
    ensures TakeFixed(s, pos, width) == match TakeBytes(s, pos, width)
                                        case Threw(o, p) => Threw(o, p)
                                        case Got(b, p) => Got(FromBytes(b, s.little, s.hostLittle), p)
  {
    hide TakeBytes, FromBytes;
  }

  lemma TakeUintIs(s: Source, pos: nat, bits: nat, i: nat, acc: nat)
    requires pos <= |s.bytes|
    ensures i >= bits ==> TakeUint(s, pos, bits, i, acc) == Got(acc, pos)
    ensures i < bits ==>
              match TakeBytes(s, pos, 1)
              case Threw(o, p) => TakeUint(s, pos, bits, i, acc) == Threw(o, p)
              case Got(b, p) =>
                && p <= |s.bytes| && |b| == 1
                && var more := (acc + b[0] % 0x80 * Pow2(i)) % Pow2(bits);
                   TakeUint(s, pos, bits, i, acc) == if b[0] < 0x80 then Got(more, p) else TakeUint(s, p, bits, i + 7, more)
  {
    hide Pow2;
  }

  /** readUint32 and readUint64 */
  method ReadUint(ba: ByteArray, bits: nat, hostLittle: bool) returns (r: Got<nat>)
    requires ba.Valid()
    modifies ba`position, ba`cur, ba`at
    ensures ba.Valid() && SourceOf(ba, hostLittle) == old(SourceOf(ba, hostLittle)) && ba.position == r.position
    ensures old(ba.position) <= |old(ba.Filled())|
            && r == TakeUint(old(SourceOf(ba, hostLittle)), old(ba.position), bits, 0, 0)
  {
    hide *;
    SourceIs(ba, hostLittle);
    ghost var s, pos := SourceOf(ba, hostLittle), ba.position;
    var result: nat, i: nat := 0, 0;
    while i < bits
      invariant ba.Valid() && SourceOf(ba, hostLittle) == s && ba.position <= |s.bytes|
      invariant TakeUint(s, pos, bits, 0, 0) == TakeUint(s, ba.position, bits, i, result)
      decreases bits - i
    {
      TakeUintIs(s, ba.position, bits, i, result);
      var b := ReadBytes(ba, 1, hostLittle);
      if b.Threw? {
        return Threw(b.outcome, b.position);
      }
      result := (result + b.value[0] % 0x80 * Pow2(i)) % Pow2(bits);
      if b.value[0] < 0x80 {
        return Got(result, b.position);
      }
      i := i + 7;
    }
    TakeUintIs(s, ba.position, bits, i, result);
    r := Got(result, ba.position);
  }

  /** The length in front of a string. */
  method ReadLength(ba: ByteArray, p: Prefix, hostLittle: bool) returns (r: Got<nat>)
    requires ba.Valid()
    modifies ba`position, ba`cur, ba`at
    ensures ba.Valid() && SourceOf(ba, hostLittle) == old(SourceOf(ba, hostLittle)) && ba.position == r.position
    ensures old(ba.position) <= |old(ba.Filled())| && r == TakeLength(old(SourceOf(ba, hostLittle)), old(ba.position), p)
  {
    hide *;
    SourceIs(ba, hostLittle);
    TakeLengthIs(SourceOf(ba, hostLittle), ba.position, p);
    match p {
      case F16 => r := ReadFixed(ba, 2, hostLittle);
      case F32 => r := ReadFixed(ba, 4, hostLittle);
      case F64 => r := ReadFixed(ba, 8, hostLittle);
      case Vint => r := ReadUint(ba, 64, hostLittle);
    }
  }

  lemma TakeLengthIs(s: Source, pos: nat, p: Prefix)
    requires pos <= |s.bytes|
    ensures TakeLength(s, pos, p)
         == match p
            case F16 => TakeFixed(s, pos, 2) case F32 => TakeFixed(s, pos, 4) case F64 => TakeFixed(s, pos, 8)
            case Vint => TakeUint(s, pos, 64, 0, 0)
  {
    hide TakeFixed, TakeUint;
  }

  /** The read method for a kind of item. */
  method ReadItem(ba: ByteArray, kind: Kind, hostLittle: bool) returns (r: Got<Item>)
    requires ba.Valid()
    modifies ba`position, ba`cur, ba`at
    ensures ba.Valid() && SourceOf(ba, hostLittle) == old(SourceOf(ba, hostLittle)) && ba.position == r.position
    ensures old(ba.position) <= |old(ba.Filled())| && r == Take(old(SourceOf(ba, hostLittle)), old(ba.position), kind)
  {
    hide *;
    SourceIs(ba, hostLittle);
    match kind {
      case KFixed(width, signed) =>
        TakeNumberIs(SourceOf(ba, hostLittle), ba.position, kind);
        var v := ReadFixed(ba, width, hostLittle);
        r := if v.Threw? then Threw(v.outcome, v.position)
             else Got(Fixed(width, signed, if signed then AsSigned(v.value, width) else v.value), v.position);
      case KUint(bits) =>
        TakeNumberIs(SourceOf(ba, hostLittle), ba.position, kind);
        var v := ReadUint(ba, bits, hostLittle);
        r := if v.Threw? then Threw(v.outcome, v.position) else Got(Uint(bits, v.value), v.position);
      case KInt(bits) =>
        TakeNumberIs(SourceOf(ba, hostLittle), ba.position, kind);
        var v := ReadUint(ba, bits, hostLittle);
        r := if v.Threw? then Threw(v.outcome, v.position) else Got(Int(bits, DecodeZigzag(v.value, bits)), v.position);
      case KString(prefix) =>
        TakeStringIs(SourceOf(ba, hostLittle), ba.position, prefix);
        var n := ReadLength(ba, prefix, hostLittle);
        if n.Threw? {
          return Threw(n.outcome, n.position);
        }
        var text := ReadBytes(ba, n.value, hostLittle);
        r := if text.Threw? then Threw(text.outcome, text.position) else Got(String(prefix, text.value), text.position);
    }
  }

  lemma TakeNumberIs(s: Source, pos: nat, kind: Kind)
    requires pos <= |s.bytes| && !kind.KString?
    ensures var r := if kind.KFixed? then TakeFixed(s, pos, kind.width) else TakeUint(s, pos, kind.bits, 0, 0);
            Take(s, pos, kind) ==
            if r.Threw? then Threw(r.outcome, r.position)
            else if kind.KFixed? then
              Got(Fixed(kind.width, kind.signed, if kind.signed then AsSigned(r.value, kind.width) else r.value), r.position)
            else if kind.KUint? then Got(Uint(kind.bits, r.value), r.position)
            else Got(Int(kind.bits, DecodeZigzag(r.value, kind.bits)), r.position)
  {
    hide TakeUint, FromBytes, AsSigned, DecodeZigzag, TakeFixed;
  }

  lemma TakeStringIs(s: Source, pos: nat, prefix: Prefix)
    requires pos <= |s.bytes|
    ensures var n := TakeLength(s, pos, prefix);
            && n.position <= |s.bytes|
            && Take(s, pos, KString(prefix)) ==
               if n.Threw? then Threw(n.outcome, n.position)
               else
                 var text := TakeBytes(s, n.position, n.value);
                 if text.Threw? then Threw(text.outcome, text.position) else Got(String(prefix, text.value), text.position)
  {
    hide TakeUint, FromBytes;
    TakeUintStays(s, pos, 64, 0, 0);
  }

  // ---- all of it, on one array ----

  /** A sequence of write calls on a new array. */
  method WriteAll(base: nat, little: bool, xs: seq<Item>, hostLittle: bool) returns (ba: ByteArray)
    requires base > 0 && forall i :: 0 <= i < |xs| ==> ItemOk(xs[i])
    ensures fresh(ba.repr) && ba.Valid() && ba.baseSize == base && ba.littleEndian == little
    ensures ba.Filled() == EncodeAll(xs, little) && ba.position == |ba.Filled()| && Snug(ba.capacity, ba.position, base)
  {
    hide *;
    ba := new ByteArray(base);
    ba.SetIsLittleEndian(little);
    ba.ValidHas();
    ba.FilledIs();
    NewSnug(base);
    NothingEncoded(little);
    for i := 0 to |xs|
      invariant fresh(ba.repr) && ba.Valid() && ba.baseSize == base && ba.littleEndian == little
      invariant ba.Filled() == EncodeAll(xs[..i], little) && ba.position == |ba.Filled()|
      invariant Snug(ba.capacity, ba.position, base)
    {
      WriteItem(ba, xs[i], hostLittle);
      WrittenSoFar(xs[..i], xs[i], little);
      OverlayBehind(EncodeAll(xs[..i], little), Encode(xs[i], little));
      assert xs[..i] + [xs[i]] == xs[..i + 1];
    }
    assert xs[..|xs|] == xs;
  }

  lemma NothingEncoded(little: bool)
    ensures EncodeAll([], little) == []
  {
  }

  lemma OverlayBehind(bytes: seq<byte>, data: seq<byte>)
    ensures Overlay(bytes, |bytes|, data) == bytes + data
  {
  }

  /** What has been read so far, and what the calls still to come make of the rest. */
  function Behind(sofar: seq<Item>, rest: Got<seq<Item>>): Got<seq<Item>> {
    if rest.Threw? then rest else Got(sofar + rest.value, rest.position)
  }

  lemma BehindNothing(rest: Got<seq<Item>>)
    ensures Behind([], rest) == rest
  {
    assert rest.Got? ==> [] + rest.value == rest.value;
  }

  lemma TakeAllDone(s: Source, pos: nat, sofar: seq<Item>)
    requires pos <= |s.bytes|
    ensures Behind(sofar, TakeAll(s, pos, [])) == Got(sofar, pos)
  {
    assert sofar + [] == sofar;
  }

  lemma TakeAllStep(s: Source, pos: nat, kinds: seq<Kind>, i: nat, sofar: seq<Item>)
    requires pos <= |s.bytes| && i < |kinds|
    ensures var r := Take(s, pos, kinds[i]);
            && r.position <= |s.bytes|
            && Behind(sofar, TakeAll(s, pos, kinds[i..]))
               == if r.Threw? then Threw(r.outcome, r.position)
                  else Behind(sofar + [r.value], TakeAll(s, r.position, kinds[i + 1..]))
  {
    hide Take;
    var r := Take(s, pos, kinds[i]);
    assert kinds[i..][0] == kinds[i] && kinds[i..][1..] == kinds[i + 1..];
    if r.Got? {
      var rest := TakeAll(s, r.position, kinds[i + 1..]);
      if rest.Got? {
        assert sofar + ([r.value] + rest.value) == sofar + [r.value] + rest.value;
      }
    }
  }

  /** A sequence of read calls, up to the first that goes wrong. */
  method ReadAll(ba: ByteArray, kinds: seq<Kind>, hostLittle: bool) returns (r: Got<seq<Item>>)
    requires ba.Valid()
    modifies ba`position, ba`cur, ba`at
    ensures ba.Valid() && SourceOf(ba, hostLittle) == old(SourceOf(ba, hostLittle)) && ba.position == r.position
    ensures old(ba.position) <= |old(ba.Filled())| && r == TakeAll(old(SourceOf(ba, hostLittle)), old(ba.position), kinds)
  {
    hide *;
    ba.FilledIs();
    ba.ValidHas();
    SourceIs(ba, hostLittle);
    ghost var s, start := SourceOf(ba, hostLittle), ba.position;
    var xs: seq<Item> := [];
    BehindNothing(TakeAll(s, start, kinds));
    assert kinds[0..] == kinds;
    for i := 0 to |kinds|
      invariant ba.Valid() && SourceOf(ba, hostLittle) == s && ba.position <= |s.bytes|
      invariant Behind(xs, TakeAll(s, ba.position, kinds[i..])) == TakeAll(s, start, kinds)
    {
      TakeAllStep(s, ba.position, kinds, i, xs);
      var x := ReadItem(ba, kinds[i], hostLittle);
      if x.Threw? {
        return Threw(x.outcome, x.position);
      }
      xs := xs + [x.value];
    }
    assert kinds[|kinds|..] == [];
    TakeAllDone(s, ba.position, xs);
    r := Got(xs, ba.position);
  }

  /** Written to a new array, with the position set back to 0 and read with the matching calls, all values come
      back and the read size is 0, for any block size and byte order and on any host. The one exception: a last
      value that is an empty string, when the bytes fill their blocks exactly, is read through a null pointer. */
  method WriteThenRead(base: nat, little: bool, xs: seq<Item>, hostLittle: bool) returns (ba: ByteArray, r: Got<seq<Item>>)
    requires base > 0 && forall i :: 0 <= i < |xs| ==> ItemOk(xs[i])
    ensures fresh(ba.repr) && ba.Valid() && ba.position == ba.size == |EncodeAll(xs, little)|
    ensures r == if EndsEmpty(xs) && |EncodeAll(xs, little)| % base == 0 then Threw(NullPointer, ba.position)
                 else Got(xs, ba.position)
  {
    hide *;
    ba := WriteAll(base, little, xs, hostLittle);
    ba.FilledIs();
    ba.ValidHas();
    var outcome := ba.SetPosition(0);
    ba.FilledIs();
    SourceIs(ba, hostLittle);
    TypedRoundTrip(SourceOf(ba, hostLittle), base, xs);
    r := ReadAll(ba, Kinds(xs), hostLittle);
    SourceIs(ba, hostLittle);
    ba.FilledIs();
    ba.ValidHas();
  }

  /** The smallest case that goes wrong: an empty string with a 16-bit length in blocks of two bytes. */
  lemma EmptyStringAtBlockEnd(s: Source)
    requires s.bytes == EncodeAll([String(F16, [])], s.little) && Snug(s.capacity, |s.bytes|, 2)
    ensures TakeAll(s, 0, [KString(F16)]) == Threw(NullPointer, 2)
  {
    hide TakeAll, LittleEndian, Reverse;
    var x := String(F16, []);
    assert Kinds([x]) == [KString(F16)] && EncodeAll([x], s.little) == Encode(x, s.little) + [];
    TypedRoundTrip(s, 2, [x]);
  }
}
