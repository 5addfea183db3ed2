/** Byte sequences cut into blocks of one size: the arithmetic behind the block list of a ByteArray. */
module ByteBlocks {

  type byte = x: int | 0 <= x < 256

  /** The blocks one after the other. */
  function Join(blocks: seq<seq<byte>>): seq<byte> {
    if blocks == [] then [] else Join(blocks[..|blocks| - 1]) + blocks[|blocks| - 1]
  }

  predicate Even(blocks: seq<seq<byte>>, b: nat) {
    forall i :: 0 <= i < |blocks| ==> |blocks[i]| == b
  }

  /** `data` laid over `s` from `at` on. */
  function Splice(s: seq<byte>, at: nat, data: seq<byte>): seq<byte>
    requires at + |data| <= |s|
  {
    s[..at] + data + s[at + |data|..]
  }

  /** The integer ceiling of a / b. */
  function CeilDiv(a: nat, b: nat): nat
    requires b > 0
  {
    (a + b - 1) / b
  }

  lemma CeilDivBounds(a: nat, b: nat)
    requires b > 0
    ensures var n := CeilDiv(a, b); n * b >= a && (a > 0 ==> (n - 1) * b < a && n > 0)
  {
    var n := CeilDiv(a, b);
    assert a + b - 1 == n * b + (a + b - 1) % b;
    assert (n - 1) * b == n * b - b;
  }

  lemma MulMono(a: nat, c: nat, b: nat)
    requires a <= c
    ensures a * b <= c * b
  {
  }

  lemma OnlyZero(d: int, b: nat)
    requires 0 - b < d * b < b
    ensures d == 0
  {
    if d >= 1 {
      MulMono(1, d, b);
    }
  }

  lemma DivModOf(p: nat, b: nat, k: nat, r: nat)
    requires b > 0 && r < b && p == k * b + r
    ensures p / b == k && p % b == r
  {
    assert p == (p / b) * b + p % b;
    OnlyZero(p / b - k, b);
  }

  lemma MulNext(k: nat, b: nat)
    ensures (k + 1) * b == k * b + b
  {
  }

  lemma {:induction false} JoinLength(blocks: seq<seq<byte>>, b: nat)
    requires Even(blocks, b)
    ensures |Join(blocks)| == |blocks| * b
  {
    if blocks == [] {
    } else {
      JoinLength(blocks[..|blocks| - 1], b);
      MulNext(|blocks| - 1, b);
    }
  }

  lemma {:induction false} JoinConcat(x: seq<seq<byte>>, y: seq<seq<byte>>)
    ensures Join(x + y) == Join(x) + Join(y)
    decreases |y|
  {
    if y == [] {
      assert x + y == x;
    } else {
      JoinConcat(x, y[..|y| - 1]);
      assert (x + y)[..|x + y| - 1] == x + y[..|y| - 1];
    }
  }

  lemma JoinMore(blocks: seq<seq<byte>>, x: seq<byte>)
    ensures Join(blocks + [x]) == Join(blocks) + x
  {
    assert (blocks + [x])[..|blocks|] == blocks;
  }

  lemma JoinOne(x: seq<byte>)
    ensures Join([x]) == x
  {
    JoinMore([], x);
    assert [] + [x] == [x];
    assert [] + x == x;
  }

  /** Block `k` in the joined sequence. */
  lemma JoinAround(blocks: seq<seq<byte>>, b: nat, k: nat)
    requires Even(blocks, b) && k < |blocks|
    ensures k * b + b <= |blocks| * b == |Join(blocks)|
    ensures Join(blocks) == Join(blocks[..k]) + blocks[k] + Join(blocks[k + 1..])
    ensures |Join(blocks[..k])| == k * b
  {
    assert blocks == blocks[..k] + [blocks[k]] + blocks[k + 1..];
    JoinConcat(blocks[..k] + [blocks[k]], blocks[k + 1..]);
    JoinConcat(blocks[..k], [blocks[k]]);
    assert Join([blocks[k]]) == [] + blocks[k];
    JoinLength(blocks[..k], b);
    JoinLength(blocks, b);
    MulNext(k, b);
    MulMono(k + 1, |blocks|, b);
  }

  lemma JoinAt(blocks: seq<seq<byte>>, b: nat, k: nat, lo: nat, hi: nat)
    requires Even(blocks, b) && k < |blocks| && lo <= hi <= b
    ensures k * b + hi <= |Join(blocks)|
    ensures Join(blocks)[k * b + lo..k * b + hi] == blocks[k][lo..hi]
  {
    JoinAround(blocks, b, k);
    var x, y, z := Join(blocks[..k]), blocks[k], Join(blocks[k + 1..]);
    assert (x + y + z)[|x| + lo..|x| + hi] == y[lo..hi];
  }

  lemma SpliceInside(x: seq<byte>, y: seq<byte>, z: seq<byte>, r: nat, data: seq<byte>)
    requires r + |data| <= |y|
    ensures Splice(x + y + z, |x| + r, data) == x + Splice(y, r, data) + z
  {
    var s, n := x + y + z, |x| + r;
    assert s[..n] == x + y[..r];
    assert s[n + |data|..] == y[r + |data|..] + z;
  }

  /** Writing into one block is writing into the joined sequence. */
  lemma JoinSplice(blocks: seq<seq<byte>>, b: nat, k: nat, r: nat, data: seq<byte>)
    requires Even(blocks, b) && k < |blocks| && r + |data| <= b
    ensures k * b + r + |data| <= |Join(blocks)|
    ensures Join(blocks[k := Splice(blocks[k], r, data)]) == Splice(Join(blocks), k * b + r, data)
  {
    hide Join;
    JoinAround(blocks, b, k);
    SpliceInside(Join(blocks[..k]), blocks[k], Join(blocks[k + 1..]), r, data);
    var y := Splice(blocks[k], r, data);
    assert |y| == b;
    hide Splice;
    var blocks' := blocks[k := y];
    JoinAround(blocks', b, k);
    assert blocks'[..k] == blocks[..k] && blocks'[k + 1..] == blocks[k + 1..];
  }

  lemma SpliceMore(s: seq<byte>, at: nat, x: seq<byte>, y: seq<byte>)
    requires at + |x| + |y| <= |s|
    ensures Splice(Splice(s, at, x), at + |x|, y) == Splice(s, at, x + y)
  {
  }

  lemma SpliceNothing(s: seq<byte>, at: nat)
    requires at <= |s|
    ensures Splice(s, at, []) == s
  {
  }
}
