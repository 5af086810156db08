/** IPv4 address blocks (CIDR networks): an address and a prefix length.
    A block of prefix p spans 2^(32-p) consecutive addresses. */
module Blocks {
  import opened Powers
  import opened Results

  /** A 32-bit IPv4 address as an integer. */
  type Addr = a: nat | a < 0x1_0000_0000

  /** A prefix length, 0 through 32. */
  type PrefixLen = p: nat | p <= 32

  datatype Block = Block(addr: Addr, prefix: PrefixLen)

  /** Number of addresses in a block of the given prefix. */
  function SizeOf(prefix: PrefixLen): nat {
    Pow2(32 - prefix)
  }

  function Size(b: Block): nat {
    SizeOf(b.prefix)
  }

  /** One past the last address of the block. */
  function End(b: Block): nat {
    b.addr + Size(b)
  }

  predicate Contains(b: Block, x: int) {
    b.addr <= x < End(b)
  }

  /** Host bits are zero: the address is the block's network address. */
  predicate Normalized(b: Block) {
    b.addr % Size(b) == 0
  }

  /** Every address of `inner` is an address of `outer`. */
  predicate Inside(inner: Block, outer: Block) {
    outer.addr <= inner.addr && End(inner) <= End(outer)
  }

  /** A normalised block never runs past the end of the address space. */
  lemma NormalizedFits(b: Block)
    requires Normalized(b)
    ensures End(b) <= AddressSpace
  {
    Pow2Add(b.prefix, 32 - b.prefix);
    Pow2Of32();
    MultipleBelow(b.addr, Size(b), Pow2(b.prefix));
  }

  /** The network containing `addr` at the given prefix: the address with
      its host bits cleared and the prefix kept. */
  function Normalize(addr: Addr, prefix: PrefixLen): (r: Block)
    ensures r.prefix == prefix
    ensures Normalized(r)
    ensures Contains(r, addr)
    ensures r.addr / Size(r) == addr / Size(r)
  {
    var s := SizeOf(prefix);
    RoundDown(addr, s);
    Block((addr / s) * s, prefix)
  }

  lemma RoundDown(x: nat, s: nat)
    requires s > 0
    ensures 0 <= (x / s) * s <= x < (x / s) * s + s
    ensures ((x / s) * s) % s == 0 && ((x / s) * s) / s == x / s
  {
    MultipleMod(x / s, s);
  }

  /** Normalize picks the one normalised block of that prefix holding the
      address, so it is also idempotent. */
  lemma NormalizeUnique(addr: Addr, c: Block)
    requires Normalized(c) && Contains(c, addr)
    ensures Normalize(addr, c.prefix) == c
  {
    var s := Size(c);
    var q := c.addr / s;
    assert c.addr == q * s;
    DivModUnique(addr, s, q, addr - c.addr);
  }

  /** Consecutive blocks that exactly cover [lo, hi): the first starts at lo,
      each next one starts where the previous ends, the last ends at hi. */
  ghost predicate Tiles(bs: seq<Block>, lo: int, hi: int)
    decreases |bs|
  {
    if |bs| == 0 then lo == hi
    else bs[0].addr == lo && Tiles(bs[1..], End(bs[0]), hi)
  }

  /** Tiling blocks are in ascending order, never overlap and stay inside
      [lo, hi). */
  lemma {:induction false} TilesOrdered(bs: seq<Block>, lo: int, hi: int)
    requires Tiles(bs, lo, hi)
    ensures lo <= hi
    ensures forall k :: 0 <= k < |bs| ==> lo <= bs[k].addr && End(bs[k]) <= hi
    ensures forall i, j :: 0 <= i < j < |bs| ==> End(bs[i]) <= bs[j].addr
    decreases |bs|
  {
    if |bs| > 0 {
      TilesOrdered(bs[1..], End(bs[0]), hi);
      assert forall k :: 1 <= k < |bs| ==> bs[k] == bs[1..][k - 1];
    }
  }

  /** In a tiling the first block starts at lo, each next block starts
      where the previous one ends, and the last ends at hi. */
  lemma {:induction false} TilesAdjacent(bs: seq<Block>, lo: int, hi: int)
    requires Tiles(bs, lo, hi) && |bs| > 0
    ensures bs[0].addr == lo && End(bs[|bs| - 1]) == hi
    ensures forall k :: 0 <= k < |bs| - 1 ==> bs[k + 1].addr == End(bs[k])
    decreases |bs|
  {
    if |bs| > 1 {
      TilesAdjacent(bs[1..], End(bs[0]), hi);
      assert forall k :: 1 <= k < |bs| ==> bs[k] == bs[1..][k - 1];
    }
  }

  /** No address lies in two different blocks of a tiling. */
  lemma TilesDisjoint(bs: seq<Block>, lo: int, hi: int, i: nat, j: nat, x: int)
    requires Tiles(bs, lo, hi)
    requires i < |bs| && j < |bs| && i != j
    ensures !(Contains(bs[i], x) && Contains(bs[j], x))
  {
    TilesOrdered(bs, lo, hi);
  }

  /** Every address of [lo, hi) lies in some block of a tiling. */
  lemma {:induction false} TilesCover(bs: seq<Block>, lo: int, hi: int, x: int)
    requires Tiles(bs, lo, hi) && lo <= x < hi
    ensures exists k :: 0 <= k < |bs| && Contains(bs[k], x)
    decreases |bs|
  {
    if !Contains(bs[0], x) {
      TilesCover(bs[1..], End(bs[0]), hi, x);
      var k :| 0 <= k < |bs[1..]| && Contains(bs[1..][k], x);
      assert Contains(bs[k + 1], x);
    }
  }

  /** `count` consecutive blocks of the given prefix starting at `start`. */
  function Run(start: nat, prefix: PrefixLen, count: nat): (r: seq<Block>)
    requires start % SizeOf(prefix) == 0
    requires start + count * SizeOf(prefix) <= AddressSpace
    ensures |r| == count
    ensures forall k :: 0 <= k < count ==>
      r[k].addr == start + k * SizeOf(prefix) && r[k].prefix == prefix && Normalized(r[k])
    ensures Tiles(r, start, start + count * SizeOf(prefix))
    decreases count
  {
    if count == 0 then []
    else
      var s := SizeOf(prefix);
      RunStep(start, s, count);
      var rest := Run(start + s, prefix, count - 1);
      RunCons(Block(start, prefix), rest, s, start + count * s);
      [Block(start, prefix)] + rest
  }

  /** The arithmetic of one step of Run: the next block starts one size
      further on, still on a multiple of the size. */
  lemma RunStep(start: nat, s: nat, count: nat)
    requires s > 0 && count > 0 && start % s == 0
    ensures start + count * s == start + s + (count - 1) * s
    ensures (start + s) % s == 0
    ensures forall k :: 1 <= k < count ==> start + s + (k - 1) * s == start + k * s
  {
    MultipleMod(start / s + 1, s);
    assert start + s == (start / s + 1) * s;
  }

  /** Putting a block in front of a run that starts at its end. */
  lemma RunCons(b: Block, rest: seq<Block>, s: nat, hi: int)
    requires Size(b) == s && Normalized(b)
    requires forall k :: 0 <= k < |rest| ==>
      rest[k].addr == b.addr + s + k * s && rest[k].prefix == b.prefix && Normalized(rest[k])
    requires forall k :: 1 <= k <= |rest| ==> b.addr + s + (k - 1) * s == b.addr + k * s
    requires Tiles(rest, b.addr + s, hi)
    ensures forall k :: 0 <= k < |rest| + 1 ==>
      ([b] + rest)[k].addr == b.addr + k * s && ([b] + rest)[k].prefix == b.prefix
      && Normalized(([b] + rest)[k])
    ensures Tiles([b] + rest, b.addr, hi)
  {
    TilesCons(b, rest, b.addr, hi);
    forall k | 1 <= k < |rest| + 1
      ensures ([b] + rest)[k] == rest[k - 1]
    {
    }
  }

  lemma TilesCons(b: Block, rest: seq<Block>, lo: int, hi: int)
    requires b.addr == lo && Tiles(rest, End(b), hi)
    ensures Tiles([b] + rest, lo, hi)
  {
    assert ([b] + rest)[1..] == rest;
  }

  /** The subnets of `b` at the finer prefix `newPrefix`, in ascending order;
      None when the prefix is beyond 32 bits. */
  function Split(b: Block, newPrefix: nat): (r: Option<seq<Block>>)
    requires Normalized(b) && b.prefix <= newPrefix
    ensures r.Some? <==> newPrefix <= 32
    ensures r.Some? ==> |r.value| == Pow2(newPrefix - b.prefix)
    ensures r.Some? ==> forall k :: 0 <= k < |r.value| ==>
      r.value[k].prefix == newPrefix && Normalized(r.value[k]) && Inside(r.value[k], b)
      && r.value[k].addr == b.addr + k * Pow2(32 - newPrefix)
    ensures r.Some? ==> Tiles(r.value, b.addr, End(b))
  {
    if newPrefix > 32 then None
    else
      var count := Pow2(newPrefix - b.prefix);
      Pow2Add(newPrefix - b.prefix, 32 - newPrefix);
      assert count * SizeOf(newPrefix) == Size(b);
      NormalizedFits(b);
      DivisorMultiple(b.addr, Size(b), count, SizeOf(newPrefix));
      var run := Run(b.addr, newPrefix, count);
      TilesOrdered(run, b.addr, End(b));
      Some(run)
  }

  /** A multiple of m * s is a multiple of s. */
  lemma DivisorMultiple(x: nat, big: nat, m: nat, s: nat)
    requires s > 0 && big == m * s && big > 0 && x % big == 0
    ensures x % s == 0
  {
    var q := x / big;
    assert x == (q * m) * s;
    MultipleMod(q * m, s);
  }
}
