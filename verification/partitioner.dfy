/** The layered "buddy" carving of a network: each layer halves what is
    left, keeps the lower half as its leaf and splits that leaf into a
    power-of-two number of availability-zone subnets. */
module Partitioner {
  import opened Powers
  import opened Results
  import opened Blocks

  /** The least k with 2^k >= n: the number of extra prefix bits needed to
      give n zones a subnet each. */
  function CeilLog2(n: nat): (r: nat)
    requires n >= 1
    ensures n <= Pow2(r)
    ensures r > 0 ==> Pow2(r - 1) < n
    decreases n
  {
    if n == 1 then 0 else 1 + CeilLog2((n + 1) / 2)
  }

  /** No smaller exponent gives enough subnets. */
  lemma {:induction false} CeilLog2Least(n: nat, k: nat)
    requires n >= 1 && n <= Pow2(k)
    ensures CeilLog2(n) <= k
  {
    var r := CeilLog2(n);
    if r > 0 {
      Pow2Monotone(k, r - 1);
    }
  }

  /** On the zone counts the range check admits, CeilLog2 gives the values
      of the floating-point ceil(log(n) / log(2)). */
  lemma CeilLog2OnZoneCounts()
    ensures CeilLog2(1) == 0 && CeilLog2(2) == 1 && CeilLog2(3) == 2 && CeilLog2(4) == 2
  {
  }

  /** Why a layer could not be carved: its halving split, or its zone split,
      would need a prefix longer than 32 bits. */
  datatype AllocError = LayerDepthExceeded | ZoneDepthExceeded

  /** One layer: its 1-based index, its leaf network and the zone subnets of
      that leaf. */
  datatype Layer = Layer(index: nat, leaf: Block, zones: seq<Block>)

  /** The carved layers and the upper half left over after the last one. */
  datatype Allocation = Allocation(layers: seq<Layer>, spare: Block)

  function Leaves(ls: seq<Layer>): (r: seq<Block>)
    ensures |r| == |ls| && forall k :: 0 <= k < |ls| ==> r[k] == ls[k].leaf
  {
    seq(|ls|, k requires 0 <= k < |ls| => ls[k].leaf)
  }

  /** The shape every layer has: the leaf sits at prefix basePrefix + index,
      and its 2^zoneBits zone subnets, all at prefix leaf + zoneBits, tile
      the leaf in ascending order. */
  ghost predicate LayerShape(l: Layer, basePrefix: nat, zoneBits: nat) {
    && l.leaf.prefix == basePrefix + l.index
    && Normalized(l.leaf)
    && |l.zones| == Pow2(zoneBits)
    && (forall j :: 0 <= j < |l.zones| ==>
          l.zones[j].prefix == l.leaf.prefix + zoneBits && Normalized(l.zones[j])
          && l.zones[j].addr == l.leaf.addr + j * SizeOf(l.zones[j].prefix))
    && Tiles(l.zones, l.leaf.addr, End(l.leaf))
  }

  /** What carving layers first..last out of `from` produces: layers numbered
      in order, each of LayerShape, whose leaves followed by the spare block
      tile `from`; leaf k is the lower half of what was left, so it ends one
      leaf-size below the end of `from`. */
  ghost predicate Carved(a: Allocation, from: Block, basePrefix: nat, first: nat, last: nat,
                         zoneBits: nat) {
    && |a.layers| == last + 1 - first
    && LayersFrom(a.layers, basePrefix, first, zoneBits, End(from))
    && a.spare.prefix == basePrefix + last && Normalized(a.spare)
    && Tiles(Leaves(a.layers) + [a.spare], from.addr, End(from))
  }

  /** Layers numbered from `first`, each of LayerShape, each leaf ending one
      leaf-size below `end`. */
  ghost predicate LayersFrom(ls: seq<Layer>, basePrefix: nat, first: nat, zoneBits: nat, end: int) {
    forall k :: 0 <= k < |ls| ==>
      ls[k].index == first + k && LayerShape(ls[k], basePrefix, zoneBits)
      && ls[k].leaf.addr + 2 * Size(ls[k].leaf) == end
  }

  lemma LayersFromCons(l: Layer, rest: seq<Layer>, basePrefix: nat, zoneBits: nat, end: int)
    requires LayerShape(l, basePrefix, zoneBits) && l.leaf.addr + 2 * Size(l.leaf) == end
    requires LayersFrom(rest, basePrefix, l.index + 1, zoneBits, end)
    ensures LayersFrom([l] + rest, basePrefix, l.index, zoneBits, end)
  {
    forall k | 1 <= k < |rest| + 1
      ensures ([l] + rest)[k] == rest[k - 1]
    {
    }
  }

  /** Carves layers index..layers out of `remaining`, whose prefix is one
      short of layer `index`'s. Each step splits `remaining` in two at prefix
      basePrefix + index, splits the lower half into the zone subnets and
      carries the upper half to the next layer; the first split that would
      go past 32 bits fails the whole carving. */
  function Carve(remaining: Block, basePrefix: nat, index: nat, layers: nat, zoneBits: nat)
    : (r: Result<Allocation, AllocError>)
    requires Normalized(remaining)
    requires 1 <= index <= layers + 1
    requires remaining.prefix + 1 == basePrefix + index
    ensures r.Success? <==> index > layers || basePrefix + layers + zoneBits <= 32
    ensures r.Failure? && basePrefix + layers <= 32 ==> r.error == ZoneDepthExceeded
    ensures r.Failure? && zoneBits == 0 ==> r.error == LayerDepthExceeded
    ensures r.Success? ==> Carved(r.value, remaining, basePrefix, index, layers, zoneBits)
    decreases layers + 1 - index
  {
    if index > layers then
      TilesCons(remaining, [], remaining.addr, End(remaining));
      assert Leaves([]) + [remaining] == [remaining];
      Success(Allocation([], remaining))
    else
      var newPrefix := basePrefix + index;
      match Split(remaining, newPrefix)
      case None => Failure(LayerDepthExceeded)
      case Some(halves) =>
        HalvesFacts(remaining, newPrefix, halves);
        var leaf := halves[0];
        var next := halves[1];
        match Split(leaf, newPrefix + zoneBits)
        case None => Failure(ZoneDepthExceeded)
        case Some(zones) =>
          ZonesFacts(leaf, index, basePrefix, zoneBits, zones);
          var rest := Carve(next, basePrefix, index + 1, layers, zoneBits);
          if rest.Failure? then Failure(rest.error)
          else
            var a := Allocation([Layer(index, leaf, zones)] + rest.value.layers, rest.value.spare);
            CarveStep(remaining, leaf, next, zones, rest.value, a, basePrefix, index, layers, zoneBits);
            Success(a)
  }

  /** Splitting a block one bit further gives its lower and upper half. */
  lemma HalvesFacts(b: Block, newPrefix: nat, halves: seq<Block>)
    requires Normalized(b) && newPrefix == b.prefix + 1
    requires Split(b, newPrefix) == Some(halves)
    ensures |halves| == 2
    ensures halves[0].prefix == halves[1].prefix == newPrefix
    ensures Normalized(halves[0]) && Normalized(halves[1])
    ensures halves[0].addr == b.addr && halves[1].addr == End(halves[0])
  {
    assert Pow2(1) == 2;
  }

  /** The zone split of a leaf has the shape of a layer. */
  lemma ZonesFacts(leaf: Block, index: nat, basePrefix: nat, zoneBits: nat, zones: seq<Block>)
    requires Normalized(leaf) && leaf.prefix == basePrefix + index
    requires Split(leaf, leaf.prefix + zoneBits) == Some(zones)
    ensures LayerShape(Layer(index, leaf, zones), basePrefix, zoneBits)
  {
  }

  /** One layer in front of a carving of the upper half is a carving of the
      whole. */
  lemma CarveStep(remaining: Block, leaf: Block, next: Block, zones: seq<Block>,
                  rest: Allocation, a: Allocation,
                  basePrefix: nat, index: nat, layers: nat, zoneBits: nat)
    requires 1 <= index <= layers && remaining.prefix + 1 == basePrefix + index
    requires leaf.prefix == next.prefix == remaining.prefix + 1
    requires leaf.addr == remaining.addr && next.addr == End(leaf)
    requires Normalized(leaf)
    requires LayerShape(Layer(index, leaf, zones), basePrefix, zoneBits)
    requires Carved(rest, next, basePrefix, index + 1, layers, zoneBits)
    requires a == Allocation([Layer(index, leaf, zones)] + rest.layers, rest.spare)
    ensures Carved(a, remaining, basePrefix, index, layers, zoneBits)
  {
    assert Size(remaining) == 2 * Size(leaf);
    assert End(next) == End(remaining);
    LayersFromCons(Layer(index, leaf, zones), rest.layers, basePrefix, zoneBits, End(remaining));
    LeavesCons(Layer(index, leaf, zones), rest.layers, rest.spare, remaining.addr, End(remaining));
  }

  /** A leaf in front of leaves and spare that tile from its end on. */
  lemma LeavesCons(l: Layer, rest: seq<Layer>, spare: Block, lo: int, hi: int)
    requires l.leaf.addr == lo && Tiles(Leaves(rest) + [spare], End(l.leaf), hi)
    ensures Tiles(Leaves([l] + rest) + [spare], lo, hi)
  {
    assert Leaves([l] + rest) + [spare] == [l.leaf] + (Leaves(rest) + [spare]);
    TilesCons(l.leaf, Leaves(rest) + [spare], lo, hi);
  }

  /** The carving of a normalised network into `layers` layers for `zones`
      availability zones, all subnets of one layer sharing the exponent
      CeilLog2(zones). */
  function Partition(base: Block, layers: nat, zones: nat): (r: Result<Allocation, AllocError>)
    requires Normalized(base) && zones >= 1
    ensures r.Success? <==> layers == 0 || base.prefix + layers + CeilLog2(zones) <= 32
    ensures r.Failure? && base.prefix + layers <= 32 ==> r.error == ZoneDepthExceeded
    ensures r.Success? ==> Carved(r.value, base, base.prefix, 1, layers, CeilLog2(zones))
  {
    Carve(base, base.prefix, 1, layers, CeilLog2(zones))
  }

  /** Every layer has the same power-of-two number of zone subnets, the
      least power of two that is at least `zones`, whatever its index. */
  lemma ZoneCountPerLayer(base: Block, layers: nat, zones: nat, k: nat)
    requires Normalized(base) && zones >= 1
    requires layers == 0 || base.prefix + layers + CeilLog2(zones) <= 32
    requires k < layers
    ensures var l := Partition(base, layers, zones).value.layers[k];
      && l.index == k + 1
      && l.leaf.prefix == base.prefix + k + 1
      && |l.zones| == Pow2(CeilLog2(zones)) >= zones
      && |l.zones| < 2 * zones
  {
    var e := CeilLog2(zones);
    if e > 0 {
      assert Pow2(e) == 2 * Pow2(e - 1);
    }
  }

  /** Leaf k is the lower half of what layers 1..k-1 left: the first leaf
      starts at the base address, each carried upper half starts one leaf
      size above its leaf and the next leaf starts there, and the last
      carried half ends where the base network ends. */
  lemma PartitionHalving(base: Block, layers: nat, zones: nat)
    requires Normalized(base) && zones >= 1
    requires layers == 0 || base.prefix + layers + CeilLog2(zones) <= 32
    ensures var a := Partition(base, layers, zones).value;
      && (|a.layers| > 0 ==> a.layers[0].leaf.addr == base.addr)
      && (forall k :: 0 <= k < |a.layers| - 1 ==>
            a.layers[k + 1].leaf.addr == a.layers[k].leaf.addr + Size(a.layers[k].leaf))
      && (|a.layers| > 0 ==> a.spare.addr == End(a.layers[|a.layers| - 1].leaf))
      && (|a.layers| == 0 ==> a.spare == base)
      && End(a.spare) == End(base)
  {
    var a := Partition(base, layers, zones).value;
    var bs := Leaves(a.layers) + [a.spare];
    TilesAdjacent(bs, base.addr, End(base));
    var n := |a.layers|;
    assert bs[n] == a.spare;
    assert forall k :: 0 <= k < n ==> bs[k] == a.layers[k].leaf;
    if n == 0 {
      assert a.spare.addr == base.addr && a.spare.prefix == base.prefix;
    } else {
      assert bs[n - 1 + 1].addr == End(bs[n - 1]);
    }
  }

  /** Every zone subnet lies in its leaf and every leaf, like the spare
      half, lies in the base network. */
  lemma PartitionNested(base: Block, layers: nat, zones: nat, k: nat, j: nat)
    requires Normalized(base) && zones >= 1
    requires layers == 0 || base.prefix + layers + CeilLog2(zones) <= 32
    requires k < layers
    requires j < Pow2(CeilLog2(zones))
    ensures var a := Partition(base, layers, zones).value;
      && Inside(a.layers[k].zones[j], a.layers[k].leaf)
      && Inside(a.layers[k].leaf, base)
      && Inside(a.spare, base)
  {
    var a := Partition(base, layers, zones).value;
    var l := a.layers[k];
    assert LayerShape(l, base.prefix, CeilLog2(zones));
    TilesOrdered(l.zones, l.leaf.addr, End(l.leaf));
    var bs := Leaves(a.layers) + [a.spare];
    TilesOrdered(bs, base.addr, End(base));
    assert bs[k] == l.leaf && bs[|a.layers|] == a.spare;
  }

  /** Different layers share no address, and no layer shares one with the
      spare half. */
  lemma PartitionDisjoint(base: Block, layers: nat, zones: nat, i: nat, j: nat, x: int)
    requires Normalized(base) && zones >= 1
    requires layers == 0 || base.prefix + layers + CeilLog2(zones) <= 32
    requires i < j <= layers
    ensures var a := Partition(base, layers, zones).value;
      var other := if j < |a.layers| then a.layers[j].leaf else a.spare;
      !(Contains(a.layers[i].leaf, x) && Contains(other, x))
  {
    var a := Partition(base, layers, zones).value;
    var bs := Leaves(a.layers) + [a.spare];
    TilesDisjoint(bs, base.addr, End(base), i, j, x);
    assert bs[i] == a.layers[i].leaf;
    assert bs[j] == if j < |a.layers| then a.layers[j].leaf else a.spare;
  }

  /** The leaves and the spare half together cover the base network: no
      address of it is lost. */
  lemma PartitionCovers(base: Block, layers: nat, zones: nat, x: int)
    requires Normalized(base) && zones >= 1
    requires layers == 0 || base.prefix + layers + CeilLog2(zones) <= 32
    requires Contains(base, x)
    ensures var a := Partition(base, layers, zones).value;
      Contains(a.spare, x) || exists k :: 0 <= k < |a.layers| && Contains(a.layers[k].leaf, x)
  {
    var a := Partition(base, layers, zones).value;
    var bs := Leaves(a.layers) + [a.spare];
    TilesCover(bs, base.addr, End(base), x);
    var k :| 0 <= k < |bs| && Contains(bs[k], x);
    if k < |a.layers| {
      assert Contains(a.layers[k].leaf, x);
    } else {
      assert Contains(a.spare, x);
    }
  }

  /** Every address of a leaf lies in exactly one of its zone subnets. */
  lemma ZonesPartitionLeaf(base: Block, layers: nat, zones: nat, k: nat, x: int)
    requires Normalized(base) && zones >= 1
    requires layers == 0 || base.prefix + layers + CeilLog2(zones) <= 32
    requires k < layers
    ensures var l := Partition(base, layers, zones).value.layers[k];
      Contains(l.leaf, x) ==>
        exists j :: 0 <= j < |l.zones| && Contains(l.zones[j], x)
          && forall j' :: 0 <= j' < |l.zones| && j' != j ==> !Contains(l.zones[j'], x)
  {
    var l := Partition(base, layers, zones).value.layers[k];
    if Contains(l.leaf, x) {
      assert LayerShape(l, base.prefix, CeilLog2(zones));
      TilesCover(l.zones, l.leaf.addr, End(l.leaf), x);
      var j :| 0 <= j < |l.zones| && Contains(l.zones[j], x);
      forall j' | 0 <= j' < |l.zones| && j' != j
        ensures !Contains(l.zones[j'], x)
      {
        TilesDisjoint(l.zones, l.leaf.addr, End(l.leaf), j, j', x);
      }
    }
  }

  /** Zone subnet j of a layer starts j zone-sizes into its leaf. */
  lemma ZoneAddress(base: Block, layers: nat, zones: nat, k: nat, j: nat)
    requires Normalized(base) && zones >= 1
    requires layers == 0 || base.prefix + layers + CeilLog2(zones) <= 32
    requires k < layers
    requires j < Pow2(CeilLog2(zones))
    ensures var l := Partition(base, layers, zones).value.layers[k];
      && l.zones[j].prefix == l.leaf.prefix + CeilLog2(zones)
      && l.zones[j].addr == l.leaf.addr + j * Size(l.zones[j])
  {
    var l := Partition(base, layers, zones).value.layers[k];
    assert LayerShape(l, base.prefix, CeilLog2(zones));
  }

  /** Within the ranges the parameter check admits, the halving splits never
      run out of bits; only the zone split can, and exactly when the base
      prefix plus the layers plus the zone exponent passes 32. */
  lemma OnlyZoneSplitFails(base: Block, layers: nat, zones: nat)
    requires Normalized(base) && 16 <= base.prefix <= 28 && 1 <= layers <= 4 && 1 <= zones <= 4
    ensures Partition(base, layers, zones).Failure? <==> base.prefix + layers + CeilLog2(zones) > 32
    ensures Partition(base, layers, zones).Failure? ==>
      Partition(base, layers, zones).error == ZoneDepthExceeded
  {
  }
}
