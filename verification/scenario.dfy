/** A worked example: 10.0.0.0/16 carved into two layers
    for two availability zones, first as blocks, then as the rendered rows. */
module Scenario {
  import opened Results
  import opened Powers
  import opened Blocks
  import opened Partitioner
  import opened Format
  import opened Calculator
  import opened Text

  lemma Sizes()
    ensures SizeOf(16) == 65536 && SizeOf(17) == 32768
    ensures SizeOf(18) == 16384 && SizeOf(19) == 8192
    ensures Pow2(1) == 2
  {
    Pow2Add(8, 8);
    assert Pow2(8) == 256;
  }

  /** A /16 network, two layers, two zones. */
  ghost predicate Request(base: Block, layers: nat, zones: nat) {
    (base.prefix, layers, zones) == (16, 2, 2) && Normalized(base)
    && base.addr + 65536 <= AddressSpace
  }

  /** The leaves are the first half, then the first half of the second
      half; the last quarter is left over. */
  lemma ExampleLeaves(base: Block, layers: nat, zones: nat)
    requires Request(base, layers, zones)
    ensures Partition(base, layers, zones).Success?
    ensures var a := Partition(base, layers, zones).value;
      && |a.layers| == 2 && a.layers[0].index == 1 && a.layers[1].index == 2
      && a.layers[0].leaf == Block(base.addr, 17)
      && a.layers[1].leaf == Block(base.addr + 32768, 18)
      && a.spare == Block(base.addr + 49152, 18)
  {
    Sizes();
    CeilLog2OnZoneCounts();
    var a := Partition(base, layers, zones).value;
    assert Carved(a, base, 16, 1, 2, 1);
    PartitionHalving(base, layers, zones);
  }

  /** Each leaf is split into its two halves for the two zones. */
  lemma ExampleZones(base: Block, layers: nat, zones: nat, k: nat)
    requires Request(base, layers, zones) && k < 2
    ensures Partition(base, layers, zones).Success?
    ensures var l := Partition(base, layers, zones).value.layers[k];
      && |l.zones| == 2
      && l.zones[0].addr == l.leaf.addr && l.zones[0].prefix == 18 + k
      && l.zones[1].addr == l.leaf.addr + SizeOf(18 + k) && l.zones[1].prefix == 18 + k
  {
    Sizes();
    ExampleLeaves(base, layers, zones);
    CeilLog2OnZoneCounts();
    ZoneCountPerLayer(base, layers, zones, k);
    ZoneAddress(base, layers, zones, k, 0);
    ZoneAddress(base, layers, zones, k, 1);
  }

  lemma ExampleBlocks(base: Block, layers: nat, zones: nat)
    requires Request(base, layers, zones)
    ensures Partition(base, layers, zones) == Success(Allocation(
      [Layer(1, Block(base.addr, 17), [Block(base.addr, 18), Block(base.addr + 16384, 18)]),
       Layer(2, Block(base.addr + 32768, 18),
                [Block(base.addr + 32768, 19), Block(base.addr + 40960, 19)])],
      Block(base.addr + 49152, 18)))
  {
    Sizes();
    ExampleZones(base, layers, zones, 0);
    ExampleZones(base, layers, zones, 1);
    ExampleLeaves(base, layers, zones);
    var a := Partition(base, layers, zones).value;
    assert a.layers[0].zones == [a.layers[0].zones[0], a.layers[0].zones[1]];
    assert a.layers[1].zones == [a.layers[1].zones[0], a.layers[1].zones[1]];
    assert a.layers == [a.layers[0], a.layers[1]];
  }

  lemma ExampleNumerals()
    ensures NatToString(0) == "0" && NatToString(10) == "10" && NatToString(64) == "64"
    ensures NatToString(128) == "128" && NatToString(160) == "160"
    ensures NatToString(17) == "17" && NatToString(18) == "18" && NatToString(19) == "19"
  {
  }

  /** Rendering a block whose octets and prefix have the given numerals. */
  lemma BlockText(b: Block, o: seq<nat>, t0: string, t1: string, t2: string, t3: string, tp: string)
    requires Octets(b.addr) == o
    requires NatToString(o[0]) == t0 && NatToString(o[1]) == t1
    requires NatToString(o[2]) == t2 && NatToString(o[3]) == t3
    requires NatToString(b.prefix) == tp
    ensures FormatBlock(b) == t0 + "." + t1 + "." + t2 + "." + t3 + "/" + tp
  {
    FormatBlockDottedQuad(b);
  }

  lemma ExampleBlockText0(b: Block)
    requires b == Block(167772160, 17)
    ensures FormatBlock(b) == "10.0.0.0/17"
  {
    ExampleNumerals();
    assert Octets(167772160) == [10, 0, 0, 0];
    BlockText(b, [10, 0, 0, 0], "10", "0", "0", "0", "17");
  }

  lemma ExampleBlockText1(b: Block)
    requires b == Block(167772160, 18)
    ensures FormatBlock(b) == "10.0.0.0/18"
  {
    ExampleNumerals();
    assert Octets(167772160) == [10, 0, 0, 0];
    BlockText(b, [10, 0, 0, 0], "10", "0", "0", "0", "18");
  }

  lemma ExampleBlockText2(b: Block)
    requires b == Block(167788544, 18)
    ensures FormatBlock(b) == "10.0.64.0/18"
  {
    ExampleNumerals();
    assert Octets(167788544) == [10, 0, 64, 0];
    BlockText(b, [10, 0, 64, 0], "10", "0", "64", "0", "18");
  }

  lemma ExampleBlockText3(b: Block)
    requires b == Block(167804928, 18)
    ensures FormatBlock(b) == "10.0.128.0/18"
  {
    ExampleNumerals();
    assert Octets(167804928) == [10, 0, 128, 0];
    BlockText(b, [10, 0, 128, 0], "10", "0", "128", "0", "18");
  }

  lemma ExampleBlockText4(b: Block)
    requires b == Block(167804928, 19)
    ensures FormatBlock(b) == "10.0.128.0/19"
  {
    ExampleNumerals();
    assert Octets(167804928) == [10, 0, 128, 0];
    BlockText(b, [10, 0, 128, 0], "10", "0", "128", "0", "19");
  }

  lemma ExampleBlockText5(b: Block)
    requires b == Block(167813120, 19)
    ensures FormatBlock(b) == "10.0.160.0/19"
  {
    ExampleNumerals();
    assert Octets(167813120) == [10, 0, 160, 0];
    BlockText(b, [10, 0, 160, 0], "10", "0", "160", "0", "19");
  }

  lemma JoinThree(a: string, b: string, c: string, sep: char)
    ensures Join([a, b, c], sep) == a + [sep] + b + [sep] + c
  {
    assert [a, b, c][1..] == [b, c];
    assert [b, c][1..] == [c];
    assert Join([c], sep) == c;
    assert Join([b, c], sep) == b + [sep] + c;
  }

  /** The row of a layer with two zone subnets, from its three block texts. */
  lemma RowText(l: Layer, t0: string, t1: string, t2: string, row: string)
    requires |l.zones| == 2
    requires FormatBlock(l.leaf) == t0 && FormatBlock(l.zones[0]) == t1
    requires FormatBlock(l.zones[1]) == t2
    requires row == t0 + "," + t1 + "," + t2
    ensures FormatRow(l) == row
  {
    var bs := [l.leaf] + l.zones;
    assert bs[0] == l.leaf && bs[1] == l.zones[0] && bs[2] == l.zones[1];
    var parts := FormatBlocks(bs);
    assert parts == [t0, t1, t2] by {
      assert |parts| == 3 && parts[0] == t0 && parts[1] == t1 && parts[2] == t2;
    }
    JoinThree(t0, t1, t2, ',');
  }

  lemma ExampleKeys()
    ensures LayerKey(1) == "NetworkLayer1" && LayerKey(2) == "NetworkLayer2"
  {
    assert NatToString(1) == "1" && NatToString(2) == "2";
  }

  lemma ExampleJoin0()
    ensures "10.0.0.0/17" + "," + "10.0.0.0/18" + "," + "10.0.64.0/18"
      == "10.0.0.0/17,10.0.0.0/18,10.0.64.0/18"
  {
  }

  lemma ExampleJoin1()
    ensures "10.0.128.0/18" + "," + "10.0.128.0/19" + "," + "10.0.160.0/19"
      == "10.0.128.0/18,10.0.128.0/19,10.0.160.0/19"
  {
  }

  /** The example's first layer as it is rendered. */
  lemma ExampleRowText0(l: Layer)
    requires l == Layer(1, Block(167772160, 17), [Block(167772160, 18), Block(167788544, 18)])
    ensures FormatRow(l) == "10.0.0.0/17,10.0.0.0/18,10.0.64.0/18"
  {
    ExampleBlockText0(l.leaf);
    ExampleBlockText1(l.zones[0]);
    ExampleBlockText2(l.zones[1]);
    ExampleJoin0();
    RowText(l, "10.0.0.0/17", "10.0.0.0/18", "10.0.64.0/18", "10.0.0.0/17,10.0.0.0/18,10.0.64.0/18");
  }

  /** The example's second layer as it is rendered. */
  lemma ExampleRowText1(l: Layer)
    requires l == Layer(2, Block(167804928, 18), [Block(167804928, 19), Block(167813120, 19)])
    ensures FormatRow(l) == "10.0.128.0/18,10.0.128.0/19,10.0.160.0/19"
  {
    ExampleBlockText3(l.leaf);
    ExampleBlockText4(l.zones[0]);
    ExampleBlockText5(l.zones[1]);
    ExampleJoin1();
    RowText(l, "10.0.128.0/18", "10.0.128.0/19", "10.0.160.0/19",
      "10.0.128.0/18,10.0.128.0/19,10.0.160.0/19");
  }

  /** The normalised network and its carving for the example request. */
  lemma ExampleAllocation(addr: Addr, prefix: PrefixLen, layers: nat, zones: nat)
    requires addr == 167772160 && prefix == 16 && layers == 2 && zones == 2
    ensures Normalize(addr, prefix) == Block(addr, prefix)
    ensures Partition(Block(addr, prefix), layers, zones) == Success(Allocation(
      [Layer(1, Block(167772160, 17), [Block(167772160, 18), Block(167788544, 18)]),
       Layer(2, Block(167804928, 18), [Block(167804928, 19), Block(167813120, 19)])],
      Block(167821312, 18)))
  {
    var base := Block(addr, prefix);
    Sizes();
    MultipleMod(2560, 65536);
    NormalizeUnique(addr, base);
    ExampleBlocks(base, layers, zones);
  }

  /** The rendered rows of the example's two layers. */
  lemma ExampleRowsOf(ls: seq<Layer>)
    requires ls == [Layer(1, Block(167772160, 17), [Block(167772160, 18), Block(167788544, 18)]),
                    Layer(2, Block(167804928, 18), [Block(167804928, 19), Block(167813120, 19)])]
    ensures Rows(ls) == [
      ("NetworkLayer1", "10.0.0.0/17,10.0.0.0/18,10.0.64.0/18"),
      ("NetworkLayer2", "10.0.128.0/18,10.0.128.0/19,10.0.160.0/19")]
  {
    ExampleRowText0(ls[0]);
    ExampleRowText1(ls[1]);
    ExampleKeys();
    TwoRows(ls, "NetworkLayer1", "10.0.0.0/17,10.0.0.0/18,10.0.64.0/18",
      "NetworkLayer2", "10.0.128.0/18,10.0.128.0/19,10.0.160.0/19");
  }

  /** The rows of two layers from their keys and rendered values. */
  lemma TwoRows(ls: seq<Layer>, k0: string, v0: string, k1: string, v1: string)
    requires |ls| == 2
    requires LayerKey(ls[0].index) == k0 && FormatRow(ls[0]) == v0
    requires LayerKey(ls[1].index) == k1 && FormatRow(ls[1]) == v1
    ensures Rows(ls) == [(k0, v0), (k1, v1)]
  {
  }

  /** The rows for 10.0.0.0/16, two layers, two zones. */
  lemma ExampleRows(addr: Addr, prefix: PrefixLen, layers: int, zones: int)
    requires addr == 167772160 && prefix == 16 && layers == 2 && zones == 2
    ensures Calculate(addr, prefix, layers, zones) == Success([
      ("NetworkLayer1", "10.0.0.0/17,10.0.0.0/18,10.0.64.0/18"),
      ("NetworkLayer2", "10.0.128.0/18,10.0.128.0/19,10.0.160.0/19")])
  {
    ExampleAllocation(addr, prefix, layers, zones);
    var a := Partition(Block(addr, prefix), layers, zones).value;
    ExampleRowsOf(a.layers);
  }

  /** A /28 with four layers of four zones passes the parameter check but
      fails with an allocation error. Two layers still fit and three do not:
      the third layer's zone split would need a /33 (28 + 3 + 2). */
  lemma DeepestRequestFails(addr: Addr)
    ensures Calculate(addr, 28, 4, 4) == Failure(AllocationFailed(ZoneDepthExceeded))
    ensures Partition(Normalize(addr, 28), 2, 4).Success?
    ensures Partition(Normalize(addr, 28), 3, 4) == Failure(ZoneDepthExceeded)
  {
    CeilLog2OnZoneCounts();
  }
}
