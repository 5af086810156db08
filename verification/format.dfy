/** Rendering of the carved layers: dotted-quad CIDR strings joined by
    commas under the keys NetworkLayer1, NetworkLayer2, ... The parsers here
    exist to state what the rendering preserves. */
module Format {
  import opened Results
  import opened Powers
  import opened Blocks
  import opened Text
  import opened Partitioner

  /** The four bytes of an address, most significant first. */
  function Octets(a: Addr): (r: seq<nat>)
    ensures |r| == 4 && forall k :: 0 <= k < 4 ==> r[k] < 256
    ensures FromOctets(r) == a
  {
    var a1 := a / 256;
    var a2 := a1 / 256;
    [a2 / 256, a2 % 256, a1 % 256, a % 256]
  }

  function FromOctets(o: seq<nat>): nat
    requires |o| == 4
  {
    ((o[0] * 256 + o[1]) * 256 + o[2]) * 256 + o[3]
  }

  const QuadChars: set<char> := Digits + {'.'}

  /** Dotted-quad form of an address, e.g. 10.0.128.0. */
  function FormatAddr(a: Addr): (s: string)
    ensures Over(s, QuadChars)
  {
    var parts := Numerals(Octets(a));
    JoinOver(parts, '.', QuadChars);
    Join(parts, '.')
  }

  function Numerals(ns: seq<nat>): (r: seq<string>)
    ensures |r| == |ns| && forall k :: 0 <= k < |ns| ==> r[k] == NatToString(ns[k])
  {
    seq(|ns|, k requires 0 <= k < |ns| => NatToString(ns[k]))
  }

  const CidrChars: set<char> := QuadChars + {'/'}

  /** CIDR form of a block, e.g. 10.0.128.0/18. */
  function FormatBlock(b: Block): (s: string)
    ensures Over(s, CidrChars)
  {
    JoinOver([FormatAddr(b.addr), NatToString(b.prefix)], '/', CidrChars);
    Join([FormatAddr(b.addr), NatToString(b.prefix)], '/')
  }

  /** The rendering spelled out: four decimal octets separated by dots,
      a slash, the decimal prefix length. */
  lemma FormatBlockDottedQuad(b: Block)
    ensures var o := Octets(b.addr);
      FormatBlock(b) == NatToString(o[0]) + "." + NatToString(o[1]) + "." + NatToString(o[2])
        + "." + NatToString(o[3]) + "/" + NatToString(b.prefix)
  {
    var n := Numerals(Octets(b.addr));
    assert n[1..][1..][1..] == [n[3]];
    assert Join(n[2..], '.') == n[2] + "." + n[3] by {
      assert n[2..] == [n[2], n[3]];
      assert n[2..][1..] == [n[3]];
    }
    assert Join(n[1..], '.') == n[1] + "." + Join(n[2..], '.') by {
      assert n[1..][1..] == n[2..];
    }
    assert Join(n, '.') == n[0] + "." + n[1] + "." + n[2] + "." + n[3];
    assert FormatAddr(b.addr) == Join(n, '.');
    var parts := [FormatAddr(b.addr), NatToString(b.prefix)];
    assert parts[1..] == [NatToString(b.prefix)];
    assert Join(parts[1..], '/') == NatToString(b.prefix);
    assert Join(parts, '/') == parts[0] + ['/'] + Join(parts[1..], '/');
    assert FormatBlock(b) == FormatAddr(b.addr) + "/" + NatToString(b.prefix);
  }

  function ParseOctet(s: string): (r: Option<nat>)
    ensures r.Some? ==> r.value < 256
  {
    match ParseNat(s)
    case Some(n) => if n < 256 then Some(n) else None
    case None => None
  }

  function ParseOctets(parts: seq<string>): (r: Option<seq<nat>>)
    ensures r.Some? ==> |r.value| == |parts| && forall k :: 0 <= k < |parts| ==> r.value[k] < 256
    decreases |parts|
  {
    if |parts| == 0 then Some([])
    else match (ParseOctet(parts[0]), ParseOctets(parts[1..]))
      case (Some(o), Some(rest)) => Some([o] + rest)
      case _ => None
  }

  function ParseAddr(s: string): Option<Addr> {
    var parts := SplitOn(s, '.');
    if |parts| != 4 then None
    else match ParseOctets(parts)
      case Some(o) => Some(FromOctets(o))
      case None => None
  }

  function ParseBlock(s: string): Option<Block> {
    var parts := SplitOn(s, '/');
    if |parts| != 2 then None
    else match (ParseAddr(parts[0]), ParseNat(parts[1]))
      case (Some(a), Some(p)) => if p <= 32 then Some(Block(a, p)) else None
      case _ => None
  }

  lemma OverExcludes(s: string, alphabet: set<char>, c: char)
    requires Over(s, alphabet) && c !in alphabet
    ensures c !in s
  {
  }

  lemma ParseFormatAddr(a: Addr)
    ensures ParseAddr(FormatAddr(a)) == Some(a)
  {
    var o := Octets(a);
    var parts := Numerals(o);
    forall k | 0 <= k < 4
      ensures '.' !in parts[k]
    {
      OverExcludes(parts[k], Digits, '.');
    }
    SplitJoin(parts, '.');
    ParseNumerals(o);
  }

  lemma {:induction false} ParseNumerals(o: seq<nat>)
    requires forall k :: 0 <= k < |o| ==> o[k] < 256
    ensures ParseOctets(Numerals(o)) == Some(o)
    decreases |o|
  {
    if |o| > 0 {
      ParseNatRoundTrip(o[0]);
      ParseNumerals(o[1..]);
      assert Numerals(o)[1..] == Numerals(o[1..]);
      assert [o[0]] + o[1..] == o;
    }
  }

  /** Reading a rendered block back gives the block. */
  lemma ParseFormatBlock(b: Block)
    ensures ParseBlock(FormatBlock(b)) == Some(b)
  {
    var parts := [FormatAddr(b.addr), NatToString(b.prefix)];
    OverExcludes(parts[0], QuadChars, '/');
    OverExcludes(parts[1], Digits, '/');
    SplitJoin(parts, '/');
    ParseFormatAddr(b.addr);
    ParseNatRoundTrip(b.prefix);
  }

  const KeyPrefix := "NetworkLayer"

  /** The output key of the layer with the given index. */
  function LayerKey(index: nat): string {
    KeyPrefix + NatToString(index)
  }

  function ParseKey(s: string): Option<nat> {
    if |s| >= |KeyPrefix| && s[..|KeyPrefix|] == KeyPrefix then ParseNat(s[|KeyPrefix|..])
    else None
  }

  lemma ParseLayerKey(index: nat)
    ensures ParseKey(LayerKey(index)) == Some(index)
  {
    var s := LayerKey(index);
    assert s[..|KeyPrefix|] == KeyPrefix && s[|KeyPrefix|..] == NatToString(index);
    ParseNatRoundTrip(index);
  }

  /** Different layers get different keys. */
  lemma LayerKeyInjective(i: nat, j: nat)
    requires i != j
    ensures LayerKey(i) != LayerKey(j)
  {
    ParseLayerKey(i);
    ParseLayerKey(j);
  }

  /** Rendered blocks of a list, in the same order. */
  function FormatBlocks(bs: seq<Block>): (r: seq<string>)
    ensures |r| == |bs| && forall k :: 0 <= k < |bs| ==> r[k] == FormatBlock(bs[k])
  {
    seq(|bs|, k requires 0 <= k < |bs| => FormatBlock(bs[k]))
  }

  /** A layer's value: the leaf, then each zone subnet in order, separated
      by commas. */
  function FormatRow(l: Layer): string {
    Join(FormatBlocks([l.leaf] + l.zones), ',')
  }

  function ParseBlocks(parts: seq<string>): (r: Option<seq<Block>>)
    ensures r.Some? ==> |r.value| == |parts|
    decreases |parts|
  {
    if |parts| == 0 then Some([])
    else match (ParseBlock(parts[0]), ParseBlocks(parts[1..]))
      case (Some(b), Some(rest)) => Some([b] + rest)
      case _ => None
  }

  function ParseRow(s: string): Option<seq<Block>> {
    ParseBlocks(SplitOn(s, ','))
  }

  lemma {:induction false} ParseFormatBlocks(bs: seq<Block>)
    ensures ParseBlocks(FormatBlocks(bs)) == Some(bs)
    decreases |bs|
  {
    if |bs| > 0 {
      var parts := FormatBlocks(bs);
      assert parts[0] == FormatBlock(bs[0]);
      assert parts[1..] == FormatBlocks(bs[1..]);
      ParseFormatBlock(bs[0]);
      ParseFormatBlocks(bs[1..]);
      assert ParseBlocks(parts) == Some([bs[0]] + bs[1..]);
      assert [bs[0]] + bs[1..] == bs;
    }
  }

  /** Reading a layer's value back gives its leaf followed by its zone
      subnets, in order. */
  lemma ParseFormatRow(l: Layer)
    ensures ParseRow(FormatRow(l)) == Some([l.leaf] + l.zones)
  {
    var parts := FormatBlocks([l.leaf] + l.zones);
    forall k | 0 <= k < |parts|
      ensures ',' !in parts[k]
    {
      OverExcludes(parts[k], CidrChars, ',');
    }
    SplitJoin(parts, ',');
    ParseFormatBlocks([l.leaf] + l.zones);
  }

  /** The ordered key/value rows of the output, one per layer: row k's key
      reads back as layer k's index and its value as that layer's leaf
      followed by its zone subnets. */
  function Rows(ls: seq<Layer>): (r: seq<(string, string)>)
    ensures |r| == |ls|
    ensures forall k :: 0 <= k < |ls| ==>
      ParseKey(r[k].0) == Some(ls[k].index) && ParseRow(r[k].1) == Some([ls[k].leaf] + ls[k].zones)
  {
    RowsReadBack(ls);
    seq(|ls|, k requires 0 <= k < |ls| => (LayerKey(ls[k].index), FormatRow(ls[k])))
  }

  lemma RowsReadBack(ls: seq<Layer>)
    ensures forall k :: 0 <= k < |ls| ==>
      ParseKey(LayerKey(ls[k].index)) == Some(ls[k].index)
      && ParseRow(FormatRow(ls[k])) == Some([ls[k].leaf] + ls[k].zones)
  {
    forall k | 0 <= k < |ls|
      ensures ParseKey(LayerKey(ls[k].index)) == Some(ls[k].index)
      ensures ParseRow(FormatRow(ls[k])) == Some([ls[k].leaf] + ls[k].zones)
    {
      ParseLayerKey(ls[k].index);
      ParseFormatRow(ls[k]);
    }
  }
}
