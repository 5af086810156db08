# Subnet CIDR calculator — a Dafny model

BaseNetwork ships a CloudFormation custom resource that works out the subnet
CIDR blocks of a layered VPC. It takes a VPC CIDR block, a number of network
layers and a number of availability zones. It answers with one entry per
layer, `NetworkLayer1` … `NetworkLayerN`. Each entry's value is a
comma-separated list: the layer's network (its *leaf*), then the leaf's
availability-zone subnets in ascending order.

The calculation works like a buddy allocator:

1. Check the ranges: prefix 16–28, layers 1–4, zones 1–4, reporting the first
   violation.
2. Zero the host bits of the given address (*normalise* it).
3. Take the zone exponent `ceil(log2(zones))`.
4. For layer *i*, split the remaining block into two halves at prefix
   `base + i`. The lower half becomes the layer's leaf and the upper half is
   carried on to the next layer.
5. Split the leaf into `2^exponent` equal zone subnets.
6. If any split would need a prefix longer than 32 bits, fail the whole
   request. Any rows already computed are discarded.

The model has these modules:

- `Results`: Option, Result and Outcome.
- `Powers`: `Pow2` and division/remainder facts.
- `Blocks`: 32-bit address blocks, normalisation, the subnet split, and a
  `Tiles` predicate that says a list of blocks exactly covers a range in
  ascending order.
- `Params`: the parameter check.
- `Partitioner`: `CeilLog2` and the layer-by-layer carving.
- `Text`: decimal numerals, join and split.
- `Format`: dotted-quad CIDR text and the output rows.
- `Calculator`: the whole calculation from request to rows.
- `Scenario`: the 10.0.0.0/16 worked example and the deepest failing request.

Each formatter has a parser as its partner, and a round-trip lemma ties the
two together. The rendered rows can therefore be read back to exactly the
blocks the carving produced.

## Model

| member | source | states |
|---|---|---|
| Params.Validate | custom/calculator.py:84-90 | Passes exactly when prefix is 16–28, layers is 1–4 and zones is 1–4. Otherwise the error names the first failing check, in the order prefix, layers, zones. Each error is returned iff the checks before it passed and its own failed. |
| Params.PrefixBoundaries | custom/calculator.py:85-86 | The prefix bounds are inclusive: 16 and 28 pass, 15 and 29 are rejected as a bad prefix. |
| Blocks.Normalize | custom/calculator.py:60-64 | The network keeps the requested prefix, has all host bits zero, contains the given address and has the same network part as that address. |
| Blocks.NormalizeUnique | custom/calculator.py:60-64 | A normalised block of that prefix that contains the address is the one `Normalize` returns, so normalising a network address changes nothing. |
| Blocks.Split | custom/calculator.py:70 | The subnets at a finer prefix exist iff that prefix is at most 32. There are 2^(new − old) of them. Each one is normalised, lies inside the block and starts k subnet-sizes above the block's address. Together they tile the block in ascending order. |
| Blocks.Run | custom/calculator.py:72 | `count` consecutive equal-sized normalised blocks from `start`: block k starts k sizes in, and together they tile the range. |
| Partitioner.CeilLog2 | custom/calculator.py:65 | 2^r ≥ n, and 2^(r−1) < n when r > 0: the exponent gives enough zone subnets and is not one bit too many. |
| Partitioner.CeilLog2Least | custom/calculator.py:65 | No exponent smaller than `CeilLog2(n)` gives n subnets. |
| Partitioner.CeilLog2OnZoneCounts | custom/calculator.py:65 | On the admitted zone counts 1, 2, 3 and 4 the exponent is 0, 1, 2 and 2, which is what the floating-point `ceil(log(n)/log(2))` gives. |
| Partitioner.Carve | custom/calculator.py:67-79 | Carving succeeds iff every layer is done or `base + layers + exponent ≤ 32`. A failure with `base + layers ≤ 32` is a zone-split failure. On success each layer i has its leaf at prefix base + i, the zones tile the leaf, and the leaves plus the carried half tile the block carved from. |
| Partitioner.Partition | custom/calculator.py:65-79 | Succeeds iff there are no layers or `base + layers + exponent ≤ 32`. On success the result has the full shape: one layer per index, zone tiling, and leaves plus the spare half tiling the base. |
| Partitioner.ZoneCountPerLayer | custom/calculator.py:65-72 | Layer k has index k+1 and a leaf at prefix base + k + 1. Every layer has the same number of zones: 2^exponent, at least the requested count and less than twice it. |
| Partitioner.PartitionHalving | custom/calculator.py:69-71 | The first leaf starts at the base address. Each next leaf starts one leaf-size above the previous one, where that leaf's upper half begins. The spare half starts after the last leaf and ends where the base ends. With no layers the spare is the base. |
| Partitioner.PartitionNested | custom/calculator.py:69-72 | Every zone subnet lies in its leaf. Every leaf, and the spare half, lies in the base network. |
| Partitioner.PartitionDisjoint | custom/calculator.py:68-71 | Two different layers' leaves share no address, and no leaf shares an address with the spare half. |
| Partitioner.PartitionCovers | custom/calculator.py:68-71 | Every address of the base network lies in some leaf or in the spare half. |
| Partitioner.ZonesPartitionLeaf | custom/calculator.py:72 | Every address of a leaf lies in exactly one of its zone subnets. |
| Partitioner.ZoneAddress | custom/calculator.py:72 | Zone j of a layer has prefix leaf + exponent and starts j zone-sizes above the leaf's address. |
| Partitioner.OnlyZoneSplitFails | custom/calculator.py:67-79 | Within the validated ranges the halving split never runs out of bits. Carving fails iff `base + layers + exponent > 32`, and then with a zone-split error. |
| Format.Octets | custom/calculator.py:73 | Four values below 256 that recombine, most significant first, to the address. |
| Format.FormatBlockDottedQuad | custom/calculator.py:73 | A block's text is its four octets as decimal numerals joined by dots, then a slash, then the decimal prefix length. |
| Format.ParseFormatBlock | custom/calculator.py:73 | Parsing a rendered CIDR block gives back the block. |
| Format.ParseFormatRow | custom/calculator.py:73 | Splitting a layer's value at commas and parsing each piece gives the leaf followed by the zone subnets, in order. |
| Format.ParseLayerKey | custom/calculator.py:73 | The key of layer i is `NetworkLayer` followed by i's numeral, and it parses back to i. |
| Format.LayerKeyInjective | custom/calculator.py:73 | Different layers get different keys. |
| Format.Rows | custom/calculator.py:68-73 | One row per layer, in layer order. Row k's key reads back as layer k's index, and its value reads back as layer k's leaf followed by its zone subnets. |
| Text.NatToString | custom/calculator.py:73 | The numeral is non-empty, made of decimal digits and has no leading zero. |
| Text.ParseNatRoundTrip | custom/calculator.py:73 | Reading a numeral back gives the number. |
| Text.NatToStringInjective | custom/calculator.py:73 | Distinct numbers have distinct numerals. |
| Text.SplitJoin | custom/calculator.py:73 | Splitting a joined list at the separator gives the list back when no part contains the separator. |
| Calculator.Calculate | custom/calculator.py:45-79 | A parameter error is returned iff the ranges are violated, and it is the error the check reports. For an IPv4 request, it succeeds iff the ranges hold and `prefix + layers + exponent ≤ 32`. Every allocation error is a zone-split error. A success has exactly `layers` rows, keyed NetworkLayer1..N in order, and no rows are returned on failure. |
| Calculator.CalculateRow | custom/calculator.py:67-73 | Row k's key reads back as k+1. Its value reads back as the leaf and zones of layer k carved from the normalised network. The leaf has prefix `prefix + k + 1` and there are 2^exponent zones. |
| Calculator.CalculateKeysDistinct | custom/calculator.py:73 | No two rows of a result share a key. |
| Scenario.ExampleRows | custom/calculator.py:60-73 | 10.0.0.0/16 with two layers and two zones gives exactly `NetworkLayer1 = 10.0.0.0/17,10.0.0.0/18,10.0.64.0/18` and `NetworkLayer2 = 10.0.128.0/18,10.0.128.0/19,10.0.160.0/19`. |
| Scenario.DeepestRequestFails | custom/calculator.py:67-79 | A /28 with four layers and four zones passes the parameter check but fails with a zone-split error. Two layers still fit and three do not: the third layer's zone split would need a /33. |

## Left out

- `send_response` (custom/calculator.py:92-124) is not modelled. It builds the JSON reply and PUTs it to CloudFormation, which is network I/O. The model's `Result` stands for the SUCCESS/FAILED status and its data.
- The non-Create branch (lines 27-31) is not modelled. It only sends a SUCCESS with no data.
- Reading `ResourceProperties` (lines 34-38) is not modelled: the model takes the values as arguments.
- Building the physical resource id from `uuid.uuid1()` (line 18) is not modelled, because it is random.
- Logging and the final `print` (lines 20, 29, 54, 75, 81) are not modelled.
- IPv6 is not modelled. `IPNetwork` (line 41) also accepts IPv6 networks, and `check_parameters` (lines 84-90) tests only the prefix length. So a request such as `2001:db8::/28` with four layers and four zones passes and is carved in 128-bit addresses. The model covers only IPv4, and `Calculator.Calculate`'s "succeeds iff `prefix + layers + exponent ≤ 32`" holds only for IPv4 requests.
- Parsing the VPC CIDR string with netaddr `IPNetwork` (line 41) is not modelled. The model takes the request already parsed into an address below 2^32 and a prefix of 0–32. A malformed CIDR string is therefore outside the model.
- The `int(...)` conversion of the layer and zone counts (lines 37-38) is not modelled: the counts arrive as integers. Non-numeric text, which raises before the check, is not modelled.
- netaddr is not part of this model. `Split` stands for `IPNetwork.subnet`. It returns no subnets exactly where netaddr raises, namely when the finer prefix is past 32 bits. The library's exception type and message become the two-valued `AllocError`.
- The error text of the failure reply (lines 57 and 78) is not modelled. Only the three message texts of the parameter check are kept (`ParamError.Message`), without the exception class name in front, and no contract of `Calculate` speaks of them. Allocation errors carry only their cause.
- Partitioner.CeilLog2: integer arithmetic, not the floating-point `math.ceil(math.log(n)/math.log(2))`. The two agree on the counts 1–4 that pass the check (`CeilLog2OnZoneCounts`). The model does not describe float behaviour for other counts.
- Partitioner.Partition: requires `zones >= 1`. In the source the logarithm runs only after the check has ensured this, so `math.log(0)` cannot be reached.
- Blocks.Split: requires the new prefix to be at least the block's own. The handler only ever asks for a finer prefix; netaddr's behaviour for a coarser one is not modelled.
- The carried upper half after the last layer is discarded by the handler. The model keeps it in `Allocation.spare` so that the coverage of the base network can be stated.
- Output keys are `NetworkLayer{i}`, as the handler writes them (line 73).
- The code has no explicit depth check: a split past /32 raises, and the generic `except` (lines 74-79) aborts the request. `Carve` models this. Its first failing split is exactly the first layer where `base + i > 32` or `base + i + exponent > 32`.
