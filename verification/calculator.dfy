/** The subnet calculation of the custom resource handler: check the
    parameters, normalise the network, carve the layers and render them. */
module Calculator {
  import opened Results
  import opened Powers
  import opened Blocks
  import opened Params
  import opened Partitioner
  import opened Format

  datatype CalcError = InvalidParameter(reason: ParamError) | AllocationFailed(cause: AllocError)

  /** The ordered rows NetworkLayer1..NetworkLayerN for the network
      addr/prefix, or the error that stopped the calculation. No rows are
      returned when any layer fails. */
  function Calculate(addr: Addr, prefix: PrefixLen, layers: int, zones: int)
    : (r: Result<seq<(string, string)>, CalcError>)
    ensures r.Failure? && r.error.InvalidParameter? <==> !InRange(prefix, layers, zones)
    ensures r.Failure? && r.error.InvalidParameter? ==>
      Validate(prefix, layers, zones) == Fail(r.error.reason)
    ensures r.Success? <==>
      InRange(prefix, layers, zones) && prefix + layers + CeilLog2(zones) <= 32
    ensures r.Failure? && r.error.AllocationFailed? ==> r.error.cause == ZoneDepthExceeded
    ensures r.Success? ==> |r.value| == layers
    ensures r.Success? ==> forall k :: 0 <= k < |r.value| ==> r.value[k].0 == LayerKey(k + 1)
  {
    match Validate(prefix, layers, zones)
    case Fail(e) => Failure(InvalidParameter(e))
    case Pass =>
      var base := Normalize(addr, prefix);
      match Partition(base, layers, zones)
      case Failure(e) => Failure(AllocationFailed(e))
      case Success(a) => Success(Rows(a.layers))
  }

  /** Row k names layer k + 1 and lists, in order, that layer's leaf and
      its zone subnets as carved from the normalised network. */
  lemma CalculateRow(addr: Addr, prefix: PrefixLen, layers: int, zones: int, k: nat)
    requires InRange(prefix, layers, zones) && prefix + layers + CeilLog2(zones) <= 32
    requires k < layers
    ensures var row := Calculate(addr, prefix, layers, zones).value[k];
      var l := Partition(Normalize(addr, prefix), layers, zones).value.layers[k];
      && ParseKey(row.0) == Some(k + 1)
      && ParseRow(row.1) == Some([l.leaf] + l.zones)
      && l.leaf.prefix == prefix + k + 1
      && |l.zones| == Pow2(CeilLog2(zones))
  {
    var a := Partition(Normalize(addr, prefix), layers, zones).value;
    assert Calculate(addr, prefix, layers, zones).value == Rows(a.layers);
    ZoneCountPerLayer(Normalize(addr, prefix), layers, zones, k);
  }

  /** No two rows share a key. */
  lemma CalculateKeysDistinct(addr: Addr, prefix: PrefixLen, layers: int, zones: int, i: nat, j: nat)
    requires InRange(prefix, layers, zones) && prefix + layers + CeilLog2(zones) <= 32
    requires i < j < layers
    ensures var rows := Calculate(addr, prefix, layers, zones).value;
      rows[i].0 != rows[j].0
  {
    var rows := Calculate(addr, prefix, layers, zones).value;
    KeysDistinct(rows, i, j);
  }

  lemma KeysDistinct(rows: seq<(string, string)>, i: nat, j: nat)
    requires forall k :: 0 <= k < |rows| ==> rows[k].0 == LayerKey(k + 1)
    requires i < j < |rows|
    ensures rows[i].0 != rows[j].0
  {
    LayerKeyInjective(i + 1, j + 1);
  }
}
