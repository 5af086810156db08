/** The range check applied to the request before any address arithmetic. */
module Params {
  import opened Results

  datatype ParamError = PrefixOutOfRange | LayersOutOfRange | ZonesOutOfRange {
    /** The text of the error the check raises. */
    function Message(): string {
      match this
      case PrefixOutOfRange =>
        "Illegal prefix number used.  Please use a number between 16 and 28 inclusive"
      case LayersOutOfRange =>
        "Illegal number of network layers used.  Please use a list containing between 1 and 4 layers inclusive"
      case ZonesOutOfRange =>
        "Illegal number of availability zones used.  Please use a number between 1 and 4 inclusive"
    }
  }

  const MinPrefix := 16
  const MaxPrefix := 28
  const MaxLayers := 4
  const MaxZones := 4

  /** The conditions under which the request passes the check. */
  predicate InRange(prefix: int, layers: int, zones: int) {
    MinPrefix <= prefix <= MaxPrefix && 1 <= layers <= MaxLayers && 1 <= zones <= MaxZones
  }

  /** Checks the prefix, then the layer count, then the zone count, and
      reports the first one out of range. */
  function Validate(prefix: int, layers: int, zones: int): (r: Outcome<ParamError>)
    ensures r.Pass? <==> InRange(prefix, layers, zones)
    ensures r == Fail(PrefixOutOfRange) <==> !(MinPrefix <= prefix <= MaxPrefix)
    ensures r == Fail(LayersOutOfRange) <==>
      MinPrefix <= prefix <= MaxPrefix && !(1 <= layers <= MaxLayers)
    ensures r == Fail(ZonesOutOfRange) <==>
      MinPrefix <= prefix <= MaxPrefix && 1 <= layers <= MaxLayers && !(1 <= zones <= MaxZones)
  {
    if prefix < MinPrefix || prefix > MaxPrefix then Fail(PrefixOutOfRange)
    else if layers < 1 || layers > MaxLayers then Fail(LayersOutOfRange)
    else if zones < 1 || zones > MaxZones then Fail(ZonesOutOfRange)
    else Pass
  }

  /** The prefix bounds are inclusive: 16 and 28 pass, 15 and 29 do not. */
  lemma PrefixBoundaries(layers: int, zones: int)
    requires 1 <= layers <= MaxLayers && 1 <= zones <= MaxZones
    ensures Validate(16, layers, zones) == Pass && Validate(28, layers, zones) == Pass
    ensures Validate(15, layers, zones) == Fail(PrefixOutOfRange)
    ensures Validate(29, layers, zones) == Fail(PrefixOutOfRange)
  {
  }
}
