/**
 * The records of the IoT feature service's reply, as pydantic validates
 * them, and the photovoltaic snapshot built from them.
 */
module IoT {
  import opened Common

  /** `Union[int, float]`; a float is represented by its exact real value. */
  datatype Number = Int(i: int) | Float(f: real) {
    function Value(): real {
      match this
      case Int(i) => i as real
      case Float(f) => f
    }
  }

  /** Python `n * k` for an int `k`: an int stays an int. */
  function Times(n: Number, k: int): (r: Number)
    ensures r.Value() == n.Value() * k as real
    ensures r.Int? <==> n.Int?
  {
    match n
    case Int(i) => Int(i * k)
    case Float(f) => Float(f * k as real)
  }

  /** Python `a + b`: int only when both are ints. */
  function Plus(a: Number, b: Number): (r: Number)
    ensures r.Value() == a.Value() + b.Value()
    ensures r.Int? <==> a.Int? && b.Int?
  {
    if a.Int? && b.Int? then Int(a.i + b.i) else Float(a.Value() + b.Value())
  }

  /** One reading: its type, its value and its unit. */
  datatype IoTFeatureValue = IoTFeatureValue(dataType: string, value: Number, unit: string)

  datatype IotFeatureProperties = IotFeatureProperties(value: IoTFeatureValue)

  /** A named feature; a reply entry without a name or without
      `properties.value` does not validate and has no value of this type. */
  datatype IoTFeature = IoTFeature(feature: string, properties: IotFeatureProperties)

  /** The reply's ordered `data` list. */
  datatype IoTFeatureResponse = IoTFeatureResponse(data: seq<IoTFeature>)

  /** The snapshot handed to the control loop. Its getters are the
      destructors; `household` is stored as given, never recomputed.
      `stateOfCharge` is None when the feature is missing from the reply. */
  datatype PhotovoltaicData = PhotovoltaicData(
    solarPower: Number,
    batteryPower: Number,
    gridExchange: Number,
    stateOfCharge: Option<Number>,
    household: Number)
}
