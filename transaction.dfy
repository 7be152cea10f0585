/** The transaction record as the classifier reads it from a decoded JSON
    document (a `getrawtransaction`-style object with `vin` and `vout`).
    Every key the classifier looks up may be absent; the accessors below give
    the defaults the classifier substitutes for a missing key. */
module Transaction {

  datatype Option<+T> = None | Some(value: T)

  /** The error Python raises for `math.log2(0)`: "ValueError: math domain error". */
  datatype Error = MathDomainError

  /** The outcome of a computation that either yields a value or raises. */
  datatype Result<+T> = Ok(value: T) | Err(error: Error)

  /** The `scriptPubKey` object of an output: its `addresses` list and its `type` tag. */
  datatype ScriptPubKey = ScriptPubKey(addresses: Option<seq<string>>, kind: Option<string>)

  /** An output: its `value` (a JSON number, so a `real`; only compared for
      equality and against zero) and its `scriptPubKey`. */
  datatype Output = Output(value: Option<real>, scriptPubKey: Option<ScriptPubKey>)

  /** An input. Only the number of inputs is read, so an input carries no fields here. */
  datatype Input = Input

  /** A transaction document with its `vin` and `vout` lists, either of which may be absent. */
  datatype Tx = Tx(vin: Option<seq<Input>>, vout: Option<seq<Output>>)

  /** `tx.get("vin", [])` */
  function Vin(tx: Tx): seq<Input>
  {
    match tx.vin
    case Some(inputs) => inputs
    case None => []
  }

  /** `tx.get("vout", [])` */
  function Vout(tx: Tx): seq<Output>
  {
    match tx.vout
    case Some(outputs) => outputs
    case None => []
  }

  /** `output.get("scriptPubKey", {}).get("addresses", [])` */
  function Addresses(output: Output): seq<string>
  {
    match output.scriptPubKey
    case None => []
    case Some(script) =>
      match script.addresses
      case Some(addresses) => addresses
      case None => []
  }

  /** `output.get("scriptPubKey", {}).get("type")` */
  function ScriptType(output: Output): Option<string>
  {
    match output.scriptPubKey
    case None => None
    case Some(script) => script.kind
  }

  /** Python truthiness of an output value: present and not zero. */
  predicate Truthy(value: Option<real>)
  {
    value.Some? && value.value != 0.0
  }
}
