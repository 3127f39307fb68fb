/** The world outside the front end, as values: the browser wallet, the network, the
    contract node and the foreign library functions (`JSON.parse`, `JSON.stringify`,
    `Web3.utils.toWei`, `new URL`). Each effect is one call whose outcome is given,
    `Ok` for a value and `Err` for what it throws. */
module Effects {
  import opened Js
  import opened Abi

  /** What `JSON.parse` makes of an interface-description text: an array of entries, or
      some other JSON value. */
  datatype AbiJson = AbiArray(items: seq<AbiItem>) | OtherJson(v: Value)

  /** JavaScript truthiness of a parsed description: an array is always truthy. */
  predicate AbiJsonTruthy(a: AbiJson) {
    a.AbiArray? || Truthy(a.v)
  }

  /** A web3 contract handle: an address and the interface it was built from. */
  datatype Contract = Contract(address: string, abi: seq<AbiItem>)

  /** `contract.methods[name]` is a function: the interface has a function entry of that
      name. */
  predicate HasMethod(c: Contract, name: string) {
    exists x :: x in c.abi && x.kind == "function" && x.name == Some(name)
  }

  /** Form inputs passed to a contract method as they are: one string per input, in
      input-index order. */
  function StrArgs(params: seq<string>): (args: seq<Value>)
    ensures |args| == |params|
    ensures forall i :: 0 <= i < |params| ==> args[i] == Str(params[i])
  {
    seq(|params|, i requires 0 <= i < |params| => Str(params[i]))
  }

  /** The options of a transaction: the sending account and the payment in wei. */
  datatype SendOpts = SendOpts(from: Option<string>, value: int)

  datatype Env = Env(
    /** `window.ethereum` is present. */
    hasWallet: bool,
    /** `JSON.parse` on values. */
    parseJson: string -> Result<Value, Failure>,
    /** `JSON.parse` on an interface-description text. */
    parseAbi: string -> Result<AbiJson, Failure>,
    /** `JSON.stringify` of a value, and of an interface description (indented). */
    stringify: Value -> string,
    stringifyAbi: seq<AbiItem> -> string,
    /** `Web3.utils.toWei` of an ether amount. */
    toWei: string -> Result<string, Failure>,
    /** `fetch(url).then((res) => res.json())` */
    fetchJson: string -> Result<Value, Failure>,
    /** `contract.methods[name](...args).call()` and `.send(opts)` */
    call: (Contract, string, seq<Value>) -> Result<Value, Failure>,
    send: (Contract, string, seq<Value>, SendOpts) -> Result<Value, Failure>,
    /** `new URL(url)`: its `host` and `pathname`. */
    newUrl: string -> Result<(string, string), Failure>,
    /** The registry API key inserted into request URLs. */
    apiKey: string,
    /** What `new web3.eth.Contract(abi, address)` throws for an interface that is not
        an array. */
    contractRejection: Failure,
    /** Whether web3's address formatter accepts a non-empty address: forty hexadecimal
        digits behind "0x" in one case or with a valid mixed-case checksum, or an
        ICAP address. */
    acceptsAddress: string -> bool,
    /** What `new web3.eth.Contract(abi, address)` throws for an address the formatter
        refuses. */
    addressRejection: Failure,
    /** The `TypeError` thrown by calling a string method on a value, neither null nor
        undefined, that is not a string and so has no such method. */
    notAString: Failure,
    /** The `TypeError` thrown by reading the named property of `null` or `undefined`. */
    readOfNothing: (Value, string) -> Failure)

  /** web3 refuses the address: an empty address is never formatted, so never refused. */
  predicate RejectsAddress(env: Env, address: string) {
    address != "" && !env.acceptsAddress(address)
  }

  /** `new web3.eth.Contract(abi, address)`: the interface must be an array, and then
      the address must pass the formatter. */
  function NewContract(env: Env, abi: AbiJson, address: string): (r: Result<Contract, Failure>)
    ensures r.Ok? <==> abi.AbiArray? && !RejectsAddress(env, address)
    ensures r.Ok? ==> r.value.abi == abi.items && r.value.address == address
    ensures abi.OtherJson? ==> r == Err(env.contractRejection)
    ensures abi.AbiArray? && RejectsAddress(env, address) ==> r == Err(env.addressRejection)
  {
    match abi
    case AbiArray(items) =>
      if RejectsAddress(env, address) then Err(env.addressRejection) else Ok(Contract(address, items))
    case OtherJson(_) => Err(env.contractRejection)
  }
}
