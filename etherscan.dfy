/** utils/etherscan.ts: which networks the block explorer serves, its page and API URLs,
    how an interface-description response is classified, and the probe that finds a
    network on which a contract's interface is published. */
module Etherscan {
  import opened Js
  import opened Text
  import opened Abi
  import opened Effects

  const TestNetworks: set<string> := {"rinkeby", "ropsten", "private"}

  /** `isValidEtherscanTestNetwork` */
  predicate IsValidTestNetwork(network: string) {
    network == "rinkeby" || network == "ropsten" || network == "private"
  }

  /** `isValidEtherscanNetwork`: the test networks and the two names of the main one. */
  predicate IsValidNetwork(network: string) {
    network == "mainnet" || network == "main" || IsValidTestNetwork(network)
  }

  lemma TestNetworksAreExactly(network: string)
    ensures IsValidTestNetwork(network) <==> network in TestNetworks
  {
  }

  /** The valid networks are the test networks plus "mainnet" and "main"; Goerli and
      Kovan are not served. */
  lemma ValidNetworksAreExactly(network: string)
    ensures IsValidNetwork(network) <==> network in TestNetworks + {"mainnet", "main"}
    ensures !IsValidNetwork("goerli") && !IsValidNetwork("kovan")
  {
  }

  /** `network && isValidEtherscanTestNetwork(network)` for an optional name. */
  predicate IsTestNetworkOption(network: Option<string>) {
    network.Some? && network.value != "" && IsValidTestNetwork(network.value)
  }

  /** The explorer host for a network: its own subdomain for a test network. */
  function ExplorerHost(network: Option<string>): (h: string)
    ensures IsTestNetworkOption(network) ==> h == "https://" + network.value + ".etherscan.io"
    ensures !IsTestNetworkOption(network) ==> h == "https://etherscan.io"
  {
    if IsTestNetworkOption(network) then "https://" + network.value + ".etherscan.io" else "https://etherscan.io"
  }

  /** `getEtherscanAddressUrl` */
  function AddressUrl(address: string, network: Option<string>): string {
    ExplorerHost(network) + "/address/" + address
  }

  /** `getEtherscanTransactionUrl` */
  function TransactionUrl(txn: string, network: Option<string>): string {
    ExplorerHost(network) + "/tx/" + txn
  }

  /** The address or hash is the suffix of the URL after a host that depends only on the
      network: two URLs for the same network are equal exactly when the addresses are. */
  lemma AddressUrlInjective(a: string, b: string, network: Option<string>)
    ensures AddressUrl(a, network) == AddressUrl(b, network) <==> a == b
  {
    var p := ExplorerHost(network) + "/address/";
    assert AddressUrl(a, network) == p + a && AddressUrl(b, network) == p + b;
    if p + a == p + b {
      assert (p + a)[|p|..] == a && (p + b)[|p|..] == b;
    }
  }

  lemma TransactionUrlInjective(a: string, b: string, network: Option<string>)
    ensures TransactionUrl(a, network) == TransactionUrl(b, network) <==> a == b
  {
    var p := ExplorerHost(network) + "/tx/";
    assert TransactionUrl(a, network) == p + a && TransactionUrl(b, network) == p + b;
    if p + a == p + b {
      assert (p + a)[|p|..] == a && (p + b)[|p|..] == b;
    }
  }

  /** The main network (given as "main", "mainnet", or not given) and unknown names all
      link to the main explorer; "private" links to a subdomain of its own. */
  lemma AddressUrlExamples(a: string)
    ensures AddressUrl(a, Some("mainnet")) == AddressUrl(a, Some("goerli")) == AddressUrl(a, None)
    ensures AddressUrl(a, Some("private")) == "https://" + "private" + ".etherscan.io" + "/address/" + a
  {
    assert IsTestNetworkOption(Some("private"));
  }

  /** `getEtherscanApiBaseUrl`: Ropsten and Rinkeby have their own API hosts; every other
      value, an absent one included, uses the main API. */
  function ApiBaseUrl(network: Option<string>): (u: string)
    ensures network == Some("ropsten") ==> u == "https://api-ropsten.etherscan.io"
    ensures network == Some("rinkeby") ==> u == "https://api-rinkeby.etherscan.io"
    ensures network != Some("ropsten") && network != Some("rinkeby") ==> u == "https://api.etherscan.io"
  {
    match network
    case Some("ropsten") => "https://api-ropsten.etherscan.io"
    case Some("rinkeby") => "https://api-rinkeby.etherscan.io"
    case _ => "https://api.etherscan.io"
  }

  /** The request `fetchContractAbi` sends. */
  function AbiRequestUrl(address: string, network: Option<string>, apiKey: string): string {
    ApiBaseUrl(network) + "/api?module=contract&action=getabi&address=" + address + "&apikey=" + apiKey
  }

  /** `network || 'main'` */
  function NetworkOrMain(network: Option<string>): (n: string)
    ensures n != ""
    ensures network.Some? && network.value != "" ==> n == network.value
  {
    if network.Some? && network.value != "" then network.value else "main"
  }

  /** The registry's answer was a success carrying an interface text. */
  predicate IsAbiSuccess(data: Value) {
    Get(data, "status") == Str("1") && Truthy(Get(data, "result"))
  }

  /** The registry's answer was a reported failure. */
  predicate IsAbiFailure(data: Value) {
    Get(data, "status") == Str("0")
  }

  /** The message of a reported failure: the network name in brackets, then the
      registry's message and its result, separated by an em dash. */
  function FailureMessage(data: Value, network: Option<string>): string {
    "[" + NetworkOrMain(network) + "] " + JsString(Get(data, "message")) + " — " + JsString(Get(data, "result"))
  }

  /** The response handler of `fetchContractAbi`: reading `status` of a null body throws;
      a status "1" with a truthy result is parsed; status "0" is a reported failure;
      anything else, a status "1" with an empty result included, is unexpected. */
  function ClassifyAbiResponse(env: Env, data: Value, network: Option<string>): Result<AbiJson, Failure> {
    if data.Null? || data.Undefined? then Err(env.readOfNothing(data, "status"))
    else if IsAbiSuccess(data) then env.parseAbi(JsString(Get(data, "result")))
    else if IsAbiFailure(data) then Err(Failure("Error", FailureMessage(data, network)))
    else Err(Failure("Error", "Unexpected error: " + env.stringify(data)))
  }

  /** Every answer other than a success throws. A null body throws the `TypeError` of
      reading its `status`; otherwise an `Error` is thrown, and its two messages can be
      told apart by their first character, a reported failure naming its network ("main"
      when none is given). */
  lemma ClassifyErrorsDistinct(env: Env, data: Value, network: Option<string>)
    requires !IsAbiSuccess(data)
    ensures ClassifyAbiResponse(env, data, network).Err?
    ensures data.Null? || data.Undefined? ==>
      ClassifyAbiResponse(env, data, network) == Err(env.readOfNothing(data, "status"))
    ensures var r := ClassifyAbiResponse(env, data, network);
      !data.Null? && !data.Undefined? ==>
        r.error.name == "Error"
        && (r.error.message[0] == '[' <==> IsAbiFailure(data))
        && (IsAbiFailure(data) ==> StartsWith(r.error.message, "[" + NetworkOrMain(network) + "] "))
  {
    if data.Null? || data.Undefined? {
    } else if IsAbiFailure(data) {
      BracketedMessage(NetworkOrMain(network), JsString(Get(data, "message")), JsString(Get(data, "result")));
    } else {
      StartsWithConcat("Unexpected error: ", env.stringify(data));
    }
  }

  lemma BracketedMessage(n: string, m: string, r: string)
    ensures var msg := "[" + n + "] " + m + " — " + r;
      msg[0] == '[' && StartsWith(msg, "[" + n + "] ")
  {
    var p := "[" + n + "] ";
    assert "[" + n + "] " + m + " — " + r == p + (m + " — " + r);
    StartsWithConcat(p, m + " — " + r);
  }

  /** A status "1" with a truthy result is parsed, whatever the message says. */
  lemma ClassifySuccessParses(env: Env, data: Value, network: Option<string>)
    requires Get(data, "status") == Str("1") && Truthy(Get(data, "result"))
    ensures ClassifyAbiResponse(env, data, network) == env.parseAbi(JsString(Get(data, "result")))
  {
  }

  /** A status "1" with an empty result is neither parsed nor reported as the registry's
      failure: it is unexpected. */
  lemma ClassifyEmptyResultUnexpected(env: Env, data: Value, network: Option<string>)
    requires Get(data, "status") == Str("1") && !Truthy(Get(data, "result"))
    ensures ClassifyAbiResponse(env, data, network) == Err(Failure("Error", "Unexpected error: " + env.stringify(data)))
  {
  }

  /** Only a success status can produce an interface; an empty result is never parsed. */
  lemma ClassifyOkOnlyOnSuccess(env: Env, data: Value, network: Option<string>)
    requires ClassifyAbiResponse(env, data, network).Ok?
    ensures Get(data, "status") == Str("1") && Truthy(Get(data, "result"))
  {
  }

  /** `fetchContractAbi(address, network)`: a failed request or an unreadable body is the
      error itself; otherwise the registry's answer is classified. */
  function FetchContractAbi(env: Env, address: string, network: Option<string>): Result<AbiJson, Failure> {
    match env.fetchJson(AbiRequestUrl(address, network, env.apiKey))
    case Err(e) => Err(e)
    case Ok(data) => ClassifyAbiResponse(env, data, network)
  }

  // ---------------------------------------------------------------------------------
  // findValidNetwork

  const ValidEthNetworks: seq<string> := ["main", "ropsten", "rinkeby"]

  /** The order-preserving sub-list of `s` whose elements are not in `excluded`. */
  function Without(s: seq<string>, excluded: seq<string>): (r: seq<string>)
    ensures forall n :: n in r <==> n in s && n !in excluded
    ensures |r| <= |s|
  {
    if s == [] then []
    else (if s[0] in excluded then [] else [s[0]]) + Without(s[1..], excluded)
  }

  /** The lookup on network `n` yields truthy data: it neither throws nor returns a
      falsy value. */
  predicate Answers(env: Env, address: string, n: string) {
    Settles(FetchContractAbi(env, address, Some(n)))
  }

  /** `if (data)` after an `await` that did not throw. */
  predicate Settles(r: Result<AbiJson, Failure>) {
    r.Ok? && AbiJsonTruthy(r.value)
  }

  /** The lookups of the probe, one per network name. */
  function Lookups(env: Env, address: string): string -> bool {
    n => Answers(env, address, n)
  }

  /** Reference definition: the first network of `opts` whose lookup answers. */
  function FirstAnswering(answers: string -> bool, opts: seq<string>): Option<string> {
    if opts == [] then None
    else if answers(opts[0]) then Some(opts[0])
    else FirstAnswering(answers, opts[1..])
  }

  /** `findValidNetwork(address, excluded)`: the networks of the fixed list that are not
      excluded are probed in order. */
  method FindValidNetwork(env: Env, address: string, excluded: seq<string>)
    returns (found: Option<string>, queried: seq<string>)
    ensures found == FirstAnswering(Lookups(env, address), Without(ValidEthNetworks, excluded))
    ensures queried <= Without(ValidEthNetworks, excluded)
    ensures found.None? ==> queried == Without(ValidEthNetworks, excluded)
    ensures found.Some? ==> |queried| > 0 && found.value == queried[|queried| - 1]
    ensures forall i :: 0 <= i < |queried| ==> (Answers(env, address, queried[i]) <==> found.Some? && i == |queried| - 1)
  {
    found, queried := Probe(Lookups(env, address), Without(ValidEthNetworks, excluded));
  }

  /** The loop of `findValidNetwork`: a lookup that throws or answers falsy is skipped,
      and the first that answers is returned without trying the rest. `queried` lists
      the networks looked up, in order. */
  method Probe(answers: string -> bool, opts: seq<string>) returns (found: Option<string>, queried: seq<string>)
    ensures found == FirstAnswering(answers, opts)
    ensures queried <= opts
    ensures found.None? ==> queried == opts
    ensures found.Some? ==> |queried| > 0 && found.value == queried[|queried| - 1]
    ensures forall i :: 0 <= i < |queried| ==> (answers(queried[i]) <==> found.Some? && i == |queried| - 1)
  {
    found := None;
    queried := [];
    var k := 0;
    while k < |opts|
      invariant 0 <= k <= |opts|
      invariant queried == opts[..k]
      invariant FirstAnswering(answers, opts) == FirstAnswering(answers, opts[k..])
      invariant forall i :: 0 <= i < k ==> !answers(opts[i])
    {
      var n := opts[k];
      queried := queried + [n];
      if answers(n) {
        found := Some(n);
        ProbeStops(answers, opts, k);
        return;
      }
      ProbeSkips(answers, opts, k);
      k := k + 1;
    }
    assert opts[k..] == [];
    assert opts[..k] == opts;
  }

  lemma ProbeStops(answers: string -> bool, opts: seq<string>, k: nat)
    requires k < |opts| && answers(opts[k])
    requires FirstAnswering(answers, opts) == FirstAnswering(answers, opts[k..])
    requires forall i :: 0 <= i < k ==> !answers(opts[i])
    ensures FirstAnswering(answers, opts) == Some(opts[k])
    ensures opts[..k] + [opts[k]] == opts[..k + 1] <= opts
    ensures forall i :: 0 <= i <= k ==> (answers(opts[i]) <==> i == k)
  {
    assert opts[k..][0] == opts[k];
  }

  lemma ProbeSkips(answers: string -> bool, opts: seq<string>, k: nat)
    requires k < |opts| && !answers(opts[k])
    requires FirstAnswering(answers, opts) == FirstAnswering(answers, opts[k..])
    ensures FirstAnswering(answers, opts) == FirstAnswering(answers, opts[k + 1..])
    ensures opts[..k] + [opts[k]] == opts[..k + 1]
  {
    assert opts[k..][0] == opts[k];
    assert opts[k..][1..] == opts[k + 1..];
  }

  /** The probe never proposes an excluded network, nor one outside the fixed list. */
  lemma {:induction false} FirstAnsweringIsCandidate(answers: string -> bool, opts: seq<string>)
    ensures var r := FirstAnswering(answers, opts); r.Some? ==> r.value in opts && answers(r.value)
    decreases |opts|
  {
    if opts != [] && !answers(opts[0]) {
      FirstAnsweringIsCandidate(answers, opts[1..]);
    }
  }

  /** The probe finds nothing exactly when no candidate answers. */
  lemma {:induction false} FirstAnsweringNone(answers: string -> bool, opts: seq<string>)
    ensures FirstAnswering(answers, opts).None? <==> forall n :: n in opts ==> !answers(n)
    decreases |opts|
  {
    if opts != [] {
      FirstAnsweringNone(answers, opts[1..]);
      assert forall n :: n in opts <==> n == opts[0] || n in opts[1..];
    }
  }

  lemma NeverExcluded(env: Env, address: string, excluded: seq<string>)
    ensures var r := FirstAnswering(Lookups(env, address), Without(ValidEthNetworks, excluded));
      r.Some? ==> r.value !in excluded && r.value in ValidEthNetworks
  {
    FirstAnsweringIsCandidate(Lookups(env, address), Without(ValidEthNetworks, excluded));
  }

  /** Null comes back exactly when every candidate's lookup throws or answers falsy. */
  lemma NullWhenAllFail(env: Env, address: string, excluded: seq<string>)
    ensures FirstAnswering(Lookups(env, address), Without(ValidEthNetworks, excluded)).None?
      <==> forall n :: n in ValidEthNetworks && n !in excluded ==> !Answers(env, address, n)
  {
    FirstAnsweringNone(Lookups(env, address), Without(ValidEthNetworks, excluded));
  }

  /** With nothing excluded, the candidates are tried as "main", "ropsten", "rinkeby". */
  lemma CandidateOrder()
    ensures Without(ValidEthNetworks, []) == ["main", "ropsten", "rinkeby"]
    ensures Without(ValidEthNetworks, ["main"]) == ["ropsten", "rinkeby"]
  {
    assert ValidEthNetworks[1..] == ["ropsten", "rinkeby"];
    assert ValidEthNetworks[1..][1..] == ["rinkeby"];
    assert ValidEthNetworks[1..][1..][1..] == [];
  }
}
