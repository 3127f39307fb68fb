/** components/OpenSeaMetadata.tsx: the page that takes a marketplace asset URL, looks up
    the contract's interface on the registry, reads the token's metadata URI from the
    contract and loads the document, falling back to the marketplace's own metadata and
    suggesting another network when the lookup fails. */
module OpenSeaPage {
  import opened Js
  import opened Text
  import opened Abi
  import opened Effects
  import opened Utils
  import opened Etherscan
  import opened OpenSea

  /** `DEFAULT_ABI`: the ERC-721 `tokenURI(uint256)` and ERC-1155 `uri(uint256)` view
      accessors, each returning a string. */
  const DefaultAbi: seq<AbiItem> := [
    AbiItem("function", Some("tokenURI"), Some(View), false, false, [AbiParam("tokenId", "uint256")], [AbiParam("", "string")]),
    AbiItem("function", Some("uri"), Some(View), false, false, [AbiParam("tokenId", "uint256")], [AbiParam("", "string")])
  ]

  /** The fallback interface offers both accessors, so the retry asks `tokenURI` first
      and then `uri`. */
  lemma DefaultAbiAccessors(address: string)
    ensures HasMethod(Contract(address, DefaultAbi), Erc721Accessor)
    ensures HasMethod(Contract(address, DefaultAbi), Erc1155Accessor)
  {
    assert DefaultAbi[0] in DefaultAbi && DefaultAbi[1] in DefaultAbi;
  }

  // ---------------------------------------------------------------------------------
  // parseOpenSeaUrl

  const AssetsMarker := "opensea.io/assets/ethereum/"
  const AssetsPath := "/assets/ethereum/"
  const MainHost := "opensea.io"

  datatype Parsed = Parsed(address: Option<string>, tokenId: Option<string>, network: Option<string>)

  const NoParse := Parsed(None, None, None)

  /** `parseOpenSeaUrl`: a URL without the asset marker, or one `new URL` rejects, gives
      nothing; otherwise the first two '/'-segments of the path after its first
      "/assets/ethereum/" are the address and the token id, and the network is "main"
      exactly for the host "opensea.io" and "rinkeby" for any other. */
  function ParseOpenSeaUrl(env: Env, url: string): (p: Parsed)
    ensures !Includes(url, AssetsMarker) ==> p == NoParse
    ensures p.network.Some? ==> p.network.value in {"main", "rinkeby"} && p.address.Some?
    ensures p.address.Some? ==> '/' !in p.address.value && p.network.Some?
    ensures p.tokenId.Some? ==> '/' !in p.tokenId.value && p.address.Some?
  {
    if !Includes(url, AssetsMarker) then NoParse
    else
      match env.newUrl(url)
      case Err(_) => NoParse
      case Ok(parts) =>
        var segs := Split(ReplaceFirst(parts.1, AssetsPath, ""), '/');
        Parsed(Some(segs[0]), if |segs| >= 2 then Some(segs[1]) else None,
          Some(if parts.0 == MainHost then "main" else "rinkeby"))
  }

  /** An asset URL whose path is "/assets/ethereum/{address}/{tokenId}", possibly
      followed by further '/'-segments, gives that address and token id, on the main
      network exactly for the host "opensea.io". */
  lemma ParseAssetUrl(env: Env, url: string, host: string, address: string, tokenId: string, rest: string)
    requires Includes(url, AssetsMarker)
    requires env.newUrl(url) == Ok((host, AssetsPath + address + "/" + tokenId + rest))
    requires '/' !in address && '/' !in tokenId
    requires rest == "" || rest[0] == '/'
    ensures ParseOpenSeaUrl(env, url) == Parsed(Some(address), Some(tokenId), Some(if host == MainHost then "main" else "rinkeby"))
  {
    var tail := address + "/" + tokenId + rest;
    assert AssetsPath + address + "/" + tokenId + rest == AssetsPath + tail;
    ReplacePrefix(AssetsPath, tail, "");
    assert "" + tail == tail;
    SplitLeadingPair(address, tokenId, rest, '/');
  }

  // ---------------------------------------------------------------------------------
  // fetchContractMetadata

  const RegistryMarker := "opensea.io/api/v1/metadata"
  const SourceKey := "_source"
  const SourceTag := "opensea"

  /** The own enumerable fields object spread copies: an object's fields, an array's or
      a string's indices; nothing for other values. */
  function SpreadFields(v: Value): seq<Field> {
    match v
    case Obj(fs) => fs
    case Arr(items) => IndexFields(items)
    case Str(s) => IndexFields(seq(|s|, i requires 0 <= i < |s| => Str([s[i]])))
    case _ => []
  }

  /** The contract's own metadata URI, normalised by `parseMetadataUri` and loaded
      through the proxy; any failure gives the raw URI. */
  function LoadContractUri(env: Env, uri: string): (r: Value)
    ensures r == Str(uri)
      || (env.fetchJson(ProxyUrl(ParseMetadataUri(uri))).Ok? && SanitizeIpfsValues(env.fetchJson(ProxyUrl(ParseMetadataUri(uri))).value) == Some(r))
    ensures env.fetchJson(ProxyUrl(ParseMetadataUri(uri))).Err? ==> r == Str(uri)
    ensures var fetched := env.fetchJson(ProxyUrl(ParseMetadataUri(uri)));
      fetched.Ok? && SanitizeIpfsValues(fetched.value).Some? ==> r == SanitizeIpfsValues(fetched.value).value
    ensures var fetched := env.fetchJson(ProxyUrl(ParseMetadataUri(uri)));
      fetched.Ok? && SanitizeIpfsValues(fetched.value).None? ==> r == Str(uri)
  {
    match env.fetchJson(ProxyUrl(ParseMetadataUri(uri)))
    case Err(_) => Str(uri)
    case Ok(data) =>
      match SanitizeIpfsValues(data)
      case None => Str(uri)
      case Some(clean) => clean
  }

  /** The marketplace's own metadata, tagged with `_source: 'opensea'`; null when the
      registry request fails. */
  function LoadRegistry(env: Env, address: string, tokenId: string, network: string): (r: Value)
    ensures r.Null? <==> FetchOpenSeaMetadata(env, address, tokenId, Some(network)).Err?
  {
    match FetchOpenSeaMetadata(env, address, tokenId, Some(network))
    case Ok(data) => Obj(Set(SpreadFields(data), SourceKey, Str(SourceTag)))
    case Err(_) => Null
  }

  /** Tagging overrides any `_source` the document had and keeps every other field. */
  lemma RegistryTagged(env: Env, address: string, tokenId: string, network: string, data: Value)
    requires FetchOpenSeaMetadata(env, address, tokenId, Some(network)) == Ok(data)
    ensures var r := LoadRegistry(env, address, tokenId, network);
      r.Obj? && Get(r, SourceKey) == Str(SourceTag)
      && forall k :: k != SourceKey ==> Lookup(r.fields, k) == Lookup(SpreadFields(data), k)
  {
    LookupSet(SpreadFields(data), SourceKey, Str(SourceTag));
  }

  /** Whether the URI the contract gave is used: a non-empty string that is not itself a
      marketplace metadata URL. */
  predicate UsesContractUri(uri: Value) {
    IsNonEmptyString(uri) && !Includes(uri.s, RegistryMarker)
  }

  /** The metadata once the contract handle exists. */
  function MetadataFor(env: Env, c: Contract, tokenId: string, network: string): Value {
    var uri := FetchContractMetadataUri(env, c, tokenId);
    if UsesContractUri(uri) then LoadContractUri(env, uri.s)
    else LoadRegistry(env, c.address, tokenId, network)
  }

  /** `fetchContractMetadata`: null without a wallet; what `new Contract` throws for an
      interface that is not an array or an address web3 refuses (Err); otherwise the
      contract's metadata, or the marketplace's. */
  function FetchContractMetadata(env: Env, address: string, abi: AbiJson, network: string, tokenId: string): (r: Result<Value, Failure>)
    ensures r.Err? <==> env.hasWallet && (abi.OtherJson? || RejectsAddress(env, address))
    ensures r.Err? && abi.OtherJson? ==> r.error == env.contractRejection
    ensures r.Err? && abi.AbiArray? ==> r.error == env.addressRejection
    ensures !env.hasWallet ==> r == Ok(Null)
  {
    if !env.hasWallet then Ok(Null)
    else
      match NewContract(env, abi, address)
      case Err(e) => Err(e)
      case Ok(c) => Ok(MetadataFor(env, c, tokenId, network))
  }

  /** The retry of a failed search, with `DEFAULT_ABI`: it throws only what `new
      Contract` throws for an address web3 refuses, and otherwise reads the metadata
      through the standard token interface. */
  function RetryMetadata(env: Env, address: string, network: string, tokenId: string): (r: Result<Value, Failure>)
    ensures r.Err? <==> env.hasWallet && RejectsAddress(env, address)
    ensures r.Err? ==> r.error == env.addressRejection
    ensures r.Ok? && env.hasWallet ==> r.value == MetadataFor(env, Contract(address, DefaultAbi), tokenId, network)
    ensures !env.hasWallet ==> r == Ok(Null)
  {
    FetchContractMetadata(env, address, AbiArray(DefaultAbi), network, tokenId)
  }

  /** A URI that is absent, empty, not a string, or a marketplace metadata URL sends the
      lookup to the registry instead of fetching it. */
  lemma RegistryWhenNoUsableUri(env: Env, c: Contract, tokenId: string, network: string)
    requires !UsesContractUri(FetchContractMetadataUri(env, c, tokenId))
    ensures MetadataFor(env, c, tokenId, network) == LoadRegistry(env, c.address, tokenId, network)
  {
  }

  /** A usable contract URI is never answered from the registry: the result is the
      fetched document or the raw URI. */
  lemma ContractUriWins(env: Env, c: Contract, tokenId: string, network: string)
    requires UsesContractUri(FetchContractMetadataUri(env, c, tokenId))
    ensures var uri := FetchContractMetadataUri(env, c, tokenId).s;
      var r := MetadataFor(env, c, tokenId, network);
      r == Str(uri) || SanitizeIpfsValues(env.fetchJson(ProxyUrl(ParseMetadataUri(uri))).value) == Some(r)
  {
  }

  // ---------------------------------------------------------------------------------
  // handleSearchMetadata

  const NoWalletMessage := "No Ethereum network has been found. Please install MetaMask, or a similar tool."
  const InvalidUrlMessage := "Please enter a valid OpenSea URL."
  const FallbackNotice := " (displaying OpenSea metadata instead of raw contract metadata)"

  /** `!address || !tokenId || !network` fails. */
  predicate Complete(p: Parsed) {
    p.address.Some? && p.address.value != "" && p.tokenId.Some? && p.tokenId.value != ""
    && p.network.Some? && p.network.value != ""
  }

  /** The registry lookup then the metadata lookup: either throw. */
  function Attempt(env: Env, address: string, network: string, tokenId: string): Result<Value, Failure> {
    match FetchContractAbi(env, address, Some(network))
    case Err(e) => Err(e)
    case Ok(abi) => FetchContractMetadata(env, address, abi, network, tokenId)
  }

  /** The suggestion after a failure with a known connected network: the first other
      network on which the registry knows the contract, else the URL's network when it
      differs from the connected one. */
  function FailureSuggestion(env: Env, address: string, network: string, connected: string): Option<string> {
    var found := FirstAnswering(Lookups(env, address), Without(ValidEthNetworks, [connected]));
    if found.Some? && found.value != "" then found
    else if connected != network then Some(network)
    else None
  }

  /** `error || (suffix when the retry's metadata came from the registry)` */
  function FailureError(msg: string, retry: Value): string {
    if Truthy(retry) && Get(retry, SourceKey) == Str(SourceTag) then msg + FallbackNotice else msg
  }

  /** What a search leaves on the page. */
  datatype Search = Search(error: Option<string>, suggestion: Option<string>, metadata: Value)

  /** The catch of a search: the failure's message and the suggestion are shown, then
      the retry with `DEFAULT_ABI` decides the metadata and the notice; a retry that
      throws leaves the metadata null. */
  function AfterFailure(env: Env, e: Failure, address: string, network: string, tokenId: string,
    suggestion: Option<string>): (s: Search)
    ensures s.suggestion == suggestion
    ensures s.error.Some? && StartsWith(s.error.value, Describe(e))
    ensures RetryMetadata(env, address, network, tokenId).Err? ==> s.metadata == Null && s.error == Some(Describe(e))
    ensures RetryMetadata(env, address, network, tokenId).Ok? ==> s.metadata == RetryMetadata(env, address, network, tokenId).value
  {
    match RetryMetadata(env, address, network, tokenId)
    case Ok(retry) =>
      FailureErrorKeepsMessage(Describe(e), retry);
      Search(Some(FailureError(Describe(e), retry)), suggestion, retry)
    case Err(_) =>
      StartsWithConcat(Describe(e), "");
      assert Describe(e) + "" == Describe(e);
      Search(Some(Describe(e)), suggestion, Null)
  }

  /** Specification of `handleSearchMetadata` for the URL typed and the connected
      network. */
  function SearchOutcome(env: Env, url: string, connected: string): Search {
    if !env.hasWallet then Search(Some(NoWalletMessage), None, Null)
    else
      var p := ParseOpenSeaUrl(env, url);
      if !Complete(p) then Search(Some(InvalidUrlMessage), None, Null)
      else
        var address, network, tokenId := p.address.value, p.network.value, p.tokenId.value;
        match Attempt(env, address, network, tokenId)
        case Ok(result) => Search(None, if network != connected then Some(network) else None, result)
        case Err(e) =>
          AfterFailure(env, e, address, network, tokenId,
            if connected != "" then FailureSuggestion(env, address, network, connected) else None)
  }

  lemma FailureSuggestionNotConnected(env: Env, address: string, network: string, connected: string)
    ensures FailureSuggestion(env, address, network, connected) != Some(connected)
  {
    NeverExcluded(env, address, [connected]);
  }

  /** The page never suggests switching to the network it is already connected to. */
  lemma SuggestionNeverConnected(env: Env, url: string, connected: string)
    ensures SearchOutcome(env, url, connected).suggestion != Some(connected)
  {
    var p := ParseOpenSeaUrl(env, url);
    if env.hasWallet && Complete(p) {
      var address, network, tokenId := p.address.value, p.network.value, p.tokenId.value;
      match Attempt(env, address, network, tokenId) {
        case Ok(_) =>
        case Err(e) =>
          var suggestion := if connected != "" then FailureSuggestion(env, address, network, connected) else None;
          if connected != "" {
            FailureSuggestionNotConnected(env, address, network, connected);
          }
          assert SearchOutcome(env, url, connected) == AfterFailure(env, e, address, network, tokenId, suggestion);
      }
    }
  }

  /** Without a wallet, or for an incomplete URL, a search only reports it: no lookup
      is made and nothing is suggested or shown. */
  lemma SearchRejectsEarly(env: Env, url: string, connected: string)
    requires !env.hasWallet || !Complete(ParseOpenSeaUrl(env, url))
    ensures var s := SearchOutcome(env, url, connected);
      s.suggestion.None? && s.metadata == Null
      && s.error == Some(if !env.hasWallet then NoWalletMessage else InvalidUrlMessage)
  {
  }

  /** A URL without the asset marker is always rejected as invalid (given a wallet). */
  lemma NonAssetUrlRejected(env: Env, url: string, connected: string)
    requires env.hasWallet && !Includes(url, AssetsMarker)
    ensures SearchOutcome(env, url, connected).error == Some(InvalidUrlMessage)
  {
  }

  /** After a failed lookup the error keeps the failure's message, with the notice
      appended exactly when the retry shows registry metadata. */
  lemma FailureErrorKeepsMessage(msg: string, retry: Value)
    ensures StartsWith(FailureError(msg, retry), msg)
    ensures FailureError(msg, retry) != msg <==> Truthy(retry) && Get(retry, SourceKey) == Str(SourceTag)
  {
    StartsWithConcat(msg, FallbackNotice);
    if Truthy(retry) && Get(retry, SourceKey) == Str(SourceTag) {
      assert |msg + FallbackNotice| > |msg|;
    }
  }

  /** The page's state. `listening` records that the `networkChanged` listener was
      registered, which happens only once the network type has been read. */
  class Page {
    var url: string
    var listening: bool
    var connectedNetwork: string
    var networkSuggestion: Option<string>
    var isLoading: bool
    var isPending: bool
    var metadata: Value
    var error: Option<string>

    /** The initial state; the URL comes from the route's `url` query parameter. */
    constructor (queryUrl: Option<string>)
      ensures url == (if queryUrl.Some? then queryUrl.value else "")
      ensures connectedNetwork == "" && networkSuggestion.None? && isLoading && !isPending
      ensures metadata == Null && error.None? && !listening
    {
      url := if queryUrl.Some? then queryUrl.value else "";
      listening := false;
      connectedNetwork := "";
      networkSuggestion := None;
      isLoading := true;
      isPending := false;
      metadata := Null;
      error := None;
    }

    /** The mount effect: with a wallet, the connected network's type, or the failure's
        message; loading ends either way. */
    method Init(env: Env, networkType: Result<string, Failure>)
      modifies this
      ensures !isLoading && url == old(url) && isPending == old(isPending) && metadata == old(metadata)
      ensures networkSuggestion == old(networkSuggestion)
      ensures connectedNetwork == if env.hasWallet && networkType.Ok? then networkType.value else old(connectedNetwork)
      ensures error == if env.hasWallet && networkType.Err? then Some(Describe(networkType.error)) else old(error)
      ensures listening == (old(listening) || (env.hasWallet && networkType.Ok?))
    {
      if env.hasWallet {
        match networkType {
          case Ok(n) =>
            connectedNetwork := n;
            listening := true;
          case Err(e) => error := Some(Describe(e));
        }
      }
      isLoading := false;
    }

    /** The wallet's `networkChanged` event: the new network type, if it can be read. */
    method NetworkChanged(networkType: Result<string, Failure>)
      modifies this`connectedNetwork
      ensures connectedNetwork == if listening && networkType.Ok? then networkType.value else old(connectedNetwork)
    {
      if listening && networkType.Ok? {
        connectedNetwork := networkType.value;
      }
    }

    /** The route-query effect: a query URL is taken only while the field is empty. */
    method QueryChanged(queryUrl: Option<string>)
      modifies this`url
      ensures url == if old(url) == "" && queryUrl.Some? && queryUrl.value != "" then queryUrl.value else old(url)
    {
      if url == "" && queryUrl.Some? && queryUrl.value != "" && queryUrl.value != url {
        url := queryUrl.value;
      }
    }

    /** Typing into the URL field. */
    method SetUrl(v: string)
      modifies this`url
      ensures url == v
    {
      url := v;
    }

    /** `handleSearchMetadata`. */
    method SearchMetadata(env: Env)
      modifies this`isPending, this`error, this`networkSuggestion, this`metadata
      ensures var s := SearchOutcome(env, old(url), old(connectedNetwork));
        error == s.error && networkSuggestion == s.suggestion && metadata == s.metadata
      ensures !isPending && url == old(url) && connectedNetwork == old(connectedNetwork) && isLoading == old(isLoading)
    {
      isPending := true;
      error := None;
      networkSuggestion := None;
      metadata := Null;
      if !env.hasWallet {
        isPending := false;
        error := Some(NoWalletMessage);
        return;
      }
      var p := ParseOpenSeaUrl(env, url);
      if !Complete(p) {
        isPending := false;
        error := Some(InvalidUrlMessage);
        return;
      }
      var address, network, tokenId := p.address.value, p.network.value, p.tokenId.value;
      match Attempt(env, address, network, tokenId) {
        case Ok(result) =>
          metadata := result;
          if network != connectedNetwork {
            networkSuggestion := Some(network);
          }
        case Err(e) =>
          RecoverFrom(env, e, address, network, tokenId);
      }
      isPending := false;
    }

    /** The catch of `handleSearchMetadata`, from a cleared error, suggestion and
        metadata. */
    method RecoverFrom(env: Env, e: Failure, address: string, network: string, tokenId: string)
      requires error.None? && networkSuggestion.None? && metadata == Null
      modifies this`error, this`networkSuggestion, this`metadata
      ensures var s := AfterFailure(env, e, address, network, tokenId,
          if connectedNetwork != "" then FailureSuggestion(env, address, network, connectedNetwork) else None);
        error == s.error && networkSuggestion == s.suggestion && metadata == s.metadata
    {
      var msg := Describe(e);
      error := Some(msg);
      if connectedNetwork != "" {
        SuggestAfterFailure(env, address, network);
      }
      ShowRetry(env, msg, address, network, tokenId);
    }

    /** The suggestion after a failed search on a known connected network. */
    method SuggestAfterFailure(env: Env, address: string, network: string)
      modifies this`networkSuggestion
      ensures networkSuggestion == FailureSuggestion(env, address, network, connectedNetwork)
    {
      var found, _ := FindValidNetwork(env, address, [connectedNetwork]);
      var backup := if connectedNetwork != network then Some(network) else None;
      networkSuggestion := if found.Some? && found.value != "" then found else backup;
    }

    /** The retry with `DEFAULT_ABI` after the message `msg` was shown: its metadata, and
        the notice when it came from the registry; nothing when it throws. */
    method ShowRetry(env: Env, msg: string, address: string, network: string, tokenId: string)
      modifies this`error, this`metadata
      ensures match RetryMetadata(env, address, network, tokenId)
        case Ok(retry) => metadata == retry && error == (if Truthy(retry) && Get(retry, SourceKey) == Str(SourceTag) then Some(msg + FallbackNotice) else old(error))
        case Err(_) => metadata == old(metadata) && error == old(error)
    {
      match RetryMetadata(env, address, network, tokenId) {
        case Ok(retry) =>
          metadata := retry;
          if Truthy(retry) && Get(retry, SourceKey) == Str(SourceTag) {
            error := Some(msg + FallbackNotice);
          }
        case Err(_) =>
      }
    }
  }
}
