/** components/ContractMetadata.tsx: the panel that calls a contract's token-URI accessor
    and loads the document the URI names through the metadata proxy. */
module MetadataPanel {
  import opened Js
  import opened Text
  import opened Abi
  import opened Effects
  import opened Utils

  const DefaultMethod := "tokenURI"

  /** `contract.methods[name || 'tokenURI']`: the item's own name, unless it is missing or
      empty. */
  function MethodName(item: AbiItem): (n: string)
    ensures n != ""
    ensures item.name.Some? && item.name.value != "" ==> n == item.name.value
    ensures item.name.None? || item.name == Some("") ==> n == DefaultMethod
  {
    match item.name
    case Some(name) => if name != "" then name else DefaultMethod
    case None => DefaultMethod
  }

  /** The URL the panel fetches: only an "ipfs://" URI is rewritten to the gateway. */
  function FetchTarget(uri: string): (u: string)
    ensures StartsWith(uri, IpfsScheme) ==> u == IpfsGateway + uri[|IpfsScheme|..]
    ensures !StartsWith(uri, IpfsScheme) ==> u == uri
  {
    if StartsWith(uri, IpfsScheme) then IpfsToHttps(uri) else uri
  }

  /** Unlike `parseMetadataUri`, the panel leaves "ar://" URIs alone: the two agree on
      every URI except those that start with "ar://". */
  lemma FetchTargetOnlyIpfs(uri: string)
    ensures FetchTarget(uri) == ParseMetadataUri(uri) <==> !StartsWith(uri, ArweaveScheme) || StartsWith(uri, IpfsScheme)
  {
    if !StartsWith(uri, IpfsScheme) && StartsWith(uri, ArweaveScheme) {
      assert ParseMetadataUri(uri)[0] == 'h';
      assert uri[0] == uri[..|ArweaveScheme|][0] == 'a';
    }
  }

  /** The metadata document behind a URI: what the proxy returns, sanitised, or the raw
      URI itself when the fetch, the JSON decoding or the sanitisation fails. */
  function ResolveMetadata(env: Env, uri: string): (r: Value)
    ensures r == Str(uri)
      || (env.fetchJson(ProxyUrl(FetchTarget(uri))).Ok? && SanitizeIpfsValues(env.fetchJson(ProxyUrl(FetchTarget(uri))).value) == Some(r))
    ensures env.fetchJson(ProxyUrl(FetchTarget(uri))).Err? ==> r == Str(uri)
    ensures var fetched := env.fetchJson(ProxyUrl(FetchTarget(uri)));
      fetched.Ok? && SanitizeIpfsValues(fetched.value).Some? ==> r == SanitizeIpfsValues(fetched.value).value
    ensures var fetched := env.fetchJson(ProxyUrl(FetchTarget(uri)));
      fetched.Ok? && SanitizeIpfsValues(fetched.value).None? ==> r == Str(uri)
  {
    match env.fetchJson(ProxyUrl(FetchTarget(uri)))
    case Err(_) => Str(uri)
    case Ok(data) =>
      match SanitizeIpfsValues(data)
      case None => Str(uri)
      case Some(clean) => clean
  }

  /** A document with a null field cannot be sanitised, so the panel shows the raw URI. */
  lemma ResolveNullFieldGivesUri(env: Env, uri: string, fields: seq<Field>, k: string)
    requires env.fetchJson(ProxyUrl(FetchTarget(uri))) == Ok(Obj(fields))
    requires Lookup(fields, k) == Some(Null)
    requires forall x :: x in KeySeq(fields) ==> "_" + x != k
    ensures ResolveMetadata(env, uri) == Str(uri)
  {
    SanitizeNullThrows(fields, k);
  }

  /** A clean document is shown as its reference sanitisation when that succeeds. */
  lemma ResolveCleanDocument(env: Env, uri: string, d: Value)
    requires env.fetchJson(ProxyUrl(FetchTarget(uri))) == Ok(d)
    requires d.Obj? && Clean(d)
    ensures ResolveMetadata(env, uri) == match SanitizedReference(d) case Some(x) => x case None => Str(uri)
  {
    SanitizeAgrees(d);
  }

  /** How a run ends: the method is missing (nothing is stored), the call or the
      `startsWith` on its result throws (its message is stored), or a document or the
      raw URI is loaded. */
  datatype Outcome = NoMethod | Failed(message: string) | Loaded(result: Value)

  /** What `uri.startsWith(...)` throws for a call result that is not a string: reading
      a property of null or undefined, or calling a method that is not there. */
  function NotAStringFailure(env: Env, v: Value): Failure {
    if v.Null? || v.Undefined? then env.readOfNothing(v, "startsWith") else env.notAString
  }

  function RunOutcome(env: Env, c: Contract, item: AbiItem, params: seq<string>): (o: Outcome)
    ensures o.NoMethod? <==> !HasMethod(c, MethodName(item))
    ensures var call := env.call(c, MethodName(item), StrArgs(params));
      o.Loaded? <==> HasMethod(c, MethodName(item)) && call.Ok? && call.value.Str?
    ensures var call := env.call(c, MethodName(item), StrArgs(params));
      o.Loaded? ==> o.result == ResolveMetadata(env, call.value.s)
    ensures var call := env.call(c, MethodName(item), StrArgs(params));
      o.Failed? ==> o.message == if call.Err? then call.error.message else NotAStringFailure(env, call.value).message
  {
    var name := MethodName(item);
    if !HasMethod(c, name) then NoMethod
    else
      match env.call(c, name, StrArgs(params))
      case Err(e) => Failed(e.message)
      case Ok(Str(uri)) => Loaded(ResolveMetadata(env, uri))
      case Ok(v) => Failed(NotAStringFailure(env, v).message)
  }

  /** The panel's state: one text input per declared input, the loaded result, the error
      message and the running flag. */
  class Panel {
    const item: AbiItem
    var params: seq<string>
    var result: Value
    var error: Option<string>
    var isRunning: bool

    predicate Valid()
      reads this
    {
      |params| == |item.inputs|
    }

    constructor (item: AbiItem)
      ensures this.item == item && Valid()
      ensures forall i :: 0 <= i < |params| ==> params[i] == ""
      ensures result == Null && error == None && !isRunning
    {
      this.item := item;
      params := seq(|item.inputs|, _ => "");
      result := Null;
      error := None;
      isRunning := false;
    }

    /** Typing into the input at `idx`. */
    method SetParam(idx: nat, v: string)
      requires Valid() && idx < |params|
      modifies this
      ensures Valid() && params == old(params)[idx := v]
      ensures result == old(result) && error == old(error) && isRunning == old(isRunning)
    {
      params := params[idx := v];
    }

    /** The synchronous start of a run: running, with result and error cleared. */
    method BeginRun()
      requires Valid()
      modifies this
      ensures Valid() && params == old(params)
      ensures isRunning && result == Null && error == None
    {
      isRunning := true;
      result := Null;
      error := None;
    }

    /** `handleRunCallMethod`: the reset, the call, the document load, and the running
        flag cleared in every case. */
    method RunCallMethod(env: Env, c: Contract)
      requires Valid()
      modifies this
      ensures Valid() && params == old(params) && !isRunning
      ensures match RunOutcome(env, c, item, old(params))
        case NoMethod => result == Null && error == None
        case Failed(m) => result == Null && error == Some(m)
        case Loaded(r) => result == r && error == None
    {
      BeginRun();
      var name := MethodName(item);
      if HasMethod(c, name) {
        match env.call(c, name, StrArgs(params)) {
          case Err(e) =>
            error := Some(e.message);
          case Ok(v) =>
            if v.Str? {
              result := ResolveMetadata(env, v.s);
            } else {
              error := Some(NotAStringFailure(env, v).message);
            }
        }
      }
      isRunning := false;
    }
  }
}
