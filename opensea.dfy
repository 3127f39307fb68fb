/** utils/opensea.ts: the marketplace's metadata request, and the choice between the
    ERC-721 `tokenURI(tokenId)` accessor (the ERC721Metadata extension of EIP-721) and
    the ERC-1155 `uri(id)` accessor (the Metadata section of EIP-1155) for a token's
    metadata URI. */
module OpenSea {
  import opened Js
  import opened Text
  import opened Effects

  const Erc721Accessor := "tokenURI"
  const Erc1155Accessor := "uri"

  /** The API host: `api` for the main network, which is also the default when the
      argument is omitted (`None`); `testnets-api` for every other name. An explicit
      `null` is not omitted and is not "main", so it is modelled as another name and goes
      to `testnets-api`. */
  function MetadataSubdomain(network: Option<string>): (s: string)
    ensures s == "api" <==> network.None? || network == Some("main")
    ensures s != "api" ==> s == "testnets-api"
  {
    if network.None? || network == Some("main") then "api" else "testnets-api"
  }

  /** `fetchOpenSeaMetadata`'s request URL. */
  function OpenSeaMetadataUrl(address: string, tokenId: string, network: Option<string>): string {
    "https://" + MetadataSubdomain(network) + ".opensea.io/api/v1/metadata/" + address + "/" + tokenId + "?format=json"
  }

  /** The request goes to the main API exactly for the main network, and always asks for
      JSON. */
  lemma OpenSeaMetadataUrlShape(address: string, tokenId: string, network: Option<string>)
    ensures var u := OpenSeaMetadataUrl(address, tokenId, network);
      (StartsWith(u, "https://api.") <==> network.None? || network == Some("main"))
      && EndsWith(u, "?format=json")
  {
    var sub := MetadataSubdomain(network);
    var tail := ".opensea.io/api/v1/metadata/" + address + "/" + tokenId + "?format=json";
    var u := OpenSeaMetadataUrl(address, tokenId, network);
    assert u == "https://" + (sub + tail);
    var front := "https://" + sub + ".opensea.io/api/v1/metadata/" + address + "/" + tokenId;
    assert u == front + "?format=json";
    assert u[|front|..] == "?format=json";
    if sub == "api" {
      assert u == "https://api." + (tail[1..]);
      StartsWithConcat("https://api.", tail[1..]);
    } else {
      assert u[8] == 't';
    }
  }

  /** `fetchOpenSeaMetadata(address, tokenId, network)` */
  function FetchOpenSeaMetadata(env: Env, address: string, tokenId: string, network: Option<string>): Result<Value, Failure> {
    env.fetchJson(OpenSeaMetadataUrl(address, tokenId, network))
  }

  /** What one accessor's promise settles to: its call result, or null when its call
      fails. */
  function Settled(env: Env, c: Contract, name: string, tokenId: string): Value {
    match env.call(c, name, [Str(tokenId)])
    case Ok(v) => v
    case Err(_) => Null
  }

  /** `options.find((opt) => !!opt && typeof opt === 'string')` */
  function FindNonEmptyString(vs: seq<Value>): (r: Value)
    ensures r == Undefined <==> forall i :: 0 <= i < |vs| ==> !IsNonEmptyString(vs[i])
    ensures r != Undefined ==>
      exists i :: 0 <= i < |vs| && r == vs[i] && IsNonEmptyString(vs[i]) && forall j :: 0 <= j < i ==> !IsNonEmptyString(vs[j])
  {
    if vs == [] then Undefined
    else if IsNonEmptyString(vs[0]) then vs[0]
    else
      var r := FindNonEmptyString(vs[1..]);
      assert forall j :: 1 <= j < |vs| ==> vs[j] == vs[1..][j - 1];
      r
  }

  /** `fetchContractMetadataUri(contract, tokenId)`. With both accessors, the first of
      their settled values that is a non-empty string (undefined if neither is); with
      one, its settled value as it is; with none, null. */
  function FetchContractMetadataUri(env: Env, c: Contract, tokenId: string): (r: Value)
    ensures r == Null || r == Undefined
      || (HasMethod(c, Erc721Accessor) && r == Settled(env, c, Erc721Accessor, tokenId))
      || (HasMethod(c, Erc1155Accessor) && r == Settled(env, c, Erc1155Accessor, tokenId))
    ensures !HasMethod(c, Erc721Accessor) && !HasMethod(c, Erc1155Accessor) ==> r == Null
  {
    var has721 := HasMethod(c, Erc721Accessor);
    var has1155 := HasMethod(c, Erc1155Accessor);
    if !has721 && !has1155 then Null
    else
      var erc721 := if has721 then Settled(env, c, Erc721Accessor, tokenId) else Null;
      var erc1155 := if has1155 then Settled(env, c, Erc1155Accessor, tokenId) else Null;
      if has721 && has1155 then FindNonEmptyString([erc721, erc1155])
      else if has721 then erc721
      else erc1155
  }

  /** An absent accessor is never invoked: two environments that agree on the calls of
      the accessors the contract has give the same URI. */
  lemma AbsentAccessorNeverCalled(env1: Env, env2: Env, c: Contract, tokenId: string)
    requires HasMethod(c, Erc721Accessor) ==> env1.call(c, Erc721Accessor, [Str(tokenId)]) == env2.call(c, Erc721Accessor, [Str(tokenId)])
    requires HasMethod(c, Erc1155Accessor) ==> env1.call(c, Erc1155Accessor, [Str(tokenId)]) == env2.call(c, Erc1155Accessor, [Str(tokenId)])
    ensures FetchContractMetadataUri(env1, c, tokenId) == FetchContractMetadataUri(env2, c, tokenId)
  {
  }

  /** With both accessors, `tokenURI` wins whenever it settles to a non-empty string. */
  lemma BothPrefersTokenUri(env: Env, c: Contract, tokenId: string)
    requires HasMethod(c, Erc721Accessor) && HasMethod(c, Erc1155Accessor)
    requires IsNonEmptyString(Settled(env, c, Erc721Accessor, tokenId))
    ensures FetchContractMetadataUri(env, c, tokenId) == Settled(env, c, Erc721Accessor, tokenId)
  {
  }

  /** With both accessors, a failed, empty or non-string `tokenURI` result falls through
      to `uri`, and to undefined when that does not qualify either. */
  lemma BothFallsThrough(env: Env, c: Contract, tokenId: string)
    requires HasMethod(c, Erc721Accessor) && HasMethod(c, Erc1155Accessor)
    requires !IsNonEmptyString(Settled(env, c, Erc721Accessor, tokenId))
    ensures var u := Settled(env, c, Erc1155Accessor, tokenId);
      FetchContractMetadataUri(env, c, tokenId) == if IsNonEmptyString(u) then u else Undefined
  {
    var u := Settled(env, c, Erc1155Accessor, tokenId);
    var vs := [Settled(env, c, Erc721Accessor, tokenId), u];
    assert vs[1..] == [u];
    assert FindNonEmptyString(vs) == FindNonEmptyString([u]);
    assert [u][1..] == [];
  }

  /** With a single accessor there is no string check: its settled value, a number or
      an empty string included, is the URI, and a failed call gives null. */
  lemma SingleAccessorAsIs(env: Env, c: Contract, tokenId: string, name: string)
    requires (name == Erc721Accessor && !HasMethod(c, Erc1155Accessor))
          || (name == Erc1155Accessor && !HasMethod(c, Erc721Accessor))
    requires HasMethod(c, name)
    ensures FetchContractMetadataUri(env, c, tokenId) == Settled(env, c, name, tokenId)
    ensures env.call(c, name, [Str(tokenId)]).Err? ==> FetchContractMetadataUri(env, c, tokenId) == Null
  {
  }
}
