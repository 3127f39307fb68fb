# web3-contract-explorer, modelled in Dafny

This project models the decision logic of web3-contract-explorer, a Next.js front end for
exploring Ethereum contracts, and proves properties of it:

- the grouping of a contract's interface description (the Solidity ABI JSON) into
  mutability buckets;
- the rewriting of IPFS and Arweave metadata URIs and of metadata documents;
- the Etherscan helpers: network predicates, explorer URLs, the response handling of the
  interface lookup, and the probe for a network on which a contract is known;
- the choice between the ERC-721 `tokenURI` accessor (the ERC721Metadata extension of
  EIP-721) and the ERC-1155 `uri` accessor (the Metadata section of EIP-1155);
- the method runner (argument coercion, call or send dispatch, the form's state), the
  method search, the token-metadata panel, the OpenSea page and the contract debugger page.

Each module follows one source file:

| module | source |
|---|---|
| `Js` (js.dfy) | JavaScript values: objects as ordered field lists, `||`, truthiness, `err.message \|\| String(err)`, object spread |
| `Text` (text.dfy) | the string methods used: `startsWith`, `endsWith`, `includes`, `replace` (first occurrence), `trim`, ASCII `toLowerCase`, `split`, `join`, number-to-text |
| `Abi` (abi.dfy) | utils/abi.ts |
| `Utils` (utils.dfy) | utils/index.ts |
| `Effects` (effects.dfy) | the outside world as values, plus `new web3.eth.Contract` |
| `Etherscan` (etherscan.dfy) | utils/etherscan.ts |
| `OpenSea` (opensea.dfy) | utils/opensea.ts |
| `MethodRunner` (method_runner.dfy) | components/ContractMethodRunner.tsx |
| `MethodList` (method_list.dfy) | components/ContractMethods.tsx |
| `MetadataPanel` (metadata_panel.dfy) | components/ContractMetadata.tsx |
| `OpenSeaPage` (opensea_page.dfy) | components/OpenSeaMetadata.tsx |
| `Debugger` (debugger.dfy) | components/ContractDebugger.tsx |

The pure helpers are functions with lemmas. The React components keep their state in
classes (`MethodRunner.Runner`, `MetadataPanel.Panel`, `OpenSeaPage.Page`,
`Debugger.Page`). Each handler is a method that updates those fields. Its `ensures` ties
the new state to a specification function of the old state, and the lemmas prove the
properties of those functions. `findValidNetwork` is a loop (`Etherscan.Probe`), proved
equal to its reference definition `FirstAnswering`.

Every effect is one call whose outcome a field of `Effects.Env` gives: `Ok(v)` for a value,
`Err(failure)` for what it throws. These effects are:

- the registry and metadata HTTP requests (`fetchJson`);
- contract `.call()` and `.send()`;
- `JSON.parse` and `JSON.stringify`;
- `Web3.utils.toWei` and `new URL`;
- whether `window.ethereum` exists;
- the Etherscan API key;
- the error that `new Contract` throws for a non-array interface;
- whether web3's address formatter accepts an address, and what `new Contract` throws when it does not;
- the `TypeError` thrown when a string method is called on a non-string, and the one thrown when a property of `null` or `undefined` is read.

Wallet answers (accounts and network type) are handler parameters of type `Result`.

Where the system's documented behaviour and its code differ, the model follows the code:

- `extractFunctionType` never yields null (utils/abi.ts:37-43), so its `if (!t)` branch is dead: every function entry is grouped.
- With a single accessor, `fetchContractMetadataUri` still catches that accessor's failure and returns null (utils/opensea.ts:28-37, 43-46). The failure is not passed on.
- `fetchViaProxy` appends the target URL without percent-encoding (utils/index.ts:32-34).
- No handler guards against stale results. Handlers are modelled as running one after another.
- A legacy entry marked only `constant` is grouped as a view method. Running it still takes the send path, because dispatch tests only `stateMutability === 'view'` (`MethodRunner.LegacyConstantIsSent`).
- On the send path, inputs are coerced before the name check and outside the `try`. A `toWei` failure therefore escapes the handler and leaves the form as it was (`MethodRunner.Runner.RunSend` returns it).
- `keyify` renders a missing name as `undefined`, while the signature line renders it as nothing.

## Model

| member | source | states |
|---|---|---|
| Abi.ExtractFunctionType | utils/abi.ts:32-44 | always one of payable, nonpayable or view, never null; payable exactly when the `payable` flag is set; view exactly when `constant` is set and `payable` is not |
| Abi.Category | utils/abi.ts:51 | a present, non-empty `stateMutability` wins over the legacy flags; otherwise the legacy derivation; never empty |
| Abi.FunctionItems | utils/abi.ts:48 | exactly the entries whose `type` is "function" |
| Abi.GroupByType | utils/abi.ts:49-60 | the reduce yields the three standard buckets plus one per other category; each bucket holds the items of its category, in input order |
| Abi.MapAbiByFunctionType | utils/abi.ts:46-61 | payable, nonpayable and view always exist; the other keys are the categories of function entries; each bucket holds the function entries of its category, in order |
| Abi.OnlyFunctionsGrouped | utils/abi.ts:48-57 | an item is in a bucket exactly when it is a function entry of the description with that category; events and constructors are in none |
| Abi.PureIsSeparate | utils/abi.ts:51-57 | a "pure" function gets its own bucket and is never in the view bucket |
| Abi.BucketNames | utils/abi.ts:57-59 | the bucket names are distinct and are exactly the grouping's keys |
| Abi.BucketsPartitionFunctions | utils/abi.ts:46-61 | the bucket sizes add up to the number of function entries, so each function entry lands in exactly one bucket |
| Abi.FindTokenUriItem | utils/abi.ts:63-67 | the first function entry named `tokenURI`, or none when there is none; a non-function named `tokenURI` is skipped |
| Utils.Times | utils/index.ts:29-30 | length n, element i is f(i) |
| Utils.IpfsToHttps | utils/index.ts:36-40 | the result is always on the IPFS gateway; for an `ipfs://` URI it is the gateway plus the rest of the URI |
| Utils.ArweaveToHttps | utils/index.ts:42-46 | the result is always on the Arweave gateway; for an `ar://` URI it is the gateway plus the rest of the URI |
| Utils.ParseMetadataUri | utils/index.ts:48-56 | `ipfs://` is recognised first, then `ar://`; any other URI is returned unchanged |
| Utils.ParseMetadataUriIdempotent | utils/index.ts:48-56 | normalising twice is the same as normalising once |
| Utils.ParseIpfsExample | utils/index.ts:48-50 | `ipfs://Qm123` becomes `https://ipfs.io/ipfs/Qm123` |
| Utils.ParseArweaveExample | utils/index.ts:51-52 | `ar://abc` becomes `https://arweave.net/abc` |
| Utils.ParseHttpsExample | utils/index.ts:53-55 | an https URL is left as it is |
| Utils.ProxyUrl | utils/index.ts:32-34 | the proxy request path starts with `/api/metadata?url=` |
| Utils.ProxyUrlRecovers | utils/index.ts:32-34 | the target is the unaltered suffix after the prefix, so distinct targets give distinct requests |
| Utils.ExtractImagePreview | utils/index.ts:76-82 | null for a falsy document; otherwise the first truthy field of `_image`, `_image_url`, `image`, `image_url`; `image_url`'s own value when none is truthy |
| Utils.ImagePreviewPrefersGateway | utils/index.ts:81 | a non-empty `_image` wins over `image` |
| Utils.ImagePreviewNoImage | utils/index.ts:81 | a document without image fields gives undefined, not null |
| Utils.FormatNetworkName | utils/index.ts:84-94 | only goerli and rinkeby get test-network labels; every other name, main included, is labelled the main network |
| Utils.SanitizeIpfsValues | utils/index.ts:58-74 | null and undefined throw; strings, numbers and booleans come back unchanged; an object comes back as an object |
| Utils.SanitizeKeepsKeys | utils/index.ts:58-74 | the original keys stay first and in order; every added key is an original key with `_` in front |
| Utils.SanitizeNullThrows | utils/index.ts:64-69 | a null field makes sanitisation throw, unless it is the `_k` sibling of another key |
| Utils.SanitizeAgrees | utils/index.ts:58-74 | on a document without key clashes, the reduce equals a closed-form reference: every value mapped (nested objects recursively), gateway siblings appended in key order; it fails exactly where a nested null is |
| Etherscan.TestNetworksAreExactly | utils/etherscan.ts:7-18 | the test networks are exactly rinkeby, ropsten and private |
| Etherscan.ValidNetworksAreExactly | utils/etherscan.ts:20-30 | the valid networks are the test networks plus mainnet and main; goerli and kovan are not valid |
| Etherscan.IsValidTestNetwork | utils/etherscan.ts:7-18 | a predicate; `Etherscan.TestNetworksAreExactly` proves it holds exactly for rinkeby, ropsten and private |
| Etherscan.IsValidNetwork | utils/etherscan.ts:20-30 | a predicate; `Etherscan.ValidNetworksAreExactly` proves it holds exactly for the test networks, mainnet and main |
| Etherscan.ExplorerHost | utils/etherscan.ts:36-40 | a test network's own subdomain, otherwise `https://etherscan.io` |
| Etherscan.AddressUrl | utils/etherscan.ts:32-41 | the explorer host, then `/address/`, then the address; `Etherscan.AddressUrlInjective` and `Etherscan.AddressUrlExamples` prove its properties |
| Etherscan.TransactionUrl | utils/etherscan.ts:43-52 | the explorer host, then `/tx/`, then the hash; `Etherscan.TransactionUrlInjective` proves its property |
| Etherscan.AddressUrlInjective | utils/etherscan.ts:32-41 | on a given network, two addresses give the same URL exactly when they are equal |
| Etherscan.TransactionUrlInjective | utils/etherscan.ts:43-52 | on a given network, two hashes give the same URL exactly when they are equal |
| Etherscan.AddressUrlExamples | utils/etherscan.ts:32-41 | mainnet, goerli and no network give the same link; private gets a subdomain of its own |
| Etherscan.ApiBaseUrl | utils/etherscan.ts:68-78 | ropsten and rinkeby have their own API hosts; every other value, none included, uses the main API |
| Etherscan.NetworkOrMain | utils/etherscan.ts:94 | a non-empty network name, otherwise main |
| Etherscan.ClassifyAbiResponse | utils/etherscan.ts:89-99 | the response handler; the four lemmas below prove what each kind of answer gives |
| Etherscan.ClassifySuccessParses | utils/etherscan.ts:90-91 | status "1" with a truthy result gives the parse of the result's text |
| Etherscan.ClassifyEmptyResultUnexpected | utils/etherscan.ts:90-97 | status "1" with an empty result throws "Unexpected error: " plus the stringified body |
| Etherscan.ClassifyErrorsDistinct | utils/etherscan.ts:89-98 | every non-success response throws; a null body throws the `TypeError` of reading `status`; any other body throws an Error whose message starts with `[` exactly for status "0", and then with the bracketed network, main when none is given |
| Etherscan.ClassifyOkOnlyOnSuccess | utils/etherscan.ts:89-99 | an interface comes back only for status "1" with a truthy result |
| Etherscan.FetchContractAbi | utils/etherscan.ts:80-100 | a failed request or unreadable body is that failure; otherwise the classified answer (lemmas above) |
| Etherscan.Without | utils/etherscan.ts:108 | the candidates are the list's names that are not excluded, no more than the list |
| Etherscan.FindValidNetwork | utils/etherscan.ts:104-121 | returns the first candidate whose lookup yields truthy data; the queried networks are a prefix of the candidates; all of them when nothing answers; only the last one answered |
| Etherscan.Probe | utils/etherscan.ts:110-120 | the loop: a throwing or falsy lookup is skipped; it stops at the first success, so later candidates are never queried |
| Etherscan.ProbeStops | utils/etherscan.ts:114-116 | an answering candidate after only failures is the result |
| Etherscan.ProbeSkips | utils/etherscan.ts:111-117 | a failing candidate moves the search on to the rest |
| Etherscan.FirstAnsweringIsCandidate | utils/etherscan.ts:108-118 | a found network is a candidate whose lookup answers |
| Etherscan.FirstAnsweringNone | utils/etherscan.ts:110-120 | nothing is found exactly when no candidate answers |
| Etherscan.NeverExcluded | utils/etherscan.ts:108-121 | a found network is never excluded and is in the fixed list |
| Etherscan.NullWhenAllFail | utils/etherscan.ts:120 | null when every lookup throws or answers falsy |
| Etherscan.CandidateOrder | utils/etherscan.ts:102-108 | candidates are tried as main, ropsten, rinkeby |
| OpenSea.MetadataSubdomain | utils/opensea.ts:6-8 | `api` exactly for main (the default), `testnets-api` otherwise |
| OpenSea.OpenSeaMetadataUrl | utils/opensea.ts:8-9 | the request URL; `OpenSea.OpenSeaMetadataUrlShape` proves its host and its query |
| OpenSea.FetchOpenSeaMetadata | utils/opensea.ts:3-12 | the fetch of that URL; `OpenSeaPage.LoadRegistry` states how its failure is handled |
| OpenSea.OpenSeaMetadataUrlShape | utils/opensea.ts:8-9 | the request goes to `https://api.` exactly for main and always asks for `?format=json` |
| OpenSea.FindNonEmptyString | utils/opensea.ts:42 | undefined exactly when no value is a non-empty string; otherwise the first one |
| OpenSea.FetchContractMetadataUri | utils/opensea.ts:14-50 | null when neither accessor exists; otherwise null, undefined, or the settled value of an accessor that exists |
| OpenSea.AbsentAccessorNeverCalled | utils/opensea.ts:28-37 | the result depends only on the calls of accessors that exist |
| OpenSea.BothPrefersTokenUri | utils/opensea.ts:39-42 | with both accessors, a non-empty string from `tokenURI` wins |
| OpenSea.BothFallsThrough | utils/opensea.ts:39-42 | with both accessors, a failed, empty or non-string `tokenURI` falls through to `uri`, then to undefined |
| OpenSea.SingleAccessorAsIs | utils/opensea.ts:43-46 | a single accessor's settled value is returned without a string check; its failure gives null |
| MethodRunner.ParamLabelBare | components/ContractMethodRunner.tsx:42-43 | a parameter shows as its bare type exactly when it is unnamed |
| MethodRunner.ParamLabels | components/ContractMethodRunner.tsx:42-49 | one label per parameter, in order |
| MethodRunner.JoinEmpty | components/ContractMethodRunner.tsx:44-49 | a ", " join is empty exactly for no parts or a single empty part |
| MethodRunner.OutputTextVoid | components/ContractMethodRunner.tsx:141 | the output part reads "void" for a method without outputs |
| MethodRunner.OutputText | components/ContractMethodRunner.tsx:141 | the output part is never empty |
| MethodRunner.IsJsonParsable | components/ContractMethodRunner.tsx:8-16 | a predicate: `JSON.parse` succeeds with a truthy value; `MethodRunner.CoerceFalsyJsonIsRaw` proves a falsy value is passed raw |
| MethodRunner.Signature | components/ContractMethodRunner.tsx:42-49 | the labels of the inputs and the outputs; `MethodRunner.ParamLabels`, `MethodRunner.OutputText` and `MethodRunner.OutputTextVoid` prove its parts |
| MethodRunner.Coerce | components/ContractMethodRunner.tsx:78-92 | a coercion fails only for a non-boolean, non-parsable text ending in "eth", with `toWei`'s failure on the trimmed amount |
| MethodRunner.CoerceBooleans | components/ContractMethodRunner.tsx:79-82 | "true" and "false" become booleans before any JSON test |
| MethodRunner.CoerceFalsyJsonIsRaw | components/ContractMethodRunner.tsx:8-16 | text whose JSON value is falsy is not "parsable" and is passed raw |
| MethodRunner.CoerceEthAmount | components/ContractMethodRunner.tsx:85-88 | `a + "eth"` becomes `toWei(trim(a))` |
| MethodRunner.MapOrFirstError | components/ContractMethodRunner.tsx:78 | Ok exactly when every element maps; then one result per element in order; otherwise the first failure, left to right |
| MethodRunner.CoerceAllInOrder | components/ContractMethodRunner.tsx:52-78 | the send arguments are one coerced value per input, in input order |
| MethodRunner.Dispatch | components/ContractMethodRunner.tsx:128-136 | a call exactly when `stateMutability` is "view" |
| MethodRunner.LegacyConstantIsSent | components/ContractMethodRunner.tsx:131 | a constant-only legacy entry is grouped as view yet sent |
| MethodRunner.CallOutcome | components/ContractMethodRunner.tsx:51-75 | skipped exactly without a name; a missing method stores nothing; otherwise the call of the raw strings' result or its message |
| MethodRunner.SendOutcome | components/ContractMethodRunner.tsx:77-126 | throws exactly when a coercion throws; otherwise like the call path, with `send({from, value})` |
| MethodRunner.UnnamedSendStillCoerces | components/ContractMethodRunner.tsx:78-96 | an unnamed send still coerces first |
| MethodRunner.Runner.constructor | components/ContractMethodRunner.tsx:31-39 | one empty text per input; payment 0; no result or error; not running |
| MethodRunner.Runner.SetParam | components/ContractMethodRunner.tsx:31-35 | only the typed input changes |
| MethodRunner.Runner.SetPayment | components/ContractMethodRunner.tsx:36 | only the payment changes |
| MethodRunner.Runner.Settle | components/ContractMethodRunner.tsx:60-74 | after a named run: not running, and result and error as the outcome says |
| MethodRunner.Runner.RunCall | components/ContractMethodRunner.tsx:51-75 | the form shows the call outcome of the inputs typed |
| MethodRunner.Runner.RunSend | components/ContractMethodRunner.tsx:77-126 | the form shows the send outcome; a coercion failure escapes and leaves the form unchanged |
| MethodRunner.Runner.Run | components/ContractMethodRunner.tsx:128-136 | view methods take the call path, all others the send path; an unnamed view method, a skipped send and an escaping coercion leave result, error and running flag as they were |
| MethodList.Keyify | components/ContractMethods.tsx:10-14 | the row key; `MethodList.KeyifyParts` and `MethodList.KeyifyInjective` prove its shape and injectivity |
| MethodList.IsIncludedByQuery | components/ContractMethods.tsx:16-29 | the query match; the three lemmas below prove its cases |
| MethodList.KeyifyParts | components/ContractMethods.tsx:10-14 | the key is name, input count and output count, joined by ":" |
| MethodList.KeyifyInjective | components/ContractMethods.tsx:10-14 | for names without ":", equal keys mean equal names and equal counts |
| MethodList.BlankQueryMatchesAll | components/ContractMethods.tsx:16-21 | an absent or whitespace-only query matches every item |
| MethodList.QueryCaseInsensitive | components/ContractMethods.tsx:17-27 | matching ignores the case of the query and of the name |
| MethodList.MissingWordExcludes | components/ContractMethods.tsx:22-28 | a word of the query that the lower-cased name lacks excludes the item |
| MethodList.FilterByQuery | components/ContractMethods.tsx:46-54 | an item is kept exactly when it is in the group and matches the query |
| MethodList.FilterIsSubsequence | components/ContractMethods.tsx:46-54 | the filtered list keeps the group's order |
| MethodList.BlankFilterKeepsAll | components/ContractMethods.tsx:16-21 | a blank query keeps the whole group |
| MethodList.SectionIf | components/ContractMethods.tsx:85 | a section exists exactly when its unfiltered group is non-empty, and then lists the filtered group |
| MethodList.SectionsOfRows | components/ContractMethods.tsx:85-155 | every section is a standard bucket listing its filtered group |
| MethodList.SectionsOfShown | components/ContractMethods.tsx:85-155 | a standard bucket has a section exactly when its group is non-empty |
| MethodList.RenderVisibility | components/ContractMethods.tsx:56-155 | the metadata panel shows exactly when a function named `tokenURI` exists; the search box exactly for a non-empty description; a section exactly for a non-empty bucket |
| MethodList.ListedRows | components/ContractMethods.tsx:44-155 | every listed row is a matching function entry of its section's bucket; pure functions are never listed |
| MethodList.SectionRowsInOrder | components/ContractMethods.tsx:46-54 | each section lists a subsequence of its bucket, and all of it for a blank query |
| MetadataPanel.MethodName | components/ContractMetadata.tsx:37 | the item's name, or `tokenURI` when it has none |
| MetadataPanel.FetchTarget | components/ContractMetadata.tsx:46 | only `ipfs://` URIs are rewritten to the gateway |
| MetadataPanel.FetchTargetOnlyIpfs | components/ContractMetadata.tsx:46 | the URL fetched differs from `parseMetadataUri`'s exactly for `ar://` URIs |
| MetadataPanel.ResolveMetadata | components/ContractMetadata.tsx:47-50 | a failed fetch or a failed sanitisation gives the raw URI; a document that sanitises gives exactly its sanitisation |
| MetadataPanel.ResolveNullFieldGivesUri | components/ContractMetadata.tsx:47-50 | a document with a null field shows the raw URI |
| MetadataPanel.ResolveCleanDocument | components/ContractMetadata.tsx:47-50 | a clean document shows its reference sanitisation |
| MetadataPanel.RunOutcome | components/ContractMetadata.tsx:35-59 | nothing stored exactly when the method is missing; a failed call stores its message; a non-string URI stores the `TypeError` of `uri.startsWith`, for null and undefined the one of reading a property; otherwise the loaded document |
| MetadataPanel.Panel.constructor | components/ContractMetadata.tsx:20-27 | one empty text per input; no result or error; not running |
| MetadataPanel.Panel.SetParam | components/ContractMetadata.tsx:20-24 | only the typed input changes |
| MetadataPanel.Panel.BeginRun | components/ContractMetadata.tsx:39-42 | running, with result and error cleared |
| MetadataPanel.Panel.RunCallMethod | components/ContractMetadata.tsx:35-59 | result and error as the run outcome says, for the inputs typed; not running afterwards |
| OpenSeaPage.DefaultAbiAccessors | components/OpenSeaMetadata.tsx:19-58 | the fallback interface offers both `tokenURI` and `uri` |
| OpenSeaPage.ParseOpenSeaUrl | components/OpenSeaMetadata.tsx:60-84 | no match without the asset marker; the network is main or rinkeby; address and token id contain no "/" |
| OpenSeaPage.ParseAssetUrl | components/OpenSeaMetadata.tsx:67-80 | `/assets/ethereum/{address}/{tokenId}`, with or without further `/`-segments, gives those two values; the network is main exactly for the host `opensea.io` |
| OpenSeaPage.LoadContractUri | components/OpenSeaMetadata.tsx:113-119 | a failed fetch or sanitisation gives the raw URI; a document that sanitises gives exactly its sanitisation |
| OpenSeaPage.LoadRegistry | components/OpenSeaMetadata.tsx:121-129 | null exactly when the marketplace request fails |
| OpenSeaPage.RegistryTagged | components/OpenSeaMetadata.tsx:122-124 | `_source` is set to "opensea", overriding any own value; other fields are kept |
| OpenSeaPage.MetadataFor | components/OpenSeaMetadata.tsx:103-130 | the metadata once the contract exists; `OpenSeaPage.RegistryWhenNoUsableUri` and `OpenSeaPage.ContractUriWins` prove which source is used |
| OpenSeaPage.RegistryWhenNoUsableUri | components/OpenSeaMetadata.tsx:107-130 | an absent, empty or non-string URI, or a marketplace URL, falls back to the registry |
| OpenSeaPage.ContractUriWins | components/OpenSeaMetadata.tsx:107-119 | a usable contract URI is loaded through the proxy and never from the registry |
| OpenSeaPage.FetchContractMetadata | components/OpenSeaMetadata.tsx:86-131 | null without a wallet; with a wallet, throws exactly when `new Contract` does: the interface rejection for a non-array, the address rejection for an address web3 refuses |
| OpenSeaPage.RetryMetadata | components/OpenSeaMetadata.tsx:236-241 | the retry with `DEFAULT_ABI` throws exactly with a wallet and a refused address, and then the address rejection; otherwise it is the metadata read through the standard interface |
| OpenSeaPage.AfterFailure | components/OpenSeaMetadata.tsx:224-249 | the catch keeps the suggestion given; the error starts with the failure's message; a throwing retry leaves null metadata and the bare message; otherwise the retry's metadata is shown |
| OpenSeaPage.SearchOutcome | components/OpenSeaMetadata.tsx:184-250 | the specification of a search; the lemmas below and `OpenSeaPage.Page.SearchMetadata` are stated against it |
| OpenSeaPage.FailureSuggestionNotConnected | components/OpenSeaMetadata.tsx:229-233 | after a failure, the suggestion is never the connected network |
| OpenSeaPage.SuggestionNeverConnected | components/OpenSeaMetadata.tsx:221-234 | no search suggests the network already connected |
| OpenSeaPage.SearchRejectsEarly | components/OpenSeaMetadata.tsx:192-208 | without a wallet, or for an incomplete URL, only the message is set: no suggestion and no metadata |
| OpenSeaPage.NonAssetUrlRejected | components/OpenSeaMetadata.tsx:67-69 | a URL without the asset marker is always "Please enter a valid OpenSea URL." |
| OpenSeaPage.FailureErrorKeepsMessage | components/OpenSeaMetadata.tsx:226-249 | the error starts with the failure's message; the notice is added exactly when the retry's document came from the registry |
| OpenSeaPage.Page.constructor | components/OpenSeaMetadata.tsx:136-144 | the URL comes from the query; loading; nothing else set |
| OpenSeaPage.Page.Init | components/OpenSeaMetadata.tsx:146-174 | with a wallet, the network type or the failure's message; the listener only after a successful read; loading ends |
| OpenSeaPage.Page.NetworkChanged | components/OpenSeaMetadata.tsx:162-164 | once listening, a readable network type replaces the connected network |
| OpenSeaPage.Page.QueryChanged | components/OpenSeaMetadata.tsx:176-182 | the query URL is taken only while the field is empty |
| OpenSeaPage.Page.SetUrl | components/OpenSeaMetadata.tsx:136 | the field holds the text typed |
| OpenSeaPage.Page.SearchMetadata | components/OpenSeaMetadata.tsx:184-257 | error, suggestion and metadata are the search's specified outcome; not pending afterwards |
| OpenSeaPage.Page.RecoverFrom | components/OpenSeaMetadata.tsx:224-249 | the catch leaves the error, suggestion and metadata of `OpenSeaPage.AfterFailure` |
| OpenSeaPage.Page.SuggestAfterFailure | components/OpenSeaMetadata.tsx:229-234 | the suggestion is the probe's network, else the URL's network when it differs from the connected one |
| OpenSeaPage.Page.ShowRetry | components/OpenSeaMetadata.tsx:236-249 | the retry's metadata and, for registry metadata, the notice; a throwing retry changes nothing |
| Debugger.CallContractMethodByName | components/ContractDebugger.tsx:34-54 | null for a missing method or a failed call, otherwise the call's result |
| Debugger.Tuples | components/ContractDebugger.tsx:61-73 | every tuple holds its method's call result |
| Debugger.TuplesKeys | components/ContractDebugger.tsx:62-71 | a tuple is made for a name exactly when an entry with that name and no inputs exists |
| Debugger.Merge | components/ContractDebugger.tsx:75-81 | the object built from the tuples; `Debugger.MergeLookup` proves what it holds |
| Debugger.MergeLookup | components/ContractDebugger.tsx:75-81 | the merged object holds exactly the tuples' names, each with the value of its last tuple |
| Debugger.DeriveContractMetadata | components/ContractDebugger.tsx:56-82 | the harvested view values; `Debugger.DeriveContractMetadataKeys` proves its keys and values |
| Debugger.DeriveContractMetadataKeys | components/ContractDebugger.tsx:56-82 | the keys are exactly the names of named, zero-input view functions, each holding that method's call result |
| Effects.NewContract | components/ContractDebugger.tsx:135 | accepts exactly an array interface with an address web3 does not refuse (an empty address is never checked); a non-array throws the interface rejection, a refused address the address rejection |
| Debugger.SyncOutcome | components/ContractDebugger.tsx:143-144 | succeeds exactly when the lookup gives an array and web3 accepts the address, and then yields a contract at the address with that interface; a failed lookup is its own failure, a refused address the address rejection |
| Debugger.MountOutcome | components/ContractDebugger.tsx:134-163 | the specification of the mount effect's contract step; the lemmas below and `Debugger.Page.Mount` are stated against it |
| Debugger.MountWithoutAddressDoesNothing | components/ContractDebugger.tsx:134-139 | without an address the contract step changes nothing and cannot throw |
| Debugger.MountEscapes | components/ContractDebugger.tsx:134-163 | the `new Contract` of a given interface, or the one in the catch after a failed sync, throws |
| Debugger.MountEscapesOnlyOnRefusedAddress | components/ContractDebugger.tsx:134-163 | the effect ends before the listeners exactly when web3 refuses the address |
| Debugger.MountRefusedKeepsState | components/ContractDebugger.tsx:134-163 | with a refused address, contract, interface, text, error and suggestion all stay |
| Debugger.MountGivenAbiSkipsRegistry | components/ContractDebugger.tsx:134-138 | a given interface makes no registry request; only the contract changes, and only for a non-empty accepted address |
| Debugger.MountSyncFailure | components/ContractDebugger.tsx:139-162 | after a failed sync on a non-empty accepted address: the empty contract, the failure's message, and a suggestion that is another network the registry knows; without an address nothing happens |
| Debugger.SyncSuggestionElsewhere | components/ContractDebugger.tsx:159-161 | a failed sync never suggests its own network; it suggests one the registry knows |
| Debugger.CapturedAccountKept | components/ContractDebugger.tsx:167-173 | a list containing the captured account never switches the account |
| Debugger.FirstAccount | components/ContractDebugger.tsx:126 | the first account, or none for an empty list |
| Debugger.Page.constructor | components/ContractDebugger.tsx:93-111 | the given interface and its text; empty metadata; loading |
| Debugger.Page.StoreSynced | components/ContractDebugger.tsx:146-150 | contract, text and interface replaced; error and suggestion cleared |
| Debugger.Page.RecordSyncFailure | components/ContractDebugger.tsx:157-161 | the message stored; on a named network the probe's suggestion |
| Debugger.Page.SyncAbi | components/ContractDebugger.tsx:140-164 | success replaces contract, text and interface and clears error and suggestion; failure keeps them, stores the message and, on a known network, probes for another |
| Debugger.Page.Mount | components/ContractDebugger.tsx:134-163 | the interface state becomes `Debugger.MountOutcome` of the old one; it reports whether a `new Contract` threw out of the effect; syncing is raised and cleared only around a sync, which needs an address and an empty interface |
| Debugger.Page.Connect | components/ContractDebugger.tsx:124-179 | account and network stored, loading ended, the contract step done; the listeners registered with the account just read exactly when web3 accepts the address |
| Debugger.Page.Init | components/ContractDebugger.tsx:113-185 | no address, or a rejected wallet request: nothing changes; no wallet: only loading ends; otherwise the page connects |
| Debugger.Page.AttemptSyncAbi | components/ContractDebugger.tsx:209-236 | nothing without a wallet; otherwise exactly a sync: success replaces contract, text and interface and clears error and suggestion; failure keeps them, stores the message and probes on a known network |
| Debugger.Page.UpdateAbi | components/ContractDebugger.tsx:247-266 | the text is always stored; the interface only for an array; the contract only for an array with a wallet and an address web3 accepts |
| Debugger.Page.AccountsChanged | components/ContractDebugger.tsx:167-173 | the first account of a non-empty list without the captured account |
| Debugger.Page.NetworkChanged | components/ContractDebugger.tsx:175-179 | once listening, a readable network type replaces the network |
| Debugger.Page.ConnectWallet | components/ContractDebugger.tsx:195-207 | with a wallet, the first account requested |
| Debugger.Page.RefreshMetadata | components/ContractDebugger.tsx:187-193 | with a contract, the derived metadata |

## Left out

- Network transport, the Web3 provider and the browser wallet are modelled as oracles in `Effects.Env` and as handler parameters. A request that a wallet rejects stops the handler at that point, as an unhandled rejection does.
- Oracles are deterministic. The same call gives the same answer, so the duplicate-name overwrite in `deriveContractMetadata` cannot change a harvested value: only the key position is modelled.
- Concurrency: `Promise.all`, the `setTimeout` that clears the syncing flag, and wallet event subscriptions are modelled as happening one after another.
- The transaction event listeners only log, and are left out (components/ContractMethodRunner.tsx:107-118).
- The interface cache in local storage is left out (utils/abi.ts:3-30), as are `logEtherscanTransactionUrl` (utils/etherscan.ts:54-66), `sleep` and the chain-id table (utils/index.ts:12-27).
- Numbers are integers. The payment field's `Number(...)` parse is float parsing and is left out: the payment is given in wei.
- `toLowerCase` is modelled for ASCII letters only. `trim` removes the ECMAScript white-space and line-terminator characters, as the language does.
- Whether web3 accepts an address (hexadecimal length, the mixed-case checksum, ICAP) is an oracle, `Effects.Env.acceptsAddress`: the checksum is not computed.
- `fetchContractMetadataUri` builds `erc721(tokenId)` and `erc1155(tokenId)` before attaching each `.catch` (utils/opensea.ts:28-37). A synchronous throw while building such a call, such as an argument-count mismatch, is modelled like a rejected call.
- JavaScript lists integer-like object keys before other keys. That ordering is not modelled: keys keep their insertion order.
- The ERC-1155 `{id}` substitution is not performed, matching the code.
- `formatAbiString` (components/ContractDebugger.tsx:238-245) only reformats the text, and `getHoverColorByNetwork` is presentation. Both are left out.
- The router push after a search is left out (components/OpenSeaMetadata.tsx:253-255).
- Rendering is left out apart from the section, search-box and panel visibility of the method list.
- components/ContractGallery.tsx and the server routes under pages/api are not part of this model.
- Utils.SanitizeAgrees: the closed form is proved only for documents without clashing keys, meaning no duplicate key and no key equal to another key with `_` in front. Outside that class only the properties of `Utils.SanitizeKeepsKeys` and `Utils.SanitizeNullThrows` are proved.
