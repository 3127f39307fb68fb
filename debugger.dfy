/** components/ContractDebugger.tsx: the contract page. It keeps the contract's interface
    in sync with the registry or with the text the user edits, harvests the values of the
    zero-argument view methods, and follows the wallet's account and network. */
module Debugger {
  import opened Js
  import opened Abi
  import opened Effects
  import opened Etherscan

  // ---------------------------------------------------------------------------------
  // callContractMethodByName, deriveContractMetadata

  /** `callContractMethodByName(contract, name)` with no arguments: the call's result, or
      null when the method is missing or the call throws. */
  function CallContractMethodByName(env: Env, c: Contract, name: string): (r: Value)
    ensures !HasMethod(c, name) ==> r == Null
    ensures HasMethod(c, name) && env.call(c, name, []).Ok? ==> r == env.call(c, name, []).value
    ensures env.call(c, name, []).Err? ==> r == Null
  {
    if !HasMethod(c, name) then Null
    else
      match env.call(c, name, [])
      case Ok(v) => v
      case Err(_) => Null
  }

  /** `name && inputs.length === 0` */
  predicate Harvestable(x: AbiItem) {
    x.name.Some? && x.name.value != "" && |x.inputs| == 0
  }

  /** The `[name, data]` tuples of the view bucket, in order: one per harvestable entry,
      each with the result of calling that method; the rest dropped. */
  function Tuples(env: Env, c: Contract, items: seq<AbiItem>): (ts: seq<Field>)
    ensures forall i :: 0 <= i < |ts| ==> ts[i].1 == CallContractMethodByName(env, c, ts[i].0)
  {
    if items == [] then []
    else
      var x := items[|items| - 1];
      Tuples(env, c, items[..|items| - 1]) + if Harvestable(x) then [(x.name.value, CallContractMethodByName(env, c, x.name.value))] else []
  }

  predicate HasKey(ts: seq<Field>, k: string) {
    exists i :: 0 <= i < |ts| && ts[i].0 == k
  }

  predicate NamesHarvestable(items: seq<AbiItem>, k: string) {
    exists x :: x in items && Harvestable(x) && x.name.value == k
  }

  /** A tuple is made for a name exactly when some harvestable entry carries it. */
  lemma {:induction false} TuplesKeys(env: Env, c: Contract, items: seq<AbiItem>, k: string)
    ensures HasKey(Tuples(env, c, items), k) <==> NamesHarvestable(items, k)
    decreases |items|
  {
    if items != [] {
      var front := items[..|items| - 1];
      var x := items[|items| - 1];
      var ft := Tuples(env, c, front);
      var ts := Tuples(env, c, items);
      TuplesKeys(env, c, front, k);
      assert forall y :: y in items <==> y in front || y == x;
      assert forall i :: 0 <= i < |ft| ==> ts[i] == ft[i];
      if Harvestable(x) {
        assert ts == ft + [(x.name.value, CallContractMethodByName(env, c, x.name.value))];
        assert ts[|ft|].0 == x.name.value;
      } else {
        assert ts == ft;
      }
    }
  }

  /** The reduce `{...acc, [k]: v}` from `{}`: a later tuple with the same key
      overwrites the value and keeps the key's first position. */
  function Merge(ts: seq<Field>): seq<Field> {
    if ts == [] then [] else Set(Merge(ts[..|ts| - 1]), ts[|ts| - 1].0, ts[|ts| - 1].1)
  }

  /** The merged object holds exactly the tuples' keys, each with the value of its LAST
      tuple. */
  lemma {:induction false} MergeLookup(ts: seq<Field>, k: string)
    ensures Lookup(Merge(ts), k).Some? <==> exists i :: 0 <= i < |ts| && ts[i].0 == k
    ensures Lookup(Merge(ts), k).Some? ==>
      exists i :: 0 <= i < |ts| && ts[i] == (k, Lookup(Merge(ts), k).value) && forall j :: i < j < |ts| ==> ts[j].0 != k
    decreases |ts|
  {
    if ts != [] {
      var front := ts[..|ts| - 1];
      var t := ts[|ts| - 1];
      MergeLookup(front, k);
      LookupSet(Merge(front), t.0, t.1);
      if t.0 != k && Lookup(Merge(front), k).Some? {
        var i :| 0 <= i < |front| && front[i] == (k, Lookup(Merge(front), k).value) && forall j :: i < j < |front| ==> front[j].0 != k;
        assert ts[i] == front[i];
      }
      if t.0 != k {
        assert forall i :: 0 <= i < |front| ==> ts[i] == front[i];
      }
    }
  }

  /** `deriveContractMetadata(contract, abi)` */
  function DeriveContractMetadata(env: Env, c: Contract, abi: seq<AbiItem>): Value {
    Obj(Merge(Tuples(env, c, MapAbiByFunctionType(abi)[View])))
  }

  /** The harvested keys are exactly the names of the view-bucket function entries that
      have a name and no inputs, and each holds the result of calling that method with
      no arguments; entries with inputs are never called. */
  lemma DeriveContractMetadataKeys(env: Env, c: Contract, abi: seq<AbiItem>, k: string)
    ensures var m := DeriveContractMetadata(env, c, abi).fields;
      (Lookup(m, k).Some? <==> exists x :: x in abi && IsFunction(x) && Category(x) == View && Harvestable(x) && x.name.value == k)
      && (Lookup(m, k).Some? ==> Lookup(m, k).value == CallContractMethodByName(env, c, k))
  {
    var view := MapAbiByFunctionType(abi)[View];
    var ts := Tuples(env, c, view);
    MergeLookup(ts, k);
    TuplesKeys(env, c, view, k);
    forall x ensures x in view <==> x in abi && IsFunction(x) && Category(x) == View {
      OnlyFunctionsGrouped(abi, View, x);
    }
    if Lookup(Merge(ts), k).Some? {
      var i :| 0 <= i < |ts| && ts[i] == (k, Lookup(Merge(ts), k).value) && forall j :: i < j < |ts| ==> ts[j].0 != k;
      assert ts[i].1 == CallContractMethodByName(env, c, ts[i].0);
    }
  }

  // ---------------------------------------------------------------------------------
  // interface sync

  /** The registry lookup and the contract construction of a sync: either may throw. */
  function SyncOutcome(env: Env, address: string, network: Option<string>): (r: Result<Contract, Failure>)
    ensures r.Ok? ==> r.value.address == address
    ensures r.Ok? <==>
      FetchContractAbi(env, address, network).Ok? && FetchContractAbi(env, address, network).value.AbiArray?
      && !RejectsAddress(env, address)
    ensures r.Ok? ==> r.value.abi == FetchContractAbi(env, address, network).value.items
    ensures FetchContractAbi(env, address, network).Err? ==> r == Err(FetchContractAbi(env, address, network).error)
    ensures var fetched := FetchContractAbi(env, address, network);
      fetched.Ok? && fetched.value.AbiArray? && RejectsAddress(env, address) ==> r == Err(env.addressRejection)
  {
    match FetchContractAbi(env, address, network)
    case Err(e) => Err(e)
    case Ok(j) => NewContract(env, j, address)
  }

  /** The suggestion after a failed sync on a known network: the first other network on
      which the registry knows the contract, or null. */
  function SyncSuggestion(env: Env, address: string, network: string): Option<string> {
    FirstAnswering(Lookups(env, address), Without(ValidEthNetworks, [network]))
  }

  /** What the mount effect's contract step leaves: the contract, the interface and its
      text, the error message and the suggestion. */
  datatype Mounted = Mounted(contract: Option<Contract>, abi: seq<AbiItem>, abiString: string,
    abiErrorMessage: Option<string>, networkSuggestion: Option<string>)

  /** The contract step of the mount effect on the network `network`, from the state
      before it. Without an address it does nothing. A given non-empty interface is used
      as it is. An empty one is synced;
      on failure the contract is built from the empty interface, the message stored
      and, on a named network, another one looked for. A `new Contract` that throws
      outside the try, or inside the catch, ends the effect with the state as it was. */
  function MountOutcome(env: Env, address: string, network: string, before: Mounted): Mounted {
    if address == "" then before
    else if |before.abi| > 0 then
      match NewContract(env, AbiArray(before.abi), address)
      case Ok(c) => before.(contract := Some(c))
      case Err(_) => before
    else
      match SyncOutcome(env, address, Some(network))
      case Ok(c) => Mounted(Some(c), c.abi, env.stringifyAbi(c.abi), None, None)
      case Err(e) =>
        match NewContract(env, AbiArray(before.abi), address)
        case Err(_) => before
        case Ok(c) =>
          before.(contract := Some(c), abiErrorMessage := Some(Describe(e)),
            networkSuggestion := if network != "" then SyncSuggestion(env, address, network) else before.networkSuggestion)
  }

  /** Whether a `new Contract` of the contract step throws out of the mount effect: the
      one for a given interface, or the one in the catch after a failed sync. */
  predicate MountEscapes(env: Env, address: string, network: string, abi: seq<AbiItem>) {
    if address == "" then false
    else if |abi| > 0 then NewContract(env, AbiArray(abi), address).Err?
    else SyncOutcome(env, address, Some(network)).Err? && NewContract(env, AbiArray(abi), address).Err?
  }

  /** The mount effect ends before registering the listeners exactly when web3 refuses
      the address: with a refused address the sync cannot succeed and the fallback
      contract throws too. */
  lemma MountEscapesOnlyOnRefusedAddress(env: Env, address: string, network: string, abi: seq<AbiItem>)
    ensures MountEscapes(env, address, network, abi) <==> RejectsAddress(env, address)
  {
  }

  /** Without an address the contract step builds nothing and asks nothing. */
  lemma MountWithoutAddressDoesNothing(env: Env, network: string, before: Mounted)
    ensures MountOutcome(env, "", network, before) == before
    ensures !MountEscapes(env, "", network, before.abi)
  {
  }

  /** With a refused address nothing of the page's interface state changes. */
  lemma MountRefusedKeepsState(env: Env, address: string, network: string, before: Mounted)
    requires RejectsAddress(env, address)
    ensures MountOutcome(env, address, network, before) == before
  {
  }

  /** A given non-empty interface is kept, with its text, the error and the suggestion,
      and the registry is never asked: two worlds that agree on the address give the
      same outcome. */
  lemma MountGivenAbiSkipsRegistry(env: Env, other: Env, address: string, network: string, before: Mounted)
    requires |before.abi| > 0
    requires RejectsAddress(env, address) == RejectsAddress(other, address)
    ensures var m := MountOutcome(env, address, network, before);
      m == MountOutcome(other, address, network, before)
      && m == if address == "" || RejectsAddress(env, address) then before
              else before.(contract := Some(Contract(address, before.abi)))
  {
  }

  /** After an empty interface and a failed sync on an accepted, non-empty address, the
      contract is the empty one, the failure's message is shown, and any suggestion is
      another network on which the registry knows the contract. Without an address
      nothing happens. */
  lemma MountSyncFailure(env: Env, address: string, network: string, before: Mounted)
    requires |before.abi| == 0 && !RejectsAddress(env, address)
    requires SyncOutcome(env, address, Some(network)).Err?
    ensures address == "" ==> MountOutcome(env, address, network, before) == before
    ensures var m := MountOutcome(env, address, network, before);
      address != "" ==>
        m.contract == Some(Contract(address, [])) && m.abi == [] && m.abiString == before.abiString
        && m.abiErrorMessage == Some(Describe(SyncOutcome(env, address, Some(network)).error))
        && (network != "" && m.networkSuggestion.Some? ==>
              m.networkSuggestion.value != network && Answers(env, address, m.networkSuggestion.value))
        && (network == "" ==> m.networkSuggestion == before.networkSuggestion)
  {
    if network != "" {
      SyncSuggestionElsewhere(env, address, network);
    }
  }

  /** A sync never suggests the network it failed on. */
  lemma SyncSuggestionElsewhere(env: Env, address: string, network: string)
    ensures var s := SyncSuggestion(env, address, network);
      s.Some? ==> s.value != network && s.value in ValidEthNetworks && Answers(env, address, s.value)
  {
    NeverExcluded(env, address, [network]);
    FirstAnsweringIsCandidate(Lookups(env, address), Without(ValidEthNetworks, [network]));
  }

  /** The `accountsChanged` rule: a non-empty list that does not contain the account
      captured when the page was set up. */
  predicate AcceptsAccounts(captured: Option<string>, accounts: seq<string>) {
    |accounts| > 0 && (captured.None? || captured.value !in accounts)
  }

  /** Re-announcing the captured account never switches away from it. */
  lemma CapturedAccountKept(captured: string, accounts: seq<string>)
    requires captured in accounts
    ensures !AcceptsAccounts(Some(captured), accounts)
  {
  }

  /** `const [account] = accounts`: the first entry, or undefined for an empty list. */
  function FirstAccount(accounts: seq<string>): (a: Option<string>)
    ensures a.Some? <==> |accounts| > 0
    ensures a.Some? ==> a.value == accounts[0]
  {
    if |accounts| > 0 then Some(accounts[0]) else None
  }

  /** The page's state. `listening` records that the wallet listeners were
      registered, with `capturedAccount` the account they captured. */
  class Page {
    const address: string
    var account: Option<string>
    var capturedAccount: Option<string>
    var listening: bool
    var network: Option<string>
    var contract: Option<Contract>
    var isLoading: bool
    var isSyncing: bool
    var abi: seq<AbiItem>
    var abiString: string
    var metadata: Value
    var abiErrorMessage: Option<string>
    var networkSuggestion: Option<string>

    constructor (env: Env, address: string, defaultAbi: seq<AbiItem>)
      ensures this.address == address && abi == defaultAbi && abiString == env.stringifyAbi(defaultAbi)
      ensures account.None? && capturedAccount.None? && !listening && network.None? && contract.None?
      ensures isLoading && !isSyncing && metadata == Obj([])
      ensures abiErrorMessage.None? && networkSuggestion.None?
    {
      this.address := address;
      account := None;
      capturedAccount := None;
      listening := false;
      network := None;
      contract := None;
      isLoading := true;
      isSyncing := false;
      abi := defaultAbi;
      abiString := env.stringifyAbi(defaultAbi);
      metadata := Obj([]);
      abiErrorMessage := None;
      networkSuggestion := None;
    }

    /** The success path of a sync: the contract, its interface and the interface text
        replace the old ones, and the error and the suggestion are cleared. */
    method StoreSynced(env: Env, c: Contract)
      modifies this`contract, this`abi, this`abiString, this`abiErrorMessage, this`networkSuggestion
      ensures contract == Some(c) && abi == c.abi && abiString == env.stringifyAbi(c.abi)
      ensures abiErrorMessage.None? && networkSuggestion.None?
    {
      contract := Some(c);
      abiString := env.stringifyAbi(c.abi);
      abi := c.abi;
      abiErrorMessage := None;
      networkSuggestion := None;
    }

    /** The failure path of a sync: the message is stored and, on a named network,
        the probe's answer becomes the suggestion. */
    method RecordSyncFailure(env: Env, e: Failure, on: Option<string>)
      modifies this`abiErrorMessage, this`networkSuggestion
      ensures abiErrorMessage == Some(Describe(e))
      ensures networkSuggestion == if on.Some? && on.value != "" then SyncSuggestion(env, address, on.value) else old(networkSuggestion)
    {
      abiErrorMessage := Some(Describe(e));
      if on.Some? && on.value != "" {
        var found, _ := FindValidNetwork(env, address, [on.value]);
        networkSuggestion := found;
      }
    }

    /** The try/catch/finally of a sync against the registry on the current network. A
        success replaces contract, interface text and interface and clears the error
        and the suggestion; a failure keeps them, stores the message and, on a known
        network, probes for another one. */
    method SyncAbi(env: Env) returns (ok: bool)
      modifies this`contract, this`abi, this`abiString, this`abiErrorMessage, this`networkSuggestion, this`isSyncing
      ensures ok <==> SyncOutcome(env, address, old(network)).Ok?
      ensures var r := SyncOutcome(env, address, old(network));
        r.Ok? ==>
          contract == Some(r.value) && abi == r.value.abi && abiString == env.stringifyAbi(r.value.abi)
          && abiErrorMessage.None? && networkSuggestion.None?
      ensures var r := SyncOutcome(env, address, old(network));
        r.Err? ==>
          contract == old(contract) && abi == old(abi) && abiString == old(abiString)
          && abiErrorMessage == Some(Describe(r.error))
          && networkSuggestion == if old(network).Some? && old(network).value != "" then SyncSuggestion(env, address, old(network).value) else old(networkSuggestion)
      ensures !isSyncing
    {
      isSyncing := true;
      var r := SyncOutcome(env, address, network);
      if r.Ok? {
        StoreSynced(env, r.value);
      } else {
        RecordSyncFailure(env, r.error, network);
      }
      ok := r.Ok?;
      isSyncing := false;
    }

    /** The contract step of the mount effect, on the network type just read; returns
        whether a throw ended the effect. The syncing flag is raised and cleared only
        around a sync. */
    method Mount(env: Env, networkType: string) returns (escaped: bool)
      modifies this`contract, this`abi, this`abiString, this`abiErrorMessage, this`networkSuggestion, this`isSyncing
      ensures Mounted(contract, abi, abiString, abiErrorMessage, networkSuggestion)
        == MountOutcome(env, address, networkType, old(Mounted(contract, abi, abiString, abiErrorMessage, networkSuggestion)))
      ensures escaped == MountEscapes(env, address, networkType, old(abi))
      ensures isSyncing == if address == "" || |old(abi)| > 0 then old(isSyncing) else false
    {
      if address == "" {
        escaped := false;
      } else if |abi| > 0 {
        match NewContract(env, AbiArray(abi), address) {
          case Ok(c) =>
            contract := Some(c);
            escaped := false;
          case Err(_) =>
            escaped := true;
        }
      } else {
        isSyncing := true;
        var r := SyncOutcome(env, address, Some(networkType));
        if r.Ok? {
          StoreSynced(env, r.value);
          escaped := false;
        } else {
          match NewContract(env, AbiArray(abi), address) {
            case Err(_) =>
              escaped := true;
            case Ok(c) =>
              contract := Some(c);
              RecordSyncFailure(env, r.error, Some(networkType));
              escaped := false;
          }
        }
        isSyncing := false;
      }
    }

    /** The mount effect once the wallet has answered both requests: the account and
        the network are stored and loading ends, then the contract step runs, and unless
        it threw the listeners are registered with the account just read. */
    method Connect(env: Env, accounts: seq<string>, networkType: string)
      modifies this`account, this`capturedAccount, this`listening, this`network, this`isLoading
      modifies this`contract, this`abi, this`abiString, this`abiErrorMessage, this`networkSuggestion, this`isSyncing
      ensures !isLoading && account == FirstAccount(accounts) && network == Some(networkType)
      ensures Mounted(contract, abi, abiString, abiErrorMessage, networkSuggestion)
        == MountOutcome(env, address, networkType, old(Mounted(contract, abi, abiString, abiErrorMessage, networkSuggestion)))
      ensures isSyncing == (if address == "" || |old(abi)| > 0 then old(isSyncing) else false)
      ensures listening == (old(listening) || !RejectsAddress(env, address))
      ensures capturedAccount == if RejectsAddress(env, address) then old(capturedAccount) else account
    {
      var first := FirstAccount(accounts);
      var escaped := Mount(env, networkType);
      MountEscapesOnlyOnRefusedAddress(env, address, networkType, old(abi));
      account := first;
      network := Some(networkType);
      isLoading := false;
      if !escaped {
        capturedAccount := first;
        listening := true;
      }
    }

    /** The mount effect (run only for a non-empty address): without a wallet only the
        loading ends; a rejected account or network request stops it there; otherwise
        the page connects. */
    method Init(env: Env, accounts: Result<seq<string>, Failure>, networkType: Result<string, Failure>)
      modifies this`account, this`capturedAccount, this`listening, this`network, this`isLoading
      modifies this`contract, this`abi, this`abiString, this`abiErrorMessage, this`networkSuggestion, this`isSyncing
      ensures address == "" || (env.hasWallet && (accounts.Err? || networkType.Err?)) ==> unchanged(this)
      ensures address != "" && !env.hasWallet ==>
        !isLoading && unchanged(this`account, this`capturedAccount, this`listening, this`network)
        && unchanged(this`contract, this`abi, this`abiString, this`abiErrorMessage, this`networkSuggestion, this`isSyncing)
      ensures address != "" && env.hasWallet && accounts.Ok? && networkType.Ok? ==>
        !isLoading && account == FirstAccount(accounts.value) && network == Some(networkType.value)
        && Mounted(contract, abi, abiString, abiErrorMessage, networkSuggestion)
           == MountOutcome(env, address, networkType.value, old(Mounted(contract, abi, abiString, abiErrorMessage, networkSuggestion)))
      ensures address != "" && env.hasWallet && accounts.Ok? && networkType.Ok? ==>
        isSyncing == (if |old(abi)| > 0 then old(isSyncing) else false)
        && listening == (old(listening) || !RejectsAddress(env, address))
        && capturedAccount == if RejectsAddress(env, address) then old(capturedAccount) else account
    {
      if address == "" {
        return;
      }
      if !env.hasWallet {
        isLoading := false;
        return;
      }
      if accounts.Err? || networkType.Err? {
        return;
      }
      Connect(env, accounts.value, networkType.value);
    }

    /** `handleAttemptSyncAbi`: nothing without a wallet; otherwise a sync. The
        syncing flag, cleared after a delay in the source, is cleared at the end. */
    method AttemptSyncAbi(env: Env)
      modifies this`contract, this`abi, this`abiString, this`abiErrorMessage, this`networkSuggestion, this`isSyncing
      ensures !env.hasWallet ==>
        contract == old(contract) && abi == old(abi) && abiString == old(abiString)
        && abiErrorMessage == old(abiErrorMessage) && networkSuggestion == old(networkSuggestion)
        && isSyncing == old(isSyncing)
      ensures var r := SyncOutcome(env, address, old(network));
        env.hasWallet && r.Ok? ==>
          contract == Some(r.value) && abi == r.value.abi && abiString == env.stringifyAbi(r.value.abi)
          && abiErrorMessage.None? && networkSuggestion.None?
      ensures var r := SyncOutcome(env, address, old(network));
        env.hasWallet && r.Err? ==>
          contract == old(contract) && abi == old(abi) && abiString == old(abiString)
          && abiErrorMessage == Some(Describe(r.error))
          && networkSuggestion == if old(network).Some? && old(network).value != "" then SyncSuggestion(env, address, old(network).value) else old(networkSuggestion)
      ensures env.hasWallet ==> !isSyncing
    {
      if !env.hasWallet {
        return;
      }
      var _ := SyncAbi(env);
    }

    /** `handleUpdateAbi`: the text is always stored; the interface is replaced only by
        an array, and, with a wallet, the contract only when `new Contract` accepts the
        parsed value and the address (what it throws is swallowed). */
    method UpdateAbi(env: Env, str: string)
      modifies this`abiString, this`abi, this`contract
      ensures abiString == str
      ensures abi == if env.parseAbi(str).Ok? && env.parseAbi(str).value.AbiArray? then env.parseAbi(str).value.items else old(abi)
      ensures contract ==
        if env.hasWallet && env.parseAbi(str).Ok? && env.parseAbi(str).value.AbiArray? && !RejectsAddress(env, address)
        then Some(Contract(address, env.parseAbi(str).value.items)) else old(contract)
    {
      abiString := str;
      match env.parseAbi(str) {
        case Err(_) =>
        case Ok(j) =>
          if j.AbiArray? {
            abi := j.items;
          }
          if env.hasWallet {
            match NewContract(env, j, address) {
              case Ok(c) => contract := Some(c);
              case Err(_) =>
            }
          }
      }
    }

    /** The wallet's `accountsChanged` event. */
    method AccountsChanged(accounts: seq<string>)
      modifies this`account
      ensures account == if listening && AcceptsAccounts(capturedAccount, accounts) then Some(accounts[0]) else old(account)
    {
      if listening && AcceptsAccounts(capturedAccount, accounts) {
        account := Some(accounts[0]);
      }
    }

    /** The wallet's `networkChanged` event: the new network type, if it can be read. */
    method NetworkChanged(networkType: Result<string, Failure>)
      modifies this`network
      ensures network == if listening && networkType.Ok? then Some(networkType.value) else old(network)
    {
      if listening && networkType.Ok? {
        network := Some(networkType.value);
      }
    }

    /** `handleConnectWallet` */
    method ConnectWallet(env: Env, accounts: Result<seq<string>, Failure>)
      modifies this`account
      ensures account == if env.hasWallet && accounts.Ok? then FirstAccount(accounts.value) else old(account)
    {
      if env.hasWallet && accounts.Ok? {
        account := FirstAccount(accounts.value);
      }
    }

    /** The metadata effect: with a contract, the harvested view values. */
    method RefreshMetadata(env: Env)
      modifies this`metadata
      ensures metadata == if contract.Some? then DeriveContractMetadata(env, contract.value, abi) else old(metadata)
    {
      if contract.Some? {
        metadata := DeriveContractMetadata(env, contract.value, abi);
      }
    }
  }
}
