/** components/ContractMethodRunner.tsx: the form that runs one contract method. A view
    method is called with its inputs as they were typed; every other method is sent as a
    transaction, with each input first coerced to a boolean, a JSON value, a wei amount
    or the raw string. */
module MethodRunner {
  import opened Js
  import opened Text
  import opened Abi
  import opened Effects

  // ---------------------------------------------------------------------------------
  // signature text

  /** A parameter as displayed: `name: type`, or the bare type when it has no name. */
  function ParamLabel(p: AbiParam): string {
    if p.name != "" then p.name + ": " + p.typ else p.typ
  }

  /** A label is the bare type exactly when the parameter is unnamed. */
  lemma ParamLabelBare(p: AbiParam)
    ensures ParamLabel(p) == p.typ <==> p.name == ""
  {
    if p.name != "" {
      assert |ParamLabel(p)| > |p.typ|;
    }
  }

  function ParamLabels(ps: seq<AbiParam>): (r: seq<string>)
    ensures |r| == |ps|
    ensures forall i :: 0 <= i < |ps| ==> r[i] == ParamLabel(ps[i])
  {
    seq(|ps|, i requires 0 <= i < |ps| => ParamLabel(ps[i]))
  }

  /** The inputs between the parentheses, separated by ", ". */
  function InputText(item: AbiItem): string {
    Join(ParamLabels(item.inputs), ", ")
  }

  /** `o || 'void'`: the outputs, or "void" when their text is empty. */
  function OutputText(item: AbiItem): (o: string)
    ensures o != ""
  {
    var t := Join(ParamLabels(item.outputs), ", ");
    if t == "" then "void" else t
  }

  /** `{item.name}({i}): {o || 'void'}`; a missing name renders as nothing. */
  function Signature(item: AbiItem): string {
    (match item.name case Some(n) => n case None => "") + "(" + InputText(item) + "): " + OutputText(item)
  }

  /** A join with a non-empty separator is empty exactly for no parts or one empty part. */
  lemma {:induction false} JoinEmpty(parts: seq<string>, sep: string)
    requires sep != ""
    ensures Join(parts, sep) == "" <==> |parts| == 0 || (|parts| == 1 && parts[0] == "")
  {
    if |parts| >= 2 {
      assert |Join(parts, sep)| >= |sep|;
    }
  }

  /** The output part reads "void" for a method without outputs, and also for a single
      unnamed output with an empty type; with two or more outputs it is their labels. */
  lemma OutputTextVoid(item: AbiItem)
    ensures Join(ParamLabels(item.outputs), ", ") == ""
      <==> |item.outputs| == 0 || (|item.outputs| == 1 && item.outputs[0].name == "" && item.outputs[0].typ == "")
    ensures |item.outputs| == 0 ==> OutputText(item) == "void"
  {
    JoinEmpty(ParamLabels(item.outputs), ", ");
    if |item.outputs| == 1 {
      ParamLabelBare(item.outputs[0]);
      if item.outputs[0].name != "" {
        assert |ParamLabel(item.outputs[0])| > 0;
      }
    }
  }

  // ---------------------------------------------------------------------------------
  // argument coercion

  /** `isJsonParsable`: parsing succeeds AND gives a truthy value, so texts such as "0",
      "null" and `""` do not count. */
  predicate IsJsonParsable(env: Env, data: string) {
    env.parseJson(data).Ok? && Truthy(env.parseJson(data).value)
  }

  const EthSuffix := "eth"

  /** The coercion of one typed input on the send path, in the order the source tests:
      the two boolean words, then a truthy JSON text, then an amount ending in "eth"
      (its first "eth" removed and the rest trimmed, converted by `toWei`, which may
      throw), and otherwise the raw string. */
  function Coerce(env: Env, v: string): (r: Result<Value, Failure>)
    ensures r.Err? ==> v != "true" && v != "false" && !IsJsonParsable(env, v) && EndsWith(v, EthSuffix)
    ensures r.Err? ==> env.toWei(Trim(ReplaceFirst(v, EthSuffix, ""))) == Err(r.error)
  {
    if v == "true" then Ok(Bool(true))
    else if v == "false" then Ok(Bool(false))
    else if IsJsonParsable(env, v) then Ok(env.parseJson(v).value)
    else if EndsWith(v, EthSuffix) then
      match env.toWei(Trim(ReplaceFirst(v, EthSuffix, "")))
      case Ok(wei) => Ok(Str(wei))
      case Err(e) => Err(e)
    else Ok(Str(v))
  }

  /** The boolean words win over the JSON test, whatever the parser would say. */
  lemma CoerceBooleans(env: Env)
    ensures Coerce(env, "true") == Ok(Bool(true)) && Coerce(env, "false") == Ok(Bool(false))
  {
  }

  /** A text whose JSON value is falsy is passed on as the raw string. */
  lemma CoerceFalsyJsonIsRaw(env: Env, v: string)
    requires v != "true" && v != "false" && !EndsWith(v, EthSuffix)
    requires env.parseJson(v).Ok? && !Truthy(env.parseJson(v).value)
    ensures Coerce(env, v) == Ok(Str(v))
  {
  }

  /** An amount `a + "eth"` in which "eth" first occurs at the end is converted from
      the trimmed amount. */
  lemma CoerceEthAmount(env: Env, a: string)
    requires forall j :: 0 <= j < |a| ==> !OccursAt(a + EthSuffix, EthSuffix, j)
    requires a + EthSuffix != "true" && a + EthSuffix != "false" && !IsJsonParsable(env, a + EthSuffix)
    ensures Coerce(env, a + EthSuffix) == match env.toWei(Trim(a)) case Ok(w) => Ok(Str(w)) case Err(e) => Err(e)
  {
    ReplaceSuffix(a, EthSuffix, "");
    assert a + "" == a;
    assert (a + EthSuffix)[|a + EthSuffix| - |EthSuffix|..] == EthSuffix;
  }

  /** `list.map(f)` for an `f` that may throw: the first failure, left to right, is what
      escapes; otherwise every element is mapped. */
  function MapOrFirstError<T>(f: string -> Result<T, Failure>, xs: seq<string>): (r: Result<seq<T>, Failure>)
    ensures r.Ok? <==> forall i :: 0 <= i < |xs| ==> f(xs[i]).Ok?
    ensures r.Ok? ==> |r.value| == |xs| && forall i :: 0 <= i < |xs| ==> r.value[i] == f(xs[i]).value
    ensures r.Err? ==> exists i :: 0 <= i < |xs| && f(xs[i]) == Err(r.error) && forall j :: 0 <= j < i ==> f(xs[j]).Ok?
  {
    if xs == [] then Ok([])
    else
      match f(xs[0])
      case Err(e) => Err(e)
      case Ok(v) =>
        var rest := MapOrFirstError(f, xs[1..]);
        assert forall i :: 1 <= i < |xs| ==> xs[i] == xs[1..][i - 1];
        match rest
        case Err(e) =>
          var i :| 0 <= i < |xs[1..]| && f(xs[1..][i]) == Err(e) && forall j :: 0 <= j < i ==> f(xs[1..][j]).Ok?;
          assert f(xs[i + 1]) == Err(e);
          Err(e)
        case Ok(vs) => Ok([v] + vs)
  }

  /** The send path's arguments: every input coerced, or the first coercion failure. */
  function CoerceAll(env: Env, params: seq<string>): Result<seq<Value>, Failure> {
    MapOrFirstError((v: string) => Coerce(env, v), params)
  }

  /** Once every input coerces, the arguments are the coerced inputs, one per input and
      in input order; a failed coercion is an amount ending in "eth" that `toWei`
      rejected, with no earlier input failing. */
  lemma CoerceAllInOrder(env: Env, params: seq<string>)
    ensures var r := CoerceAll(env, params);
      r.Ok? ==> |r.value| == |params| && forall i :: 0 <= i < |params| ==> r.value[i] == Coerce(env, params[i]).value
    ensures var r := CoerceAll(env, params);
      r.Err? ==>
      exists i :: 0 <= i < |params| && EndsWith(params[i], EthSuffix) && Coerce(env, params[i]) == Err(r.error) && forall j :: 0 <= j < i ==> Coerce(env, params[j]).Ok?
  {
    var f := (v: string) => Coerce(env, v);
    var r := MapOrFirstError(f, params);
    if r.Err? {
      var i :| 0 <= i < |params| && f(params[i]) == Err(r.error) && forall j :: 0 <= j < i ==> f(params[j]).Ok?;
      assert EndsWith(params[i], EthSuffix);
    }
  }

  // ---------------------------------------------------------------------------------
  // running

  /** `if (!name) return;` */
  predicate HasName(item: AbiItem) {
    item.name.Some? && item.name.value != ""
  }

  datatype Mode = Call | Send

  /** `handleRunMethod`: a call exactly when `stateMutability === 'view'`. */
  function Dispatch(item: AbiItem): (m: Mode)
    ensures m == Call <==> item.stateMutability == Some(View)
  {
    if item.stateMutability == Some(View) then Call else Send
  }

  /** A legacy entry marked only `constant` is grouped as a view method, yet running it
      sends a transaction; a `pure` entry is sent too. */
  lemma LegacyConstantIsSent(item: AbiItem)
    requires item.stateMutability.None? && item.constant && !item.payable
    ensures Category(item) == View && Dispatch(item) == Send
  {
  }

  /** How a run ends, as far as the form shows it: nothing happens (no name), the method
      is missing (both cleared), the call or send throws (its message), or it returns. */
  datatype Outcome = Skipped | NoMethod | Failed(message: string) | Returned(result: Value)

  /** `handleRunCallMethod`: the raw strings are passed, one per input. */
  function CallOutcome(env: Env, c: Contract, item: AbiItem, params: seq<string>): (o: Outcome)
    ensures o.Skipped? <==> !HasName(item)
    ensures o.NoMethod? <==> HasName(item) && !HasMethod(c, item.name.value)
    ensures o.Failed? || o.Returned? ==>
      var call := env.call(c, item.name.value, StrArgs(params));
      (o.Returned? <==> call.Ok?) && (o.Returned? ==> o.result == call.value) && (o.Failed? ==> o.message == call.error.message)
  {
    if !HasName(item) then Skipped
    else if !HasMethod(c, item.name.value) then NoMethod
    else
      match env.call(c, item.name.value, StrArgs(params))
      case Err(e) => Failed(e.message)
      case Ok(v) => Returned(v)
  }

  /** `handleRunSendMethod`: the inputs are coerced BEFORE the name check and outside
      the `try`, so a coercion failure escapes (Err) and nothing else happens; otherwise
      the coerced arguments are sent from the account with the payment. */
  function SendOutcome(env: Env, c: Contract, item: AbiItem, params: seq<string>, account: Option<string>, payment: int): (r: Result<Outcome, Failure>)
    ensures r.Err? <==> CoerceAll(env, params).Err?
    ensures r.Ok? ==> (r.value.Skipped? <==> !HasName(item))
    ensures r.Ok? ==> (r.value.NoMethod? <==> HasName(item) && !HasMethod(c, item.name.value))
    ensures r.Ok? && (r.value.Failed? || r.value.Returned?) ==>
      var send := env.send(c, item.name.value, CoerceAll(env, params).value, SendOpts(account, payment));
      (r.value.Returned? <==> send.Ok?) && (r.value.Returned? ==> r.value.result == send.value)
      && (r.value.Failed? ==> r.value.message == send.error.message)
  {
    match CoerceAll(env, params)
    case Err(e) => Err(e)
    case Ok(args) =>
      if !HasName(item) then Ok(Skipped)
      else if !HasMethod(c, item.name.value) then Ok(NoMethod)
      else
        match env.send(c, item.name.value, args, SendOpts(account, payment))
        case Err(e) => Ok(Failed(e.message))
        case Ok(v) => Ok(Returned(v))
  }

  /** An unnamed method does nothing on the send path too, but only once its inputs
      have coerced: a rejected amount still escapes. */
  lemma UnnamedSendStillCoerces(env: Env, c: Contract, item: AbiItem, params: seq<string>, account: Option<string>, payment: int)
    requires !HasName(item)
    ensures SendOutcome(env, c, item, params, account, payment) == if CoerceAll(env, params).Err? then Err(CoerceAll(env, params).error) else Ok(Skipped)
  {
  }

  /** The form's state: one text input per declared input, the payment in wei, the
      result, the error message and the running flag. */
  class Runner {
    const item: AbiItem
    var params: seq<string>
    var payment: int
    var result: Value
    var error: Option<string>
    var isRunning: bool

    predicate Valid()
      reads this
    {
      |params| == |item.inputs|
    }

    /** The form after a run that ended with `o`. */
    predicate Shows(o: Outcome)
      reads this
    {
      match o
      case Skipped => true
      case NoMethod => result == Null && error == None && !isRunning
      case Failed(m) => result == Null && error == Some(m) && !isRunning
      case Returned(v) => result == v && error == None && !isRunning
    }

    constructor (item: AbiItem)
      ensures this.item == item && Valid()
      ensures forall i :: 0 <= i < |params| ==> params[i] == ""
      ensures payment == 0 && result == Null && error == None && !isRunning
    {
      this.item := item;
      params := seq(|item.inputs|, _ => "");
      payment := 0;
      result := Null;
      error := None;
      isRunning := false;
    }

    /** Typing into the input at `idx`. */
    method SetParam(idx: nat, v: string)
      requires Valid() && idx < |params|
      modifies this
      ensures Valid() && params == old(params)[idx := v] && payment == old(payment)
      ensures result == old(result) && error == old(error) && isRunning == old(isRunning)
    {
      params := params[idx := v];
    }

    /** Typing a payment (only shown for payable methods). */
    method SetPayment(amount: int)
      requires Valid()
      modifies this
      ensures Valid() && payment == amount && params == old(params)
      ensures result == old(result) && error == old(error) && isRunning == old(isRunning)
    {
      payment := amount;
    }

    /** Applies how a run ended: an unnamed method changes nothing; otherwise the reset
        (running, result and error cleared), the outcome, and running cleared in the
        `finally`. */
    method Settle(o: Outcome)
      requires Valid()
      modifies this
      ensures Valid() && params == old(params) && payment == old(payment)
      ensures Shows(o)
      ensures o.Skipped? ==> result == old(result) && error == old(error) && isRunning == old(isRunning)
    {
      if !o.Skipped? {
        isRunning := true;
        result := Null;
        error := None;
        match o {
          case Failed(m) => error := Some(m);
          case Returned(v) => result := v;
          case NoMethod =>
        }
        isRunning := false;
      }
    }

    method RunCall(env: Env, c: Contract)
      requires Valid()
      modifies this
      ensures Valid() && params == old(params) && payment == old(payment)
      ensures Shows(CallOutcome(env, c, item, old(params)))
      ensures !HasName(item) ==> result == old(result) && error == old(error) && isRunning == old(isRunning)
    {
      var o := CallOutcome(env, c, item, params);
      Settle(o);
    }

    /** Returns what escapes the handler: a coercion failure, which leaves the form as it
        was. */
    method RunSend(env: Env, c: Contract, account: Option<string>) returns (escaped: Option<Failure>)
      requires Valid()
      modifies this
      ensures Valid() && params == old(params) && payment == old(payment)
      ensures var r := SendOutcome(env, c, item, old(params), account, old(payment));
        (escaped.Some? <==> r.Err?) && (r.Err? ==> escaped == Some(r.error))
      ensures var r := SendOutcome(env, c, item, old(params), account, old(payment));
        r.Ok? ==> Shows(r.value)
      ensures var r := SendOutcome(env, c, item, old(params), account, old(payment));
        r.Err? || r.value.Skipped? ==> result == old(result) && error == old(error) && isRunning == old(isRunning)
    {
      var r := SendOutcome(env, c, item, params, account, payment);
      match r {
        case Err(e) =>
          escaped := Some(e);
        case Ok(o) =>
          escaped := None;
          Settle(o);
      }
    }

    /** `handleRunMethod`: the call path for view methods, the send path otherwise. */
    method Run(env: Env, c: Contract, account: Option<string>) returns (escaped: Option<Failure>)
      requires Valid()
      modifies this
      ensures Valid() && params == old(params) && payment == old(payment)
      ensures Dispatch(item) == Call ==> escaped.None? && Shows(CallOutcome(env, c, item, old(params)))
      ensures Dispatch(item) == Call && !HasName(item) ==>
        result == old(result) && error == old(error) && isRunning == old(isRunning)
      ensures var r := SendOutcome(env, c, item, old(params), account, old(payment));
        Dispatch(item) == Send ==>
          (escaped.Some? <==> r.Err?) && (r.Err? ==> escaped == Some(r.error)) && (r.Ok? ==> Shows(r.value))
      ensures var r := SendOutcome(env, c, item, old(params), account, old(payment));
        Dispatch(item) == Send && (r.Err? || r.value.Skipped?) ==>
          result == old(result) && error == old(error) && isRunning == old(isRunning)
    {
      if Dispatch(item) == Call {
        RunCall(env, c);
        escaped := None;
      } else {
        escaped := RunSend(env, c, account);
      }
    }
  }
}
