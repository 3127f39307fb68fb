/** utils/index.ts: distributed-storage URI normalisation, the recursive IPFS rewrite of
    metadata documents, image-field selection, network labels and `times`. */
module Utils {
  import opened Js
  import opened Text

  const IpfsScheme := "ipfs://"
  const IpfsGateway := "https://ipfs.io/ipfs/"
  const ArweaveScheme := "ar://"
  const ArweaveGateway := "https://arweave.net/"

  /** `times(n, fn)`: `[fn(0), ..., fn(n - 1)]`. */
  function Times<T>(n: nat, f: nat -> T): (r: seq<T>)
    ensures |r| == n
    ensures forall i :: 0 <= i < n ==> r[i] == f(i)
  {
    if n == 0 then [] else Times(n - 1, f) + [f(n - 1)]
  }

  /** `ipfsToHttps`: the first "ipfs://" is removed (wherever it is) and the rest is put
      behind the public IPFS gateway. */
  function IpfsToHttps(uri: string): (r: string)
    ensures StartsWith(r, IpfsGateway)
    ensures StartsWith(uri, IpfsScheme) ==> r == IpfsGateway + uri[|IpfsScheme|..]
  {
    var path := ReplaceFirst(uri, IpfsScheme, "");
    assert StartsWith(uri, IpfsScheme) ==> path == uri[|IpfsScheme|..] by {
      if StartsWith(uri, IpfsScheme) {
        assert uri == IpfsScheme + uri[|IpfsScheme|..];
        ReplacePrefix(IpfsScheme, uri[|IpfsScheme|..], "");
      }
    }
    IpfsGateway + path
  }

  /** `arweaveToHttps`: the first "ar://" is removed and the rest is put behind the
      public Arweave gateway. */
  function ArweaveToHttps(uri: string): (r: string)
    ensures StartsWith(r, ArweaveGateway)
    ensures StartsWith(uri, ArweaveScheme) ==> r == ArweaveGateway + uri[|ArweaveScheme|..]
  {
    var path := ReplaceFirst(uri, ArweaveScheme, "");
    assert StartsWith(uri, ArweaveScheme) ==> path == uri[|ArweaveScheme|..] by {
      if StartsWith(uri, ArweaveScheme) {
        assert uri == ArweaveScheme + uri[|ArweaveScheme|..];
        ReplacePrefix(ArweaveScheme, uri[|ArweaveScheme|..], "");
      }
    }
    ArweaveGateway + path
  }

  /** `parseMetadataUri`: "ipfs://" is recognised first, then "ar://"; anything else is
      assumed fetchable as it is. */
  function ParseMetadataUri(uri: string): (r: string)
    ensures StartsWith(uri, IpfsScheme) ==> r == IpfsGateway + uri[|IpfsScheme|..]
    ensures !StartsWith(uri, IpfsScheme) && StartsWith(uri, ArweaveScheme) ==> r == ArweaveGateway + uri[|ArweaveScheme|..]
    ensures !StartsWith(uri, IpfsScheme) && !StartsWith(uri, ArweaveScheme) ==> r == uri
  {
    if StartsWith(uri, IpfsScheme) then IpfsToHttps(uri)
    else if StartsWith(uri, ArweaveScheme) then ArweaveToHttps(uri)
    else uri
  }

  /** A normalised URI is already fetchable: normalising again changes nothing. */
  lemma ParseMetadataUriIdempotent(uri: string)
    ensures ParseMetadataUri(ParseMetadataUri(uri)) == ParseMetadataUri(uri)
  {
    var r := ParseMetadataUri(uri);
    if StartsWith(uri, IpfsScheme) || StartsWith(uri, ArweaveScheme) {
      assert r[0] == 'h';
    }
  }

  lemma ParseIpfsExample()
    ensures ParseMetadataUri("ipfs://Qm123") == "https://ipfs.io/ipfs/Qm123"
  {
    assert "ipfs://Qm123" == IpfsScheme + "Qm123";
    assert (IpfsScheme + "Qm123")[..|IpfsScheme|] == IpfsScheme;
    assert (IpfsScheme + "Qm123")[|IpfsScheme|..] == "Qm123";
  }

  lemma ParseArweaveExample()
    ensures ParseMetadataUri("ar://abc") == "https://arweave.net/abc"
  {
    assert "ar://abc" == ArweaveScheme + "abc";
    assert (ArweaveScheme + "abc")[..|ArweaveScheme|] == ArweaveScheme;
    assert (ArweaveScheme + "abc")[|ArweaveScheme|..] == "abc";
    assert "ar://abc"[..|IpfsScheme|][0] != IpfsScheme[0];
  }

  lemma ParseHttpsExample()
    ensures ParseMetadataUri("https://example.com/1.json") == "https://example.com/1.json"
  {
    var u := "https://example.com/1.json";
    assert u[..|IpfsScheme|][0] == 'h' != IpfsScheme[0];
    assert u[..|ArweaveScheme|][0] == 'h' != ArweaveScheme[0];
  }

  const ProxyPrefix := "/api/metadata?url="

  /** `fetchViaProxy(url)`'s request path: the target URL is appended as it is, without
      percent-encoding. */
  function ProxyUrl(url: string): (p: string)
    ensures StartsWith(p, ProxyPrefix)
  {
    StartsWithConcat(ProxyPrefix, url);
    ProxyPrefix + url
  }

  /** The proxy request determines its target: what follows the prefix is the target,
      unaltered, so distinct targets give distinct requests. */
  lemma ProxyUrlRecovers(a: string, b: string)
    ensures ProxyUrl(a)[|ProxyPrefix|..] == a
    ensures ProxyUrl(a) == ProxyUrl(b) <==> a == b
  {
    assert ProxyUrl(a)[|ProxyPrefix|..] == a;
    assert ProxyUrl(b)[|ProxyPrefix|..] == b;
  }

  /** The image fields a preview is taken from, in order of preference: the gateway
      siblings written by the IPFS rewrite first, then the document's own fields. */
  function ImageCandidates(data: Value): (cs: seq<Value>)
    ensures |cs| == 4
  {
    [Get(data, "_image"), Get(data, "_image_url"), Get(data, "image"), Get(data, "image_url")]
  }

  /** `extractImagePreview`: null for a missing document; otherwise the first truthy image
      field, or, when none is truthy, the value of `image_url` (what `||` gives). */
  function ExtractImagePreview(data: Value): (r: Value)
    ensures !Truthy(data) ==> r == Null
    ensures Truthy(data) && Truthy(r) ==>
      exists i :: 0 <= i < 4 && r == ImageCandidates(data)[i] && forall j :: 0 <= j < i ==> !Truthy(ImageCandidates(data)[j])
    ensures Truthy(data) && !Truthy(r) ==>
      r == Get(data, "image_url") && forall i :: 0 <= i < 4 ==> !Truthy(ImageCandidates(data)[i])
  {
    if !Truthy(data) then Null else OrChain(ImageCandidates(data))
  }

  /** The gateway sibling of `image` wins over `image` itself. */
  lemma ImagePreviewPrefersGateway(url: string, gateway: string)
    requires gateway != ""
    ensures ExtractImagePreview(Obj([("image", Str(url)), ("_image", Str(gateway))])) == Str(gateway)
  {
    var fs := [("image", Str(url)), ("_image", Str(gateway))];
    assert |fs[0].0| != |"_image"|;
    assert Lookup(fs[1..], "_image") == Some(Str(gateway));
  }

  /** A document without image fields gives `undefined`, not null. */
  lemma ImagePreviewNoImage(name: string)
    ensures ExtractImagePreview(Obj([("name", Str(name))])) == Undefined
  {
  }

  const GoerliLabel := "Goerli Test Network"
  const RinkebyLabel := "Rinkeby Test Network"
  const MainLabel := "Ethereum Main Network"

  /** `formatNetworkName`: Goerli and Rinkeby have their own labels; every other name,
      "main" included, is shown as the main network. */
  function FormatNetworkName(network: string): (r: string)
    ensures r == GoerliLabel <==> network == "goerli"
    ensures r == RinkebyLabel <==> network == "rinkeby"
    ensures r == MainLabel <==> network != "goerli" && network != "rinkeby"
  {
    if network == "goerli" then GoerliLabel
    else if network == "rinkeby" then RinkebyLabel
    else MainLabel
  }

  // ---------------------------------------------------------------------------------
  // sanitizeIpfsValues

  /** The fields an array spreads into: its indices as decimal keys. */
  function IndexFields(items: seq<Value>): (fs: seq<Field>)
    ensures |fs| == |items|
    ensures forall i :: 0 <= i < |items| ==> fs[i] == (NatToString(i), items[i])
  {
    seq(|items|, i requires 0 <= i < |items| => (NatToString(i), items[i]))
  }

  /** The own enumerable fields `Object.keys` and spread see on an object or an array. */
  function RootFields(root: Value): seq<Field> {
    match root
    case Obj(fields) => fields
    case Arr(items) => IndexFields(items)
    case _ => []
  }

  /** What the reduce may find under a key it has not visited yet: the original value, or
      a string written there by the rewrite of an earlier key. */
  predicate SameOrString(now: Option<Value>, orig: Option<Value>) {
    now == orig || (now.Some? && now.value.Str?)
  }

  /** `value && typeof value === 'string' && value.startsWith('ipfs://')` */
  predicate IsIpfsString(v: Value) {
    v.Str? && v.s != "" && StartsWith(v.s, IpfsScheme)
  }

  /** One step of the reduce: the value currently stored under `key` in the accumulator
      decides. An IPFS string gets a sibling `_key` with its gateway URL; a non-empty,
      non-array object is replaced by its own sanitisation; null makes `Object.keys(null)`
      throw (None); anything else leaves the accumulator as it is. The flag records that
      the accumulator has been rebuilt by a spread. Only the written keys change. */
  function Visit(root: Value, key: string, acc: seq<Field>, touched: bool): (r: Option<(seq<Field>, bool)>)
    requires root.Obj? || root.Arr?
    requires SameOrString(Lookup(acc, key), Lookup(RootFields(root), key))
    ensures r.Some? ==> forall k :: k != key && k != "_" + key ==> Lookup(r.value.0, k) == Lookup(acc, k)
    ensures r.Some? ==> SameOrString(Lookup(r.value.0, "_" + key), Lookup(acc, "_" + key))
    ensures Lookup(acc, key) == Some(Null) ==> r.None?
    decreases root, 0, 0
  {
    match Lookup(acc, key)
    case Some(Str(s)) =>
      if s != "" && StartsWith(s, IpfsScheme) then
        LookupSet(acc, "_" + key, Str(IpfsToHttps(s)));
        Some((Set(acc, "_" + key, Str(IpfsToHttps(s))), true))
      else Some((acc, touched))
    case Some(Null) => None
    case Some(Obj(f)) =>
      if f != [] then
        assert Lookup(RootFields(root), key) == Some(Obj(f));
        LookupFound(RootFields(root), key);
        ghost var i :| 0 <= i < |RootFields(root)| && RootFields(root)[i] == (key, Obj(f));
        assert root.Arr? ==> Obj(f) == root.items[i];
        match SanitizeIpfsValues(Obj(f))
        case None => None
        case Some(sub) =>
          LookupSet(acc, key, sub);
          assert key != "_" + key;
          Some((Set(acc, key, sub), true))
      else Some((acc, touched))
    case _ => Some((acc, touched))
  }

  /** The reduce of sanitizeIpfsValues over `keys`, from the accumulator `acc`. */
  function SanitizeFold(root: Value, keys: seq<string>, acc: seq<Field>, touched: bool): Option<(seq<Field>, bool)>
    requires root.Obj? || root.Arr?
    requires Distinct(keys)
    requires forall k :: k in keys ==> SameOrString(Lookup(acc, k), Lookup(RootFields(root), k))
    decreases root, 0, |keys|
  {
    if keys == [] then Some((acc, touched))
    else
      assert Distinct(keys[1..]) && keys[0] !in keys[1..];
      match Visit(root, keys[0], acc, touched)
      case None => None
      case Some(next) => SanitizeFold(root, keys[1..], next.0, next.1)
  }

  /** `sanitizeIpfsValues(obj)`. For an object, every string field starting with "ipfs://"
      gets a sibling `_key` holding its gateway URL, and every non-empty, non-array object
      field is replaced by its own sanitisation. A top-level array is walked by index and,
      once anything is written, comes back as an index-keyed object (what spreading an
      array gives). Strings, numbers and booleans come back unchanged; null and undefined
      throw (None). */
  function SanitizeIpfsValues(v: Value): (r: Option<Value>)
    ensures (v.Null? || v.Undefined?) ==> r.None?
    ensures (v.Bool? || v.Num? || v.Str?) ==> r == Some(v)
    ensures v.Obj? && r.Some? ==> r.value.Obj?
    decreases v, 1
  {
    match v
    case Obj(fields) =>
      (match SanitizeFold(v, ObjectKeys(fields), fields, false)
       case None => None
       case Some(res) => Some(Obj(res.0)))
    case Arr(items) =>
      (match SanitizeFold(v, ObjectKeys(IndexFields(items)), IndexFields(items), false)
       case None => None
       case Some(res) => if res.1 then Some(Obj(res.0)) else Some(v))
    case Null => None
    case Undefined => None
    case _ => Some(v)
  }

  // --- properties of every document

  lemma VisitKeys(root: Value, key: string, acc: seq<Field>, touched: bool)
    requires root.Obj? || root.Arr?
    requires SameOrString(Lookup(acc, key), Lookup(RootFields(root), key))
    requires Visit(root, key, acc, touched).Some?
    ensures var out := Visit(root, key, acc, touched).value.0;
      KeySeq(acc) <= KeySeq(out)
      && forall j :: |KeySeq(acc)| <= j < |KeySeq(out)| ==> KeySeq(out)[j] == "_" + key
  {
    match Lookup(acc, key)
    case Some(Str(s)) =>
      if s != "" && StartsWith(s, IpfsScheme) {
        KeySeqSet(acc, "_" + key, Str(IpfsToHttps(s)));
      }
    case Some(Obj(f)) =>
      if f != [] {
        LookupFound(acc, key);
        KeySeqSet(acc, key, SanitizeIpfsValues(Obj(f)).value);
      }
    case _ =>
  }

  lemma {:induction false} FoldKeepsKeys(root: Value, keys: seq<string>, acc: seq<Field>, touched: bool)
    requires root.Obj? || root.Arr?
    requires Distinct(keys)
    requires forall k :: k in keys ==> SameOrString(Lookup(acc, k), Lookup(RootFields(root), k))
    requires SanitizeFold(root, keys, acc, touched).Some?
    ensures var out := SanitizeFold(root, keys, acc, touched).value.0;
      KeySeq(acc) <= KeySeq(out)
      && forall j :: |KeySeq(acc)| <= j < |KeySeq(out)| ==> exists k :: k in keys && KeySeq(out)[j] == "_" + k
    decreases |keys|
  {
    if keys != [] {
      assert Distinct(keys[1..]) && keys[0] !in keys[1..];
      var next := Visit(root, keys[0], acc, touched).value;
      VisitKeys(root, keys[0], acc, touched);
      FoldKeepsKeys(root, keys[1..], next.0, next.1);
      var out := SanitizeFold(root, keys, acc, touched).value.0;
      forall j | |KeySeq(acc)| <= j < |KeySeq(out)| ensures exists k :: k in keys && KeySeq(out)[j] == "_" + k {
        if j < |KeySeq(next.0)| {
          assert KeySeq(out)[j] == KeySeq(next.0)[j] == "_" + keys[0];
        } else {
          var k :| k in keys[1..] && KeySeq(out)[j] == "_" + k;
        }
      }
    }
  }

  /** Sanitising an object never drops or reorders a key: the original keys come first,
      in order, and every key after them is an original key with "_" in front. */
  lemma SanitizeKeepsKeys(fields: seq<Field>)
    requires SanitizeIpfsValues(Obj(fields)).Some?
    ensures var out := SanitizeIpfsValues(Obj(fields)).value.fields;
      KeySeq(fields) <= KeySeq(out)
      && forall j :: |fields| <= j < |out| ==> exists k :: k in KeySeq(fields) && KeySeq(out)[j] == "_" + k
  {
    FoldKeepsKeys(Obj(fields), ObjectKeys(fields), fields, false);
  }

  lemma {:induction false} FoldNullThrows(root: Value, keys: seq<string>, acc: seq<Field>, touched: bool, k: string)
    requires root.Obj? || root.Arr?
    requires Distinct(keys)
    requires forall x :: x in keys ==> SameOrString(Lookup(acc, x), Lookup(RootFields(root), x))
    requires k in keys && Lookup(acc, k) == Some(Null)
    requires forall x :: x in keys ==> "_" + x != k
    ensures SanitizeFold(root, keys, acc, touched).None?
    decreases |keys|
  {
    assert Distinct(keys[1..]) && keys[0] !in keys[1..];
    if keys[0] != k {
      match Visit(root, keys[0], acc, touched)
      case None =>
      case Some(next) => FoldNullThrows(root, keys[1..], next.0, next.1, k);
    }
  }

  /** A null field makes sanitisation throw (`typeof null === 'object'`, then
      `Object.keys(null)`), unless it is the `_k` sibling of some key `k`, whose rewrite
      may overwrite it first. */
  lemma SanitizeNullThrows(fields: seq<Field>, k: string)
    requires Lookup(fields, k) == Some(Null)
    requires forall x :: x in KeySeq(fields) ==> "_" + x != k
    ensures SanitizeIpfsValues(Obj(fields)).None?
  {
    LookupFound(fields, k);
    FoldNullThrows(Obj(fields), ObjectKeys(fields), fields, false, k);
  }

  // --- a closed form for documents without key clashes

  /** No duplicate key, and no key is another key with "_" in front, at every level the
      rewrite visits. */
  predicate Clean(v: Value)
    decreases v
  {
    match v
    case Obj(fs) =>
      Distinct(KeySeq(fs))
      && (forall j :: 0 <= j < |fs| ==> ("_" + KeySeq(fs)[j]) !in KeySeq(fs))
      && forall i :: 0 <= i < |fs| && fs[i].1.Obj? && fs[i].1.fields != [] ==> Clean(fs[i].1)
    case _ => true
  }

  /** The gateway siblings of a field list, in field order. */
  function IpfsSiblings(fs: seq<Field>): (r: seq<Field>)
    ensures forall j :: 0 <= j < |r| ==> exists i :: 0 <= i < |fs| && r[j].0 == "_" + fs[i].0
  {
    if fs == [] then []
    else
      var front := IpfsSiblings(fs[..|fs| - 1]);
      var last := fs[|fs| - 1];
      assert forall j :: 0 <= j < |front| ==> exists i :: 0 <= i < |fs| && front[j].0 == "_" + fs[i].0 by {
        forall j | 0 <= j < |front| ensures exists i :: 0 <= i < |fs| && front[j].0 == "_" + fs[i].0 {
          var i :| 0 <= i < |fs| - 1 && front[j].0 == "_" + fs[..|fs| - 1][i].0;
          assert fs[..|fs| - 1][i] == fs[i];
        }
      }
      front + (if IsIpfsString(last.1) then [("_" + last.0, Str(IpfsToHttps(last.1.s)))] else [])
  }

  /** Reference result of sanitising an object: None if a field is null or a non-empty
      object field fails; otherwise the fields in their order, nested non-empty objects
      replaced by their reference result, followed by the gateway siblings. */
  function SanitizedReference(v: Value): Option<Value>
    requires v.Obj?
    decreases v, 0
  {
    var fs := v.fields;
    if exists i :: 0 <= i < |fs| && FailsAt(fs[i].1) then None
    else Some(Obj(seq(|fs|, i requires 0 <= i < |fs| => (fs[i].0, RefValue(fs[i].1))) + IpfsSiblings(fs)))
  }

  predicate FailsAt(x: Value)
    decreases x, 1
  {
    x.Null? || (x.Obj? && x.fields != [] && SanitizedReference(x).None?)
  }

  function RefValue(x: Value): Value
    decreases x, 1
  {
    if x.Obj? && x.fields != [] then
      (match SanitizedReference(x) case Some(y) => y case None => x)
    else x
  }

  function MappedFields(fs: seq<Field>): (r: seq<Field>)
    ensures |r| == |fs|
    ensures forall i :: 0 <= i < |fs| ==> r[i] == (fs[i].0, RefValue(fs[i].1))
  {
    seq(|fs|, i requires 0 <= i < |fs| => (fs[i].0, RefValue(fs[i].1)))
  }

  predicate FailsFrom(fs: seq<Field>, i: nat) {
    exists j :: i <= j < |fs| && FailsAt(fs[j].1)
  }

  lemma ReferenceUnfold(fs: seq<Field>)
    ensures SanitizedReference(Obj(fs)) ==
      if FailsFrom(fs, 0) then None else Some(Obj(MappedFields(fs) + IpfsSiblings(fs)))
  {
    var m := seq(|fs|, i requires 0 <= i < |fs| => (fs[i].0, RefValue(fs[i].1)));
    assert m == MappedFields(fs);
  }

  /** The accumulator after the first `i` keys of a clean object: the mapped prefix, the
      untouched rest, then the siblings made so far. */
  function Acc(fs: seq<Field>, i: nat): seq<Field>
    requires i <= |fs|
  {
    MappedFields(fs)[..i] + (fs[i..] + IpfsSiblings(fs[..i]))
  }

  /** Putting "_" in front of two keys keeps them apart exactly when they were apart. */
  lemma UnderscoreInjective(a: string, b: string)
    ensures ("_" + a == "_" + b) == (a == b)
  {
    assert ("_" + a)[1..] == a && ("_" + b)[1..] == b;
  }

  lemma MappedKeys(fs: seq<Field>, i: nat)
    requires i <= |fs|
    ensures KeySeq(MappedFields(fs)[..i]) == KeySeq(fs)[..i]
  {
  }

  /** A key not yet visited still reads its original value. */
  lemma AccLookup(fs: seq<Field>, i: nat, k: string)
    requires Distinct(KeySeq(fs)) && i <= |fs|
    requires k in KeySeq(fs)[i..]
    ensures Lookup(Acc(fs, i), k) == Lookup(fs[i..], k) == Lookup(fs, k)
  {
    var ks := KeySeq(fs);
    var m, rest, sibs := MappedFields(fs)[..i], fs[i..], IpfsSiblings(fs[..i]);
    assert Acc(fs, i) == m + (rest + sibs);
    var q :| 0 <= q < |ks[i..]| && ks[i..][q] == k;
    DistinctNotInPrefix(ks, i, i + q);
    MappedKeys(fs, i);
    assert k !in KeySeq(m);
    LookupAppend(m, rest + sibs, k);
    KeySeqDrop(fs, i);
    LookupAppend(rest, sibs, k);
    LookupAfterPrefix(fs, i, k);
  }

  /** How the three parts of the accumulator grow by one visited key. */
  lemma AccSplit(fs: seq<Field>, i: nat)
    requires i < |fs|
    ensures MappedFields(fs)[..i + 1] == MappedFields(fs)[..i] + [(fs[i].0, RefValue(fs[i].1))]
    ensures fs[i..] == [fs[i]] + fs[i + 1..]
    ensures IpfsSiblings(fs[..i + 1]) == IpfsSiblings(fs[..i])
      + (if IsIpfsString(fs[i].1) then [("_" + fs[i].0, Str(IpfsToHttps(fs[i].1.s)))] else [])
  {
    TakeSnoc(MappedFields(fs), i);
    DropCons(fs, i);
    TakeTake(fs, i);
  }

  /** No field of the accumulator is named `_key` when `key` is a key still to visit and
      `_key` is not an original key. */
  lemma AccAvoids(fs: seq<Field>, i: nat)
    requires Distinct(KeySeq(fs)) && i < |fs|
    requires ("_" + fs[i].0) !in KeySeq(fs)
    ensures forall p :: 0 <= p < |Acc(fs, i)| ==> Acc(fs, i)[p].0 != "_" + fs[i].0
  {
    var ks := KeySeq(fs);
    var key := fs[i].0;
    var m := MappedFields(fs)[..i];
    var rest := fs[i..];
    var sibs := IpfsSiblings(fs[..i]);
    assert Acc(fs, i) == m + (rest + sibs);
    forall p | 0 <= p < |m| ensures m[p].0 != "_" + key {
      assert m[p].0 == ks[p];
    }
    forall p | 0 <= p < |rest| ensures rest[p].0 != "_" + key {
      assert rest[p].0 == ks[i + p];
    }
    forall p | 0 <= p < |sibs| ensures sibs[p].0 != "_" + key {
      var q :| 0 <= q < |fs[..i]| && sibs[p].0 == "_" + fs[..i][q].0;
      assert fs[..i][q].0 == ks[q] != ks[i];
      UnderscoreInjective(ks[q], key);
    }
  }

  /** Visiting an IPFS string appends its sibling. */
  lemma AccStepString(fs: seq<Field>, i: nat)
    requires i < |fs| && IsIpfsString(fs[i].1)
    ensures Acc(fs, i) + [("_" + fs[i].0, Str(IpfsToHttps(fs[i].1.s)))] == Acc(fs, i + 1)
  {
    AccSplit(fs, i);
    assert RefValue(fs[i].1) == fs[i].1;
    AppendShift(MappedFields(fs)[..i], fs[i], fs[i + 1..], IpfsSiblings(fs[..i]), [("_" + fs[i].0, Str(IpfsToHttps(fs[i].1.s)))]);
  }

  /** Visiting a non-empty object replaces it in place. */
  lemma AccStepObj(fs: seq<Field>, i: nat, y: Value)
    requires Distinct(KeySeq(fs)) && i < |fs| && fs[i].1.Obj? && fs[i].1.fields != []
    requires y == RefValue(fs[i].1)
    ensures Set(Acc(fs, i), fs[i].0, y) == Acc(fs, i + 1)
  {
    var ks := KeySeq(fs);
    var key := fs[i].0;
    var m := MappedFields(fs)[..i];
    AccSplit(fs, i);
    var a := Acc(fs, i);
    assert a == m + (([fs[i]] + fs[i + 1..]) + IpfsSiblings(fs[..i]));
    assert a[i] == fs[i];
    forall p | 0 <= p < i ensures a[p].0 != key {
      assert a[p] == m[p];
      assert m[p].0 == ks[p];
    }
    SetUpdates(a, i, key, y);
    UpdateShift(m, fs[i], fs[i + 1..], IpfsSiblings(fs[..i]), (key, y));
  }

  /** Visiting anything else leaves the accumulator as it is. */
  lemma AccStepOther(fs: seq<Field>, i: nat)
    requires i < |fs| && !IsIpfsString(fs[i].1) && !(fs[i].1.Obj? && fs[i].1.fields != [])
    ensures Acc(fs, i) == Acc(fs, i + 1)
  {
    AccSplit(fs, i);
    assert RefValue(fs[i].1) == fs[i].1;
    AppendShift(MappedFields(fs)[..i], fs[i], fs[i + 1..], IpfsSiblings(fs[..i]), []);
    assert IpfsSiblings(fs[..i]) + [] == IpfsSiblings(fs[..i]);
    assert Acc(fs, i) + [] == Acc(fs, i);
  }

  /** Visiting an IPFS string of a clean object appends the sibling the reference has. */
  lemma VisitString(fs: seq<Field>, i: nat, touched: bool)
    requires Distinct(KeySeq(fs)) && i < |fs| && IsIpfsString(fs[i].1)
    requires ("_" + fs[i].0) !in KeySeq(fs)
    requires Lookup(Acc(fs, i), fs[i].0) == Some(fs[i].1) == Lookup(fs, fs[i].0)
    ensures Visit(Obj(fs), fs[i].0, Acc(fs, i), touched) == Some((Acc(fs, i + 1), true))
  {
    AccAvoids(fs, i);
    SetAppends(Acc(fs, i), "_" + fs[i].0, Str(IpfsToHttps(fs[i].1.s)));
    AccStepString(fs, i);
  }

  /** Visiting a non-empty object field of a clean object agrees with the reference. */
  lemma VisitObj(fs: seq<Field>, i: nat, touched: bool)
    requires Clean(Obj(fs)) && i < |fs| && fs[i].1.Obj? && fs[i].1.fields != []
    requires Lookup(Acc(fs, i), fs[i].0) == Some(fs[i].1) == Lookup(fs, fs[i].0)
    ensures var r := Visit(Obj(fs), fs[i].0, Acc(fs, i), touched);
      (r.None? <==> FailsAt(fs[i].1)) && (r.Some? ==> r.value.0 == Acc(fs, i + 1))
    decreases Obj(fs), 0, 0
  {
    var x := fs[i].1;
    assert Clean(x);
    SanitizeAgrees(x);
    if SanitizedReference(x).Some? {
      AccStepObj(fs, i, SanitizedReference(x).value);
    }
  }

  /** One step of the reduce on a clean object agrees with the reference. */
  lemma {:induction false} VisitAgrees(fs: seq<Field>, i: nat, touched: bool)
    requires Clean(Obj(fs)) && i < |fs|
    requires Lookup(Acc(fs, i), fs[i].0) == Some(fs[i].1) == Lookup(fs, fs[i].0)
    ensures var r := Visit(Obj(fs), fs[i].0, Acc(fs, i), touched);
      (r.None? <==> FailsAt(fs[i].1)) && (r.Some? ==> r.value.0 == Acc(fs, i + 1))
    decreases Obj(fs), 0, 1
  {
    var x := fs[i].1;
    if IsIpfsString(x) {
      assert ("_" + KeySeq(fs)[i]) !in KeySeq(fs);
      VisitString(fs, i, touched);
    } else if x.Obj? && x.fields != [] {
      VisitObj(fs, i, touched);
    } else if !x.Null? {
      AccStepOther(fs, i);
    }
  }

  lemma AccEnd(fs: seq<Field>)
    ensures Acc(fs, |fs|) == MappedFields(fs) + IpfsSiblings(fs)
  {
    var m := MappedFields(fs);
    TakeAll(fs);
    assert Acc(fs, |fs|) == m[..|m|] + (fs[|fs|..] + IpfsSiblings(fs));
    WholeThenTail(m, fs, IpfsSiblings(fs));
  }

  lemma FailsFromStep(fs: seq<Field>, i: nat)
    requires i < |fs|
    ensures FailsFrom(fs, i) <==> FailsAt(fs[i].1) || FailsFrom(fs, i + 1)
  {
  }

  /** One key of the reduce: a failing visit stops it, a successful one goes on from the
      visit's accumulator. */
  lemma FoldUnfold(root: Value, keys: seq<string>, acc: seq<Field>, touched: bool)
    requires root.Obj? && Distinct(keys) && keys != []
    requires forall k :: k in keys ==> SameOrString(Lookup(acc, k), Lookup(RootFields(root), k))
    ensures Distinct(keys[1..])
    ensures var r := Visit(root, keys[0], acc, touched);
      (r.None? ==> SanitizeFold(root, keys, acc, touched).None?)
      && (r.Some? && (forall k :: k in keys[1..] ==> SameOrString(Lookup(r.value.0, k), Lookup(RootFields(root), k))) ==>
            SanitizeFold(root, keys, acc, touched) == SanitizeFold(root, keys[1..], r.value.0, r.value.1))
  {
    DistinctDrop(keys, 1);
  }

  /** One step of the reduce on a clean object: the visit of the `i`-th key fails
      exactly where the reference does, and otherwise hands the reference's next stage
      to the rest of the reduce. */
  lemma FoldStep(fs: seq<Field>, i: nat, touched: bool) returns (next: bool)
    requires Clean(Obj(fs)) && i < |fs|
    requires forall k :: k in KeySeq(fs)[i..] ==> SameOrString(Lookup(Acc(fs, i), k), Lookup(RootFields(Obj(fs)), k))
    ensures Distinct(KeySeq(fs)[i..]) && Distinct(KeySeq(fs)[i + 1..])
    ensures forall k :: k in KeySeq(fs)[i + 1..] ==> SameOrString(Lookup(Acc(fs, i + 1), k), Lookup(RootFields(Obj(fs)), k))
    ensures FailsFrom(fs, i) <==> FailsAt(fs[i].1) || FailsFrom(fs, i + 1)
    ensures var r := SanitizeFold(Obj(fs), KeySeq(fs)[i..], Acc(fs, i), touched);
      if FailsAt(fs[i].1) then r.None? else r == SanitizeFold(Obj(fs), KeySeq(fs)[i + 1..], Acc(fs, i + 1), next)
    decreases Obj(fs), 0, 2
  {
    var ks := KeySeq(fs);
    DistinctDrop(ks, i);
    DistinctDrop(ks, i + 1);
    var key := fs[i].0;
    assert ks[i..][0] == key && ks[i..][1..] == ks[i + 1..];
    assert key !in ks[i + 1..];
    AccLookup(fs, i, key);
    VisitAgrees(fs, i, touched);
    FailsFromStep(fs, i);
    forall k | k in ks[i + 1..]
      ensures SameOrString(Lookup(Acc(fs, i + 1), k), Lookup(RootFields(Obj(fs)), k))
    {
      AccLookup(fs, i + 1, k);
    }
    FoldUnfold(Obj(fs), ks[i..], Acc(fs, i), touched);
    var r := Visit(Obj(fs), key, Acc(fs, i), touched);
    next := if r.Some? then r.value.1 else false;
  }

  /** Induction over the reduce on a clean object, from the stage after `i` keys. */
  lemma {:induction false} FoldAgrees(fs: seq<Field>, i: nat, touched: bool)
    requires Clean(Obj(fs)) && i <= |fs|
    requires forall k :: k in KeySeq(fs)[i..] ==> SameOrString(Lookup(Acc(fs, i), k), Lookup(RootFields(Obj(fs)), k))
    ensures var r := SanitizeFold(Obj(fs), KeySeq(fs)[i..], Acc(fs, i), touched);
      (r.None? <==> FailsFrom(fs, i))
      && (r.Some? ==> r.value.0 == MappedFields(fs) + IpfsSiblings(fs))
    decreases Obj(fs), 0, 3 + |fs| - i
  {
    if i == |fs| {
      AccEnd(fs);
      assert KeySeq(fs)[i..] == [];
    } else {
      var next := FoldStep(fs, i, touched);
      FoldAgrees(fs, i + 1, next);
    }
  }

  /** On a clean object, sanitizeIpfsValues computes the reference result. */
  lemma {:induction false} SanitizeAgrees(v: Value)
    requires v.Obj? && Clean(v)
    ensures SanitizeIpfsValues(v) == SanitizedReference(v)
    decreases v, 1
  {
    var fs := v.fields;
    assert ObjectKeys(fs) == KeySeq(fs);
    assert KeySeq(fs)[0..] == KeySeq(fs);
    assert fs[..0] == [] && fs[0..] == fs && MappedFields(fs)[..0] == [];
    assert Acc(fs, 0) == fs;
    FoldAgrees(fs, 0, false);
    ReferenceUnfold(fs);
  }
}
