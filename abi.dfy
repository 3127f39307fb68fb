/** Interface descriptions (Solidity contract ABI JSON): grouping the function entries into
    mutability buckets and finding the ERC-721 `tokenURI` accessor (utils/abi.ts). */
module Abi {
  import opened Js

  /** One input or output descriptor: `name` is "" when absent (only its truthiness is used). */
  datatype AbiParam = AbiParam(name: string, typ: string)

  /** One entry of an interface description. `payable` and `constant` are the legacy flags
      of the ABI JSON format (false when absent); `inputs` and `outputs` are [] when absent. */
  datatype AbiItem = AbiItem(
    kind: string,
    name: Option<string>,
    stateMutability: Option<string>,
    payable: bool,
    constant: bool,
    inputs: seq<AbiParam>,
    outputs: seq<AbiParam>)

  const Payable := "payable"
  const NonPayable := "nonpayable"
  const View := "view"

  /** `extractFunctionType`: the mutability derived from the legacy flags alone. It has no
      case that yields null. */
  function ExtractFunctionType(item: AbiItem): (t: string)
    ensures t in {Payable, NonPayable, View}
    ensures t == Payable <==> item.payable
    ensures t == View <==> item.constant && !item.payable
  {
    if item.payable then Payable
    else if item.constant && !item.payable then View
    else NonPayable
  }

  /** `item.stateMutability || extractFunctionType(item)`: a present, non-empty
      `stateMutability` wins over the legacy flags. */
  function Category(item: AbiItem): (t: string)
    ensures t != ""
    ensures item.stateMutability.Some? && item.stateMutability.value != "" ==> t == item.stateMutability.value
    ensures (item.stateMutability.None? || item.stateMutability.value == "") ==> t == ExtractFunctionType(item)
  {
    match item.stateMutability
    case Some(s) => if s != "" then s else ExtractFunctionType(item)
    case None => ExtractFunctionType(item)
  }

  predicate IsFunction(item: AbiItem) {
    item.kind == "function"
  }

  /** `abi.filter((item) => item.type === 'function')` */
  function FunctionItems(abi: seq<AbiItem>): (r: seq<AbiItem>)
    ensures forall x :: x in r ==> x in abi && IsFunction(x)
    ensures forall x :: x in abi && IsFunction(x) ==> x in r
    ensures |r| <= |abi|
  {
    if abi == [] then []
    else (if IsFunction(abi[0]) then [abi[0]] else []) + FunctionItems(abi[1..])
  }

  /** Reference definition of one bucket: the items of that category, in input order. */
  function ItemsOfType(items: seq<AbiItem>, t: string): seq<AbiItem> {
    if items == [] then []
    else ItemsOfType(items[..|items| - 1], t)
         + (if Category(items[|items| - 1]) == t then [items[|items| - 1]] else [])
  }

  type Groups = map<string, seq<AbiItem>>

  /** The reduce's seed `{payable: [], nonpayable: [], view: []}`. */
  function InitialGroups(): Groups {
    map[Payable := [], NonPayable := [], View := []]
  }

  /** The reduce of mapAbiByFunctionType over already-filtered items: each item is
      concatenated onto the bucket named by its category, creating it if need be. */
  function GroupByType(items: seq<AbiItem>): (g: Groups)
    ensures Payable in g && NonPayable in g && View in g
    ensures forall t :: t in g <==> t in {Payable, NonPayable, View} || exists x :: x in items && Category(x) == t
    ensures forall t :: t in g ==> g[t] == ItemsOfType(items, t)
  {
    if items == [] then InitialGroups()
    else
      var front := items[..|items| - 1];
      var item := items[|items| - 1];
      var acc := GroupByType(front);
      var t := Category(item);
      assert forall x :: x in items <==> x in front || x == item;
      var g := acc[t := (if t in acc then acc[t] else []) + [item]];
      assert g[t] == ItemsOfType(items, t) by {
        if t !in acc {
          ItemsOfTypeMembers(front, t);
          assert ItemsOfType(front, t) == [] by {
            if ItemsOfType(front, t) != [] {
              assert ItemsOfType(front, t)[0] in ItemsOfType(front, t);
            }
          }
        }
      }
      g
  }

  /** `mapAbiByFunctionType`: only function entries are grouped; each lands in the bucket
      of its category, in input order; the three standard buckets always exist. */
  function MapAbiByFunctionType(abi: seq<AbiItem>): (g: Groups)
    ensures Payable in g && NonPayable in g && View in g
    ensures forall t :: t in g <==> t in {Payable, NonPayable, View} || exists x :: x in abi && IsFunction(x) && Category(x) == t
    ensures forall t :: t in g ==> g[t] == ItemsOfType(FunctionItems(abi), t)
  {
    GroupByType(FunctionItems(abi))
  }

  lemma {:induction false} ItemsOfTypeMembers(items: seq<AbiItem>, t: string)
    ensures forall x :: x in ItemsOfType(items, t) <==> x in items && Category(x) == t
    decreases |items|
  {
    if items != [] {
      var front := items[..|items| - 1];
      ItemsOfTypeMembers(front, t);
      assert items == front + [items[|items| - 1]];
    }
  }

  /** Every grouped item is a function entry of the description and sits in the bucket of
      its own category; no event, constructor or fallback entry is in any bucket. */
  lemma OnlyFunctionsGrouped(abi: seq<AbiItem>, t: string, x: AbiItem)
    requires t in MapAbiByFunctionType(abi)
    ensures x in MapAbiByFunctionType(abi)[t] <==> x in abi && IsFunction(x) && Category(x) == t
  {
    ItemsOfTypeMembers(FunctionItems(abi), t);
  }

  /** A `stateMutability` of "pure" makes a bucket of its own: such an item is never in
      the view bucket. */
  lemma PureIsSeparate(abi: seq<AbiItem>, x: AbiItem)
    requires x in abi && IsFunction(x) && x.stateMutability == Some("pure")
    ensures "pure" in MapAbiByFunctionType(abi)
    ensures x in MapAbiByFunctionType(abi)["pure"]
    ensures x !in MapAbiByFunctionType(abi)[View]
  {
    OnlyFunctionsGrouped(abi, "pure", x);
    OnlyFunctionsGrouped(abi, View, x);
  }

  /** Sum of bucket sizes over a list of bucket names. */
  function TotalSize(items: seq<AbiItem>, ks: seq<string>): nat {
    if ks == [] then 0 else |ItemsOfType(items, ks[0])| + TotalSize(items, ks[1..])
  }

  lemma {:induction false} TotalSizeStep(front: seq<AbiItem>, x: AbiItem, ks: seq<string>)
    requires Distinct(ks)
    ensures TotalSize(front + [x], ks) == TotalSize(front, ks) + (if Category(x) in ks then 1 else 0)
    decreases |ks|
  {
    var items := front + [x];
    assert items[..|items| - 1] == front;
    if ks != [] {
      assert Distinct(ks[1..]);
      TotalSizeStep(front, x, ks[1..]);
      assert Category(x) in ks <==> Category(x) == ks[0] || Category(x) in ks[1..];
    }
  }

  lemma {:induction false} TotalSizeAll(items: seq<AbiItem>, ks: seq<string>)
    requires Distinct(ks)
    requires forall x :: x in items ==> Category(x) in ks
    ensures TotalSize(items, ks) == |items|
    decreases |items|
  {
    if items == [] {
      TotalSizeEmpty(ks);
    } else {
      var front := items[..|items| - 1];
      assert items == front + [items[|items| - 1]];
      TotalSizeAll(front, ks);
      TotalSizeStep(front, items[|items| - 1], ks);
    }
  }

  lemma {:induction false} TotalSizeEmpty(ks: seq<string>)
    ensures TotalSize([], ks) == 0
    decreases |ks|
  {
    if ks != [] { TotalSizeEmpty(ks[1..]); }
  }

  /** The bucket names of a description: the three standard ones, then every other
      category in the order it first appears. */
  function BucketNames(abi: seq<AbiItem>): (ks: seq<string>)
    ensures Distinct(ks)
    ensures forall t :: t in ks <==> t in MapAbiByFunctionType(abi)
  {
    var cats := Categories(FunctionItems(abi));
    Dedup([Payable, NonPayable, View] + cats)
  }

  /** The category of each item, in order. */
  function Categories(items: seq<AbiItem>): (cats: seq<string>)
    ensures forall t :: t in cats <==> exists x :: x in items && Category(x) == t
  {
    if items == [] then []
    else
      assert forall x :: x in items <==> x == items[0] || x in items[1..];
      [Category(items[0])] + Categories(items[1..])
  }

  /** Sum of the sizes of the named buckets of a grouping. */
  function BucketTotal(g: Groups, ks: seq<string>): nat
    requires forall k :: k in ks ==> k in g
  {
    if ks == [] then 0 else |g[ks[0]]| + BucketTotal(g, ks[1..])
  }

  lemma {:induction false} BucketTotalIsTotalSize(abi: seq<AbiItem>, ks: seq<string>)
    requires forall k :: k in ks ==> k in MapAbiByFunctionType(abi)
    ensures BucketTotal(MapAbiByFunctionType(abi), ks) == TotalSize(FunctionItems(abi), ks)
    decreases |ks|
  {
    if ks != [] { BucketTotalIsTotalSize(abi, ks[1..]); }
  }

  /** Classification is a partition: the buckets' sizes add up to the number of function
      entries, so each function entry is counted in exactly one bucket. */
  lemma BucketsPartitionFunctions(abi: seq<AbiItem>)
    ensures BucketTotal(MapAbiByFunctionType(abi), BucketNames(abi)) == |FunctionItems(abi)|
  {
    var fs := FunctionItems(abi);
    forall x | x in fs ensures Category(x) in BucketNames(abi) {
      assert x in abi && IsFunction(x);
    }
    TotalSizeAll(fs, BucketNames(abi));
    BucketTotalIsTotalSize(abi, BucketNames(abi));
  }

  predicate IsTokenUriFunction(item: AbiItem) {
    item.kind == "function" && item.name == Some("tokenURI")
  }

  /** `findTokenUriItem`: the first entry that is a function named `tokenURI`, if any. */
  function FindTokenUriItem(abi: seq<AbiItem>): (r: Option<AbiItem>)
    ensures r.Some? ==> exists i :: 0 <= i < |abi| && abi[i] == r.value && IsTokenUriFunction(abi[i])
                          && forall j :: 0 <= j < i ==> !IsTokenUriFunction(abi[j])
    ensures r.None? ==> forall i :: 0 <= i < |abi| ==> !IsTokenUriFunction(abi[i])
  {
    if abi == [] then None
    else if IsTokenUriFunction(abi[0]) then Some(abi[0])
    else
      var r := FindTokenUriItem(abi[1..]);
      if r.Some? then
        var i :| 0 <= i < |abi[1..]| && abi[1..][i] == r.value && IsTokenUriFunction(abi[1..][i])
                 && forall j :: 0 <= j < i ==> !IsTokenUriFunction(abi[1..][j]);
        assert abi[i + 1] == r.value;
        assert forall j :: 1 <= j < i + 1 ==> abi[j] == abi[1..][j - 1];
        r
      else
        assert forall i :: 1 <= i < |abi| ==> abi[i] == abi[1..][i - 1];
        r
  }
}
