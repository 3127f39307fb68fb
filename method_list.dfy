/** components/ContractMethods.tsx: the list of a contract's methods, grouped by
    mutability, narrowed by a search query, with the token-metadata panel on top. */
module MethodList {
  import opened Js
  import opened Text
  import opened Abi

  /** `${name}` of an entry: a missing name prints as "undefined". */
  function NameText(item: AbiItem): string {
    match item.name
    case Some(n) => n
    case None => "undefined"
  }

  /** `keyify`: `${name}:${inputs.length}:${outputs.length}`. */
  function Keyify(item: AbiItem): string {
    NameText(item) + ":" + NatToString(|item.inputs|) + ":" + NatToString(|item.outputs|)
  }

  /** A key is the colon-join of the name and the two arities. */
  lemma KeyifyParts(item: AbiItem)
    ensures Keyify(item) == Join([NameText(item), NatToString(|item.inputs|), NatToString(|item.outputs|)], [':'])
  {
    var p := [NameText(item), NatToString(|item.inputs|), NatToString(|item.outputs|)];
    assert p[1..][1..] == [p[2]];
    assert Join(p[1..], [':']) == p[1] + [':'] + p[2];
  }

  /** For names without ':' the key determines the name and both arities; overloads with
      the same name and arities share a key. */
  lemma KeyifyInjective(x: AbiItem, y: AbiItem)
    requires ':' !in NameText(x) && ':' !in NameText(y)
    ensures Keyify(x) == Keyify(y) <==>
      NameText(x) == NameText(y) && |x.inputs| == |y.inputs| && |x.outputs| == |y.outputs|
  {
    if Keyify(x) == Keyify(y) {
      KeyifyParts(x);
      KeyifyParts(y);
      var px := [NameText(x), NatToString(|x.inputs|), NatToString(|x.outputs|)];
      var py := [NameText(y), NatToString(|y.inputs|), NatToString(|y.outputs|)];
      assert forall i :: 0 <= i < 3 ==> ':' !in px[i] && ':' !in py[i];
      JoinInjective(px, py, ':');
      NatToStringInjective(|x.inputs|, |y.inputs|);
      NatToStringInjective(|x.outputs|, |y.outputs|);
    }
  }

  /** `(query || '').trim().toLowerCase()` */
  function NormalisedQuery(query: Option<string>): string {
    ToLower(Trim(match query case Some(s) => s case None => ""))
  }

  /** The name the query is matched against: lower-cased, "" when missing. */
  function LowerName(item: AbiItem): string {
    ToLower(match item.name case Some(n) => n case None => "")
  }

  /** A normalised query `q` admits `name`: `q` is empty, or every ' '-separated word of
      it occurs in `name`. */
  predicate Admits(q: string, name: string) {
    q == "" || forall w :: w in Split(q, ' ') ==> Includes(name, w)
  }

  /** `isIncludedByQuery`: an empty normalised query admits every entry; otherwise every
      ' '-separated word of it must occur in the lower-cased name. */
  predicate IsIncludedByQuery(item: AbiItem, query: Option<string>) {
    Admits(NormalisedQuery(query), LowerName(item))
  }

  /** A missing, empty or whitespace-only query matches every entry. */
  lemma BlankQueryMatchesAll(item: AbiItem, query: Option<string>)
    requires query.None? || AllWhitespace(query.value)
    ensures IsIncludedByQuery(item, query)
  {
    if query.Some? {
      TrimAllWhitespace(query.value);
    } else {
      assert AllWhitespace("");
      TrimAllWhitespace("");
    }
  }

  /** Matching ignores the case of the query and of the name. */
  lemma QueryCaseInsensitive(item: AbiItem, query: string)
    ensures IsIncludedByQuery(item, Some(query)) == IsIncludedByQuery(item, Some(ToLower(query)))
    ensures item.name.Some? ==>
      IsIncludedByQuery(item, Some(query)) == IsIncludedByQuery(item.(name := Some(ToLower(item.name.value))), Some(query))
  {
    LowerTrimCommute(query);
    ToLowerIdempotent(Trim(query));
    assert NormalisedQuery(Some(ToLower(query))) == NormalisedQuery(Some(query));
    if item.name.Some? {
      ToLowerIdempotent(item.name.value);
      assert LowerName(item.(name := Some(ToLower(item.name.value)))) == LowerName(item);
    }
  }

  /** A word of the query that the name lacks excludes the entry. */
  lemma MissingWordExcludes(item: AbiItem, query: string, w: string)
    requires NormalisedQuery(Some(query)) != ""
    requires w in Split(NormalisedQuery(Some(query)), ' ')
    requires !Includes(LowerName(item), w)
    ensures !IsIncludedByQuery(item, Some(query))
  {
  }

  /** `group.filter((item) => isIncludedByQuery(item, query))` */
  function FilterByQuery(items: seq<AbiItem>, query: string): (r: seq<AbiItem>)
    ensures |r| <= |items|
    ensures forall x :: x in r <==> x in items && IsIncludedByQuery(x, Some(query))
  {
    if items == [] then []
    else
      assert forall x :: x in items <==> x == items[0] || x in items[1..];
      (if IsIncludedByQuery(items[0], Some(query)) then [items[0]] else []) + FilterByQuery(items[1..], query)
  }

  /** `a` is `b` with some elements left out, in the same order. */
  predicate Subsequence<T(==)>(a: seq<T>, b: seq<T>)
    decreases |b|
  {
    a == [] || (b != [] && ((a[0] == b[0] && Subsequence(a[1..], b[1..])) || Subsequence(a, b[1..])))
  }

  /** Each filtered list keeps its group's order: it is a subsequence of the group, and
      the whole group when the query is blank. */
  lemma {:induction false} FilterIsSubsequence(items: seq<AbiItem>, query: string)
    ensures Subsequence(FilterByQuery(items, query), items)
    decreases |items|
  {
    if items != [] {
      FilterIsSubsequence(items[1..], query);
      var rest := FilterByQuery(items[1..], query);
      if IsIncludedByQuery(items[0], Some(query)) {
        var r := [items[0]] + rest;
        assert r[0] == items[0] && r[1..] == rest;
      } else {
        assert FilterByQuery(items, query) == rest;
      }
    }
  }

  // ---------------------------------------------------------------------------------
  // what the list shows

  /** One shown section: the bucket it lists and the entries that pass the query
      (possibly none: "None available"). */
  datatype Section = Section(bucket: string, rows: seq<AbiItem>)

  /** The rendered list: the metadata panel's entry, whether the search box is shown, and
      the shown sections in page order. */
  datatype Listing = Listing(metadata: Option<AbiItem>, searchBox: bool, sections: seq<Section>)

  /** A section is shown when its unfiltered group has entries. */
  function SectionIf(g: Groups, bucket: string, query: string): (r: seq<Section>)
    requires bucket in g
    ensures |r| <= 1
    ensures r != [] <==> |g[bucket]| > 0
    ensures r != [] ==> r[0].bucket == bucket && r[0].rows == FilterByQuery(g[bucket], query)
  {
    if |g[bucket]| > 0 then [Section(bucket, FilterByQuery(g[bucket], query))] else []
  }

  /** The sections of a grouping, in page order: read-only, non-payable, payable. */
  function SectionsOf(g: Groups, query: string): seq<Section>
    requires View in g && NonPayable in g && Payable in g
  {
    SectionIf(g, View, query) + SectionIf(g, NonPayable, query) + SectionIf(g, Payable, query)
  }

  /** Every section of any grouping is a standard bucket, filtered. */
  lemma SectionsOfRows(g: Groups, query: string)
    requires View in g && NonPayable in g && Payable in g
    ensures forall s :: s in SectionsOf(g, query) ==>
      s.bucket in {View, NonPayable, Payable} && s.rows == FilterByQuery(g[s.bucket], query)
  {
    var a, b, c := SectionIf(g, View, query), SectionIf(g, NonPayable, query), SectionIf(g, Payable, query);
    forall s | s in SectionsOf(g, query)
      ensures s.bucket in {View, NonPayable, Payable} && s.rows == FilterByQuery(g[s.bucket], query)
    {
      assert s in a + b + c;
      if s in a {
        assert s == a[0];
      } else if s in b {
        assert s == b[0];
      } else {
        assert s == c[0];
      }
    }
  }

  /** A standard bucket has a section exactly when its unfiltered group has entries. */
  lemma SectionsOfShown(g: Groups, query: string, bucket: string)
    requires View in g && NonPayable in g && Payable in g
    requires bucket in {View, NonPayable, Payable}
    ensures (exists s :: s in SectionsOf(g, query) && s.bucket == bucket) <==> |g[bucket]| > 0
  {
    var a, b, c := SectionIf(g, View, query), SectionIf(g, NonPayable, query), SectionIf(g, Payable, query);
    if |g[bucket]| > 0 {
      var s := SectionIf(g, bucket, query)[0];
      assert s in a + b + c;
    }
    if exists s :: s in SectionsOf(g, query) && s.bucket == bucket {
      var s :| s in SectionsOf(g, query) && s.bucket == bucket;
      assert s in a + b + c;
      if s in a {
        assert s == a[0];
      } else if s in b {
        assert s == b[0];
      } else {
        assert s == c[0];
      }
    }
  }

  /** `ContractMethods`: read-only, non-payable and payable sections, from the grouping
      of the whole description; pure and other buckets have no section. */
  function Render(abi: seq<AbiItem>, query: string): Listing {
    Listing(FindTokenUriItem(abi), |abi| > 0, SectionsOf(MapAbiByFunctionType(abi), query))
  }

  /** The metadata panel appears exactly for descriptions with a function named
      `tokenURI`, the search box exactly for non-empty descriptions, and a section exactly
      for a non-empty read-only, non-payable or payable bucket, whatever the query. */
  lemma RenderVisibility(abi: seq<AbiItem>, query: string, bucket: string)
    requires bucket in {View, NonPayable, Payable}
    ensures var l := Render(abi, query);
      (l.metadata.Some? <==> exists i :: 0 <= i < |abi| && IsTokenUriFunction(abi[i]))
      && (l.searchBox <==> |abi| > 0)
      && ((exists s :: s in l.sections && s.bucket == bucket) <==> |MapAbiByFunctionType(abi)[bucket]| > 0)
  {
    SectionsOfShown(MapAbiByFunctionType(abi), query, bucket);
  }

  /** Every listed entry is a function entry of the description in the section's bucket
      that passes the query, so events, constructors and pure functions are never
      listed. */
  lemma ListedRows(abi: seq<AbiItem>, query: string, s: Section, x: AbiItem)
    requires s in Render(abi, query).sections && x in s.rows
    ensures s.bucket in {View, NonPayable, Payable}
    ensures x in abi && IsFunction(x) && Category(x) == s.bucket && IsIncludedByQuery(x, Some(query))
    ensures x.stateMutability != Some("pure")
  {
    var g := MapAbiByFunctionType(abi);
    SectionsOfRows(g, query);
    OnlyFunctionsGrouped(abi, s.bucket, x);
  }

  /** Every section lists its bucket in order, and all of it for a blank query. */
  lemma SectionRowsInOrder(abi: seq<AbiItem>, query: string, s: Section)
    requires s in Render(abi, query).sections
    ensures s.bucket in MapAbiByFunctionType(abi)
    ensures Subsequence(s.rows, MapAbiByFunctionType(abi)[s.bucket])
    ensures AllWhitespace(query) ==> s.rows == MapAbiByFunctionType(abi)[s.bucket]
  {
    var g := MapAbiByFunctionType(abi);
    SectionsOfRows(g, query);
    FilterIsSubsequence(g[s.bucket], query);
    if AllWhitespace(query) {
      BlankFilterKeepsAll(g[s.bucket], query);
    }
  }

  lemma {:induction false} BlankFilterKeepsAll(items: seq<AbiItem>, query: string)
    requires AllWhitespace(query)
    ensures FilterByQuery(items, query) == items
    decreases |items|
  {
    if items != [] {
      BlankQueryMatchesAll(items[0], Some(query));
      BlankFilterKeepsAll(items[1..], query);
      assert FilterByQuery(items, query) == [items[0]] + FilterByQuery(items[1..], query);
      HeadTail(items);
    }
  }

  lemma HeadTail<T>(s: seq<T>)
    requires s != []
    ensures [s[0]] + s[1..] == s
  {
  }
}
