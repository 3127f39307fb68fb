/** The JavaScript string operations the front end uses (`startsWith`, `endsWith`,
    `includes`, `replace` with a string pattern, `trim`, `toLowerCase`, `split` on one
    character, `join`, and number-to-decimal-string conversion), over `seq<char>`. */
module Text {
  import opened Js

  predicate StartsWith(s: string, prefix: string) {
    |prefix| <= |s| && s[..|prefix|] == prefix
  }

  predicate EndsWith(s: string, suffix: string) {
    |suffix| <= |s| && s[|s| - |suffix|..] == suffix
  }

  /** `pat` occurs in `s` at position `i`. */
  predicate OccursAt(s: string, pat: string, i: int) {
    0 <= i && i + |pat| <= |s| && s[i..i + |pat|] == pat
  }

  /** `s.indexOf(pat)`: the first position where `pat` occurs, if any. */
  function IndexOf(s: string, pat: string): (r: Option<nat>)
    ensures r.Some? ==> OccursAt(s, pat, r.value)
    ensures r.Some? ==> forall j :: 0 <= j < r.value ==> !OccursAt(s, pat, j)
    ensures r.None? ==> forall j :: !OccursAt(s, pat, j)
    decreases |s|
  {
    if |s| < |pat| then None
    else if s[..|pat|] == pat then Some(0)
    else
      match IndexOf(s[1..], pat)
      case None =>
        OccursShiftAll(s, pat);
        None
      case Some(i) =>
        OccursShiftAll(s, pat);
        Some(i + 1)
  }

  lemma OccursShiftAll(s: string, pat: string)
    requires s != []
    ensures forall j :: 1 <= j ==> (OccursAt(s, pat, j) <==> OccursAt(s[1..], pat, j - 1))
  {
    forall j | 1 <= j ensures OccursAt(s, pat, j) <==> OccursAt(s[1..], pat, j - 1) {
      if j + |pat| <= |s| {
        ShiftedSlice(s, j, |pat|);
      }
    }
  }

  /** A slice starting after the first character is the same slice of the tail. */
  lemma ShiftedSlice(s: string, j: nat, n: nat)
    requires 1 <= j && j + n <= |s|
    ensures s[j..j + n] == s[1..][j - 1..j - 1 + n]
  {
    var here, there := s[j..j + n], s[1..][j - 1..j - 1 + n];
    forall t | 0 <= t < n
      ensures here[t] == there[t]
    {
      assert here[t] == s[j + t];
      assert there[t] == s[1..][j - 1 + t] == s[j + t];
    }
    assert here == there;
  }

  /** `s.includes(sub)` */
  predicate Includes(s: string, sub: string) {
    IndexOf(s, sub).Some?
  }

  lemma IncludesAt(s: string, sub: string, i: int)
    requires OccursAt(s, sub, i)
    ensures Includes(s, sub)
  {
  }

  /** `s.replace(pat, rep)` with a string pattern: only the FIRST occurrence is replaced. */
  function ReplaceFirst(s: string, pat: string, rep: string): (r: string)
    ensures !Includes(s, pat) ==> r == s
  {
    match IndexOf(s, pat)
    case None => s
    case Some(i) => s[..i] + rep + s[i + |pat|..]
  }

  lemma StartsWithConcat(a: string, b: string)
    ensures StartsWith(a + b, a)
    ensures a != [] ==> (a + b)[0] == a[0]
  {
    assert (a + b)[..|a|] == a;
  }

  /** Replacing a pattern that the string starts with removes that prefix. */
  lemma ReplacePrefix(p: string, rest: string, rep: string)
    ensures ReplaceFirst(p + rest, p, rep) == rep + rest
  {
    assert OccursAt(p + rest, p, 0);
    assert (p + rest)[|p|..] == rest;
  }

  /** When `pat` does not occur in `p`, nor straddles its end, the first occurrence of `pat`
      in `p + pat` is the suffix itself. */
  lemma ReplaceSuffix(p: string, pat: string, rep: string)
    requires forall j :: 0 <= j < |p| ==> !OccursAt(p + pat, pat, j)
    ensures ReplaceFirst(p + pat, pat, rep) == p + rep
  {
    var s := p + pat;
    assert OccursAt(s, pat, |p|);
    assert IndexOf(s, pat) == Some(|p|);
    assert s[..|p|] == p;
    assert s[|p| + |pat|..] == [];
  }

  /** The characters `trim` removes: ECMAScript WhiteSpace and LineTerminator. */
  predicate IsWhitespace(c: char) {
    c == '\t' || c == '\n' || c == '\U{000B}' || c == '\U{000C}' || c == '\r' || c == ' '
    || c == '\U{00A0}' || c == '\U{1680}' || ('\U{2000}' <= c <= '\U{200A}')
    || c == '\U{2028}' || c == '\U{2029}' || c == '\U{202F}' || c == '\U{205F}'
    || c == '\U{3000}' || c == '\U{FEFF}'
  }

  predicate AllWhitespace(s: string) {
    forall i :: 0 <= i < |s| ==> IsWhitespace(s[i])
  }

  function TrimStart(s: string): (r: string)
    ensures |r| <= |s| && s[|s| - |r|..] == r
    ensures r == [] || !IsWhitespace(r[0])
    ensures AllWhitespace(s[..|s| - |r|])
  {
    if s != [] && IsWhitespace(s[0]) then
      var r := TrimStart(s[1..]);
      assert s[1..][..|s| - 1 - |r|] == s[1..|s| - |r|];
      r
    else s
  }

  function TrimEnd(s: string): (r: string)
    ensures |r| <= |s| && s[..|r|] == r
    ensures r == [] || !IsWhitespace(r[|r| - 1])
    ensures AllWhitespace(s[|r|..])
  {
    if s != [] && IsWhitespace(s[|s| - 1]) then
      var r := TrimEnd(s[..|s| - 1]);
      assert s[..|s| - 1][|r|..] + [s[|s| - 1]] == s[|r|..];
      r
    else s
  }

  /** `s.trim()` */
  function Trim(s: string): string {
    TrimEnd(TrimStart(s))
  }

  lemma TrimAllWhitespace(s: string)
    ensures Trim(s) == "" <==> AllWhitespace(s)
  {
    var t := TrimStart(s);
    if Trim(s) == "" {
      assert t[0..] == t;
      assert s[..|s| - |t|] == s;
    }
  }

  /** `toLowerCase` on one character. Only the ASCII letters are mapped: Unicode case
      folding beyond ASCII is not modelled. */
  function LowerChar(c: char): char {
    if 'A' <= c <= 'Z' then (c as int + 32) as char else c
  }

  function ToLower(s: string): (r: string)
    ensures |r| == |s|
    ensures forall i :: 0 <= i < |s| ==> r[i] == LowerChar(s[i])
  {
    if s == [] then [] else [LowerChar(s[0])] + ToLower(s[1..])
  }

  lemma ToLowerAppend(a: string, b: string)
    ensures ToLower(a + b) == ToLower(a) + ToLower(b)
  {
    assert forall i :: 0 <= i < |a + b| ==> ToLower(a + b)[i] == (ToLower(a) + ToLower(b))[i];
  }

  lemma ToLowerIdempotent(s: string)
    ensures ToLower(ToLower(s)) == ToLower(s)
  {
    assert forall i :: 0 <= i < |s| ==> ToLower(ToLower(s))[i] == ToLower(s)[i];
  }

  /** Lower-casing never creates or removes whitespace, so it commutes with `trim`. */
  lemma {:induction false} LowerTrimCommute(s: string)
    ensures ToLower(Trim(s)) == Trim(ToLower(s))
  {
    LowerTrimStart(s);
    LowerTrimEnd(TrimStart(s));
  }

  lemma LowerKeepsWhitespace(c: char)
    ensures IsWhitespace(LowerChar(c)) == IsWhitespace(c)
  {
  }

  lemma {:induction false} LowerTrimStart(s: string)
    ensures ToLower(TrimStart(s)) == TrimStart(ToLower(s))
    decreases |s|
  {
    if s != [] {
      var l := ToLower(s);
      assert l[0] == LowerChar(s[0]);
      assert l[1..] == ToLower(s[1..]);
      LowerKeepsWhitespace(s[0]);
      if IsWhitespace(s[0]) {
        assert TrimStart(s) == TrimStart(s[1..]);
        assert TrimStart(l) == TrimStart(l[1..]);
        LowerTrimStart(s[1..]);
      }
    }
  }

  lemma ToLowerInit(s: string)
    requires s != []
    ensures ToLower(s)[..|s| - 1] == ToLower(s[..|s| - 1])
    ensures ToLower(s)[|s| - 1] == LowerChar(s[|s| - 1])
  {
  }

  lemma TrimEndStep(s: string)
    requires s != []
    ensures TrimEnd(s) == if IsWhitespace(s[|s| - 1]) then TrimEnd(s[..|s| - 1]) else s
  {
  }

  lemma {:induction false} LowerTrimEnd(s: string)
    ensures ToLower(TrimEnd(s)) == TrimEnd(ToLower(s))
    decreases |s|
  {
    if s != [] {
      var l := ToLower(s);
      ToLowerInit(s);
      LowerKeepsWhitespace(s[|s| - 1]);
      TrimEndStep(s);
      TrimEndStep(l);
      if IsWhitespace(s[|s| - 1]) {
        LowerTrimEnd(s[..|s| - 1]);
      }
    }
  }

  /** `parts.join(sep)` */
  function Join(parts: seq<string>, sep: string): string
    decreases |parts|
  {
    if |parts| == 0 then ""
    else if |parts| == 1 then parts[0]
    else parts[0] + sep + Join(parts[1..], sep)
  }

  lemma JoinPrepend(x: string, parts: seq<string>, sep: string)
    requires |parts| >= 1
    ensures Join([x + parts[0]] + parts[1..], sep) == x + Join(parts, sep)
  {
    var ps := [x + parts[0]] + parts[1..];
    assert ps[1..] == parts[1..];
  }

  /** In `a + [c] + j` with `c` not in `a`, the first `c` is right after `a`. */
  lemma FirstSeparator(a: string, j: string, c: char)
    requires c !in a
    ensures (a + [c] + j)[|a|] == c
    ensures forall k :: 0 <= k < |a| ==> (a + [c] + j)[k] != c
  {
    assert forall k :: 0 <= k < |a| ==> (a + [c] + j)[k] == a[k];
  }

  /** Joining parts that do not contain `c` with `c` loses nothing: the parts can be read
      back from the joined string. */
  lemma {:induction false} JoinInjective(r1: seq<string>, r2: seq<string>, c: char)
    requires |r1| >= 1 && |r2| >= 1
    requires forall i :: 0 <= i < |r1| ==> c !in r1[i]
    requires forall i :: 0 <= i < |r2| ==> c !in r2[i]
    requires Join(r1, [c]) == Join(r2, [c])
    ensures r1 == r2
    decreases |r1|
  {
    var s := Join(r1, [c]);
    if |r1| >= 2 {
      assert s == r1[0] + [c] + Join(r1[1..], [c]);
      FirstSeparator(r1[0], Join(r1[1..], [c]), c);
    }
    if |r2| >= 2 {
      assert s == r2[0] + [c] + Join(r2[1..], [c]);
      FirstSeparator(r2[0], Join(r2[1..], [c]), c);
    }
    assert |r1| >= 2 <==> |r2| >= 2;
    if |r1| >= 2 {
      var a, b := r1[0], r2[0];
      var j1, j2 := Join(r1[1..], [c]), Join(r2[1..], [c]);
      assert |a| == |b|;
      assert a == s[..|a|] == b;
      assert j1 == s[|a| + 1..] == j2;
      JoinInjective(r1[1..], r2[1..], c);
      assert r1 == [a] + r1[1..] && r2 == [b] + r2[1..];
    }
  }

  /** `s.split(c)` for a one-character separator: there is always at least one part,
      empty parts are kept, and joining the parts back gives `s`. */
  function Split(s: string, c: char): (r: seq<string>)
    ensures |r| >= 1
    ensures forall i :: 0 <= i < |r| ==> c !in r[i]
    ensures Join(r, [c]) == s
    ensures c !in s ==> r == [s]
  {
    if s == [] then [""]
    else
      var rest := Split(s[1..], c);
      if s[0] == c then
        assert Join([""] + rest, [c]) == [c] + Join(rest, [c]) by {
          assert ([""] + rest)[1..] == rest;
        }
        assert s == [c] + s[1..];
        [""] + rest
      else
        var r := [[s[0]] + rest[0]] + rest[1..];
        JoinPrepend([s[0]], rest, [c]);
        assert s == [s[0]] + s[1..];
        assert forall i :: 1 <= i < |r| ==> r[i] == rest[i];
        r
  }

  /** Two separator-free segments at the front, followed by nothing or by a separator,
      are the first two parts of the split. */
  lemma SplitLeadingPair(a: string, b: string, rest: string, c: char)
    requires c !in a && c !in b
    requires rest == [] || rest[0] == c
    ensures var r := Split(a + [c] + b + rest, c);
      |r| >= 2 && r[0] == a && r[1] == b
  {
    var s := a + [c] + b + rest;
    var more := if rest == [] then [] else Split(rest[1..], c);
    var want := [a, b] + more;
    assert Join([b] + more, [c]) == b + rest by {
      if rest != [] {
        assert ([b] + more)[1..] == more;
        assert rest == [c] + rest[1..];
      }
    }
    assert want[1..] == [b] + more;
    assert Join(want, [c]) == a + [c] + (b + rest);
    assert a + [c] + (b + rest) == s;
    assert forall i :: 0 <= i < |want| ==> c !in want[i];
    JoinInjective(Split(s, c), want, c);
  }

  predicate IsDigit(c: char) {
    '0' <= c <= '9'
  }

  function DigitChar(d: nat): (c: char)
    requires d < 10
    ensures IsDigit(c)
  {
    ('0' as int + d) as char
  }

  /** `String(n)` for a non-negative integer: its decimal digits. */
  function NatToString(n: nat): (r: string)
    ensures |r| >= 1
    ensures forall i :: 0 <= i < |r| ==> IsDigit(r[i])
    ensures n >= 10 ==> |r| >= 2
  {
    if n < 10 then [DigitChar(n)] else NatToString(n / 10) + [DigitChar(n % 10)]
  }

  /** Distinct numbers have distinct decimal strings. */
  lemma {:induction false} NatToStringInjective(a: nat, b: nat)
    requires NatToString(a) == NatToString(b)
    ensures a == b
    decreases a
  {
    if a >= 10 && b >= 10 {
      var sa, sb := NatToString(a), NatToString(b);
      assert sa[|sa| - 1] == DigitChar(a % 10) && sb[|sb| - 1] == DigitChar(b % 10);
      assert sa[..|sa| - 1] == NatToString(a / 10);
      assert sb[..|sb| - 1] == NatToString(b / 10);
      NatToStringInjective(a / 10, b / 10);
    }
  }

  /** `String(n)` for any integer. */
  function IntToString(n: int): (r: string)
    ensures n >= 0 ==> r == NatToString(n)
    ensures n < 0 ==> r == "-" + NatToString(-n)
  {
    if n >= 0 then NatToString(n) else "-" + NatToString(-n)
  }

  /** `String(v)`, what a template literal `${v}` inserts: arrays are joined with ","
      (null and undefined elements give ""), objects give "[object Object]". */
  function JsString(v: Value): (r: string)
    ensures v.Str? ==> r == v.s
    ensures v.Undefined? ==> r == "undefined"
    ensures v.Null? ==> r == "null"
    decreases v, 1
  {
    match v
    case Undefined => "undefined"
    case Null => "null"
    case Bool(b) => if b then "true" else "false"
    case Num(n) => IntToString(n)
    case Str(s) => s
    case Arr(items) => Join(ElementStrings(v, items), ",")
    case Obj(_) => "[object Object]"
  }

  /** The strings `Array.prototype.join` makes of the elements of `whole`. */
  function ElementStrings(whole: Value, items: seq<Value>): (r: seq<string>)
    requires forall x :: x in items ==> x < whole
    ensures |r| == |items|
    decreases whole, 0, |items|
  {
    if items == [] then []
    else
      assert items[0] in items;
      assert forall x :: x in items[1..] ==> x in items;
      [if items[0].Null? || items[0].Undefined? then "" else JsString(items[0])]
      + ElementStrings(whole, items[1..])
  }
}
