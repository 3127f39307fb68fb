/** JavaScript values as the front end handles them (parsed JSON, contract call results,
    metadata documents), with the property access, truthiness and object-spread rules the
    code relies on. Objects are ORDERED lists of fields: key order decides how a fold over
    `Object.keys` proceeds. */
module Js {

  datatype Option<+T> = None | Some(value: T)

  datatype Result<+T, +E> = Ok(value: T) | Err(error: E)

  /** A thrown JavaScript `Error`: its `name` and its `message`. */
  datatype Failure = Failure(name: string, message: string)

  /** `err?.message || String(err)`: an error's message, or, when that is empty, what
      `Error.prototype.toString` gives for an empty message, the error's name. */
  function Describe(e: Failure): (r: string)
    ensures e.message != "" ==> r == e.message
    ensures r == "" <==> e.message == "" && e.name == ""
  {
    if e.message != "" then e.message else e.name
  }

  type Field = (string, Value)

  /** A JavaScript value. Numbers are integers: floating point is not modelled. */
  datatype Value =
    | Undefined
    | Null
    | Bool(b: bool)
    | Num(n: int)
    | Str(s: string)
    | Arr(items: seq<Value>)
    | Obj(fields: seq<Field>)

  /** JavaScript truthiness (`!!v`). */
  predicate Truthy(v: Value) {
    match v
    case Undefined => false
    case Null => false
    case Bool(b) => b
    case Num(n) => n != 0
    case Str(s) => s != ""
    case Arr(_) => true
    case Obj(_) => true
  }

  /** `vs[0] || vs[1] || ... || vs[n - 1]`: the first truthy operand, or the last operand
      when none is truthy. */
  function OrChain(vs: seq<Value>): (r: Value)
    requires |vs| >= 1
    ensures Truthy(r) ==> exists i :: 0 <= i < |vs| && r == vs[i] && Truthy(vs[i]) && forall j :: 0 <= j < i ==> !Truthy(vs[j])
    ensures !Truthy(r) ==> r == vs[|vs| - 1] && forall i :: 0 <= i < |vs| ==> !Truthy(vs[i])
  {
    if |vs| == 1 || Truthy(vs[0]) then vs[0]
    else
      var r := OrChain(vs[1..]);
      assert forall j :: 1 <= j < |vs| ==> vs[j] == vs[1..][j - 1];
      r
  }

  /** `!!v && typeof v === 'string'` */
  predicate IsNonEmptyString(v: Value) {
    v.Str? && v.s != ""
  }

  /** The keys of an object's fields, in order (duplicates included). */
  function KeySeq(fields: seq<Field>): (ks: seq<string>)
    ensures |ks| == |fields|
    ensures forall i :: 0 <= i < |fields| ==> ks[i] == fields[i].0
  {
    if fields == [] then [] else [fields[0].0] + KeySeq(fields[1..])
  }

  /** The value stored under `key`: the first field with that key. */
  function Lookup(fields: seq<Field>, key: string): Option<Value> {
    if fields == [] then None
    else if fields[0].0 == key then Some(fields[0].1)
    else Lookup(fields[1..], key)
  }

  /** A key reads as absent exactly when no field carries it, and a value read is the
      value of a field with that key. */
  lemma {:induction false} LookupFound(fields: seq<Field>, key: string)
    ensures Lookup(fields, key).None? <==> key !in KeySeq(fields)
    ensures Lookup(fields, key).Some? ==> exists i :: 0 <= i < |fields| && fields[i] == (key, Lookup(fields, key).value)
    decreases |fields|
  {
    if fields != [] {
      assert KeySeq(fields) == [fields[0].0] + KeySeq(fields[1..]);
      if fields[0].0 != key {
        LookupFound(fields[1..], key);
        if Lookup(fields, key).Some? {
          var i :| 0 <= i < |fields[1..]| && fields[1..][i] == (key, Lookup(fields, key).value);
          assert fields[i + 1] == fields[1..][i];
        }
      }
    }
  }

  /** `obj[key] = v` on a copy: the first field with that key is replaced in place;
      a new key is appended (spread `{...obj, [key]: v}` keeps key positions). */
  function Set(fields: seq<Field>, key: string, v: Value): seq<Field>
  {
    if fields == [] then [(key, v)]
    else if fields[0].0 == key then [(key, v)] + fields[1..]
    else [fields[0]] + Set(fields[1..], key, v)
  }

  /** `Set` keeps the key order; a new key goes last. */
  lemma {:induction false} KeySeqSet(fields: seq<Field>, key: string, v: Value)
    ensures KeySeq(Set(fields, key, v)) == if key in KeySeq(fields) then KeySeq(fields) else KeySeq(fields) + [key]
    decreases |fields|
  {
    if fields != [] && fields[0].0 != key {
      KeySeqSet(fields[1..], key, v);
      var r := Set(fields, key, v);
      assert r == [fields[0]] + Set(fields[1..], key, v);
      assert KeySeq(r) == [fields[0].0] + KeySeq(Set(fields[1..], key, v));
      assert KeySeq(fields) == [fields[0].0] + KeySeq(fields[1..]);
    }
  }

  /** After `Set`, the key reads back the new value and every other key reads as before. */
  lemma {:induction false} LookupSet(fields: seq<Field>, key: string, v: Value)
    ensures forall k :: Lookup(Set(fields, key, v), k) == if k == key then Some(v) else Lookup(fields, k)
    decreases |fields|
  {
    if fields != [] && fields[0].0 != key {
      LookupSet(fields[1..], key, v);
      var r := Set(fields, key, v);
      assert r[0] == fields[0] && r[1..] == Set(fields[1..], key, v);
    }
  }

  /** Property access `v[key]` for a key that is not an array index or `length`:
      only an object's own fields answer; everything else gives `undefined`. */
  function Get(v: Value, key: string): (r: Value)
    ensures !v.Obj? ==> r == Undefined
    ensures v.Obj? && key !in KeySeq(v.fields) ==> r == Undefined
  {
    match v
    case Obj(fields) => LookupFound(fields, key); (match Lookup(fields, key) case Some(x) => x case None => Undefined)
    case _ => Undefined
  }

  predicate Distinct(s: seq<string>) {
    forall i, j :: 0 <= i < j < |s| ==> s[i] != s[j]
  }

  /** The keys in order of first occurrence: what `Object.keys` gives. */
  function Dedup(s: seq<string>): (r: seq<string>)
    ensures Distinct(r)
    ensures forall k :: k in r <==> k in s
    ensures Distinct(s) ==> r == s
  {
    if s == [] then []
    else
      var r := Dedup(s[..|s| - 1]);
      assert forall k :: k in s <==> k in s[..|s| - 1] || k == s[|s| - 1];
      if s[|s| - 1] in r then r else r + [s[|s| - 1]]
  }

  function ObjectKeys(fields: seq<Field>): (ks: seq<string>)
    ensures Distinct(ks)
    ensures forall k :: k in ks <==> k in KeySeq(fields)
  {
    Dedup(KeySeq(fields))
  }

  lemma {:induction false} LookupAppend(a: seq<Field>, b: seq<Field>, k: string)
    ensures Lookup(a + b, k) == if k in KeySeq(a) then Lookup(a, k) else Lookup(b, k)
    decreases |a|
  {
    if a == [] {
      assert a + b == b;
    } else {
      assert (a + b)[0] == a[0];
      assert (a + b)[1..] == a[1..] + b;
      assert KeySeq(a) == [a[0].0] + KeySeq(a[1..]);
      if a[0].0 != k {
        LookupAppend(a[1..], b, k);
      }
    }
  }

  /** A key that none of the first `i` fields carries reads the same in the suffix from
      `i` as in the whole list. */
  lemma {:induction false} LookupSuffix(fs: seq<Field>, i: nat, k: string)
    requires i <= |fs|
    requires forall j :: 0 <= j < i ==> fs[j].0 != k
    ensures Lookup(fs[i..], k) == Lookup(fs, k)
    decreases i
  {
    if i > 0 {
      var tail := fs[1..];
      assert tail[i - 1..] == fs[i..];
      assert forall j :: 0 <= j < i - 1 ==> tail[j] == fs[j + 1];
      LookupSuffix(tail, i - 1, k);
    }
  }

  /** The same, for a key absent from the first `i` keys. */
  lemma LookupAfterPrefix(fs: seq<Field>, i: nat, k: string)
    requires i <= |fs|
    requires k !in KeySeq(fs)[..i]
    ensures Lookup(fs[i..], k) == Lookup(fs, k)
  {
    var ks := KeySeq(fs);
    forall j | 0 <= j < i ensures fs[j].0 != k {
      assert ks[..i][j] == fs[j].0;
    }
    LookupSuffix(fs, i, k);
  }

  /** Setting a key that is not there appends it. */
  lemma {:induction false} SetAppends(a: seq<Field>, k: string, v: Value)
    requires forall i :: 0 <= i < |a| ==> a[i].0 != k
    ensures Set(a, k, v) == a + [(k, v)]
    decreases |a|
  {
    if a != [] {
      SetAppends(a[1..], k, v);
      assert a == [a[0]] + a[1..];
    }
  }

  /** Setting a key whose first occurrence is at `n` updates that position only. */
  lemma {:induction false} SetUpdates(s: seq<Field>, n: nat, k: string, y: Value)
    requires n < |s| && s[n].0 == k
    requires forall i :: 0 <= i < n ==> s[i].0 != k
    ensures Set(s, k, y) == s[n := (k, y)]
    decreases n
  {
    if n > 0 {
      SetUpdates(s[1..], n - 1, k, y);
      assert s[n := (k, y)] == [s[0]] + s[1..][n - 1 := (k, y)];
    }
  }

  // --- list reshaping, stated for any element type so that no field-level fact is in scope

  lemma TakeSnoc<T>(s: seq<T>, i: nat)
    requires i < |s|
    ensures s[..i + 1] == s[..i] + [s[i]]
  {
  }

  lemma DropCons<T>(s: seq<T>, i: nat)
    requires i < |s|
    ensures s[i..] == [s[i]] + s[i + 1..]
  {
  }

  lemma TakeTake<T>(s: seq<T>, i: nat)
    requires i < |s|
    ensures s[..i + 1][..i] == s[..i] && s[..i + 1][i] == s[i] && |s[..i + 1]| == i + 1
  {
  }

  lemma TakeAll<T>(s: seq<T>)
    ensures s[..|s|] == s
  {
  }

  lemma DropAll<T>(s: seq<T>)
    ensures s[|s|..] == [] && [] + s == s
  {
  }

  /** A whole prefix, then an empty suffix and a tail, is the sequence then the tail. */
  lemma WholeThenTail<T>(m: seq<T>, f: seq<T>, x: seq<T>)
    ensures m[..|m|] + (f[|f|..] + x) == m + x
  {
    TakeAll(m);
    DropAll(f);
  }

  lemma AppendShift<T>(m: seq<T>, f: T, rest: seq<T>, s: seq<T>, x: seq<T>)
    ensures (m + (([f] + rest) + s)) + x == (m + [f]) + (rest + (s + x))
  {
  }

  lemma UpdateShift<T>(m: seq<T>, f: T, rest: seq<T>, s: seq<T>, y: T)
    ensures (m + (([f] + rest) + s))[|m| := y] == (m + [y]) + (rest + s)
  {
  }

  lemma DistinctNotInPrefix(s: seq<string>, i: nat, j: nat)
    requires Distinct(s) && i <= j < |s|
    ensures s[j] !in s[..i]
  {
  }

  lemma DistinctDrop(s: seq<string>, i: nat)
    requires Distinct(s) && i <= |s|
    ensures Distinct(s[i..])
  {
    assert forall a :: 0 <= a < |s[i..]| ==> s[i..][a] == s[i + a];
  }

  lemma KeySeqDrop(fs: seq<Field>, i: nat)
    requires i <= |fs|
    ensures KeySeq(fs[i..]) == KeySeq(fs)[i..]
  {
  }
}
