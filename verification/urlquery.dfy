/**
  The query part of a URL as an f-string writes it and a page reads it:
  `key=value` fields joined by `&`, with nothing escaped. Reading takes
  `q.split("&")` and returns the text after the first `=` of the first
  field whose key matches; there is no percent-decoding.
 */
module UrlQuery {
  import opened Wrappers

  predicate Lacks(s: string, c: char) {
    forall i :: 0 <= i < |s| ==> s[i] != c
  }

  /** One `key=value` field. */
  function Field(key: string, value: string): string {
    key + "=" + value
  }

  /** `"&".join(parts)`. */
  function Join(parts: seq<string>): string
    decreases |parts|
  {
    if |parts| == 0 then ""
    else if |parts| == 1 then parts[0]
    else parts[0] + "&" + Join(parts[1..])
  }

  /** The index of the first `c` in `s`, or `|s|` when there is none. */
  function Find(s: string, c: char): (k: nat)
    ensures k <= |s|
    ensures forall i :: 0 <= i < k ==> s[i] != c
    ensures k < |s| ==> s[k] == c
  {
    if s == [] || s[0] == c then 0 else 1 + Find(s[1..], c)
  }

  /** `q.split("&")`: the pieces between consecutive `&`, in order. */
  function SplitAmp(q: string): (parts: seq<string>)
    ensures |parts| > 0
    decreases |q|
  {
    var k := Find(q, '&');
    if k == |q| then [q] else [q[..k]] + SplitAmp(q[k + 1..])
  }

  /** The value of the first field named `key`; `None` when no field has that name. */
  function Lookup(parts: seq<string>, key: string): Option<string>
    decreases |parts|
  {
    if parts == [] then None
    else
      var p := parts[0];
      var k := Find(p, '=');
      if k < |p| && p[..k] == key then Some(p[k + 1..]) else Lookup(parts[1..], key)
  }

  /** What the page reads for `key` in the query `q`. */
  function FieldValue(q: string, key: string): Option<string> {
    Lookup(SplitAmp(q), key)
  }

  predicate NoAmps(parts: seq<string>) {
    forall i :: 0 <= i < |parts| ==> Lacks(parts[i], '&')
  }

  /** Splitting on `&` undoes joining on `&` when no part holds an `&`. */
  lemma {:induction false} SplitJoin(parts: seq<string>)
    requires |parts| > 0 && NoAmps(parts)
    ensures SplitAmp(Join(parts)) == parts
    decreases |parts|
  {
    var p := parts[0];
    if |parts| == 1 {
      assert Find(p, '&') == |p|;
    } else {
      var rest := Join(parts[1..]);
      var q := p + "&" + rest;
      assert q[|p|] == '&';
      assert Find(q, '&') == |p| by {
        FindStops(q, '&', |p|);
      }
      assert q[..|p|] == p;
      assert q[|p| + 1..] == rest;
      SplitJoin(parts[1..]);
      assert parts == [p] + parts[1..];
    }
  }

  /** `Find` returns the first occurrence. */
  lemma {:induction false} FindStops(s: string, c: char, k: nat)
    requires k < |s| && s[k] == c && Lacks(s[..k], c)
    ensures Find(s, c) == k
    decreases k
  {
    if k > 0 {
      assert s[0] == s[..k][0];
      assert s[1..][..k - 1] == s[..k][1..];
      FindStops(s[1..], c, k - 1);
    }
  }

  /** A field splits at the `=` after its key when the key holds no `=`. */
  lemma FieldParts(key: string, value: string)
    requires Lacks(key, '=')
    ensures var f := Field(key, value);
      && Find(f, '=') == |key| && f[..|key|] == key && f[|key| + 1..] == value
  {
    var f := Field(key, value);
    assert f[..|key|] == key;
    FindStops(f, '=', |key|);
  }

  /** The fields of a query, each `key=value`, in order. */
  function Parts(fields: seq<(string, string)>): (parts: seq<string>)
    ensures |parts| == |fields|
    ensures forall i :: 0 <= i < |fields| ==> parts[i] == Field(fields[i].0, fields[i].1)
  {
    if fields == [] then [] else [Field(fields[0].0, fields[0].1)] + Parts(fields[1..])
  }

  /** The query text for a list of `(key, value)` fields. */
  function Query(fields: seq<(string, string)>): string {
    Join(Parts(fields))
  }

  /** Fields a reader can take apart: no `=` or `&` in a key and no `&` in a value. */
  predicate Readable(fields: seq<(string, string)>) {
    forall i :: 0 <= i < |fields| ==>
      Lacks(fields[i].0, '=') && Lacks(fields[i].0, '&') && Lacks(fields[i].1, '&')
  }

  /** The first field named `key` is found, and its value returned, even when later fields share the name. */
  lemma {:induction false} LookupFirst(fields: seq<(string, string)>, j: nat)
    requires j < |fields| && Readable(fields)
    requires forall i :: 0 <= i < j ==> fields[i].0 != fields[j].0
    ensures Lookup(Parts(fields), fields[j].0) == Some(fields[j].1)
    decreases j
  {
    var ps := Parts(fields);
    var key := fields[j].0;
    FieldParts(fields[0].0, fields[0].1);
    if j > 0 {
      assert ps[0][..|fields[0].0|] != key;
      assert Lookup(ps, key) == Lookup(ps[1..], key);
      assert ps[1..] == Parts(fields[1..]);
      LookupFirst(fields[1..], j - 1);
    }
  }

  /** Reading back a query: the value of every field is found under its key, the first of equal keys winning. */
  lemma ReadBack(fields: seq<(string, string)>, j: nat)
    requires j < |fields| && Readable(fields)
    requires forall i :: 0 <= i < j ==> fields[i].0 != fields[j].0
    ensures FieldValue(Query(fields), fields[j].0) == Some(fields[j].1)
  {
    var ps := Parts(fields);
    forall i | 0 <= i < |ps|
      ensures Lacks(ps[i], '&')
    {
      var key := fields[i].0;
      assert forall m :: 0 <= m < |ps[i]| ==>
        ps[i][m] == (if m < |key| then key[m] else if m == |key| then '=' else fields[i].1[m - |key| - 1]);
    }
    SplitJoin(ps);
    LookupFirst(fields, j);
  }

  predicate EndsWith(s: string, v: string) {
    |s| >= |v| && s[|s| - |v|..] == v
  }

  lemma EndsWithCat(t: string, s: string, v: string)
    requires EndsWith(s, v)
    ensures EndsWith(t + s, v)
  {
    assert (t + s)[|t + s| - |v|..] == s[|s| - |v|..];
  }

  /** The query of four fields is the four `key=value` texts joined by `&`. */
  lemma QueryOfFour(k0: string, v0: string, k1: string, v1: string, k2: string, v2: string, k3: string, v3: string)
    ensures Query([(k0, v0), (k1, v1), (k2, v2), (k3, v3)])
      == Field(k0, v0) + "&" + (Field(k1, v1) + "&" + (Field(k2, v2) + "&" + Field(k3, v3)))
  {
    var ps := Parts([(k0, v0), (k1, v1), (k2, v2), (k3, v3)]);
    assert ps == [Field(k0, v0), Field(k1, v1), Field(k2, v2), Field(k3, v3)];
    var tail := ps[2] + "&" + ps[3];
    assert Join(ps[2..]) == tail by {
      assert ps[2..][1..] == [ps[3]];
    }
    assert Join(ps[1..]) == ps[1] + "&" + tail by {
      assert ps[1..][1..] == ps[2..];
    }
  }
}
