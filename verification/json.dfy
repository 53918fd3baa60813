/**
  Decoded JSON values as the explain formatter and the cluster verifier see them. Objects are
  Python dicts: an ordered list of entries whose assignment `d[k] = v` replaces the value of an
  existing key in place and appends a new key at the end.
*/
module Json {
  import opened Base

  datatype Json =
    | JNull
    | JBool(b: bool)
    | JNum(text: string)
    | JStr(s: string)
    | JList(items: seq<Json>)
    | JObj(entries: seq<(string, Json)>)

  type Dict = seq<(string, Json)>

  /** The keys of a dict in insertion order. */
  function Keys(d: Dict): (ks: seq<string>)
    decreases |d|
    ensures |ks| == |d|
  {
    if |d| == 0 then [] else [d[0].0] + Keys(d[1..])
  }

  /** `d.get(k)`: the value stored under the first entry with key k. */
  function Lookup(d: Dict, k: string): (r: Option<Json>)
    decreases |d|
    ensures r.None? <==> k !in Keys(d)
  {
    if |d| == 0 then None
    else if d[0].0 == k then Some(d[0].1)
    else Lookup(d[1..], k)
  }

  /** No key appears twice, as in every Python dict. */
  predicate UniqueKeys(d: Dict) {
    forall i, j :: 0 <= i < j < |d| ==> d[i].0 != d[j].0
  }

  /** Python's `d[k] = v`. */
  function Put(d: Dict, k: string, v: Json): (r: Dict)
    decreases |d|
    ensures Lookup(r, k) == Some(v)
    ensures forall k2 :: k2 != k ==> Lookup(r, k2) == Lookup(d, k2)
    ensures Keys(r) == if k in Keys(d) then Keys(d) else Keys(d) + [k]
  {
    if |d| == 0 then [(k, v)]
    else if d[0].0 == k then [(k, v)] + d[1..]
    else
      var rest := Put(d[1..], k, v);
      assert ([d[0]] + rest)[1..] == rest;
      [d[0]] + rest
  }

  /** Distinct keys in insertion order give a dict with unique keys. */
  lemma {:induction false} KeysDistinctUnique(d: Dict)
    requires forall i, j :: 0 <= i < j < |Keys(d)| ==> Keys(d)[i] != Keys(d)[j]
    ensures UniqueKeys(d)
    decreases |d|
  {
    if |d| > 0 {
      assert forall i :: 0 <= i < |d| ==> Keys(d)[i] == d[i].0 by {
        KeysAt(d);
      }
    }
  }

  lemma {:induction false} KeysAt(d: Dict)
    ensures forall i :: 0 <= i < |d| ==> Keys(d)[i] == d[i].0
    decreases |d|
  {
    if |d| > 0 {
      KeysAt(d[1..]);
    }
  }

  /** Putting never introduces a duplicate key. */
  lemma PutUnique(d: Dict, k: string, v: Json)
    requires UniqueKeys(d)
    ensures UniqueKeys(Put(d, k, v))
  {
    var r := Put(d, k, v);
    KeysAt(d);
    KeysAt(r);
    var ks := Keys(d);
    assert forall i, j :: 0 <= i < j < |ks| ==> ks[i] != ks[j];
    var rs := Keys(r);
    forall i, j | 0 <= i < j < |rs| ensures rs[i] != rs[j] {
      if k !in ks {
        assert rs == ks + [k];
        if j == |ks| { assert rs[i] == ks[i]; }
      }
    }
    KeysDistinctUnique(r);
  }

  /** The dict that a loop of assignments `d[k] = v` over the pairs builds, starting empty. */
  function DictFrom(pairs: seq<(string, Json)>): (d: Dict)
    decreases |pairs|
  {
    if |pairs| == 0 then []
    else Put(DictFrom(pairs[..|pairs| - 1]), pairs[|pairs| - 1].0, pairs[|pairs| - 1].1)
  }

  /** The value of the last pair with key k: the reference meaning of "a later duplicate overwrites". */
  function LastFor(pairs: seq<(string, Json)>, k: string): Option<Json>
    decreases |pairs|
  {
    if |pairs| == 0 then None
    else if pairs[|pairs| - 1].0 == k then Some(pairs[|pairs| - 1].1)
    else LastFor(pairs[..|pairs| - 1], k)
  }

  /** Every key of the built dict maps to the value of the last pair that assigned it, and keys stay unique. */
  lemma {:induction false} DictFromLastWins(pairs: seq<(string, Json)>, k: string)
    ensures Lookup(DictFrom(pairs), k) == LastFor(pairs, k)
    ensures UniqueKeys(DictFrom(pairs))
    decreases |pairs|
  {
    if |pairs| > 0 {
      var init := pairs[..|pairs| - 1];
      DictFromLastWins(init, k);
      PutUnique(DictFrom(init), pairs[|pairs| - 1].0, pairs[|pairs| - 1].1);
    }
  }

  /** `j.get(k)` on an object; None on any other value, where Python would raise. */
  function Member(j: Json, k: string): Option<Json> {
    if j.JObj? then Lookup(j.entries, k) else None
  }

  /** `j[k] = v` on an object. */
  function WithMember(j: Json, k: string, v: Json): (r: Json)
    requires j.JObj?
    ensures r.JObj?
    ensures Member(r, k) == Some(v)
    ensures forall k2 :: k2 != k ==> Member(r, k2) == Member(j, k2)
  {
    JObj(Put(j.entries, k, v))
  }

  /** A Python list of strings as a JSON array. */
  function Strs(xs: seq<string>): (r: seq<Json>)
    ensures |r| == |xs|
    ensures forall i :: 0 <= i < |xs| ==> r[i] == JStr(xs[i])
  {
    seq(|xs|, i requires 0 <= i < |xs| => JStr(xs[i]))
  }
  // ---------------------------------------------------------------------------
  // Nested subscripts: `data["root"]["children"][0]...`
  // ---------------------------------------------------------------------------

  /** One subscript: an object member or a list element. */
  datatype PathStep = Field(name: string) | Element(index: nat)

  /** Reading `j[s0][s1]...`: None where Python raises (missing key, index out of range, wrong kind of value). */
  function Get(j: Json, path: seq<PathStep>): Option<Json>
    decreases |path|
  {
    if |path| == 0 then Some(j)
    else match path[0]
      case Field(k) => (match Member(j, k) case Some(c) => Get(c, path[1..]) case None => None)
      case Element(i) => if j.JList? && i < |j.items| then Get(j.items[i], path[1..]) else None
  }

  /** Assigning `j[s0]...[sn] = v` in place, on a path that can be read. */
  function Set(j: Json, path: seq<PathStep>, v: Json): (r: Json)
    requires Get(j, path).Some?
    decreases |path|
    ensures Get(r, path) == Some(v)
  {
    if |path| == 0 then v
    else match path[0]
      case Field(k) =>
        var c := Set(Member(j, k).value, path[1..], v);
        var r := WithMember(j, k, c);
        assert Member(r, k) == Some(c);
        r
      case Element(i) =>
        var c := Set(j.items[i], path[1..], v);
        JList(j.items[i := c])
  }

  /** Two paths that name different subscripts at some common depth, so neither lies inside the other. */
  predicate Diverge(p: seq<PathStep>, q: seq<PathStep>)
    decreases |p|
  {
    |p| > 0 && |q| > 0 && (p[0] != q[0] || Diverge(p[1..], q[1..]))
  }

  /** An assignment through one path leaves every path that diverges from it as it was. */
  lemma {:induction false} SetElsewhere(j: Json, p: seq<PathStep>, v: Json, q: seq<PathStep>)
    requires Get(j, p).Some?
    requires Diverge(p, q)
    ensures Get(Set(j, p, v), q) == Get(j, q)
    decreases |p|
  {
    var r := Set(j, p, v);
    if p[0] == q[0] {
      match p[0]
      case Field(k) =>
        SetElsewhere(Member(j, k).value, p[1..], v, q[1..]);
      case Element(i) =>
        SetElsewhere(j.items[i], p[1..], v, q[1..]);
    }
  }
}
