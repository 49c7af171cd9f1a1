/** A Python `dict[str, str]`: entries in insertion order, assigning to an
    existing key keeps its place, a new key goes to the end. */
module OrderedDict {
  import opened Strings

  type Dict = seq<(string, string)>

  function Keys(d: Dict): seq<string> {
    seq(|d|, i requires 0 <= i < |d| => d[i].0)
  }

  predicate DistinctKeys(d: Dict) {
    forall i, j :: 0 <= i < j < |d| ==> d[i].0 != d[j].0
  }

  /** `d.get(k)`. */
  function Get(d: Dict, k: string): Option<string> {
    if d == [] then None
    else if d[0].0 == k then Some(d[0].1)
    else Get(d[1..], k)
  }

  lemma GetNone(d: Dict, k: string)
    ensures Get(d, k).None? <==> k !in Keys(d)
  {
    if d != [] {
      GetNone(d[1..], k);
      assert Keys(d) == [d[0].0] + Keys(d[1..]);
    }
  }

  /** `d.get(k, default)`. */
  function GetOr(d: Dict, k: string, default: string): string {
    match Get(d, k)
    case Some(v) => v
    case None => default
  }

  /** `d[k] = v`. */
  function Put(d: Dict, k: string, v: string): (r: Dict)
    ensures Get(r, k) == Some(v)
    ensures forall k' :: k' != k ==> Get(r, k') == Get(d, k')
    ensures forall e :: e in r ==> e in d || e == (k, v)
  {
    if d == [] then [(k, v)]
    else if d[0].0 == k then [(k, v)] + d[1..]
    else [d[0]] + Put(d[1..], k, v)
  }

  /** Assigning an existing key keeps every key in its place; a new key goes last. */
  lemma {:induction false} PutKeys(d: Dict, k: string, v: string)
    ensures Get(d, k).Some? ==> Keys(Put(d, k, v)) == Keys(d)
    ensures Get(d, k).None? ==> Keys(Put(d, k, v)) == Keys(d) + [k]
  {
    if d == [] {
      assert Keys(Put(d, k, v)) == [k];
    } else {
      var rest := d[1..];
      assert d == [d[0]] + rest;
      KeysCons(d[0], rest);
      if d[0].0 != k {
        PutKeys(rest, k, v);
        KeysCons(d[0], Put(rest, k, v));
      } else {
        KeysCons((k, v), rest);
      }
    }
  }

  lemma KeysCons(e: (string, string), d: Dict)
    ensures Keys([e] + d) == [e.0] + Keys(d)
  {
  }

  lemma DistinctKeysByKeys(d: Dict)
    ensures DistinctKeys(d) <==> forall i, j :: 0 <= i < j < |Keys(d)| ==> Keys(d)[i] != Keys(d)[j]
  {
    assert forall i :: 0 <= i < |d| ==> Keys(d)[i] == d[i].0;
  }

  /** `d.setdefault(k, v)`: a key already present keeps its value. */
  function SetDefault(d: Dict, k: string, v: string): (r: Dict)
    ensures Get(r, k) == if Get(d, k).Some? then Get(d, k) else Some(v)
    ensures forall k' :: k' != k ==> Get(r, k') == Get(d, k')
  {
    if Get(d, k).Some? then d else Put(d, k, v)
  }

  /** Each present entry of `es` assigned in turn, from an empty dict. */
  function PutEntries(es: seq<Option<(string, string)>>): Dict
    decreases |es|
  {
    if es == [] then []
    else
      var d := PutEntries(es[..|es| - 1]);
      var e := es[|es| - 1];
      if e.Some? then Put(d, e.value.0, e.value.1) else d
  }

  /** Assigning entries in turn never duplicates a key. */
  lemma {:induction false} PutEntriesDistinct(es: seq<Option<(string, string)>>)
    ensures DistinctKeys(PutEntries(es))
    decreases |es|
  {
    if es != [] {
      var d := PutEntries(es[..|es| - 1]);
      PutEntriesDistinct(es[..|es| - 1]);
      var e := es[|es| - 1];
      if e.Some? {
        PutDistinct(d, e.value.0, e.value.1);
      }
    }
  }

  /** Assignment never duplicates a key. */
  lemma PutDistinct(d: Dict, k: string, v: string)
    requires DistinctKeys(d)
    ensures DistinctKeys(Put(d, k, v))
  {
    PutKeys(d, k, v);
    DistinctKeysByKeys(d);
    DistinctKeysByKeys(Put(d, k, v));
    GetNone(d, k);
  }

  lemma GetInDistinct(d: Dict, i: nat)
    requires DistinctKeys(d) && i < |d|
    ensures Get(d, d[i].0) == Some(d[i].1)
  {
    if i > 0 {
      GetInDistinct(d[1..], i - 1);
    }
  }

  /** `d.get(k)` finds the first entry with key `k`. */
  lemma {:induction false} GetFirst(d: Dict, i: nat)
    requires i < |d| && forall j :: 0 <= j < i ==> d[j].0 != d[i].0
    ensures Get(d, d[i].0) == Some(d[i].1)
  {
    if i > 0 {
      GetFirst(d[1..], i - 1);
    }
  }

  /** `d.update(other)`: the entries of `other` are assigned in their order. */
  function Update(d: Dict, other: Dict): (r: Dict)
    requires DistinctKeys(other)
    ensures forall k :: Get(r, k) == if Get(other, k).Some? then Get(other, k) else Get(d, k)
    ensures DistinctKeys(d) ==> DistinctKeys(r)
    decreases |other|
  {
    if other == [] then d
    else
      assert forall k :: k != other[0].0 ==> Get(other, k) == Get(other[1..], k);
      assert other[0].0 !in Keys(other[1..]);
      GetNone(other[1..], other[0].0);
      assert DistinctKeys(d) ==> DistinctKeys(Put(d, other[0].0, other[0].1)) by {
        if DistinctKeys(d) {
          PutDistinct(d, other[0].0, other[0].1);
        }
      }
      Update(Put(d, other[0].0, other[0].1), other[1..])
  }

  /** Assigning a key already in the dictionary replaces its entry in place. */
  lemma {:induction false} PutAt(d: Dict, i: nat, v: string)
    requires DistinctKeys(d) && i < |d|
    ensures Put(d, d[i].0, v) == d[i := (d[i].0, v)]
  {
    if i > 0 {
      PutAt(d[1..], i - 1, v);
      assert d[1..][i - 1 := (d[i].0, v)] == d[i := (d[i].0, v)][1..];
    }
  }

  /** What `d.get(k)` finds is an entry of `d`. */
  lemma {:induction false} GetSome(d: Dict, k: string)
    requires Get(d, k).Some?
    ensures (k, Get(d, k).value) in d
  {
    if d[0].0 != k {
      GetSome(d[1..], k);
    }
  }

  /** Every entry after an update was an entry of one of the two dictionaries. */
  lemma {:induction false} UpdateEntries(d: Dict, other: Dict)
    requires DistinctKeys(other)
    ensures forall e :: e in Update(d, other) ==> e in d || e in other
    decreases |other|
  {
    if other != [] {
      UpdateEntries(Put(d, other[0].0, other[0].1), other[1..]);
    }
  }
}
