/**
  The generic document values a parsed benchmark specification is made of, and
  Python's insertion-ordered dictionaries over them.

  A dictionary is a sequence of (key, value) entries in insertion order, which is
  the order `dict.items()` iterates in. Assigning to an existing key keeps its
  position; assigning to a new key appends it; deleting removes it.
 */
module Documents {
  import opened Results

  /** A node of a parsed YAML document. */
  datatype Value =
    | Null
    | Bool(b: bool)
    | Int(i: int)
    | Float(f: real)
    | Str(s: string)
    | List(items: seq<Value>)
    | Mapping(entries: seq<(string, Value)>)

  /** A Python dict with string keys, in insertion order. */
  type Dict = seq<(string, Value)>

  function Keys(d: Dict): (ks: seq<string>)
  {
    seq(|d|, i requires 0 <= i < |d| => d[i].0)
  }


  predicate Distinct(ks: seq<string>)
  {
    forall i, j :: 0 <= i < j < |ks| ==> ks[i] != ks[j]
  }

  /** What every Python dict satisfies: no key occurs twice. */
  predicate UniqueKeys(d: Dict)
  {
    Distinct(Keys(d))
  }

  /** `d.get(k)`: the value of the first entry with key `k`. */
  function Get(d: Dict, k: string): Option<Value>
  {
    if |d| == 0 then None
    else if d[0].0 == k then Some(d[0].1)
    else Get(d[1..], k)
  }

  /** `k in d` */
  predicate HasKey(d: Dict, k: string)
  {
    Get(d, k).Some?
  }

  /** A dict has a key exactly when the key is among those it iterates over. */
  lemma {:induction false} HasKeyIffInKeys(d: Dict, k: string)
    ensures HasKey(d, k) <==> k in Keys(d)
  {
    if |d| > 0 {
      assert Keys(d) == [d[0].0] + Keys(d[1..]);
      HasKeyIffInKeys(d[1..], k);
    }
  }

  /** With unique keys, looking up an entry's key gives that entry's value. */
  lemma {:induction false} GetEntry(d: Dict, i: nat)
    requires UniqueKeys(d) && i < |d|
    ensures Get(d, d[i].0) == Some(d[i].1)
  {
    if i > 0 {
      assert Keys(d[1..]) == Keys(d)[1..];
      assert d[0].0 == Keys(d)[0] != Keys(d)[i] == d[i].0;
      GetEntry(d[1..], i - 1);
    }
  }

  /** `d[k] = v`: afterwards `k` maps to `v` and every other key is unchanged. */
  function Put(d: Dict, k: string, v: Value): (r: Dict)
    ensures Get(r, k) == Some(v)
    ensures forall j :: j != k ==> Get(r, j) == Get(d, j)
  {
    if |d| == 0 then [(k, v)]
    else if d[0].0 == k then [(k, v)] + d[1..]
    else [d[0]] + Put(d[1..], k, v)
  }

  lemma KeysCons(e: (string, Value), d: Dict)
    ensures Keys([e] + d) == [e.0] + Keys(d)
  {
  }

  /** Assignment replaces the value in place when `k` is present and appends `k` otherwise. */
  lemma {:induction false} PutKeys(d: Dict, k: string, v: Value)
    ensures Keys(Put(d, k, v)) == if HasKey(d, k) then Keys(d) else Keys(d) + [k]
  {
    if |d| > 0 {
      assert d == [d[0]] + d[1..];
      KeysCons(d[0], d[1..]);
      if d[0].0 == k {
        KeysCons((k, v), d[1..]);
      } else {
        PutKeys(d[1..], k, v);
        KeysCons(d[0], Put(d[1..], k, v));
      }
    }
  }

  /** `del d[k]`: afterwards `k` is absent and every other key is unchanged. */
  function Delete(d: Dict, k: string): (r: Dict)
    ensures !HasKey(r, k)
    ensures forall j :: j != k ==> Get(r, j) == Get(d, j)
  {
    if |d| == 0 then []
    else if d[0].0 == k then Delete(d[1..], k)
    else [d[0]] + Delete(d[1..], k)
  }

  /** Assignment keeps a dict's keys unique. */
  lemma PutKeepsUniqueKeys(d: Dict, k: string, v: Value)
    requires UniqueKeys(d)
    ensures UniqueKeys(Put(d, k, v))
  {
    PutKeys(d, k, v);
    HasKeyIffInKeys(d, k);
  }

  /** Deletion only removes keys. */
  lemma {:induction false} DeleteKeys(d: Dict, k: string)
    ensures forall i :: 0 <= i < |Delete(d, k)| ==> Delete(d, k)[i].0 in Keys(d)
  {
    if |d| > 0 {
      assert Keys(d) == [d[0].0] + Keys(d[1..]);
      DeleteKeys(d[1..], k);
    }
  }

  /** Deletion keeps a dict's keys unique. */
  lemma {:induction false} DeleteKeepsUniqueKeys(d: Dict, k: string)
    requires UniqueKeys(d)
    ensures UniqueKeys(Delete(d, k))
  {
    if |d| > 0 {
      assert Keys(d[1..]) == Keys(d)[1..];
      DeleteKeepsUniqueKeys(d[1..], k);
      var rest := Delete(d[1..], k);
      if d[0].0 != k {
        assert Keys([d[0]] + rest) == [d[0].0] + Keys(rest);
        DeleteKeys(d[1..], k);
        forall i | 0 <= i < |rest| ensures rest[i].0 != d[0].0 {
          assert rest[i].0 in Keys(d[1..]);
          var j :| 0 <= j < |d| - 1 && Keys(d[1..])[j] == rest[i].0;
          assert Keys(d)[j + 1] == rest[i].0 && Keys(d)[0] == d[0].0;
        }
      }
    }
  }

  predicate IsText(o: Option<Value>)
  {
    o.Some? && o.value.Str?
  }

  predicate AllText(vs: seq<Value>)
  {
    forall i :: 0 <= i < |vs| ==> vs[i].Str?
  }

  predicate IsList(o: Option<Value>)
  {
    o.Some? && o.value.List?
  }

  predicate IsTextList(o: Option<Value>)
  {
    IsList(o) && AllText(o.value.items)
  }

  predicate IsMapping(o: Option<Value>)
  {
    o.Some? && o.value.Mapping?
  }

  /** The strings of a list whose items are all strings. */
  function Texts(vs: seq<Value>): seq<string>
    requires AllText(vs)
  {
    seq(|vs|, i requires 0 <= i < |vs| => vs[i].s)
  }
}
