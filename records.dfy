/**
 * A JavaScript object used as a `Record<string, number>`: the values by key
 * and the keys in insertion order (what `Object.keys`/`Object.values` list).
 */
module Records {
  /** The keys in insertion order and the value of each. */
  datatype Record = Record(keys: seq<string>, values: map<string, real>)

  const Empty := Record([], map[])

  /** Each key is listed once, and exactly the keys that have a value. */
  ghost predicate Valid(r: Record)
  {
    (forall k :: Listed(r, k)) && Distinct(r.keys)
  }

  /** `k` has a value iff it is listed. */
  predicate Listed(r: Record, k: string)
  {
    k in r.values <==> k in r.keys
  }

  predicate Distinct(keys: seq<string>)
  {
    forall i, j :: 0 <= i < j < |keys| ==> keys[i] != keys[j]
  }

  /** `r[k] = v`: a new key goes to the end, an existing one keeps its place. */
  function Set(r: Record, k: string, v: real): (s: Record)
    ensures s.values == r.values[k := v]
  {
    Record(if k in r.values then r.keys else r.keys + [k], r.values[k := v])
  }

  /** The value of a key, zero while it is absent. */
  function Get(r: Record, k: string): real
  {
    if k in r.values then r.values[k] else 0.0
  }

  /** `Object.values(r).reduce((sum, value) => sum + value, 0)`. */
  function Total(r: Record): real
  {
    SumOver(r.keys, r.values)
  }

  function SumOver(keys: seq<string>, values: map<string, real>): real
  {
    if keys == [] then 0.0
    else SumOver(keys[..|keys| - 1], values) + (if keys[|keys| - 1] in values then values[keys[|keys| - 1]] else 0.0)
  }

  lemma SetValid(r: Record, k: string, v: real)
    requires Valid(r)
    ensures Valid(Set(r, k, v))
  {
    var s := Set(r, k, v);
    assert Listed(r, k);
    forall x ensures Listed(s, x) {
      assert Listed(r, x);
    }
  }

  /** The sum is the same under a change of a key that is not listed. */
  lemma {:induction false} SumOverOther(keys: seq<string>, values: map<string, real>, k: string, v: real)
    requires k !in keys
    ensures SumOver(keys, values[k := v]) == SumOver(keys, values)
  {
    if keys != [] {
      SumOverOther(keys[..|keys| - 1], values, k, v);
    }
  }

  /** Changing a key listed once changes the sum by the difference. */
  lemma {:induction false} SumOverChange(keys: seq<string>, values: map<string, real>, k: string, v: real)
    requires k in values && k in keys
    requires Distinct(keys)
    ensures SumOver(keys, values[k := v]) == SumOver(keys, values) - values[k] + v
  {
    var n := |keys| - 1;
    if keys[n] == k {
      assert k !in keys[..n];
      SumOverOther(keys[..n], values, k, v);
    } else {
      assert k in keys[..n];
      SumOverChange(keys[..n], values, k, v);
    }
  }

  /** Assigning a key changes the total by the difference with its old value (zero when new). */
  lemma SetTotal(r: Record, k: string, v: real)
    requires Valid(r)
    ensures Total(Set(r, k, v)) == Total(r) - Get(r, k) + v
  {
    assert Listed(r, k);
    if k in r.values {
      SumOverChange(r.keys, r.values, k, v);
    } else {
      SumOverOther(r.keys, r.values, k, v);
    }
  }

  /** Adding to a key's value adds the same to the total. */
  lemma AddTotal(r: Record, k: string, amount: real)
    requires Valid(r)
    ensures Total(Set(r, k, Get(r, k) + amount)) == Total(r) + amount
  {
    var before := Get(r, k);
    SetTotal(r, k, before + amount);
    assert Total(Set(r, k, before + amount)) == Total(r) - before + (before + amount);
  }
}
