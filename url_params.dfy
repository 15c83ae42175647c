/**
 * `URLSearchParams` as the handlers use it: an ordered list of name/value
 * pairs changed in place by `set` and `delete`, and serialised by
 * `toString`.
 */
module UrlParams {
  import opened Wrappers

  type Pairs = seq<(string, string)>

  predicate HasKey(ps: Pairs, k: string) {
    exists i :: 0 <= i < |ps| && ps[i].0 == k
  }

  /** How many pairs carry the name `k`. */
  function CountKey(ps: Pairs, k: string): nat {
    if ps == [] then 0 else (if ps[0].0 == k then 1 else 0) + CountKey(ps[1..], k)
  }

  /** `get`: the value of the first pair named `k`. */
  function Lookup(ps: Pairs, k: string): Option<string>
  {
    if ps == [] then None
    else if ps[0].0 == k then Some(ps[0].1)
    else Lookup(ps[1..], k)
  }

  /** `delete(k)`: every pair named `k` is removed, the others keep their order. */
  function DeleteKey(ps: Pairs, k: string): (qs: Pairs)
    ensures !HasKey(qs, k) && |qs| <= |ps|
  {
    if ps == [] then []
    else (if ps[0].0 == k then [] else [ps[0]]) + DeleteKey(ps[1..], k)
  }

  /** The first pair named `k` takes value `v`, later pairs named `k` are removed. */
  function ReplaceFirst(ps: Pairs, k: string, v: string): Pairs
    requires HasKey(ps, k)
  {
    if ps[0].0 == k then [(k, v)] + DeleteKey(ps[1..], k)
    else [ps[0]] + ReplaceFirst(ps[1..], k, v)
  }

  /**
   * `set(k, v)`: if a pair named `k` exists, the first one takes the value
   * `v` and the others are removed; otherwise `(k, v)` is appended.
   */
  function SetKey(ps: Pairs, k: string, v: string): Pairs {
    if HasKey(ps, k) then ReplaceFirst(ps, k, v) else ps + [(k, v)]
  }

  lemma {:induction false} DeleteKeyIdle(ps: Pairs, k: string)
    requires !HasKey(ps, k)
    ensures DeleteKey(ps, k) == ps
  {
    if ps != [] {
      assert ps[0].0 != k;
      assert !HasKey(ps[1..], k) by {
        forall i | 0 <= i < |ps[1..]| ensures ps[1..][i].0 != k { assert ps[1..][i] == ps[i + 1]; }
      }
      DeleteKeyIdle(ps[1..], k);
    }
  }

  lemma {:induction false} DeleteKeyTwice(ps: Pairs, k: string)
    ensures DeleteKey(DeleteKey(ps, k), k) == DeleteKey(ps, k)
  {
    DeleteKeyIdle(DeleteKey(ps, k), k);
  }

  lemma {:induction false} ReplaceFirstSpec(ps: Pairs, k: string, v: string)
    requires HasKey(ps, k)
    ensures Lookup(ReplaceFirst(ps, k, v), k) == Some(v)
    ensures CountKey(ReplaceFirst(ps, k, v), k) == 1
    ensures DeleteKey(ReplaceFirst(ps, k, v), k) == DeleteKey(ps, k)
  {
    if ps[0].0 == k {
      CountDeleted(ps[1..], k);
      DeleteKeyTwice(ps[1..], k);
    } else {
      assert HasKey(ps[1..], k) by {
        var i :| 0 <= i < |ps| && ps[i].0 == k;
        assert ps[1..][i - 1] == ps[i];
      }
      ReplaceFirstSpec(ps[1..], k, v);
    }
  }

  lemma {:induction false} CountDeleted(ps: Pairs, k: string)
    ensures CountKey(DeleteKey(ps, k), k) == 0
  {
    if ps != [] {
      CountDeleted(ps[1..], k);
      assert DeleteKey(ps, k) == (if ps[0].0 == k then [] else [ps[0]]) + DeleteKey(ps[1..], k);
      CountAppend(if ps[0].0 == k then [] else [ps[0]], DeleteKey(ps[1..], k), k);
    }
  }

  lemma {:induction false} CountAppend(a: Pairs, b: Pairs, k: string)
    ensures CountKey(a + b, k) == CountKey(a, k) + CountKey(b, k)
  {
    if a == [] {
      assert a + b == b;
    } else {
      assert (a + b)[1..] == a[1..] + b;
      CountAppend(a[1..], b, k);
    }
  }

  lemma {:induction false} LookupAppend(a: Pairs, b: Pairs, k: string)
    ensures Lookup(a + b, k) == if HasKey(a, k) then Lookup(a, k) else Lookup(b, k)
  {
    if a == [] {
      assert a + b == b;
    } else {
      assert (a + b)[1..] == a[1..] + b;
      LookupAppend(a[1..], b, k);
      if a[0].0 != k && HasKey(a, k) {
        var i :| 0 <= i < |a| && a[i].0 == k;
        assert a[1..][i - 1] == a[i];
      }
    }
  }

  lemma {:induction false} DeleteKeyAppend(a: Pairs, b: Pairs, k: string)
    ensures DeleteKey(a + b, k) == DeleteKey(a, k) + DeleteKey(b, k)
  {
    if a == [] {
      assert a + b == b;
    } else {
      assert (a + b)[1..] == a[1..] + b;
      DeleteKeyAppend(a[1..], b, k);
    }
  }

  /**
   * After `set(k, v)` exactly one pair is named `k`, `get(k)` gives `v`, and
   * the pairs with other names are those before, in the same order.
   */
  lemma SetKeySpec(ps: Pairs, k: string, v: string)
    ensures Lookup(SetKey(ps, k, v), k) == Some(v)
    ensures CountKey(SetKey(ps, k, v), k) == 1
    ensures DeleteKey(SetKey(ps, k, v), k) == DeleteKey(ps, k)
    ensures !HasKey(ps, k) ==> SetKey(ps, k, v) == ps + [(k, v)]
  {
    if HasKey(ps, k) {
      ReplaceFirstSpec(ps, k, v);
    } else {
      LookupAppend(ps, [(k, v)], k);
      CountAppend(ps, [(k, v)], k);
      DeleteKeyAppend(ps, [(k, v)], k);
      DeleteKeyIdle(ps, k);
      CountDeleted(ps, k);
    }
  }

  /** After `delete(k)` no pair is named `k` and the others are unchanged, in order. */
  lemma DeleteKeySpec(ps: Pairs, k: string)
    ensures Lookup(DeleteKey(ps, k), k) == None
    ensures DeleteKey(DeleteKey(ps, k), k) == DeleteKey(ps, k)
  {
    DeleteKeyTwice(ps, k);
    LookupMissing(DeleteKey(ps, k), k);
  }

  lemma {:induction false} LookupMissing(ps: Pairs, k: string)
    requires !HasKey(ps, k)
    ensures Lookup(ps, k) == None
  {
    if ps != [] {
      assert ps[0].0 != k;
      assert !HasKey(ps[1..], k) by {
        forall i | 0 <= i < |ps[1..]| ensures ps[1..][i].0 != k { assert ps[1..][i] == ps[i + 1]; }
      }
      LookupMissing(ps[1..], k);
    }
  }

  /** `get(k)` finds a value exactly when some pair is named `k`. */
  lemma {:induction false} LookupFound(ps: Pairs, k: string)
    ensures Lookup(ps, k).Some? <==> HasKey(ps, k)
  {
    if ps != [] && ps[0].0 != k {
      LookupFound(ps[1..], k);
      if HasKey(ps, k) {
        var i :| 0 <= i < |ps| && ps[i].0 == k;
        assert ps[1..][i - 1] == ps[i];
      }
      if HasKey(ps[1..], k) {
        var i :| 0 <= i < |ps[1..]| && ps[1..][i].0 == k;
        assert ps[i + 1] == ps[1..][i];
      }
    }
  }

  /** `toString()`: `name=value` pairs joined by `&`; percent-encoding is not modelled. */
  function Serialize(ps: Pairs): (s: string)
    ensures s == "" <==> ps == []
  {
    if ps == [] then ""
    else if |ps| == 1 then ps[0].0 + "=" + ps[0].1
    else ps[0].0 + "=" + ps[0].1 + "&" + Serialize(ps[1..])
  }

  /** A `URLSearchParams` object, changed in place. */
  class SearchParams {
    var pairs: Pairs

    constructor (init: Pairs)
      ensures pairs == init
    {
      pairs := init;
    }

    method Set(k: string, v: string)
      modifies this
      ensures pairs == SetKey(old(pairs), k, v)
    {
      pairs := SetKey(pairs, k, v);
    }

    method Delete(k: string)
      modifies this
      ensures pairs == DeleteKey(old(pairs), k)
    {
      pairs := DeleteKey(pairs, k);
    }

    function ToString(): string
      reads this
    {
      Serialize(pairs)
    }
  }
}
