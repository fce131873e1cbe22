/** The part of `URLSearchParams` the share link uses, over a query that has
    already been split and percent-decoded into name-value pairs. */
module Params {
  import opened Optional

  /** The name-value pairs of a query string, in order, duplicates allowed. */
  type Params = seq<(string, string)>

  /** `URLSearchParams.get`: the value of the first pair named `k`, or None.
      A value it answers is one some pair with that key holds. */
  function Get(ps: Params, k: string): (r: Option<string>)
    ensures r.Some? ==> (k, r.value) in ps
  {
    if ps == [] then None
    else if ps[0].0 == k then Some(ps[0].1)
    else Get(ps[1..], k)
  }

  /** `get` answers None exactly when no pair has the key, and otherwise a
      value some pair with that key holds. */
  lemma {:induction false} GetMeaning(ps: Params, k: string)
    ensures Get(ps, k).None? <==> forall p :: p in ps ==> p.0 != k
    ensures Get(ps, k).Some? ==> (k, Get(ps, k).value) in ps
  {
    if ps != [] {
      assert forall p :: p in ps <==> p == ps[0] || p in ps[1..];
      GetMeaning(ps[1..], k);
    }
  }

  /** `params.get(k) || ''`: the first value named `k`, the empty string when
      there is none. Every read of a parameter in app/page.tsx goes through
      `||` or a truth test, under which a missing parameter and an empty one
      behave alike. */
  function Arg(ps: Params, k: string): (r: string)
    ensures r != "" ==> (k, r) in ps
  {
    Get(ps, k).GetOr("")
  }

  /** JavaScript's `a || b` on two strings. */
  function Or(a: string, b: string): (r: string)
    ensures r == "" <==> a == "" && b == ""
    ensures a != "" ==> r == a
    ensures a == "" ==> r == b
  {
    if a != "" then a else b
  }

  /** `Get` finds the first pair with the key, whatever follows it. */
  lemma {:induction false} GetFirst(ps: Params, i: nat)
    requires i < |ps|
    requires forall j :: 0 <= j < i ==> ps[j].0 != ps[i].0
    ensures Get(ps, ps[i].0) == Some(ps[i].1)
  {
    if i > 0 {
      GetFirst(ps[1..], i - 1);
    }
  }

  /** A lookup in a concatenation answers from the left part when it can. */
  lemma {:induction false} GetAppend(a: Params, b: Params, k: string)
    ensures Get(a + b, k) == if Get(a, k).Some? then Get(a, k) else Get(b, k)
  {
    if a != [] {
      assert (a + b)[1..] == a[1..] + b;
      GetAppend(a[1..], b, k);
    } else {
      assert a + b == b;
    }
  }

  /** A pair with another key, inserted anywhere, changes no lookup of `k`. */
  lemma GetSkipsOtherKey(a: Params, b: Params, k: string, v: string, k': string)
    requires k != k'
    ensures Get(a + [(k, v)] + b, k') == Get(a + b, k')
  {
    GetAppend(a + [(k, v)], b, k');
    GetAppend(a, [(k, v)], k');
    GetAppend(a, b, k');
  }

  /** `ps` without any pair named `k`. */
  function Without(ps: Params, k: string): (r: Params)
    ensures forall p :: p in r <==> p in ps && p.0 != k
  {
    if ps == [] then []
    else
      assert forall p :: p in ps <==> p == ps[0] || p in ps[1..];
      (if ps[0].0 == k then [] else [ps[0]]) + Without(ps[1..], k)
  }

  /** The first pair named `k` given the value `v`, the later ones dropped. */
  function ReplaceFirst(ps: Params, k: string, v: string): (r: Params)
    requires Get(ps, k).Some?
    ensures Get(r, k) == Some(v)
    ensures forall k' :: k' != k ==> Get(r, k') == Get(ps, k')
  {
    if ps[0].0 == k then
      var rest := Without(ps[1..], k);
      assert forall k' :: k' != k ==> Get(rest, k') == Get(ps[1..], k') by {
        forall k' | k' != k ensures Get(rest, k') == Get(ps[1..], k') {
          WithoutKeepsOtherKeys(ps[1..], k, k');
        }
      }
      [(k, v)] + rest
    else
      var rest := ReplaceFirst(ps[1..], k, v);
      assert ([ps[0]] + rest)[1..] == rest;
      [ps[0]] + rest
  }

  /** Dropping the pairs named `k` leaves every other lookup as it was. */
  lemma {:induction false} WithoutKeepsOtherKeys(ps: Params, k: string, k': string)
    requires k != k'
    ensures Get(Without(ps, k), k') == Get(ps, k')
  {
    if ps != [] {
      WithoutKeepsOtherKeys(ps[1..], k, k');
      GetAppend(if ps[0].0 == k then [] else [ps[0]], Without(ps[1..], k), k');
    }
  }

  /** `URLSearchParams.set`: when pairs named `k` exist, the first takes the
      value `v` and the others are removed; otherwise `(k, v)` is appended. */
  function SetParam(ps: Params, k: string, v: string): (r: Params)
    ensures Get(ps, k).None? ==> r == ps + [(k, v)]
  {
    if Get(ps, k).None? then ps + [(k, v)] else ReplaceFirst(ps, k, v)
  }

  /** After `set`, the key reads the new value and no other key reads
      differently. */
  lemma SetParamMeaning(ps: Params, k: string, v: string)
    ensures Get(SetParam(ps, k, v), k) == Some(v)
    ensures forall k' :: k' != k ==> Get(SetParam(ps, k, v), k') == Get(ps, k')
  {
    if Get(ps, k).None? {
      forall k' ensures Get(ps + [(k, v)], k') == if k' == k then Some(v) else Get(ps, k') {
        GetAppend(ps, [(k, v)], k');
      }
    }
  }

  /** The pairs of `ps` whose value is not empty, in their order. */
  function NonEmpty(ps: Params): (r: Params)
    ensures |r| <= |ps|
  {
    if ps == [] then []
    else (if ps[0].1 != "" then [ps[0]] else []) + NonEmpty(ps[1..])
  }

  /** The filtered list holds exactly the pairs with a non-empty value. */
  lemma {:induction false} NonEmptyMembers(ps: Params)
    ensures forall p :: p in NonEmpty(ps) <==> p in ps && p.1 != ""
  {
    if ps != [] {
      assert forall p :: p in ps <==> p == ps[0] || p in ps[1..];
      NonEmptyMembers(ps[1..]);
    }
  }

  /** Filtering distributes over concatenation. */
  lemma {:induction false} NonEmptyAppend(a: Params, b: Params)
    ensures NonEmpty(a + b) == NonEmpty(a) + NonEmpty(b)
  {
    if a == [] {
      assert a + b == b;
    } else {
      assert (a + b)[1..] == a[1..] + b;
      NonEmptyAppend(a[1..], b);
    }
  }

  /** No two pairs share a key. */
  predicate DistinctKeys(ps: Params) {
    forall i, j :: 0 <= i < j < |ps| ==> ps[i].0 != ps[j].0
  }

  /** In a list with distinct keys, the filtered list reads each key's own
      value, an empty one reading as the empty string. */
  lemma {:induction false} ArgNonEmpty(ps: Params, i: nat)
    requires DistinctKeys(ps) && i < |ps|
    ensures Arg(NonEmpty(ps), ps[i].0) == ps[i].1
  {
    var head := if ps[0].1 != "" then [ps[0]] else [];
    GetAppend(head, NonEmpty(ps[1..]), ps[i].0);
    if i == 0 {
      NonEmptyMembers(ps[1..]);
      assert forall p :: p in NonEmpty(ps[1..]) ==> p.0 != ps[0].0 by {
        forall p | p in NonEmpty(ps[1..]) ensures p.0 != ps[0].0 {
          var j :| 0 <= j < |ps[1..]| && ps[1..][j] == p;
          assert ps[j + 1] == p;
        }
      }
      GetMeaning(NonEmpty(ps[1..]), ps[0].0);
    } else {
      assert DistinctKeys(ps[1..]) by {
        forall a, b | 0 <= a < b < |ps[1..]| ensures ps[1..][a].0 != ps[1..][b].0 {
          assert ps[1..][a] == ps[a + 1] && ps[1..][b] == ps[b + 1];
        }
      }
      ArgNonEmpty(ps[1..], i - 1);
      assert ps[1..][i - 1] == ps[i];
    }
  }

  /** The text `URLSearchParams.toString` builds from the pairs, without its
      percent-encoding: `name=value` joined by `&`. */
  function Query(ps: Params): (q: string)
    ensures q == "" <==> ps == []
  {
    if ps == [] then ""
    else if |ps| == 1 then ps[0].0 + "=" + ps[0].1
    else ps[0].0 + "=" + ps[0].1 + "&" + Query(ps[1..])
  }
}
