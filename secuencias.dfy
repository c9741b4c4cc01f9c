/** Order-preserving filtering and truncation: the `filter`, `count` and `limit` stream stages. */
module Secuencias {

  /** `stream().filter(p)`: the elements of `s` that satisfy `p`, in their original order. */
  function Filtrar<T>(s: seq<T>, p: T -> bool): (r: seq<T>)
    ensures |r| <= |s|
    ensures forall i | 0 <= i < |r| :: r[i] in s && p(r[i])
    ensures forall i | 0 <= i < |s| :: p(s[i]) ==> s[i] in r
    ensures multiset(r) <= multiset(s)
  {
    if s == [] then []
    else
      var init := s[..|s| - 1];
      assert s == init + [s[|s| - 1]];
      Filtrar(init, p) + (if p(s[|s| - 1]) then [s[|s| - 1]] else [])
  }

  /** Filtering distributes over concatenation. */
  lemma {:induction false} FiltrarConcat<T>(a: seq<T>, b: seq<T>, p: T -> bool)
    ensures Filtrar(a + b, p) == Filtrar(a, p) + Filtrar(b, p)
    decreases |b|
  {
    if b != [] {
      var init := b[..|b| - 1];
      assert (a + b)[..|a + b| - 1] == a + init;
      FiltrarConcat(a, init, p);
    } else {
      assert a + b == a;
    }
  }

  /** Filtering by `p` and then by `q` is filtering once by their conjunction. */
  lemma {:induction false} FiltrarDosVeces<T>(s: seq<T>, p: T -> bool, q: T -> bool, pq: T -> bool)
    requires forall x :: pq(x) <==> p(x) && q(x)
    ensures Filtrar(Filtrar(s, p), q) == Filtrar(s, pq)
  {
    if s != [] {
      var init := s[..|s| - 1];
      var x := s[|s| - 1];
      FiltrarDosVeces(init, p, q, pq);
      FiltrarConcat(Filtrar(init, p), if p(x) then [x] else [], q);
    }
  }

  /** A filter that every element passes keeps the sequence as it is. */
  lemma {:induction false} FiltrarTodos<T>(s: seq<T>, p: T -> bool)
    requires forall i | 0 <= i < |s| :: p(s[i])
    ensures Filtrar(s, p) == s
  {
    if s != [] {
      var init := s[..|s| - 1];
      assert s == init + [s[|s| - 1]];
      FiltrarTodos(init, p);
    }
  }

  /** Equivalent predicates filter alike. */
  lemma {:induction false} FiltrarEquivalentes<T>(s: seq<T>, p: T -> bool, q: T -> bool)
    requires forall x :: p(x) <==> q(x)
    ensures Filtrar(s, p) == Filtrar(s, q)
  {
    if s != [] {
      FiltrarEquivalentes(s[..|s| - 1], p, q);
    }
  }

  /** A predicate that implies another keeps fewer elements. */
  lemma {:induction false} FiltrarMenos<T>(s: seq<T>, p: T -> bool, q: T -> bool)
    requires forall x :: p(x) ==> q(x)
    ensures |Filtrar(s, p)| <= |Filtrar(s, q)|
  {
    if s != [] {
      FiltrarMenos(s[..|s| - 1], p, q);
    }
  }

  /** Predicates no element satisfies together are counted apart. */
  lemma {:induction false} FiltrarDisjuntos<T>(s: seq<T>, p: T -> bool, q: T -> bool, pq: T -> bool)
    requires forall x :: !(p(x) && q(x))
    requires forall x :: pq(x) <==> p(x) || q(x)
    ensures |Filtrar(s, p)| + |Filtrar(s, q)| == |Filtrar(s, pq)|
  {
    if s != [] {
      FiltrarDisjuntos(s[..|s| - 1], p, q, pq);
    }
  }

  /** `limit(k)`: the first `k` elements, or all of them when there are fewer. */
  function Tomar<T>(s: seq<T>, k: nat): (r: seq<T>)
    ensures |r| == if k < |s| then k else |s|
    ensures r == s[..|r|]
  {
    if k < |s| then s[..k] else s
  }

  /** `anyMatch(p)`. */
  function Alguno<T>(s: seq<T>, p: T -> bool): (r: bool)
    ensures r <==> exists i | 0 <= i < |s| :: p(s[i])
  {
    if s == [] then false else p(s[0]) || Alguno(s[1..], p)
  }

  /** Index of the first element that satisfies `p`, or |s| when none does. */
  function Primero<T>(s: seq<T>, p: T -> bool): (i: nat)
    ensures i <= |s|
    ensures forall j | 0 <= j < i :: !p(s[j])
    ensures i < |s| ==> p(s[i])
    ensures i < |s| <==> Alguno(s, p)
  {
    if s == [] || p(s[0]) then 0 else 1 + Primero(s[1..], p)
  }
}
