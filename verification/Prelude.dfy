/** Small shared vocabulary: optional values, results, and facts about finite sets. */
module Prelude {

  datatype Option<+T> = None | Some(value: T) {
    function GetOr(default: T): T { if Some? then value else default }
  }

  datatype Result<+T, +E> = Ok(value: T) | Err(error: E)

  type byte = x: int | 0 <= x < 256

  datatype Json =
    | JNull
    | JBool(b: bool)
    | JNumber(n: real)
    | JString(s: string)
    | JArray(items: seq<Json>)
    | JObject(fields: map<string, Json>)

  lemma SubsetIsSmaller<T>(a: set<T>, b: set<T>)
    requires a <= b
    ensures |a| <= |b|
  {
    if a != {} {
      var x :| x in a;
      SubsetIsSmaller(a - {x}, b - {x});
    }
  }

  lemma AtMostOneElement<T>(a: set<T>)
    requires forall x, y | x in a && y in a :: x == y
    ensures |a| <= 1
  {
    if a != {} {
      var x :| x in a;
      assert a == {x};
    }
  }

  lemma UnionIsAtMostTheSum<T>(a: set<T>, b: set<T>)
    ensures |a + b| <= |a| + |b|
  {
    assert a + b == a + (b - a);
    SubsetIsSmaller(b - a, b);
  }

  predicate Distinct<T(==)>(s: seq<T>) {
    forall i, j | 0 <= i < j < |s| :: s[i] != s[j]
  }

  // A list that names each element of a finite set once.
  ghost predicate Enumerates<T(!new)>(s: seq<T>, a: set<T>) {
    && Distinct(s)
    && (forall x :: x in s <==> x in a)
  }

  lemma EnumerationLength<T(!new)>(s: seq<T>, a: set<T>)
    requires Enumerates(s, a)
    ensures |s| == |a|
  {
    if |s| > 0 {
      var k := |s| - 1;
      assert forall x | x in s[..k] :: x in s && x != s[k];
      assert forall x | x in s && x != s[k] :: x in s[..k];
      EnumerationLength(s[..k], a - {s[k]});
    } else {
      assert forall x | x in a :: x in s;
      assert a == {};
    }
  }

  lemma FreshNumber(js: set<nat>) returns (j: nat)
    ensures j !in js
  {
    j := UpperBound(js);
  }

  lemma {:induction false} UpperBound(js: set<nat>) returns (j: nat)
    ensures forall i | i in js :: i < j
  {
    if js == {} {
      j := 0;
    } else {
      var i :| i in js;
      var k := UpperBound(js - {i});
      j := if i < k then k else i + 1;
      assert forall x | x in js :: x == i || x in js - {i};
    }
  }
}
