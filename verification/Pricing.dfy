/**
 The price suggestion of an adjustment: the conversion of the model's answer to a number, which may
 throw, and the clamping to the agency's range.
 */
module Pricing {
  import opened Prelude

  // Number(v) throws when no primitive is left to convert: for an object with a toString of its own,
  // which in JSON is never a function, and for an array that holds such a value at any depth.
  predicate NumberThrows(v: Json) {
    || (v.JObject? && "toString" in v.fields)
    || (v.JArray? && exists i :: 0 <= i < |v.items| && NumberThrows(v.items[i]))
  }

  const UNCONVERTIBLE := JObject(map["toString" := JNull])

  // Texts, numbers and truth values are converted, an array of one value as that value is, and an object
  // unless it has a toString of its own.
  lemma WhatThrows(v: Json, fields: map<string, Json>)
    ensures NumberThrows(v) ==> v.JArray? || v.JObject?
    ensures NumberThrows(JArray([v])) <==> NumberThrows(v)
    ensures NumberThrows(JObject(fields)) <==> "toString" in fields
    ensures NumberThrows(UNCONVERTIBLE) && !NumberThrows(JArray([]))
  {
    assert [v][0] == v;
  }

  // One value too many: an array throws as soon as any of its values would.
  lemma OneMoreItem(items: seq<Json>, v: Json, rest: seq<Json>)
    ensures NumberThrows(JArray(items + [v] + rest)) <==> NumberThrows(JArray(items + rest)) || NumberThrows(v)
  {
    var all, n := items + [v] + rest, |items|;
    assert all[n] == v;
    assert forall i | 0 <= i < n :: all[i] == (items + rest)[i];
    assert forall i | n <= i < |items + rest| :: all[i + 1] == (items + rest)[i];
    assert forall i | n < i < |all| :: all[i] == (items + rest)[i - 1];
  }

  // Math.round: the nearest whole number, halves up.
  function Rounded(x: real): int { (x + 0.5).Floor }

  lemma RoundedIsNearest(x: real)
    ensures x - 0.5 < Rounded(x) as real <= x + 0.5
  {
  }

  // What is offered for a converted value; None stands for one that is not finite.
  function SuggestedPrice(raw: Option<real>, lo: int, hi: int): int {
    if raw.None? then lo
    else
      var atLeast := if Rounded(raw.value) > lo then Rounded(raw.value) else lo;
      if atLeast < hi then atLeast else hi
  }

  // The offer lies in the range, whatever the answer, if and only if the range is not empty; an
  // answer that rounds into the range is kept, one outside moves to the nearer end, and one that is not
  // a finite number gives the lower end.
  lemma SuggestionsStayInRangeIff(lo: int, hi: int)
    ensures (forall raw :: lo <= SuggestedPrice(raw, lo, hi) <= hi) <==> lo <= hi
    ensures SuggestedPrice(None, lo, hi) == lo
    ensures forall x: real | lo <= hi ::
              var price := SuggestedPrice(Some(x), lo, hi);
              if Rounded(x) < lo then price == lo else if Rounded(x) > hi then price == hi else price == Rounded(x)
  {
    if lo > hi {
      assert !(lo <= SuggestedPrice(None, lo, hi) <= hi);
    }
  }
}
