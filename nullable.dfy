/** JavaScript's nullable strings and the `||` operator the server code uses on them. */
module Nullable {

  /** A value that may be absent (JavaScript `null` or `undefined`). */
  datatype Option<+T> = None | Some(value: T)

  /** JavaScript truthiness of a nullable string: present and not the empty string. */
  predicate Truthy(s: Option<string>) {
    s.Some? && s.value != ""
  }

  /** `s || ""`: the string when it is truthy, otherwise the empty string. */
  function OrEmpty(s: Option<string>): (r: string)
    ensures r == "" <==> !Truthy(s)
  {
    if Truthy(s) then s.value else ""
  }

  /** `xs[0] || xs[1] || ... || null`: the first truthy entry, or null when there is none. */
  function FirstTruthy(xs: seq<Option<string>>): (r: Option<string>)
    ensures r.None? <==> forall i :: 0 <= i < |xs| ==> !Truthy(xs[i])
    ensures r.Some? ==> Truthy(r) && r in xs
  {
    if |xs| == 0 then None
    else if Truthy(xs[0]) then xs[0]
    else FirstTruthy(xs[1..])
  }

  /** The chain stops at the first truthy entry: everything after it is never looked at. */
  lemma {:induction false} FirstTruthyPicksFirst(xs: seq<Option<string>>, k: nat)
    requires k < |xs| && Truthy(xs[k])
    requires forall j :: 0 <= j < k ==> !Truthy(xs[j])
    ensures FirstTruthy(xs) == xs[k]
  {
    if k > 0 {
      FirstTruthyPicksFirst(xs[1..], k - 1);
    }
  }

  /** An absent entry and an empty string are interchangeable anywhere in a chain. */
  lemma {:induction false} FirstTruthyEmptyIsAbsent(xs: seq<Option<string>>, k: nat)
    requires k < |xs| && xs[k] == Some("")
    ensures FirstTruthy(xs[k := None]) == FirstTruthy(xs)
  {
    if k > 0 {
      assert xs[k := None][1..] == xs[1..][k - 1 := None];
      FirstTruthyEmptyIsAbsent(xs[1..], k - 1);
    }
  }
}
