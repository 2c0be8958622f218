/**
 * The talk order of a round (server.js:457-462, 636-643): a Fisher-Yates
 * shuffle of the connected names, rotated to start at a random offset.
 */
module TalkOrder {
  import opened Names

  /** The random swap partners of the shuffle: `js[i]` is the `j` drawn when the loop is at `i`. */
  predicate SwapDraws(js: seq<nat>, n: nat) {
    |js| == n && forall i :: 0 < i < n ==> js[i] <= i
  }

  function Swap(s: seq<string>, i: nat, j: nat): (r: seq<string>)
    requires i < |s| && j < |s|
    ensures |r| == |s|
  {
    s[i := s[j]][j := s[i]]
  }

  lemma SwapPermutes(s: seq<string>, i: nat, j: nat)
    requires i < |s| && j < |s|
    ensures multiset(Swap(s, i, j)) == multiset(s)
  {
  }

  /** The shuffle from loop index `i` down to 1, as the loop performs it. */
  function Shuffled(s: seq<string>, js: seq<nat>, i: int): (r: seq<string>)
    requires SwapDraws(js, |s|) && i < |s|
    ensures |r| == |s|
    decreases i
  {
    if i <= 0 then s else Shuffled(Swap(s, i, js[i]), js, i - 1)
  }

  /** Every shuffle is a permutation of its input. */
  lemma {:induction false} ShuffledPermutes(s: seq<string>, js: seq<nat>, i: int)
    requires SwapDraws(js, |s|) && i < |s|
    ensures multiset(Shuffled(s, js, i)) == multiset(s)
    decreases i
  {
    if i > 0 {
      SwapPermutes(s, i, js[i]);
      ShuffledPermutes(Swap(s, i, js[i]), js, i - 1);
    }
  }

  /** The shuffle: copy the names into an array and swap in place, counting down (server.js:636-643). */
  method Shuffle(arr: seq<string>, js: seq<nat>) returns (r: seq<string>)
    requires SwapDraws(js, |arr|)
    ensures r == Shuffled(arr, js, |arr| - 1)
    ensures multiset(r) == multiset(arr)
  {
    var a := new string[|arr|](k requires 0 <= k < |arr| => arr[k]);
    assert a[..] == arr;
    var i := a.Length - 1;
    while i > 0
      invariant -1 <= i < a.Length
      invariant Shuffled(a[..], js, i) == Shuffled(arr, js, |arr| - 1)
    {
      var j := js[i];
      ghost var before := a[..];
      a[i], a[j] := a[j], a[i];
      assert a[..] == Swap(before, i, j);
      i := i - 1;
    }
    r := a[..];
    ShuffledPermutes(arr, js, |arr| - 1);
  }

  /** The order rotated left by `k`: from entry `k` to the end, then the first `k` (server.js:461). */
  function Rotate(order: seq<string>, k: nat): (r: seq<string>)
    requires k <= |order|
    ensures |r| == |order|
  {
    order[k..] + order[..k]
  }

  /** The rotation starts at entry `k`, wraps around to the front, and keeps every entry. */
  lemma RotateFacts(order: seq<string>, k: nat)
    requires k <= |order|
    ensures multiset(Rotate(order, k)) == multiset(order)
    ensures forall i :: 0 <= i < |order| - k ==> Rotate(order, k)[i] == order[k + i]
    ensures forall i :: 0 <= i < k ==> Rotate(order, k)[|order| - k + i] == order[i]
  {
    assert order == order[..k] + order[k..];
  }

  /**
   * The talk order is a permutation of the connected names, and it has no
   * repeated name when the names have none.
   */
  lemma TalkOrderPermutes(names: seq<string>, js: seq<nat>, k: nat)
    requires SwapDraws(js, |names|) && IndexDraw(k, |names|)
    ensures multiset(Rotate(Shuffled(names, js, |names| - 1), k)) == multiset(names)
    ensures forall x :: x in Rotate(Shuffled(names, js, |names| - 1), k) <==> x in names
  {
    ShuffledPermutes(names, js, |names| - 1);
    RotateFacts(Shuffled(names, js, |names| - 1), k);
    var r := Rotate(Shuffled(names, js, |names| - 1), k);
    forall x ensures x in r <==> x in names {
      assert x in r <==> x in multiset(r);
      assert x in names <==> x in multiset(names);
    }
  }

  /**
   * The talk order of `setSubjectAndPrompt`: the connected names shuffled in
   * place, then rotated to start at the drawn offset.
   */
  method DrawTalkOrder(names: seq<string>, js: seq<nat>, k: nat) returns (order: seq<string>)
    requires SwapDraws(js, |names|) && IndexDraw(k, |names|)
    ensures order == Rotate(Shuffled(names, js, |names| - 1), k)
  {
    var shuffled := Shuffle(names, js);
    order := Rotate(shuffled, k);
  }

}
