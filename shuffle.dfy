/** Model of `shuffleArray` (script.js:6-19).

    The working copy goes through a fixed number of rounds; each round reads the
    element at a random index, removes it with `splice(index, 1)` and appends it
    with `push`. The random indexes are not drawn here: they are the parameter
    `draws`, one per round. JavaScript's `undefined`, which a read past the end of
    an array yields, is the parameter `undefined`. */
module Shuffle {

  /** Number of rounds, whatever the length of the input. */
  const NumberOfDraw: nat := 100

  /** The indexes `Math.floor(Math.random() * Math.floor(n))` can produce for a
      working copy of length `n`: `0 <= r < n`, and only `0` when `n == 0`. */
  predicate ValidDraws(draws: seq<nat>, n: nat) {
    |draws| == NumberOfDraw &&
    forall k :: 0 <= k < |draws| ==> draws[k] < n || draws[k] == 0
  }

  /** One round on the working copy `s`: read `s[r]` (`undefined` past the end),
      remove index `r` (nothing happens past the end), and append what was read. */
  function Draw<T>(s: seq<T>, r: nat, undefined: T): seq<T> {
    if r < |s| then s[..r] + s[r + 1..] + [s[r]] else s + [undefined]
  }

  /** The working copy after the rounds `draws`, played in order. */
  function Shuffled<T>(s: seq<T>, draws: seq<nat>, undefined: T): seq<T> {
    if draws == [] then s
    else Draw(Shuffled(s, draws[..|draws| - 1], undefined), draws[|draws| - 1], undefined)
  }

  /** A round that picks an index inside the copy moves one element to the end
      and neither loses nor adds any. */
  lemma DrawIsPermutation<T>(s: seq<T>, r: nat, undefined: T)
    requires r < |s|
    ensures |Draw(s, r, undefined)| == |s|
    ensures multiset(Draw(s, r, undefined)) == multiset(s)
    ensures Draw(s, r, undefined)[|s| - 1] == s[r]
  {
    assert s == s[..r] + [s[r]] + s[r + 1..];
  }

  /** On a non-empty input whose draws all fall inside it, the result has the
      same length and the same elements, each as often as in the input. */
  lemma {:induction false} ShuffledIsPermutation<T>(s: seq<T>, draws: seq<nat>, undefined: T)
    requires forall k :: 0 <= k < |draws| ==> draws[k] < |s|
    ensures |Shuffled(s, draws, undefined)| == |s|
    ensures multiset(Shuffled(s, draws, undefined)) == multiset(s)
  {
    if draws != [] {
      var earlier := draws[..|draws| - 1];
      ShuffledIsPermutation(s, earlier, undefined);
      DrawIsPermutation(Shuffled(s, earlier, undefined), draws[|draws| - 1], undefined);
    }
  }

  /** On an empty input the first round pushes `undefined` and every later round
      removes it and pushes it again: the result is `[undefined]`. */
  lemma {:induction false} ShuffledEmpty<T>(draws: seq<nat>, undefined: T)
    requires draws != []
    requires forall k :: 0 <= k < |draws| ==> draws[k] == 0
    ensures Shuffled([], draws, undefined) == [undefined]
  {
    var earlier := draws[..|draws| - 1];
    if earlier != [] {
      ShuffledEmpty(earlier, undefined);
    }
  }

  /** `shuffleArray`: a new sequence, the rounds played on a copy of `items`;
      `items` itself is a value and stays as it was. */
  method ShuffleArray<T>(items: seq<T>, draws: seq<nat>, undefined: T) returns (result: seq<T>)
    requires ValidDraws(draws, |items|)
    ensures result == Shuffled(items, draws, undefined)
    ensures |items| > 0 ==> |result| == |items| && multiset(result) == multiset(items)
    ensures |items| == 0 ==> result == [undefined]
  {
    result := items;
    for i := 0 to NumberOfDraw
      invariant result == Shuffled(items, draws[..i], undefined)
    {
      var randomIndex := draws[i];
      var randomElement := if randomIndex < |result| then result[randomIndex] else undefined;
      if randomIndex < |result| {
        result := result[..randomIndex] + result[randomIndex + 1..];
      }
      result := result + [randomElement];
      assert draws[..i + 1][..i] == draws[..i];
    }
    assert draws[..NumberOfDraw] == draws;
    if |items| > 0 {
      ShuffledIsPermutation(items, draws, undefined);
    } else {
      ShuffledEmpty(draws, undefined);
    }
  }
}
