/** The deck of the memory game (script.js:56-63) and the facts about decks and
    found-card lists that the game's invariant rests on. */
module Cards {

  /** Number of distinct faces: `carte1.png` to `carte6.png`. */
  const NumberOfFaces: nat := 6

  /** The image of face `i`, the template `carte${i}.png` for a one-digit `i`. */
  function CardImageSource(i: int): string
    requires 1 <= i <= 9
  {
    "carte" + [('0' as int + i) as char] + ".png"
  }

  /** The six faces in order, as the loop of `_getCardImageSources` pushes them. */
  function Faces(): seq<string> {
    seq(NumberOfFaces, j requires 0 <= j < NumberOfFaces => CardImageSource(j + 1))
  }

  /** The list `_getCardImageSources` returns: the six faces, then the same six again. */
  function CardImageSources(): seq<string> {
    Faces() + Faces()
  }

  predicate NoDuplicates<T(==)>(s: seq<T>) {
    forall i, j :: 0 <= i < j < |s| ==> s[i] != s[j]
  }

  /** Every value of the deck occurs in it exactly twice. */
  ghost predicate EachFaceTwice<T>(deck: seq<T>) {
    forall x :: x in deck ==> multiset(deck)[x] == 2
  }

  /** The found list of a game on `deck`: no index twice, every index a card of
      the deck, and with every found card all cards showing the same face. */
  ghost predicate FoundListValid<T>(deck: seq<T>, found: seq<int>) {
    NoDuplicates(found) &&
    (forall k :: 0 <= k < |found| ==> 0 <= found[k] < |deck|) &&
    (forall k, b :: 0 <= k < |found| && 0 <= b < |deck| && deck[b] == deck[found[k]] ==> b in found)
  }

  /** Different one-digit numbers give different image names. */
  lemma CardImageSourceInjective(i: int, j: int)
    requires 1 <= i <= 9 && 1 <= j <= 9 && i != j
    ensures CardImageSource(i) != CardImageSource(j)
  {
    assert CardImageSource(i)[5] != CardImageSource(j)[5];
  }

  /** In a list without duplicates each of its values occurs once. */
  lemma {:induction false} OccursOnce<T>(s: seq<T>, x: T)
    requires NoDuplicates(s)
    requires x in s
    ensures multiset(s)[x] == 1
  {
    assert s == [s[0]] + s[1..];
    if s[0] == x {
      assert x !in s[1..] by {
        forall j | 0 <= j < |s[1..]| ensures s[1..][j] != x {
          assert s[1..][j] == s[j + 1];
        }
      }
    } else {
      OccursOnce(s[1..], x);
    }
  }

  /** A list without duplicates followed by itself holds each value exactly twice. */
  lemma DoubledListEachTwice<T>(s: seq<T>)
    requires NoDuplicates(s)
    ensures EachFaceTwice(s + s)
  {
    forall x | x in s + s ensures multiset(s + s)[x] == 2 {
      OccursOnce(s, x);
    }
  }

  /** `_getCardImageSources`' list has twelve entries, face `k % 6 + 1` at index
      `k`, and each face twice. */
  lemma CardImageSourcesPaired()
    ensures |CardImageSources()| == 2 * NumberOfFaces
    ensures forall k :: 0 <= k < |CardImageSources()| ==>
              CardImageSources()[k] == CardImageSource(k % NumberOfFaces + 1)
    ensures EachFaceTwice(CardImageSources())
  {
    var faces := Faces();
    forall i, j | 0 <= i < j < |faces| ensures faces[i] != faces[j] {
      CardImageSourceInjective(i + 1, j + 1);
    }
    DoubledListEachTwice(faces);
  }

  /** Rearranging a deck keeps every face occurring twice. */
  lemma PermutationKeepsPairs<T>(deck: seq<T>, original: seq<T>)
    requires multiset(deck) == multiset(original)
    requires EachFaceTwice(original)
    ensures EachFaceTwice(deck)
  {
  }

  /** A value at `|idx|` different positions occurs at least `|idx|` times. */
  lemma {:induction false} OccurrencesAtLeast<T>(s: seq<T>, x: T, idx: set<int>)
    requires forall i :: i in idx ==> 0 <= i < |s| && s[i] == x
    ensures multiset(s)[x] >= |idx|
  {
    if s == [] {
      assert idx == {} by {
        forall i | i in idx ensures false {}
      }
    } else {
      var last := |s| - 1;
      var front := s[..last];
      OccurrencesAtLeast(front, x, idx - {last});
      assert s == front + [s[last]];
    }
  }

  /** In a deck where each face occurs twice, no three cards share a face. */
  lemma NoThreeAlike<T>(deck: seq<T>, a: int, b: int, c: int)
    requires EachFaceTwice(deck)
    requires 0 <= a < |deck| && 0 <= b < |deck| && 0 <= c < |deck|
    requires a != b && b != c && a != c
    ensures !(deck[a] == deck[b] && deck[b] == deck[c])
  {
    assert |{a, b, c}| == 3;
    if deck[a] == deck[b] && deck[b] == deck[c] {
      OccurrencesAtLeast(deck, deck[a], {a, b, c});
    }
  }

  /** A matched pair `first`, `second` of a deck whose faces occur twice: if
      `second` is not found yet then neither is `first`, and appending both keeps
      the found list valid. */
  lemma MatchExtendsFound<T>(deck: seq<T>, found: seq<int>, first: int, second: int)
    requires EachFaceTwice(deck)
    requires FoundListValid(deck, found)
    requires 0 <= first < |deck| && 0 <= second < |deck| && first != second
    requires second !in found
    requires deck[first] == deck[second]
    ensures first !in found
    ensures FoundListValid(deck, found + [first, second])
  {
    var found' := found + [first, second];
    assert found'[|found|] == first && found'[|found| + 1] == second;
    forall k, b | 0 <= k < |found'| && 0 <= b < |deck| && deck[b] == deck[found'[k]]
      ensures b in found'
    {
      if k < |found| {
        assert found'[k] == found[k];
      } else if b != first && b != second {
        NoThreeAlike(deck, first, second, b);
      }
    }
  }

  /** The set of the values of a list without duplicates is as large as the list. */
  lemma {:induction false} DistinctCardinality(s: seq<int>)
    requires NoDuplicates(s)
    ensures |set x | x in s| == |s|
  {
    if s != [] {
      var last := |s| - 1;
      DistinctCardinality(s[..last]);
      assert (set x | x in s) == (set x | x in s[..last]) + {s[last]};
      assert s[last] !in s[..last];
    }
  }

  /** The card indexes `0 .. n - 1` in order. */
  function Indexes(n: nat): seq<int> {
    seq(n, i => i)
  }

  /** A subset has at most as many elements as its superset, and as many only when equal. */
  lemma SubsetCardinality(a: set<int>, b: set<int>)
    requires a <= b
    ensures |a| <= |b|
    ensures |a| == |b| ==> a == b
  {
    assert b == a + (b - a);
    assert a * (b - a) == {};
    if |a| == |b| {
      assert |b - a| == 0;
    }
  }

  /** A list of distinct cards among `0 .. n - 1` has `n` entries exactly when
      it holds every card: the win test `numberOfCardFinded === numberOfCards`. */
  lemma AllFoundIffFull(found: seq<int>, n: nat)
    requires NoDuplicates(found)
    requires forall k :: 0 <= k < |found| ==> 0 <= found[k] < n
    ensures |found| == n <==> forall i :: 0 <= i < n ==> i in found
  {
    var inFound := set x | x in found;
    var cards := set x | x in Indexes(n);
    DistinctCardinality(found);
    DistinctCardinality(Indexes(n));
    forall x | x in inFound ensures x in cards {
      assert Indexes(n)[x] == x;
    }
    SubsetCardinality(inFound, cards);
    if forall i :: 0 <= i < n ==> i in found {
      forall x | x in cards ensures x in inFound {
        var i :| 0 <= i < n && Indexes(n)[i] == x;
      }
      SubsetCardinality(cards, inFound);
    }
    if |found| == n {
      forall i | 0 <= i < n ensures i in found {
        assert Indexes(n)[i] == i;
        assert i in cards;
      }
    }
  }
}
