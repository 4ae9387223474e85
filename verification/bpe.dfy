/** Byte-pair merging: the batch loop, and the textbook algorithm it is compared with (`bpe_rounds.dfy`). */
module Bpe {

  type Rune = nat
  type Sym = seq<Rune>
  type Pair = (Sym, Sym)
  type Merges = map<Pair, nat>

  function Flat(word: seq<Sym>): Sym {
    if word == [] then [] else word[0] + Flat(word[1..])
  }

  lemma {:induction false} FlatAppend(a: seq<Sym>, b: seq<Sym>)
    ensures Flat(a + b) == Flat(a) + Flat(b)
    decreases |a|
  {
    if a == [] {
      assert a + b == b;
    } else {
      FlatAppend(a[1..], b);
      assert (a + b)[1..] == a[1..] + b;
    }
  }

  ghost predicate NonEmpty(word: seq<Sym>) {
    forall i :: 0 <= i < |word| ==> word[i] != []
  }

  // ----- the best pair -----

  function PairAt(word: seq<Sym>, i: nat): Pair
    requires i + 1 < |word|
  {
    (word[i], word[i + 1])
  }

  predicate Mergeable(merges: Merges, word: seq<Sym>, i: nat) {
    i + 1 < |word| && PairAt(word, i) in merges
  }

  /** The leftmost position of the lowest-ranked pair. */
  ghost predicate IsBest(merges: Merges, word: seq<Sym>, i: nat) {
    && Mergeable(merges, word, i)
    && (forall j: nat :: Mergeable(merges, word, j) ==> merges[PairAt(word, i)] <= merges[PairAt(word, j)])
    && (forall j: nat :: j < i && Mergeable(merges, word, j) ==> merges[PairAt(word, i)] < merges[PairAt(word, j)])
  }

  ghost predicate Stuck(merges: Merges, word: seq<Sym>) {
    forall j: nat :: !Mergeable(merges, word, j)
  }

  /** The search over the first `n` positions, as a function. */
  function BestIn(merges: Merges, word: seq<Sym>, n: nat): (r: int)
    requires n < |word| || n == 0
    ensures -1 <= r < n
    ensures r == -1 ==> forall j: nat :: j < n ==> !Mergeable(merges, word, j)
    ensures r >= 0 ==> Mergeable(merges, word, r)
    ensures r >= 0 ==> forall j: nat :: j < n && Mergeable(merges, word, j) ==>
                         merges[PairAt(word, r)] <= merges[PairAt(word, j)]
    ensures r >= 0 ==> forall j: nat :: j < r && Mergeable(merges, word, j) ==>
                         merges[PairAt(word, r)] < merges[PairAt(word, j)]
  {
    if n == 0 then -1
    else
      var r := BestIn(merges, word, n - 1);
      if PairAt(word, n - 1) in merges && (r == -1 || merges[PairAt(word, n - 1)] < merges[PairAt(word, r)])
      then n - 1 else r
  }

  function Best(merges: Merges, word: seq<Sym>): (r: int)
    ensures r == -1 ==> Stuck(merges, word)
    ensures r >= 0 ==> IsBest(merges, word, r)
    ensures r >= -1
  {
    BestIn(merges, word, if |word| == 0 then 0 else |word| - 1)
  }

  lemma BestUnique(merges: Merges, word: seq<Sym>, i: nat)
    requires IsBest(merges, word, i)
    ensures Best(merges, word) == i
  {
    var r := Best(merges, word);
    assert !Stuck(merges, word);
    assert Mergeable(merges, word, r);
  }

  // ----- one merge at a time -----

  function MergeAt(word: seq<Sym>, i: nat): (r: seq<Sym>)
    requires i + 1 < |word|
    ensures |r| == |word| - 1
  {
    word[..i] + [word[i] + word[i + 1]] + word[i + 2..]
  }

  /** Repeatedly merge only the leftmost lowest-ranked pair. */
  function OneByOne(merges: Merges, word: seq<Sym>): seq<Sym>
    decreases |word|
  {
    var i := Best(merges, word);
    if i < 0 then word else OneByOne(merges, MergeAt(word, i))
  }

  // ----- all occurrences at once -----

  /** Every occurrence of `(a, b)`, from the left, without overlap. */
  function MergeAll(word: seq<Sym>, a: Sym, b: Sym): (r: seq<Sym>)
    ensures |r| <= |word|
    decreases |word|
  {
    if |word| >= 2 && word[0] == a && word[1] == b then [a + b] + MergeAll(word[2..], a, b)
    else if word == [] then []
    else [word[0]] + MergeAll(word[1..], a, b)
  }

  /** From the left: what is before the first occurrence stays, the occurrence is merged, and the rest is merged in
      the same way behind it. */
  lemma {:induction false} MergeAllFirst(word: seq<Sym>, a: Sym, b: Sym, n: nat)
    requires forall j :: 0 <= j < n && j + 1 < |word| ==> !(word[j] == a && word[j + 1] == b)
    requires n <= |word|
    ensures n + 1 < |word| && word[n] == a && word[n + 1] == b ==>
              MergeAll(word, a, b) == word[..n] + [a + b] + MergeAll(word[n + 2..], a, b)
    ensures n == |word| ==> MergeAll(word, a, b) == word
    decreases n
  {
    if n > 0 {
      MergeAllFirst(word[1..], a, b, n - 1);
      assert n + 2 <= |word| ==> word[1..][n - 1 + 2..] == word[n + 2..];
      assert word[..n] == [word[0]] + word[1..][..n - 1];
      assert word == [word[0]] + word[1..];
    } else {
      assert word[..0] == [];
    }
  }

  lemma {:induction false} MergeAllShrinks(word: seq<Sym>, a: Sym, b: Sym, i: nat)
    requires i + 1 < |word| && PairAt(word, i) == (a, b)
    ensures |MergeAll(word, a, b)| < |word|
    decreases |word|
  {
    if !(word[0] == a && word[1] == b) {
      MergeAllShrinks(word[1..], a, b, i - 1);
    }
  }

  /** What the loop computes. */
  function Batch(merges: Merges, word: seq<Sym>): seq<Sym>
    decreases |word|
  {
    var i := Best(merges, word);
    if i < 0 then word
    else
      var (a, b) := PairAt(word, i);
      MergeAllShrinks(word, a, b, i);
      Batch(merges, MergeAll(word, a, b))
  }

  lemma {:induction false} MergeAllFlat(word: seq<Sym>, a: Sym, b: Sym)
    ensures Flat(MergeAll(word, a, b)) == Flat(word)
    decreases |word|
  {
    if |word| >= 2 && word[0] == a && word[1] == b {
      MergeAllFlat(word[2..], a, b);
      assert word[1..][1..] == word[2..];
      assert Flat(word) == a + (b + Flat(word[2..]));
    } else if word != [] {
      MergeAllFlat(word[1..], a, b);
    }
  }

  lemma {:induction false} MergeAllNonEmpty(word: seq<Sym>, a: Sym, b: Sym)
    requires NonEmpty(word)
    ensures NonEmpty(MergeAll(word, a, b))
    decreases |word|
  {
    if |word| >= 2 && word[0] == a && word[1] == b {
      MergeAllNonEmpty(word[2..], a, b);
    } else if word != [] {
      MergeAllNonEmpty(word[1..], a, b);
    }
  }

  /** The loop keeps the text and stops only when no adjacent pair can be merged. */
  lemma {:induction false} BatchResult(merges: Merges, word: seq<Sym>)
    ensures Flat(Batch(merges, word)) == Flat(word)
    ensures Stuck(merges, Batch(merges, word))
    ensures |Batch(merges, word)| <= |word|
    decreases |word|
  {
    hide Stuck, IsBest;
    var i := Best(merges, word);
    if i >= 0 {
      BestInside(merges, word, i);
      var (a, b) := PairAt(word, i);
      MergeAllShrinks(word, a, b, i);
      MergeAllFlat(word, a, b);
      BatchResult(merges, MergeAll(word, a, b));
    }
  }

  lemma BestInside(merges: Merges, word: seq<Sym>, i: nat)
    requires IsBest(merges, word, i)
    ensures i + 1 < |word| && PairAt(word, i) in merges
  {
  }

  /** Two pairs never share a rank. */
  ghost predicate DistinctRanks(merges: Merges) {
    forall p, q :: p in merges && q in merges && merges[p] == merges[q] ==> p == q
  }

  // ----- the loops -----

  /** The scan for the best pair. */
  method FindBest(merges: Merges, word: seq<Sym>) returns (bestIdx: int, bestPair: Pair)
    ensures bestIdx == Best(merges, word)
    ensures bestIdx >= 0 ==> bestIdx + 1 < |word| && bestPair == PairAt(word, bestIdx)
  {
    var minRank: int := -1;
    bestIdx, bestPair := -1, ([], []);
    var i := 0;
    while i < |word| - 1
      invariant 0 <= i && (i < |word| || i == 0)
      invariant bestIdx == BestIn(merges, word, i)
      invariant if bestIdx < 0 then minRank == -1
                else bestPair == PairAt(word, bestIdx) && minRank == merges[bestPair]
    {
      var pair := (word[i], word[i + 1]);
      if pair in merges {
        var rank := merges[pair];
        if minRank == -1 || rank < minRank {
          minRank := rank;
          bestPair := pair;
          bestIdx := i;
        }
      }
      i := i + 1;
    }
  }

  method MergeBest(word: seq<Sym>, bestPair: Pair) returns (newWord: seq<Sym>)
    ensures newWord == MergeAll(word, bestPair.0, bestPair.1)
  {
    newWord := [];
    var i := 0;
    while i < |word|
      invariant 0 <= i <= |word|
      invariant newWord + MergeAll(word[i..], bestPair.0, bestPair.1) == MergeAll(word, bestPair.0, bestPair.1)
    {
      ghost var before, rest := newWord, word[i..];
      if i < |word| - 1 && word[i] == bestPair.0 && word[i + 1] == bestPair.1 {
        newWord := newWord + [bestPair.0 + bestPair.1];
        i := i + 2;
        assert rest[2..] == word[i..];
      } else {
        newWord := newWord + [word[i]];
        i := i + 1;
        assert rest[1..] == word[i..];
      }
      assert newWord + MergeAll(word[i..], bestPair.0, bestPair.1) == before + MergeAll(rest, bestPair.0, bestPair.1);
    }
  }

  function Singles(token: seq<Rune>): (r: seq<Sym>)
    ensures |r| == |token|
  {
    seq(|token|, i requires 0 <= i < |token| => [token[i]])
  }

  /** The merge loop: the word of single runes, merged until nothing can be merged. */
  method MergeLoop(merges: Merges, token: seq<Rune>) returns (word: seq<Sym>)
    ensures word == Batch(merges, Singles(token))
  {
    hide IsBest, Stuck;
    word := [];
    for i := 0 to |token|
      invariant word == Singles(token)[..i]
    {
      word := word + [[token[i]]];
    }
    assert Singles(token)[..|token|] == Singles(token);
    ShortWord(merges, word);
    if |word| <= 1 {
      return;
    }
    ghost var start := word;
    while true
      invariant Batch(merges, word) == Batch(merges, start)
      decreases |word|
    {
      var bestIdx, bestPair := FindBest(merges, word);
      if bestIdx == -1 {
        break;
      }
      MergeAllShrinks(word, bestPair.0, bestPair.1, bestIdx);
      word := MergeBest(word, bestPair);
      ShortWord(merges, word);
      if |word| <= 1 {
        break;
      }
    }
  }

  lemma ShortWord(merges: Merges, word: seq<Sym>)
    ensures |word| <= 1 ==> Batch(merges, word) == word
  {
  }
}
