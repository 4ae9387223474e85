/** When does replacing every occurrence of the best pair at once do what merging one pair at a time does?

    Round by round: exactly when the merge table has no races. A race is a merge that uses the result
    of `(a, b)`, ranks before `(a, b)`, and has no earlier-ranked merge of the unmerged symbols to
    announce it. */
module BpeRounds {
  import opened Bpe

  // ----- steps -----

  /** One step of the textbook algorithm; a word with nothing to merge stays. */
  function Step(merges: Merges, word: seq<Sym>): seq<Sym> {
    var i := Best(merges, word);
    if i < 0 then word else MergeAt(word, i)
  }

  function Steps(merges: Merges, word: seq<Sym>, k: nat): seq<Sym>
    decreases k
  {
    if k == 0 then word else Steps(merges, Step(merges, word), k - 1)
  }

  /** Merging one pair at a time passes through `target`. */
  ghost predicate Reaches(merges: Merges, word: seq<Sym>, target: seq<Sym>) {
    exists k: nat :: Steps(merges, word, k) == target
  }

  lemma ReachesItself(merges: Merges, word: seq<Sym>)
    ensures Reaches(merges, word, word)
  {
    assert Steps(merges, word, 0) == word;
  }

  lemma ReachesLater(merges: Merges, word: seq<Sym>, target: seq<Sym>)
    requires Reaches(merges, Step(merges, word), target)
    ensures Reaches(merges, word, target)
  {
    hide Step;
    var k: nat :| Steps(merges, Step(merges, word), k) == target;
    var n := k + 1;
    assert Steps(merges, word, n) == target;
  }

  lemma {:induction false} StepsSameEnd(merges: Merges, word: seq<Sym>, k: nat)
    ensures OneByOne(merges, Steps(merges, word, k)) == OneByOne(merges, word)
    decreases k
  {
    hide Best, MergeAt;
    if k > 0 {
      StepsSameEnd(merges, Step(merges, word), k - 1);
    }
  }

  lemma ReachesSameEnd(merges: Merges, word: seq<Sym>, target: seq<Sym>)
    requires Reaches(merges, word, target)
    ensures OneByOne(merges, word) == OneByOne(merges, target)
  {
    var k: nat :| Steps(merges, word, k) == target;
    StepsSameEnd(merges, word, k);
  }

  // ----- races -----

  ghost predicate RanksBefore(merges: Merges, p: Pair, q: Pair) {
    p in merges && q in merges && merges[p] < merges[q]
  }

  /** The result of `(a, b)` wants to merge with the symbol behind it, before `(a, b)`'s turn is over. */
  ghost predicate RightRace(merges: Merges, a: Sym, b: Sym, y: Sym) {
    && a != [] && b != [] && y != []
    && RanksBefore(merges, (a + b, y), (a, b))
    && !RanksBefore(merges, (b, y), (a, b))
  }

  /** The same for the symbol in front of it. */
  ghost predicate LeftRace(merges: Merges, x: Sym, a: Sym, b: Sym) {
    && x != [] && a != [] && b != []
    && RanksBefore(merges, (x, a + b), (a, b))
    && !RanksBefore(merges, (x, a), (a, b))
    && !(x == a && a == b)
  }

  ghost predicate RaceFree(merges: Merges) {
    && (forall a, b, y :: !RightRace(merges, a, b, y))
    && (forall x, a, b :: !LeftRace(merges, x, a, b))
  }

  /** A round that replaces all occurrences of the best pair ends where a number of steps end. */
  ghost predicate RoundIsSteps(merges: Merges, word: seq<Sym>) {
    var i := Best(merges, word);
    i >= 0 ==> Reaches(merges, word, MergeAll(word, word[i], word[i + 1]))
  }

  // ----- without races a round is a number of steps -----

  /** Nothing ranks below `(a, b)` anywhere in the word. */
  ghost predicate Lowest(merges: Merges, word: seq<Sym>, a: Sym, b: Sym) {
    && (a, b) in merges
    && forall j: nat :: Mergeable(merges, word, j) ==> merges[(a, b)] <= merges[PairAt(word, j)]
  }

  /** No `(a, b)` starts before position `n`. */
  ghost predicate FreeBefore(word: seq<Sym>, n: nat, a: Sym, b: Sym) {
    forall j: nat :: j < n && j + 1 < |word| ==> PairAt(word, j) != (a, b)
  }

  lemma NextIsBest(merges: Merges, word: seq<Sym>, n: nat, a: Sym, b: Sym)
    requires DistinctRanks(merges) && Lowest(merges, word, a, b) && FreeBefore(word, n, a, b)
    requires n + 1 < |word| && PairAt(word, n) == (a, b)
    ensures Best(merges, word) == n
  {
    forall j: nat | j < n && Mergeable(merges, word, j)
      ensures merges[PairAt(word, n)] < merges[PairAt(word, j)]
    {
      assert PairAt(word, j) != (a, b);
    }
    assert Mergeable(merges, word, n);
    BestUnique(merges, word, n);
  }

  /** The pairs of the word after one merge: those before it, the two new ones, those behind it. */
  lemma PairsAfter(word: seq<Sym>, n: nat, j: nat)
    requires n + 1 < |word| && j + 1 < |word| - 1
    ensures j + 1 < n ==> PairAt(MergeAt(word, n), j) == PairAt(word, j)
    ensures j + 1 == n ==> PairAt(MergeAt(word, n), j) == (word[j], word[n] + word[n + 1])
    ensures j == n ==> PairAt(MergeAt(word, n), j) == (word[n] + word[n + 1], word[n + 2])
    ensures j > n ==> PairAt(MergeAt(word, n), j) == PairAt(word, j + 1)
  {
  }

  /** The pair made with the symbol in front does not rank below `(a, b)`. */
  lemma FrontNotLower(merges: Merges, word: seq<Sym>, n: nat, a: Sym, b: Sym)
    requires RaceFree(merges) && NonEmpty(word) && Lowest(merges, word, a, b) && FreeBefore(word, n, a, b)
    requires 0 < n && n + 1 < |word| && PairAt(word, n) == (a, b)
    ensures !RanksBefore(merges, (word[n - 1], a + b), (a, b))
  {
    var x := word[n - 1];
    assert PairAt(word, n - 1) == (x, a);
    assert (x, a) in merges ==> Mergeable(merges, word, n - 1);
    assert !LeftRace(merges, x, a, b);
  }

  /** Nor does the pair made with the symbol behind. */
  lemma BackNotLower(merges: Merges, word: seq<Sym>, n: nat, a: Sym, b: Sym)
    requires RaceFree(merges) && NonEmpty(word) && Lowest(merges, word, a, b)
    requires n + 2 < |word| && PairAt(word, n) == (a, b)
    ensures !RanksBefore(merges, (a + b, word[n + 2]), (a, b))
  {
    var y := word[n + 2];
    assert PairAt(word, n + 1) == (b, y);
    assert (b, y) in merges ==> Mergeable(merges, word, n + 1);
    assert !RightRace(merges, a, b, y);
  }

  lemma StaysLowest(merges: Merges, word: seq<Sym>, n: nat, a: Sym, b: Sym)
    requires RaceFree(merges) && NonEmpty(word) && Lowest(merges, word, a, b) && FreeBefore(word, n, a, b)
    requires n + 1 < |word| && PairAt(word, n) == (a, b)
    ensures Lowest(merges, MergeAt(word, n), a, b)
  {
    hide RaceFree, FreeBefore, MergeAt;
    var w := MergeAt(word, n);
    forall j: nat | Mergeable(merges, w, j)
      ensures merges[(a, b)] <= merges[PairAt(w, j)]
    {
      PairsAfter(word, n, j);
      if j + 1 < n {
        assert Mergeable(merges, word, j);
      } else if j + 1 == n {
        FrontNotLower(merges, word, n, a, b);
      } else if j == n {
        BackNotLower(merges, word, n, a, b);
      } else {
        assert Mergeable(merges, word, j + 1);
      }
    }
  }

  /** The merged symbol is longer than either half, so no new `(a, b)` appears at or before it. */
  lemma StaysFree(word: seq<Sym>, n: nat, a: Sym, b: Sym)
    requires a != [] && b != [] && FreeBefore(word, n, a, b)
    requires n + 1 < |word| && PairAt(word, n) == (a, b)
    ensures FreeBefore(MergeAt(word, n), n + 1, a, b)
  {
    hide MergeAt;
    assert |a + b| > |a| && |a + b| > |b|;
    forall j: nat | j < n + 1 && j + 1 < |word| - 1
      ensures PairAt(MergeAt(word, n), j) != (a, b)
    {
      PairsAfter(word, n, j);
    }
  }

  lemma StaysNonEmpty(word: seq<Sym>, n: nat)
    requires NonEmpty(word) && n + 1 < |word|
    ensures NonEmpty(MergeAt(word, n))
  {
    assert word[n] != [] && word[n] + word[n + 1] != [];
  }

  lemma FreeMore(word: seq<Sym>, n: nat, a: Sym, b: Sym)
    requires FreeBefore(word, n, a, b) && (n + 1 < |word| ==> PairAt(word, n) != (a, b))
    ensures FreeBefore(word, n + 1, a, b)
  {
  }

  /** What holds of a word in which `(a, b)` is being merged and the first `n` symbols are done. */
  ghost predicate InRound(merges: Merges, word: seq<Sym>, n: nat, a: Sym, b: Sym) {
    && a != [] && b != [] && NonEmpty(word)
    && Lowest(merges, word, a, b) && FreeBefore(word, n, a, b)
  }

  lemma TakeStep(merges: Merges, word: seq<Sym>, n: nat, a: Sym, b: Sym)
    requires DistinctRanks(merges) && RaceFree(merges) && InRound(merges, word, n, a, b)
    requires n + 1 < |word| && PairAt(word, n) == (a, b)
    ensures Step(merges, word) == MergeAt(word, n)
    ensures InRound(merges, MergeAt(word, n), n + 1, a, b)
  {
    hide DistinctRanks, RaceFree, Lowest, FreeBefore, Best, MergeAt, NonEmpty;
    NextIsBest(merges, word, n, a, b);
    StaysLowest(merges, word, n, a, b);
    StaysFree(word, n, a, b);
    StaysNonEmpty(word, n);
  }

  lemma PassOver(merges: Merges, word: seq<Sym>, n: nat, a: Sym, b: Sym)
    requires InRound(merges, word, n, a, b) && (n + 1 < |word| ==> PairAt(word, n) != (a, b))
    ensures InRound(merges, word, n + 1, a, b)
  {
    hide Lowest, FreeBefore, NonEmpty;
    FreeMore(word, n, a, b);
  }

  // the two ways a word can be cut behind `done`

  lemma Regroup(done: seq<Sym>, s: Sym, tail: seq<Sym>)
    ensures (done + [s]) + tail == done + ([s] + tail)
  {
  }

  lemma CutMerged(done: seq<Sym>, rest: seq<Sym>, a: Sym, b: Sym)
    requires |rest| >= 2 && rest[0] == a && rest[1] == b
    ensures PairAt(done + rest, |done|) == (a, b)
    ensures MergeAt(done + rest, |done|) == (done + [a + b]) + rest[2..]
    ensures (done + [a + b]) + MergeAll(rest[2..], a, b) == done + MergeAll(rest, a, b)
  {
    Regroup(done, a + b, MergeAll(rest[2..], a, b));
  }

  lemma CutPassed(done: seq<Sym>, rest: seq<Sym>, a: Sym, b: Sym)
    requires rest != [] && !(|rest| >= 2 && rest[0] == a && rest[1] == b)
    ensures done + rest == (done + [rest[0]]) + rest[1..]
    ensures |done| + 1 < |done + rest| ==> PairAt(done + rest, |done|) != (a, b)
    ensures (done + [rest[0]]) + MergeAll(rest[1..], a, b) == done + MergeAll(rest, a, b)
  {
    Regroup(done, rest[0], rest[1..]);
    Regroup(done, rest[0], MergeAll(rest[1..], a, b));
    assert [rest[0]] + rest[1..] == rest;
  }

  /** From a word whose first symbols are done, single steps lead to the rest merged in one batch. */
  lemma {:induction false} RestOfRound(merges: Merges, done: seq<Sym>, rest: seq<Sym>, a: Sym, b: Sym)
    requires DistinctRanks(merges) && RaceFree(merges) && InRound(merges, done + rest, |done|, a, b)
    ensures Reaches(merges, done + rest, done + MergeAll(rest, a, b))
    decreases |rest|
  {
    hide *;
    if |rest| >= 2 && rest[0] == a && rest[1] == b {
      CutMerged(done, rest, a, b);
      TakeStep(merges, done + rest, |done|, a, b);
      RestOfRound(merges, done + [a + b], rest[2..], a, b);
      ReachesLater(merges, done + rest, done + MergeAll(rest, a, b));
    } else if rest != [] {
      CutPassed(done, rest, a, b);
      PassOver(merges, done + rest, |done|, a, b);
      RestOfRound(merges, done + [rest[0]], rest[1..], a, b);
    } else {
      NothingLeft(rest, a, b);
      ReachesItself(merges, done + rest);
    }
  }

  lemma NothingLeft(rest: seq<Sym>, a: Sym, b: Sym)
    requires rest == []
    ensures MergeAll(rest, a, b) == rest
  {
  }

  lemma StartOfRound(merges: Merges, word: seq<Sym>, i: nat)
    requires IsBest(merges, word, i) && NonEmpty(word)
    ensures i + 1 < |word| && InRound(merges, word, 0, word[i], word[i + 1])
  {
    assert word[i] != [] && word[i + 1] != [];
  }

  /** Without races every batch round is a number of single steps. */
  lemma RaceFreeRound(merges: Merges, word: seq<Sym>)
    requires DistinctRanks(merges) && RaceFree(merges) && NonEmpty(word)
    ensures RoundIsSteps(merges, word)
  {
    hide DistinctRanks, RaceFree, NonEmpty, InRound, Reaches, MergeAll;
    var i := Best(merges, word);
    if i >= 0 {
      var a, b := word[i], word[i + 1];
      StartOfRound(merges, word, i);
      assert [] + word == word && [] + MergeAll(word, a, b) == MergeAll(word, a, b);
      RestOfRound(merges, [], word, a, b);
    }
  }

  /** And so the batch loop ends with the word that merging one pair at a time ends with. */
  lemma {:induction false} BatchIsOneByOne(merges: Merges, word: seq<Sym>)
    requires DistinctRanks(merges) && RaceFree(merges) && NonEmpty(word)
    ensures Batch(merges, word) == OneByOne(merges, word)
    decreases |word|
  {
    hide DistinctRanks, RaceFree, NonEmpty, Reaches, MergeAll, IsBest, Stuck;
    var i := Best(merges, word);
    if i >= 0 {
      BestInside(merges, word, i);
      var a, b := word[i], word[i + 1];
      assert PairAt(word, i) == (a, b);
      MergeAllShrinks(word, a, b, i);
      MergeAllNonEmpty(word, a, b);
      BatchIsOneByOne(merges, MergeAll(word, a, b));
      RaceFreeRound(merges, word);
      ReachesSameEnd(merges, word, MergeAll(word, a, b));
    }
  }

  // ----- with a race some round is not -----

  /** A symbol no merge knows: one longer than all of them. */
  lemma {:induction false} LongSymbol(pairs: set<Pair>) returns (f: Sym)
    ensures f != []
    ensures forall p :: p in pairs ==> |p.0| < |f| && |p.1| < |f|
    decreases pairs
  {
    if pairs == {} {
      f := [0];
    } else {
      var p :| p in pairs;
      var g := LongSymbol(pairs - {p});
      f := g + p.0 + p.1;
    }
  }

  ghost predicate Unknown(merges: Merges, f: Sym) {
    f != [] && forall s :: (f, s) !in merges && (s, f) !in merges
  }

  lemma UnknownExists(merges: Merges) returns (f: Sym)
    ensures Unknown(merges, f)
  {
    f := LongSymbol(merges.Keys);
  }

  lemma {:induction false} StepsNeverLonger(merges: Merges, word: seq<Sym>, k: nat)
    ensures |Steps(merges, word, k)| <= |word|
    ensures k > 0 && Best(merges, word) >= 0 ==> |Steps(merges, word, k)| < |word|
    decreases k
  {
    if k > 0 {
      StepsNeverLonger(merges, Step(merges, word), k - 1);
    }
  }

  /** Every step shortens the word, so a run that is elsewhere at the length of `target` misses it. */
  lemma Missed(merges: Merges, w0: seq<Sym>, w1: seq<Sym>, w2: seq<Sym>, target: seq<Sym>)
    requires Step(merges, w0) == w1 && Step(merges, w1) == w2
    requires |w1| < |w0| && |w2| < |w1| && |target| == |w2| && target != w2
    requires Best(merges, w2) >= 0
    ensures !Reaches(merges, w0, target)
  {
    hide Step, Best;
    forall k: nat
      ensures Steps(merges, w0, k) != target
    {
      if k == 1 {
        assert Steps(merges, w0, 1) == Steps(merges, w1, 0);
      } else if k >= 2 {
        var m := k - 2;
        assert Steps(merges, w0, k) == Steps(merges, w1, k - 1) == Steps(merges, w2, m);
        StepsNeverLonger(merges, w2, m);
      }
    }
  }

  /** The word on which a right race shows: `a b y f a b`. */
  lemma RightRaceShows(merges: Merges, a: Sym, b: Sym, y: Sym, f: Sym)
    requires DistinctRanks(merges) && RightRace(merges, a, b, y) && Unknown(merges, f)
    ensures NonEmpty([a, b, y, f, a, b])
    ensures !RoundIsSteps(merges, [a, b, y, f, a, b])
  {
    var w0 := [a, b, y, f, a, b];
    var w1 := [a + b, y, f, a, b];
    var w2 := [a + b + y, f, a, b];
    var target := [a + b, y, f, a + b];
    RightFirst(merges, a, b, y, f);
    RightSecond(merges, a, b, y, f);
    RightThird(merges, a, b, y, f);
    RightBatch(merges, a, b, y, f);
    assert target[1] != w2[1];
    hide Step, Best, MergeAll;
    Missed(merges, w0, w1, w2, target);
  }

  lemma RightFirst(merges: Merges, a: Sym, b: Sym, y: Sym, f: Sym)
    requires DistinctRanks(merges) && RightRace(merges, a, b, y) && Unknown(merges, f)
    ensures Best(merges, [a, b, y, f, a, b]) == 0
    ensures Step(merges, [a, b, y, f, a, b]) == [a + b, y, f, a, b]
  {
    var w := [a, b, y, f, a, b];
    assert PairAt(w, 0) == (a, b) && PairAt(w, 1) == (b, y) && PairAt(w, 2) == (y, f);
    assert PairAt(w, 3) == (f, a) && PairAt(w, 4) == (a, b);
    assert Mergeable(merges, w, 0);
    assert IsBest(merges, w, 0);
    BestUnique(merges, w, 0);
    assert MergeAt(w, 0) == [a + b, y, f, a, b];
  }

  lemma RightSecond(merges: Merges, a: Sym, b: Sym, y: Sym, f: Sym)
    requires RightRace(merges, a, b, y) && Unknown(merges, f)
    ensures Step(merges, [a + b, y, f, a, b]) == [a + b + y, f, a, b]
  {
    var w := [a + b, y, f, a, b];
    assert PairAt(w, 0) == (a + b, y) && PairAt(w, 1) == (y, f) && PairAt(w, 2) == (f, a) && PairAt(w, 3) == (a, b);
    assert Mergeable(merges, w, 0);
    assert IsBest(merges, w, 0);
    BestUnique(merges, w, 0);
    assert MergeAt(w, 0) == [a + b + y, f, a, b];
  }

  lemma RightThird(merges: Merges, a: Sym, b: Sym, y: Sym, f: Sym)
    requires RightRace(merges, a, b, y) && Unknown(merges, f)
    ensures Best(merges, [a + b + y, f, a, b]) >= 0
  {
    var w := [a + b + y, f, a, b];
    assert PairAt(w, 2) == (a, b);
    assert Mergeable(merges, w, 2);
  }

  lemma RightBatch(merges: Merges, a: Sym, b: Sym, y: Sym, f: Sym)
    requires RightRace(merges, a, b, y) && Unknown(merges, f)
    ensures MergeAll([a, b, y, f, a, b], a, b) == [a + b, y, f, a + b]
    ensures f != y
  {
    var w := [a, b, y, f, a, b];
    assert f != a && f != b && f != y;
    assert w[2..] == [y, f, a, b] && [y, f, a, b][1..] == [f, a, b] && [f, a, b][1..] == [a, b] && [a, b][2..] == [];
    assert MergeAll([], a, b) == [];
    assert MergeAll([a, b], a, b) == [a + b];
    assert MergeAll([f, a, b], a, b) == [f, a + b];
    assert MergeAll([y, f, a, b], a, b) == [y, f, a + b];
  }

  /** The word on which a left race shows: `x a b f a b`. */
  lemma LeftRaceShows(merges: Merges, x: Sym, a: Sym, b: Sym, f: Sym)
    requires DistinctRanks(merges) && LeftRace(merges, x, a, b) && Unknown(merges, f)
    ensures NonEmpty([x, a, b, f, a, b])
    ensures !RoundIsSteps(merges, [x, a, b, f, a, b])
  {
    var w0 := [x, a, b, f, a, b];
    var w1 := [x, a + b, f, a, b];
    var w2 := [x + (a + b), f, a, b];
    var target := [x, a + b, f, a + b];
    LeftFirst(merges, x, a, b, f);
    LeftSecond(merges, x, a, b, f);
    LeftThird(merges, x, a, b, f);
    LeftBatch(merges, x, a, b, f);
    assert target[1] != w2[1];
    hide Step, Best, MergeAll;
    Missed(merges, w0, w1, w2, target);
  }

  lemma LeftFirst(merges: Merges, x: Sym, a: Sym, b: Sym, f: Sym)
    requires DistinctRanks(merges) && LeftRace(merges, x, a, b) && Unknown(merges, f)
    ensures Best(merges, [x, a, b, f, a, b]) == 1
    ensures Step(merges, [x, a, b, f, a, b]) == [x, a + b, f, a, b]
  {
    var w := [x, a, b, f, a, b];
    assert PairAt(w, 0) == (x, a) && PairAt(w, 1) == (a, b) && PairAt(w, 2) == (b, f);
    assert PairAt(w, 3) == (f, a) && PairAt(w, 4) == (a, b);
    assert (x, a) != (a, b);
    assert Mergeable(merges, w, 1);
    assert IsBest(merges, w, 1);
    BestUnique(merges, w, 1);
    assert MergeAt(w, 1) == [x, a + b, f, a, b];
  }

  lemma LeftSecond(merges: Merges, x: Sym, a: Sym, b: Sym, f: Sym)
    requires LeftRace(merges, x, a, b) && Unknown(merges, f)
    ensures Step(merges, [x, a + b, f, a, b]) == [x + (a + b), f, a, b]
  {
    var w := [x, a + b, f, a, b];
    assert PairAt(w, 0) == (x, a + b) && PairAt(w, 1) == (a + b, f) && PairAt(w, 2) == (f, a) && PairAt(w, 3) == (a, b);
    assert Mergeable(merges, w, 0);
    assert IsBest(merges, w, 0);
    BestUnique(merges, w, 0);
    assert MergeAt(w, 0) == [x + (a + b), f, a, b];
  }

  lemma LeftThird(merges: Merges, x: Sym, a: Sym, b: Sym, f: Sym)
    requires LeftRace(merges, x, a, b) && Unknown(merges, f)
    ensures Best(merges, [x + (a + b), f, a, b]) >= 0
  {
    var w := [x + (a + b), f, a, b];
    assert PairAt(w, 2) == (a, b);
    assert Mergeable(merges, w, 2);
  }

  lemma LeftBatch(merges: Merges, x: Sym, a: Sym, b: Sym, f: Sym)
    requires LeftRace(merges, x, a, b) && Unknown(merges, f)
    ensures MergeAll([x, a, b, f, a, b], a, b) == [x, a + b, f, a + b]
    ensures f != a + b
  {
    var w := [x, a, b, f, a, b];
    assert f != a && f != b && f != a + b;
    assert w[1..] == [a, b, f, a, b] && [a, b, f, a, b][2..] == [f, a, b] && [f, a, b][1..] == [a, b] && [a, b][2..] == [];
    assert MergeAll([], a, b) == [];
    assert MergeAll([a, b], a, b) == [a + b];
    assert MergeAll([f, a, b], a, b) == [f, a + b];
    assert MergeAll([a, b, f, a, b], a, b) == [a + b, f, a + b];
  }

  lemma RaceShows(merges: Merges) returns (word: seq<Sym>)
    requires DistinctRanks(merges) && !RaceFree(merges)
    ensures NonEmpty(word) && !RoundIsSteps(merges, word)
  {
    hide DistinctRanks, RoundIsSteps, RightRace, LeftRace, Unknown;
    var f := UnknownExists(merges);
    if x, a, b :| LeftRace(merges, x, a, b) {
      LeftRaceShows(merges, x, a, b, f);
      word := [x, a, b, f, a, b];
    } else {
      var a, b, y :| RightRace(merges, a, b, y);
      RightRaceShows(merges, a, b, y, f);
      word := [a, b, y, f, a, b];
    }
  }

  /** The exact condition: every round of the batch loop, on every word, is a number of steps of the
      textbook algorithm if and only if the table has no race. */
  lemma RoundsAgreeIff(merges: Merges)
    requires DistinctRanks(merges)
    ensures RaceFree(merges) <==> forall word :: NonEmpty(word) ==> RoundIsSteps(merges, word)
  {
    hide DistinctRanks, RaceFree, RoundIsSteps, NonEmpty;
    if RaceFree(merges) {
      forall word | NonEmpty(word)
        ensures RoundIsSteps(merges, word)
      {
        RaceFreeRound(merges, word);
      }
    } else {
      var word := RaceShows(merges);
    }
  }

  // ----- races at the start of the loop -----

  predicate StartsBelow(s: Sym, f: Rune) {
    s != [] ==> s[0] < f
  }

  lemma {:induction false} RuneAbove(pairs: set<Pair>) returns (f: Rune)
    ensures forall p :: p in pairs ==> StartsBelow(p.0, f) && StartsBelow(p.1, f)
    decreases pairs
  {
    if pairs == {} {
      f := 0;
    } else {
      var p :| p in pairs;
      var g := RuneAbove(pairs - {p});
      f := g + 1 + (if p.0 != [] then p.0[0] else 0) + (if p.1 != [] then p.1[0] else 0);
    }
  }

  /** A rune no merge knows. */
  lemma FreshRune(merges: Merges) returns (f: Rune)
    ensures Unknown(merges, [f])
  {
    f := RuneAbove(merges.Keys);
    assert !StartsBelow([f], f);
    forall s
      ensures ([f], s) !in merges && (s, [f]) !in merges
    {
      var front: Pair, back: Pair := ([f], s), (s, [f]);
      assert front !in merges.Keys && back !in merges.Keys;
    }
  }

  lemma SixSingles(a: Rune, b: Rune, c: Rune, d: Rune, e: Rune, g: Rune)
    ensures Singles([a, b, c, d, e, g]) == [[a], [b], [c], [d], [e], [g]]
  {
    var t, w := [a, b, c, d, e, g], [[a], [b], [c], [d], [e], [g]];
    forall i | 0 <= i < 6
      ensures Singles(t)[i] == w[i]
    {
    }
  }

  /** A race between single runes shows in the very first round on a text. */
  lemma RuneRaceShows(merges: Merges, a: Rune, b: Rune, c: Rune) returns (text: seq<Rune>)
    requires DistinctRanks(merges) && (RightRace(merges, [a], [b], [c]) || LeftRace(merges, [a], [b], [c]))
    ensures !RoundIsSteps(merges, Singles(text))
  {
    hide DistinctRanks, RoundIsSteps, RightRace, LeftRace, Unknown, Singles;
    var f := FreshRune(merges);
    if RightRace(merges, [a], [b], [c]) {
      text := [a, b, c, f, a, b];
      SixSingles(a, b, c, f, a, b);
      RightRaceShows(merges, [a], [b], [c], [f]);
    } else {
      text := [a, b, c, f, b, c];
      SixSingles(a, b, c, f, b, c);
      LeftRaceShows(merges, [a], [b], [c], [f]);
    }
  }

  // ----- tables a trainer produces -----

  /** A merge that uses the result of `(p, q)` ranks strictly after `(p, q)`, as in a table whose
      merges are listed in the order they were learnt. */
  ghost predicate Layered(merges: Merges) {
    forall p, u :: p in merges && u in merges && (u.0 == p.0 + p.1 || u.1 == p.0 + p.1) ==> merges[p] < merges[u]
  }

  lemma LaterInLayered(merges: Merges, p: Pair, u: Pair)
    requires Layered(merges) && (u.0 == p.0 + p.1 || u.1 == p.0 + p.1)
    ensures !RanksBefore(merges, u, p)
  {
  }

  lemma LayeredIsRaceFree(merges: Merges)
    requires Layered(merges)
    ensures RaceFree(merges)
  {
    hide Layered, RanksBefore;
    forall a, b, y
      ensures !RightRace(merges, a, b, y)
    {
      LaterInLayered(merges, (a, b), (a + b, y));
    }
    forall x, a, b
      ensures !LeftRace(merges, x, a, b)
    {
      LaterInLayered(merges, (a, b), (x, a + b));
    }
  }

  // ----- finished words -----

  /** A race can also change the finished word. On `a b a b`, where `(a + b, a)` ranks before `(a, b)`,
      the two algorithms end alike exactly when both of their last words can still be joined. */
  lemma SelfRaceDiffers(merges: Merges, a: Sym, b: Sym)
    requires DistinctRanks(merges) && RightRace(merges, a, b, a)
    ensures Batch(merges, [a, b, a, b]) == OneByOne(merges, [a, b, a, b]) <==>
            (a + b + a, b) in merges && (a + b, a + b) in merges
  {
    SelfRaceBatch(merges, a, b);
    SelfRaceSteps(merges, a, b);
    PairEnds(merges, a + b, a + b);
    PairEnds(merges, a + b + a, b);
    hide Batch, OneByOne, DistinctRanks;
    assert (a + b) + (a + b) == (a + b + a) + b;
    assert |a + b| < |a + b + a|;
    assert [a + b, a + b][0] != [a + b + a, b][0];
  }

  /** The same, of the text of two runes repeated. */
  lemma SelfRaceOnText(merges: Merges, p: Rune, q: Rune)
    requires DistinctRanks(merges) && RightRace(merges, [p], [q], [p])
    ensures Batch(merges, Singles([p, q, p, q])) == OneByOne(merges, Singles([p, q, p, q])) <==>
            ([p, q, p], [q]) in merges && ([p, q], [p, q]) in merges
  {
    hide DistinctRanks, RightRace, Batch, OneByOne;
    var t, w := [p, q, p, q], [[p], [q], [p], [q]];
    forall i | 0 <= i < 4
      ensures Singles(t)[i] == w[i]
    {
    }
    assert Singles(t) == w;
    assert [p] + [q] == [p, q] && [p, q] + [p] == [p, q, p];
    SelfRaceDiffers(merges, [p], [q]);
  }

  lemma SelfRaceBest(merges: Merges, a: Sym, b: Sym)
    requires DistinctRanks(merges) && RightRace(merges, a, b, a)
    ensures Best(merges, [a, b, a, b]) == 0
  {
    var w := [a, b, a, b];
    assert PairAt(w, 0) == (a, b) && PairAt(w, 1) == (b, a) && PairAt(w, 2) == (a, b);
    assert Mergeable(merges, w, 0);
    assert IsBest(merges, w, 0);
    BestUnique(merges, w, 0);
  }

  lemma SelfRaceBatch(merges: Merges, a: Sym, b: Sym)
    requires DistinctRanks(merges) && RightRace(merges, a, b, a)
    ensures Batch(merges, [a, b, a, b]) == Batch(merges, [a + b, a + b])
  {
    var w := [a, b, a, b];
    SelfRaceBest(merges, a, b);
    hide DistinctRanks, RightRace, Best;
    assert PairAt(w, 0) == (a, b);
    assert w[2..] == [a, b] && [a, b][2..] == [];
    assert MergeAll([], a, b) == [];
    assert MergeAll([a, b], a, b) == [a + b];
    assert MergeAll(w, a, b) == [a + b, a + b];
  }

  lemma SelfRaceSteps(merges: Merges, a: Sym, b: Sym)
    requires DistinctRanks(merges) && RightRace(merges, a, b, a)
    ensures OneByOne(merges, [a, b, a, b]) == OneByOne(merges, [a + b + a, b])
  {
    var w, v := [a, b, a, b], [a + b, a, b];
    SelfRaceBest(merges, a, b);
    assert MergeAt(w, 0) == v;
    assert PairAt(v, 0) == (a + b, a) && PairAt(v, 1) == (a, b);
    assert Mergeable(merges, v, 0);
    assert IsBest(merges, v, 0);
    BestUnique(merges, v, 0);
    assert MergeAt(v, 0) == [a + b + a, b];
  }

  /** A word of two symbols is joined or left alone, in both algorithms. */
  lemma PairEnds(merges: Merges, c: Sym, d: Sym)
    ensures Batch(merges, [c, d]) == if (c, d) in merges then [c + d] else [c, d]
    ensures OneByOne(merges, [c, d]) == if (c, d) in merges then [c + d] else [c, d]
  {
    var w := [c, d];
    assert PairAt(w, 0) == (c, d);
    assert w[2..] == [] && MergeAll([], c, d) == [];
    assert MergeAll(w, c, d) == [c + d] && MergeAt(w, 0) == [c + d];
    assert Best(merges, [c + d]) == -1;
    if (c, d) in merges {
      assert Mergeable(merges, w, 0);
    } else {
      assert Stuck(merges, w);
    }
  }

  // ----- instances -----

  /** A race-free table need not be layered: `abc` is ranked before `ab`, but `bc` before both. */
  const ANNOUNCED: Merges := map[([97], [98]) := 2, ([97, 98], [99]) := 1, ([98], [99]) := 0]

  lemma Halves(a: Sym, b: Sym, c: Rune, d: Rune)
    requires a != [] && b != [] && a + b == [c, d]
    ensures a == [c] && b == [d]
  {
    assert |a| == 1 && |b| == 1;
    assert (a + b)[0] == a[0] && (a + b)[1] == b[0];
  }

  lemma RaceFreeIsWeaker()
    ensures RaceFree(ANNOUNCED) && !Layered(ANNOUNCED)
  {
    var ab: Pair := ([97], [98]);
    var abc: Pair := ([97, 98], [99]);
    assert ab in ANNOUNCED && abc in ANNOUNCED && ab.0 + ab.1 == abc.0;
    forall a, b, y
      ensures !RightRace(ANNOUNCED, a, b, y)
    {
      assert a != [] && b != [] ==> |a + b| >= 2;
      if a != [] && b != [] && a + b == [97, 98] {
        Halves(a, b, 97, 98);
      }
    }
    forall x, a, b
      ensures !LeftRace(ANNOUNCED, x, a, b)
    {
      assert a != [] && b != [] ==> |a + b| >= 2;
    }
  }

  const A: Sym := [97]
  const AA: Sym := [97, 97]

  /** "aa" is ranked before the pair that produces its first half. */
  const UNLAYERED: Merges := map[(A, A) := 1, (AA, A) := 0]

  lemma UnlayeredDiffers()
    ensures DistinctRanks(UNLAYERED) && !RaceFree(UNLAYERED)
    ensures Batch(UNLAYERED, [A, A, A, A]) != OneByOne(UNLAYERED, [A, A, A, A])
  {
    assert A + A == AA;
    assert (A, A) in UNLAYERED && (AA, A) in UNLAYERED && AA != A;
    assert RightRace(UNLAYERED, A, A, A);
    SelfRaceDiffers(UNLAYERED, A, A);
    assert |AA + A| == 3;
    assert (AA + A, A) !in UNLAYERED;
  }
}
