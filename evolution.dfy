/**
 * Evolution bookkeeping (main.go): the fitness sum with its early exit on an exact hit, the
 * roulette-wheel table and the parent search over it, the best-of-population choice, and the
 * growth loop of main that breeds one offspring per round and appends it to the population.
 *
 * The population is a sequence of chromosome references; an offspring may share its first
 * parent's backing array, so breeding can change members already in the population. The
 * running fitness sum is a big.Float in the program: here an exact Float that is a
 * non-negative real or +Inf. The random draws of each round are a Roll.
 */
module Evolution {
  import opened Wrappers
  import opened Ieee
  import opened Genes
  import opened Chromosomes

  // ---------------------------------------------------------------------------------------
  // Populations and their scores

  ghost predicate AllValid(pop: seq<Chromosome>) {
    forall c :: c in pop ==> c.Valid()
  }

  /** All chromosomes have the same body length, and each body fills its backing array. */
  ghost predicate Uniform(pop: seq<Chromosome>, width: nat) {
    forall c :: c in pop ==> c.length == width && c.data.Length == width
  }

  ghost function Buffers(pop: seq<Chromosome>): set<array<Byte>> {
    set c | c in pop :: c.data
  }

  ghost function Bodies(pop: seq<Chromosome>): (bs: seq<seq<Byte>>)
    reads Buffers(pop)
    requires AllValid(pop)
    ensures |bs| == |pop|
    ensures forall i :: 0 <= i < |pop| ==> bs[i] == pop[i].Body()
  {
    seq(|pop|, i requires 0 <= i < |pop| reads Buffers(pop) => pop[i].Body())
  }

  /**
   * The fitness score of each body. Recursive rather than a comprehension, so that a score is
   * only unfolded where ScoreAt asks for it.
   */
  function Scores(bodies: seq<seq<Byte>>, target: real): (scores: seq<Float>)
    ensures |scores| == |bodies|
    ensures forall i :: 0 <= i < |bodies| ==> NonNeg(scores[i])
    decreases |bodies|
  {
    if bodies == [] then []
    else Scores(bodies[..|bodies| - 1], target) + [Score(bodies[|bodies| - 1], target)]
  }

  lemma {:induction false} ScoreAt(bodies: seq<seq<Byte>>, target: real, i: nat)
    requires i < |bodies|
    ensures Scores(bodies, target)[i] == Score(bodies[i], target)
    decreases |bodies|
  {
    if i < |bodies| - 1 {
      ScoreAt(bodies[..|bodies| - 1], target, i);
    }
  }

  lemma ScoresSnoc(bodies: seq<seq<Byte>>, body: seq<Byte>, target: real)
    ensures Scores(bodies + [body], target) == Scores(bodies, target) + [Score(body, target)]
  {
    assert (bodies + [body])[..|bodies|] == bodies;
  }

  ghost predicate AllFinite(xs: seq<Float>) {
    forall i :: 0 <= i < |xs| ==> xs[i].Fin?
  }

  function Reals(xs: seq<Float>): (rs: seq<real>)
    requires AllFinite(xs)
    ensures |rs| == |xs| && forall i :: 0 <= i < |xs| ==> rs[i] == xs[i].r
  {
    seq(|xs|, i requires 0 <= i < |xs| => xs[i].r)
  }

  function Lift(rs: seq<real>): (xs: seq<Float>)
    ensures |xs| == |rs| && forall i :: 0 <= i < |rs| ==> xs[i] == Fin(rs[i])
  {
    seq(|rs|, i requires 0 <= i < |rs| => Fin(rs[i]))
  }

  function SumReals(xs: seq<real>): real
    decreases |xs|
  {
    if xs == [] then 0.0 else SumReals(xs[..|xs| - 1]) + xs[|xs| - 1]
  }

  lemma SumRealsSnoc(xs: seq<real>, x: real)
    ensures SumReals(xs + [x]) == SumReals(xs) + x
  {
    assert (xs + [x])[..|xs|] == xs;
  }

  /** A sum of non-negative reals is at least each of its terms, and non-negative. */
  lemma {:induction false} SumRealsBounds(xs: seq<real>)
    requires forall i :: 0 <= i < |xs| ==> xs[i] >= 0.0
    ensures SumReals(xs) >= 0.0
    ensures forall i :: 0 <= i < |xs| ==> SumReals(xs) >= xs[i]
    decreases |xs|
  {
    if xs != [] {
      SumRealsBounds(xs[..|xs| - 1]);
    }
  }

  lemma SumPrefixStep(xs: seq<Float>, i: nat)
    requires i < |xs| && AllFinite(xs[..i]) && xs[i].Fin?
    ensures AllFinite(xs[..i + 1])
    ensures SumReals(Reals(xs[..i + 1])) == SumReals(Reals(xs[..i])) + xs[i].r
  {
    assert xs[..i + 1][..i] == xs[..i];
    assert Reals(xs[..i + 1]) == Reals(xs[..i]) + [xs[i].r];
    SumRealsSnoc(Reals(xs[..i]), xs[i].r);
  }

  /** Adds the values to start one after another (big.Float.Add on a running sum). */
  function AddAll(start: Float, xs: seq<Float>): Float
    decreases |xs|
  {
    if xs == [] then start else Add(AddAll(start, xs[..|xs| - 1]), xs[|xs| - 1])
  }

  lemma AddAllSnoc(start: Float, xs: seq<Float>, x: Float)
    ensures AddAll(start, xs + [x]) == Add(AddAll(start, xs), x)
  {
    assert (xs + [x])[..|xs|] == xs;
  }

  /** pop[index].GetFitnessScore(target), stated on the population's scores. */
  method MemberScore(pop: seq<Chromosome>, target: real, index: nat) returns (score: Float)
    requires AllValid(pop) && index < |pop|
    ensures Bodies(pop) == old(Bodies(pop))
    ensures score == Scores(Bodies(pop), target)[index]
  {
    score := pop[index].GetFitnessScore(target);
    ScoreAt(Bodies(pop), target, index);
  }

  // ---------------------------------------------------------------------------------------
  // SumFitnessScore

  /**
   * Either the index of the first chromosome whose score is infinite or NaN, with no sum, or
   * the sum of all scores and -1.
   */
  method SumFitnessScore(pop: seq<Chromosome>, target: real) returns (sum: Option<real>, solution: int)
    requires AllValid(pop)
    ensures -1 <= solution < |pop|
    ensures solution == -1 <==> AllFinite(Scores(Bodies(pop), target))
    ensures solution >= 0 ==>
              sum == None && !Scores(Bodies(pop), target)[solution].Fin? &&
              AllFinite(Scores(Bodies(pop), target)[..solution])
    ensures solution == -1 ==>
              sum == Some(SumReals(Reals(Scores(Bodies(pop), target)))) && sum.value >= 0.0
  {
    ghost var bodies := Bodies(pop);
    ghost var scores := Scores(bodies, target);
    var sumOfFitness := 0.0;
    var index := 0;
    while index < |pop|
      invariant 0 <= index <= |pop|
      invariant Bodies(pop) == bodies
      invariant AllFinite(scores[..index])
      invariant sumOfFitness == SumReals(Reals(scores[..index]))
    {
      var score := MemberScore(pop, target, index);
      assert Bodies(pop) == bodies;
      if IsInf(score) || IsNaN(score) {
        assert !scores[index].Fin? && !AllFinite(scores);
        return None, index;
      }
      SumPrefixStep(scores, index);
      sumOfFitness := sumOfFitness + score.r;
      index := index + 1;
    }
    assert scores[..index] == scores;
    assert forall k :: 0 <= k < |scores| ==> Reals(scores)[k] >= 0.0;
    SumRealsBounds(Reals(scores));
    return Some(sumOfFitness), -1;
  }

  // ---------------------------------------------------------------------------------------
  // SumPopulationProbability

  /** The outcome of SumPopulationProbability: the table, the index of a NaN entry, or a Quo panic. */
  datatype Probabilities = Entries(entries: seq<Float>) | NaNAt(index: nat) | QuoPanic(index: nat)

  /** The loop of SumPopulationProbability from position i, with sumOfProb and the entries so far. */
  function TableFrom(scores: seq<Float>, sum: Float, i: nat, sumOfProb: Float, acc: seq<Float>): Probabilities
    requires i <= |scores|
    decreases |scores| - i
  {
    if i == |scores| then Entries(acc)
    else
      match Quo(scores[i], sum)
      case None => QuoPanic(i)
      case Some(prob) =>
        var entry := Add(sumOfProb, prob);
        if IsNaN(entry) then NaNAt(i)
        else TableFrom(scores, sum, i + 1, Add(sumOfProb, entry), acc + [entry])
  }

  function ProbabilityTable(scores: seq<Float>, sum: Float): Probabilities {
    TableFrom(scores, sum, 0, Fin(0.0), [])
  }

  /** One entry of the table loop: a successful division whose entry is not NaN. */
  lemma TableFromStep(scores: seq<Float>, sum: Float, i: nat, sumOfProb: Float, acc: seq<Float>,
                      prob: Float, entry: Float)
    requires i < |scores| && Quo(scores[i], sum) == Some(prob)
    requires entry == Add(sumOfProb, prob) && !IsNaN(entry)
    ensures TableFrom(scores, sum, i, sumOfProb, acc) == TableFrom(scores, sum, i + 1, Add(sumOfProb, entry), acc + [entry])
  {
  }

  /** Where the table loop stops early: a panicking division, or a NaN entry. */
  lemma TableFromStops(scores: seq<Float>, sum: Float, i: nat, sumOfProb: Float, acc: seq<Float>)
    requires i < |scores|
    ensures Quo(scores[i], sum).None? ==> TableFrom(scores, sum, i, sumOfProb, acc) == QuoPanic(i)
    ensures Quo(scores[i], sum).Some? && IsNaN(Add(sumOfProb, Quo(scores[i], sum).value)) ==>
              TableFrom(scores, sum, i, sumOfProb, acc) == NaNAt(i)
  {
  }

  /**
   * The loop writes entry `index` of a fresh slice of len(pop) floats on every iteration and
   * returns the slice only once all of them are written, so the slice is the sequence of the
   * entries written so far here.
   */
  method SumPopulationProbability(pop: seq<Chromosome>, target: real, sumOfFitness: Float)
    returns (r: Probabilities)
    requires AllValid(pop)
    ensures r == ProbabilityTable(Scores(Bodies(pop), target), sumOfFitness)
  {
    ghost var bodies := Bodies(pop);
    ghost var scores := Scores(bodies, target);
    ghost var table := ProbabilityTable(scores, sumOfFitness);
    var sumOfProb := Fin(0.0);
    var probSlice: seq<Float> := [];
    var index := 0;
    while index < |pop|
      invariant 0 <= index <= |pop| && |probSlice| == index
      invariant Bodies(pop) == bodies
      invariant table == TableFrom(scores, sumOfFitness, index, sumOfProb, probSlice)
    {
      var score := MemberScore(pop, target, index);
      assert Bodies(pop) == bodies;
      var prob := Quo(score, sumOfFitness);
      if prob.None? {
        TableFromStops(scores, sumOfFitness, index, sumOfProb, probSlice);
        return QuoPanic(index);
      }
      var entry := Add(sumOfProb, prob.value);
      if IsNaN(entry) {
        TableFromStops(scores, sumOfFitness, index, sumOfProb, probSlice);
        return NaNAt(index);
      }
      TableFromStep(scores, sumOfFitness, index, sumOfProb, probSlice, prob.value, entry);
      probSlice := probSlice + [entry];
      sumOfProb := Add(sumOfProb, entry);
      index := index + 1;
    }
    r := Entries(probSlice);
  }

  /** Non-decreasing in the order of doubles. */
  ghost predicate Sorted(xs: seq<Float>) {
    forall k, m :: 0 <= k < m < |xs| ==> Ge(xs[m], xs[k])
  }

  /** Appending an entry at least as large as every earlier one keeps the table sorted. */
  lemma SortedSnoc(acc: seq<Float>, bound: Float, entry: Float, next: Float)
    requires Sorted(acc)
    requires forall k :: 0 <= k < |acc| ==> NonNeg(acc[k]) && Ge(bound, acc[k])
    requires NonNeg(entry) && Ge(entry, bound) && Ge(next, entry) && Ge(next, bound)
    ensures Sorted(acc + [entry])
    ensures forall k :: 0 <= k < |acc| + 1 ==> NonNeg((acc + [entry])[k]) && Ge(next, (acc + [entry])[k])
  {
    forall k | 0 <= k < |acc|
      ensures Ge(entry, acc[k]) && Ge(next, acc[k])
    {
      GeTransitive(entry, bound, acc[k]);
      GeTransitive(next, bound, acc[k]);
    }
  }

  lemma {:induction false} TableFromWellFormed(scores: seq<Float>, sum: Float, i: nat, sumOfProb: Float, acc: seq<Float>)
    requires i <= |scores| && |acc| == i
    requires forall k :: 0 <= k < |scores| ==> NonNeg(scores[k])
    requires NonNeg(sum) && NonNeg(sumOfProb)
    requires Sorted(acc)
    requires forall k :: 0 <= k < |acc| ==> NonNeg(acc[k]) && Ge(sumOfProb, acc[k])
    ensures var r := TableFrom(scores, sum, i, sumOfProb, acc);
            !r.NaNAt? &&
            (r.Entries? ==> |r.entries| == |scores| && Sorted(r.entries) &&
                            forall k :: 0 <= k < |scores| ==> NonNeg(r.entries[k]))
    decreases |scores| - i
  {
    if i < |scores| {
      var q := Quo(scores[i], sum);
      if q.Some? {
        var entry := Add(sumOfProb, q.value);
        var next := Add(sumOfProb, entry);
        assert NonNeg(entry) && Ge(entry, sumOfProb) && !IsNaN(entry);
        assert NonNeg(next) && Ge(next, entry) && Ge(next, sumOfProb);
        SortedSnoc(acc, sumOfProb, entry, next);
        assert TableFrom(scores, sum, i, sumOfProb, acc) == TableFrom(scores, sum, i + 1, next, acc + [entry]);
        TableFromWellFormed(scores, sum, i + 1, next, acc + [entry]);
      }
    }
  }

  /**
   * With non-negative scores and sum, no entry of the table is NaN, so the NaN check of
   * SumPopulationProbability never fires; a table that is produced is sorted and non-negative.
   */
  lemma ProbabilityTableWellFormed(scores: seq<Float>, sum: Float)
    requires forall k :: 0 <= k < |scores| ==> NonNeg(scores[k])
    requires NonNeg(sum)
    ensures var r := ProbabilityTable(scores, sum);
            !r.NaNAt? &&
            (r.Entries? ==> |r.entries| == |scores| && Sorted(r.entries) &&
                            forall k :: 0 <= k < |scores| ==> NonNeg(r.entries[k]))
  {
    TableFromWellFormed(scores, sum, 0, Fin(0.0), []);
  }

  // ---------------------------------------------------------------------------------------
  // The table in exact arithmetic, as written and as intended

  /** Each score over the sum. */
  function Ratios(xs: seq<real>, s: real): (ps: seq<real>)
    requires s != 0.0
    ensures |ps| == |xs| && forall i :: 0 <= i < |xs| ==> ps[i] == xs[i] / s
  {
    seq(|xs|, i requires 0 <= i < |xs| => xs[i] / s)
  }

  /** Helper: a non-zero sum divided by itself is one share. */
  lemma DivSelf(s: real)
    requires s != 0.0
    ensures s / s == 1.0
  {
  }

  lemma RatiosNonNeg(xs: seq<real>, s: real)
    requires s > 0.0
    requires forall i :: 0 <= i < |xs| ==> xs[i] >= 0.0
    ensures forall i :: 0 <= i < |xs| ==> Ratios(xs, s)[i] >= 0.0
  {
    forall i | 0 <= i < |xs|
      ensures Ratios(xs, s)[i] >= 0.0
    {
      assert xs[i] / s >= 0.0;
    }
  }

  lemma {:induction false} SumRatios(xs: seq<real>, s: real)
    requires s != 0.0
    ensures SumReals(Ratios(xs, s)) == SumReals(xs) / s
    decreases |xs|
  {
    if xs != [] {
      var n := |xs| - 1;
      assert Ratios(xs, s)[..n] == Ratios(xs[..n], s);
      SumRatios(xs[..n], s);
    }
  }

  /**
   * The entries SumPopulationProbability writes, in exact arithmetic: each entry is its own
   * probability plus the sum of all entries before it (not of the probabilities before it).
   */
  function Accumulated(ps: seq<real>): (es: seq<real>)
    ensures |es| == |ps|
    decreases |ps|
  {
    if ps == [] then []
    else
      var prev := Accumulated(ps[..|ps| - 1]);
      prev + [SumReals(prev) + ps[|ps| - 1]]
  }

  /** Cumulative probabilities: entry i is the sum of the probabilities 0..i. */
  function Cumulative(ps: seq<real>): (es: seq<real>)
    ensures |es| == |ps|
  {
    seq(|ps|, i requires 0 <= i < |ps| => SumReals(ps[..i + 1]))
  }

  /** The table loop on exact quotients ps from position i, with running sum a and entries acc. */
  function AccumulatedFrom(ps: seq<real>, i: nat, a: real, acc: seq<real>): (es: seq<real>)
    requires i <= |ps|
    ensures |es| == |acc| + |ps| - i
    decreases |ps| - i
  {
    if i == |ps| then acc
    else
      var entry := a + ps[i];
      AccumulatedFrom(ps, i + 1, a + entry, acc + [entry])
  }

  /**
   * When every division succeeds with a finite quotient ps[k], the loop from position i on
   * writes the entries AccumulatedFrom computes; nothing panics and nothing is NaN.
   */
  lemma {:induction false} TableFromAccumulates(scores: seq<Float>, sum: Float, ps: seq<real>, i: nat,
                                                a: real, acc: seq<real>)
    requires |ps| == |scores| && i <= |scores|
    requires forall k :: 0 <= k < |scores| ==> Quo(scores[k], sum) == Some(Fin(ps[k]))
    ensures TableFrom(scores, sum, i, Fin(a), Lift(acc)) == Entries(Lift(AccumulatedFrom(ps, i, a, acc)))
    decreases |scores| - i
  {
    if i < |scores| {
      var entry := a + ps[i];
      assert Lift(acc) + [Fin(entry)] == Lift(acc + [entry]);
      TableFromStep(scores, sum, i, Fin(a), Lift(acc), Fin(ps[i]), Fin(entry));
      TableFromAccumulates(scores, sum, ps, i + 1, a + entry, acc + [entry]);
    }
  }

  /** The forward loop from position i, started from the first i accumulated entries, gives them all. */
  lemma {:induction false} AccumulatedFromPrefix(ps: seq<real>, i: nat)
    requires i <= |ps|
    ensures AccumulatedFrom(ps, i, SumReals(Accumulated(ps[..i])), Accumulated(ps[..i])) == Accumulated(ps)
    decreases |ps| - i
  {
    if i == |ps| {
      assert ps[..i] == ps;
    } else {
      var prev := Accumulated(ps[..i]);
      var entry := SumReals(prev) + ps[i];
      assert ps[..i + 1][..i] == ps[..i];
      assert Accumulated(ps[..i + 1]) == prev + [entry];
      SumRealsSnoc(prev, entry);
      AccumulatedFromPrefix(ps, i + 1);
    }
  }

  lemma {:induction false} AccumulatedBounds(ps: seq<real>)
    requires forall i :: 0 <= i < |ps| ==> ps[i] >= 0.0
    ensures forall i :: 0 <= i < |ps| ==> Accumulated(ps)[i] >= SumReals(ps[..i + 1]) >= 0.0
    decreases |ps|
  {
    if ps != [] {
      var n := |ps| - 1;
      var prev := Accumulated(ps[..n]);
      var last := SumReals(prev) + ps[n];
      assert Accumulated(ps) == prev + [last];
      AccumulatedBounds(ps[..n]);
      forall i | 0 <= i < n
        ensures prev[i] >= SumReals(ps[..i + 1]) >= 0.0
      {
        assert ps[..n][..i + 1] == ps[..i + 1];
      }
      SumRealsBounds(prev);
      SumRealsBounds(ps);
      SumRealsSnoc(ps[..n], ps[n]);
      assert ps[..n] + [ps[n]] == ps[..n + 1];
      assert ps[..n + 1] == ps;
      if n > 0 {
        assert ps[..n] == ps[..n - 1 + 1];
        assert SumReals(prev) >= prev[n - 1] >= SumReals(ps[..n]);
      }
      assert last >= SumReals(ps) >= 0.0;
    }
  }

  /** With non-negative probabilities every entry of the table is at least the one before it. */
  lemma {:induction false} AccumulatedNonDecreasing(ps: seq<real>)
    requires forall i :: 0 <= i < |ps| ==> ps[i] >= 0.0
    ensures forall i, j :: 0 <= i < j < |ps| ==> Accumulated(ps)[i] <= Accumulated(ps)[j]
    decreases |ps|
  {
    if ps != [] {
      var n := |ps| - 1;
      var prev := Accumulated(ps[..n]);
      var last := SumReals(prev) + ps[n];
      assert Accumulated(ps) == prev + [last];
      AccumulatedNonDecreasing(ps[..n]);
      AccumulatedBounds(ps[..n]);
      SumRealsBounds(prev);
      assert forall i :: 0 <= i < n ==> prev[i] <= last;
    }
  }

  /**
   * SumPopulationProbability with an up-to-date sum: the table is the accumulation of
   * score / sum, non-decreasing, and its last entry is at least 1.
   */
  lemma AsWrittenTable(scores: seq<Float>)
    requires AllFinite(scores) && |scores| > 0
    requires forall k :: 0 <= k < |scores| ==> scores[k].r >= 0.0
    requires SumReals(Reals(scores)) > 0.0
    ensures var s := SumReals(Reals(scores));
            var ps := Ratios(Reals(scores), s);
            ProbabilityTable(scores, Fin(s)) == Entries(Lift(Accumulated(ps))) &&
            (forall i, j :: 0 <= i < j < |ps| ==> Accumulated(ps)[i] <= Accumulated(ps)[j]) &&
            Accumulated(ps)[|ps| - 1] >= 1.0
  {
    var s := SumReals(Reals(scores));
    var ps := Ratios(Reals(scores), s);
    AsWrittenEntries(scores, s);
    RatiosNonNeg(Reals(scores), s);
    AccumulatedNonDecreasing(ps);
    AccumulatedReachesOne(Reals(scores));
  }

  /** With finite scores and a positive sum, the table is the accumulation of score / sum. */
  lemma AsWrittenEntries(scores: seq<Float>, s: real)
    requires AllFinite(scores) && s > 0.0
    ensures ProbabilityTable(scores, Fin(s)) == Entries(Lift(Accumulated(Ratios(Reals(scores), s))))
  {
    var ps := Ratios(Reals(scores), s);
    assert ps[..0] == [];
    forall k | 0 <= k < |scores|
      ensures Quo(scores[k], Fin(s)) == Some(Fin(ps[k]))
    {
    }
    TableFromAccumulates(scores, Fin(s), ps, 0, 0.0, []);
    AccumulatedFromPrefix(ps, 0);
  }

  /** The last accumulated share of non-negative terms over their positive sum is at least 1. */
  lemma AccumulatedReachesOne(xs: seq<real>)
    requires |xs| > 0 && SumReals(xs) > 0.0
    requires forall k :: 0 <= k < |xs| ==> xs[k] >= 0.0
    ensures Accumulated(Ratios(xs, SumReals(xs)))[|xs| - 1] >= 1.0
  {
    var s := SumReals(xs);
    var ps := Ratios(xs, s);
    RatiosNonNeg(xs, s);
    AccumulatedBounds(ps);
    SumRatios(xs, s);
    var n := |ps|;
    assert ps[..n - 1 + 1] == ps;
    DivSelf(s);
  }

  /**
   * As written, four equal scores give the table 1/4, 1/2, 1, 2 instead of 1/4, 1/2, 3/4, 1:
   * every draw in [0, 1) selects one of the first three chromosomes, and the fourth is never
   * chosen as a parent.
   */
  lemma FourthOfFourNeverChosen(u: real)
    requires 0.0 <= u < 1.0
    ensures ProbabilityTable([Fin(1.0), Fin(1.0), Fin(1.0), Fin(1.0)], Fin(4.0))
            == Entries([Fin(0.25), Fin(0.5), Fin(1.0), Fin(2.0)])
    ensures FirstAtLeast([Fin(0.25), Fin(0.5), Fin(1.0), Fin(2.0)], u) < 3
  {
    var scores := [Fin(1.0), Fin(1.0), Fin(1.0), Fin(1.0)];
    var sum := Fin(4.0);
    assert Quo(Fin(1.0), sum) == Some(Fin(0.25));
    TableFromStep(scores, sum, 0, Fin(0.0), [], Fin(0.25), Fin(0.25));
    TableFromStep(scores, sum, 1, Fin(0.25), [Fin(0.25)], Fin(0.25), Fin(0.5));
    TableFromStep(scores, sum, 2, Fin(0.75), [Fin(0.25), Fin(0.5)], Fin(0.25), Fin(1.0));
    TableFromStep(scores, sum, 3, Fin(1.75), [Fin(0.25), Fin(0.5), Fin(1.0)], Fin(0.25), Fin(2.0));
    var es := [Fin(0.25), Fin(0.5), Fin(1.0), Fin(2.0)];
    assert es[1..][1..] == [Fin(1.0), Fin(2.0)];
    assert Ge(es[2], Fin(u));
  }

  /**
   * The table as intended: float64 division, whose NaN the check after it is there to catch,
   * and a running sum of the probabilities rather than of the entries.
   */
  function IntendedTableFrom(scores: seq<Float>, sum: Float, i: nat, sumOfProb: Float, acc: seq<Float>): Probabilities
    requires i <= |scores|
    decreases |scores| - i
  {
    if i == |scores| then Entries(acc)
    else
      var entry := Add(sumOfProb, Div(scores[i], sum));
      if IsNaN(entry) then NaNAt(i)
      else IntendedTableFrom(scores, sum, i + 1, entry, acc + [entry])
  }

  function IntendedTable(scores: seq<Float>, sum: Float): Probabilities {
    IntendedTableFrom(scores, sum, 0, Fin(0.0), [])
  }

  /** One entry of the corrected loop whose entry is not NaN. */
  lemma IntendedTableFromStep(scores: seq<Float>, sum: Float, i: nat, sumOfProb: Float, acc: seq<Float>)
    requires i < |scores| && !IsNaN(Add(sumOfProb, Div(scores[i], sum)))
    ensures var entry := Add(sumOfProb, Div(scores[i], sum));
            IntendedTableFrom(scores, sum, i, sumOfProb, acc) == IntendedTableFrom(scores, sum, i + 1, entry, acc + [entry])
  {
  }

  lemma CumulativeSnoc(ps: seq<real>, i: nat)
    requires i < |ps|
    ensures Cumulative(ps[..i + 1]) == Cumulative(ps[..i]) + [SumReals(ps[..i + 1])]
  {
    var lhs, rhs := Cumulative(ps[..i + 1]), Cumulative(ps[..i]) + [SumReals(ps[..i + 1])];
    forall k | 0 <= k < i + 1
      ensures lhs[k] == rhs[k]
    {
      assert ps[..i + 1][..k + 1] == ps[..k + 1];
      if k < i {
        assert ps[..i][..k + 1] == ps[..k + 1];
      }
    }
  }

  /** When every division gives a finite quotient ps[k], the corrected loop builds the cumulative sums of ps. */
  lemma {:induction false} IntendedTableFromCumulates(scores: seq<Float>, sum: Float, ps: seq<real>, i: nat)
    requires |ps| == |scores| && i <= |scores|
    requires forall k :: 0 <= k < |scores| ==> Div(scores[k], sum) == Fin(ps[k])
    ensures IntendedTableFrom(scores, sum, i, Fin(SumReals(ps[..i])), Lift(Cumulative(ps[..i])))
            == Entries(Lift(Cumulative(ps)))
    decreases |scores| - i
  {
    if i == |scores| {
      assert ps[..i] == ps;
    } else {
      assert ps[..i + 1] == ps[..i] + [ps[i]];
      SumRealsSnoc(ps[..i], ps[i]);
      CumulativeSnoc(ps, i);
      assert Lift(Cumulative(ps[..i])) + [Fin(SumReals(ps[..i + 1]))] == Lift(Cumulative(ps[..i + 1]));
      IntendedTableFromCumulates(scores, sum, ps, i + 1);
    }
  }

  /**
   * Corrected table with an up-to-date sum of finite scores: entry i is the share of the
   * scores 0..i in the sum, the entries never decrease and the last one is exactly 1.
   */
  lemma IntendedTableIsCumulative(scores: seq<Float>)
    requires AllFinite(scores) && |scores| > 0
    requires forall k :: 0 <= k < |scores| ==> scores[k].r >= 0.0
    requires SumReals(Reals(scores)) > 0.0
    ensures var s := SumReals(Reals(scores));
            var cs := Cumulative(Ratios(Reals(scores), s));
            IntendedTable(scores, Fin(s)) == Entries(Lift(cs)) &&
            (forall i :: 0 <= i < |cs| ==> cs[i] == SumReals(Reals(scores)[..i + 1]) / s) &&
            (forall i, j :: 0 <= i < j < |cs| ==> 0.0 <= cs[i] <= cs[j]) &&
            cs[|cs| - 1] == 1.0
  {
    var s := SumReals(Reals(scores));
    var ps := Ratios(Reals(scores), s);
    assert ps[..0] == [] && Cumulative(ps[..0]) == [];
    forall k | 0 <= k < |scores|
      ensures Div(scores[k], Fin(s)) == Fin(ps[k])
    {
    }
    IntendedTableFromCumulates(scores, Fin(s), ps, 0);
    CumulativeEndsAtOne(scores);
  }

  /** With the corrected table, the fourth of four equal scores is chosen for draws above 3/4. */
  lemma FourthOfFourChosenWhenIntended(u: real)
    requires 0.75 < u < 1.0
    ensures IntendedTable([Fin(1.0), Fin(1.0), Fin(1.0), Fin(1.0)], Fin(4.0))
            == Entries([Fin(0.25), Fin(0.5), Fin(0.75), Fin(1.0)])
    ensures FirstAtLeast([Fin(0.25), Fin(0.5), Fin(0.75), Fin(1.0)], u) == 3
  {
    var scores := [Fin(1.0), Fin(1.0), Fin(1.0), Fin(1.0)];
    var sum := Fin(4.0);
    assert Div(Fin(1.0), sum) == Fin(0.25);
    IntendedTableFromStep(scores, sum, 0, Fin(0.0), []);
    IntendedTableFromStep(scores, sum, 1, Fin(0.25), [Fin(0.25)]);
    IntendedTableFromStep(scores, sum, 2, Fin(0.5), [Fin(0.25), Fin(0.5)]);
    IntendedTableFromStep(scores, sum, 3, Fin(0.75), [Fin(0.25), Fin(0.5), Fin(0.75)]);
    var es := [Fin(0.25), Fin(0.5), Fin(0.75), Fin(1.0)];
    assert es[1..][1..][1..] == [Fin(1.0)];
    assert FirstAtLeast([Fin(1.0)], u) == 0;
    assert FirstAtLeast(es[1..][1..], u) == 1;
    assert FirstAtLeast(es[1..], u) == 2;
  }


  /** Intended: the entries are the cumulative probabilities, non-decreasing and ending at exactly 1. */
  lemma CumulativeEndsAtOne(scores: seq<Float>)
    requires AllFinite(scores) && |scores| > 0
    requires forall k :: 0 <= k < |scores| ==> scores[k].r >= 0.0
    requires SumReals(Reals(scores)) > 0.0
    ensures var s := SumReals(Reals(scores));
            var cs := Cumulative(Ratios(Reals(scores), s));
            (forall i :: 0 <= i < |cs| ==> cs[i] == SumReals(Reals(scores)[..i + 1]) / s) &&
            (forall i, j :: 0 <= i < j < |cs| ==> 0.0 <= cs[i] <= cs[j]) &&
            cs[|cs| - 1] == 1.0
  {
    var xs := Reals(scores);
    var s := SumReals(xs);
    CumulativeShares(xs, s);
    RatiosNonNeg(xs, s);
    CumulativeGrows(Ratios(xs, s));
    CumulativeReachesOne(xs);
  }

  /** Cumulative entry i is the share of the terms 0..i in s. */
  lemma CumulativeShares(xs: seq<real>, s: real)
    requires s != 0.0
    ensures forall i :: 0 <= i < |xs| ==> Cumulative(Ratios(xs, s))[i] == SumReals(xs[..i + 1]) / s
  {
    var ps := Ratios(xs, s);
    forall i | 0 <= i < |ps|
      ensures Cumulative(ps)[i] == SumReals(xs[..i + 1]) / s
    {
      assert ps[..i + 1] == Ratios(xs[..i + 1], s);
      SumRatios(xs[..i + 1], s);
    }
  }

  /** The cumulative sums of non-negative terms are non-negative and never decrease. */
  lemma CumulativeGrows(ps: seq<real>)
    requires forall k :: 0 <= k < |ps| ==> ps[k] >= 0.0
    ensures forall i :: 0 <= i < |ps| ==> 0.0 <= Cumulative(ps)[i]
    ensures forall i, j :: 0 <= i < j < |ps| ==> Cumulative(ps)[i] <= Cumulative(ps)[j]
  {
    forall i | 0 <= i < |ps|
      ensures 0.0 <= Cumulative(ps)[i]
    {
      SumRealsBounds(ps[..i + 1]);
    }
    forall i, j | 0 <= i < j < |ps|
      ensures Cumulative(ps)[i] <= Cumulative(ps)[j]
    {
      PrefixSumsGrow(ps, i, j);
    }
  }

  /** The last cumulative share of terms over their own non-zero sum is exactly 1. */
  lemma CumulativeReachesOne(xs: seq<real>)
    requires |xs| > 0 && SumReals(xs) != 0.0
    ensures Cumulative(Ratios(xs, SumReals(xs)))[|xs| - 1] == 1.0
  {
    var s := SumReals(xs);
    var ps := Ratios(xs, s);
    var n := |ps|;
    assert ps[..n - 1 + 1] == ps;
    SumRatios(xs, s);
    DivSelf(s);
  }

  lemma {:induction false} PrefixSumsGrow(ps: seq<real>, i: nat, j: nat)
    requires forall k :: 0 <= k < |ps| ==> ps[k] >= 0.0
    requires i < j < |ps|
    ensures 0.0 <= SumReals(ps[..i + 1]) <= SumReals(ps[..j + 1])
    decreases j - i
  {
    SumRealsBounds(ps[..i + 1]);
    assert ps[..j + 1] == ps[..j] + [ps[j]];
    SumRealsSnoc(ps[..j], ps[j]);
    if i + 1 < j {
      PrefixSumsGrow(ps, i, j - 1);
    } else {
      assert ps[..j] == ps[..i + 1];
    }
  }

  // ---------------------------------------------------------------------------------------
  // Choosing a parent

  /** The smallest index whose entry is at least u, or |entries| when there is none. */
  function FirstAtLeast(entries: seq<Float>, u: real): (i: nat)
    ensures i <= |entries|
    ensures forall k :: 0 <= k < i ==> !Ge(entries[k], Fin(u))
    ensures i < |entries| ==> Ge(entries[i], Fin(u))
    decreases |entries|
  {
    if entries == [] then 0
    else if Ge(entries[0], Fin(u)) then 0
    else 1 + FirstAtLeast(entries[1..], u)
  }

  /** FirstAtLeast is the only index with its two properties. */
  lemma FirstAtLeastIsFirst(entries: seq<Float>, u: real, i: nat)
    requires i <= |entries|
    requires forall k :: 0 <= k < i ==> !Ge(entries[k], Fin(u))
    requires i < |entries| ==> Ge(entries[i], Fin(u))
    ensures FirstAtLeast(entries, u) == i
  {
  }

  /** sort.SearchFloat64s: binary search for the smallest index whose entry is at least x. */
  method SearchFloat64s(a: seq<Float>, x: real) returns (index: nat)
    requires Sorted(a)
    ensures index == FirstAtLeast(a, x)
  {
    var i, j := 0, |a|;
    while i < j
      invariant 0 <= i <= j <= |a|
      invariant forall k :: 0 <= k < i ==> !Ge(a[k], Fin(x))
      invariant forall k :: j <= k < |a| ==> Ge(a[k], Fin(x))
    {
      var h := (i + j) / 2;
      if !Ge(a[h], Fin(x)) {
        forall k | 0 <= k < h
          ensures !Ge(a[k], Fin(x))
        {
          if Ge(a[k], Fin(x)) {
            GeTransitive(a[h], a[k], Fin(x));
          }
        }
        i := h + 1;
      } else {
        j := h;
      }
    }
    FirstAtLeastIsFirst(a, x, i);
    index := i;
  }

  /**
   * With an up-to-date sum of finite scores, every draw in [0, 1) selects a member of the
   * population: the search never runs off the end of the table.
   */
  lemma UpToDateSumSelectsMember(scores: seq<Float>, u: real)
    requires AllFinite(scores) && |scores| > 0
    requires forall k :: 0 <= k < |scores| ==> scores[k].r >= 0.0
    requires SumReals(Reals(scores)) > 0.0
    requires u < 1.0
    ensures var r := ProbabilityTable(scores, Fin(SumReals(Reals(scores))));
            r.Entries? && FirstAtLeast(r.entries, u) < |scores|
  {
    AsWrittenTable(scores);
    var r := ProbabilityTable(scores, Fin(SumReals(Reals(scores))));
    assert Ge(r.entries[|scores| - 1], Fin(u));
  }

  /**
   * Once an exact hit has made the running sum +Inf, the next table panics: big.Float's Quo
   * refuses Inf / Inf when it reaches the infinite score.
   */
  lemma {:induction false} InfiniteSumPanicsFrom(scores: seq<Float>, i: nat, k: nat, sumOfProb: Float, acc: seq<Float>)
    requires i <= k < |scores| && scores[k] == PosInf
    requires forall j :: 0 <= j < |scores| ==> NonNeg(scores[j])
    requires NonNeg(sumOfProb)
    ensures TableFrom(scores, PosInf, i, sumOfProb, acc).QuoPanic?
    decreases k - i
  {
    if i < k && Quo(scores[i], PosInf).Some? {
      var entry := Add(sumOfProb, Quo(scores[i], PosInf).value);
      InfiniteSumPanicsFrom(scores, i + 1, k, Add(sumOfProb, entry), acc + [entry]);
    }
  }

  lemma ExactHitPanicsNextRound(scores: seq<Float>, k: nat)
    requires k < |scores| && scores[k] == PosInf
    requires forall j :: 0 <= j < |scores| ==> NonNeg(scores[j])
    ensures ProbabilityTable(scores, PosInf).QuoPanic?
  {
    InfiniteSumPanicsFrom(scores, 0, k, Fin(0.0), []);
  }

  /** A finite score over an infinite sum is 0, which leaves the running sum at 0. */
  lemma IntendedStepFinite(scores: seq<Float>, i: nat, acc: seq<Float>)
    requires i < |scores| && scores[i].Fin?
    ensures IntendedTableFrom(scores, PosInf, i, Fin(0.0), acc)
            == IntendedTableFrom(scores, PosInf, i + 1, Fin(0.0), acc + [Fin(0.0)])
  {
    assert Add(Fin(0.0), Div(scores[i], PosInf)) == Fin(0.0);
  }

  /** An infinite score over an infinite sum is NaN under float64 division. */
  lemma IntendedStepInfinite(scores: seq<Float>, i: nat, acc: seq<Float>)
    requires i < |scores| && scores[i] == PosInf
    ensures IntendedTableFrom(scores, PosInf, i, Fin(0.0), acc) == NaNAt(i)
  {
    assert Add(Fin(0.0), Div(scores[i], PosInf)) == NaN;
  }

  lemma {:induction false} IntendedReportsFrom(scores: seq<Float>, i: nat, k: nat, acc: seq<Float>)
    requires i <= k < |scores| && scores[k] == PosInf
    requires AllFinite(scores[..k])
    ensures IntendedTableFrom(scores, PosInf, i, Fin(0.0), acc) == NaNAt(k)
    decreases k - i
  {
    if i < k {
      assert scores[..k][i] == scores[i];
      IntendedStepFinite(scores, i, acc);
      IntendedReportsFrom(scores, i + 1, k, acc + [Fin(0.0)]);
    } else {
      IntendedStepInfinite(scores, k, acc);
    }
  }

  /**
   * With the corrected table, an infinite running sum makes the check report the first
   * chromosome with an infinite score, as a solution, instead of panicking.
   */
  lemma IntendedTableReportsExactHit(scores: seq<Float>, k: nat)
    requires k < |scores| && scores[k] == PosInf
    requires AllFinite(scores[..k])
    ensures IntendedTable(scores, PosInf) == NaNAt(k)
  {
    IntendedReportsFrom(scores, 0, k, []);
  }

  // ---------------------------------------------------------------------------------------
  // BestSolution

  /** k holds the strictly greatest score above 0, the earliest of the greatest. */
  ghost predicate EarliestBest(scores: seq<Float>, k: nat) {
    k < |scores| && Gt(scores[k], Fin(0.0)) &&
    (forall j :: 0 <= j < k ==> Gt(scores[k], scores[j])) &&
    (forall j :: 0 <= j < |scores| ==> !Gt(scores[j], scores[k]))
  }

  ghost predicate IsBestSolution(pop: seq<Chromosome>, scores: seq<Float>, best: Chromosome?)
    requires |scores| == |pop|
  {
    (best == null <==> forall k :: 0 <= k < |scores| ==> scores[k] == Fin(0.0)) &&
    (best != null ==> exists k :: 0 <= k < |pop| && best == pop[k] && EarliestBest(scores, k))
  }

  /**
   * The index BestSolution's loop settles on: a score replaces the best so far only when it is
   * strictly greater (the best starts at 0), so the earliest of equal scores is kept; -1 if none.
   */
  function BestIndex(scores: seq<Float>): (b: int)
    ensures -1 <= b < |scores|
    decreases |scores|
  {
    if scores == [] then -1
    else
      var prev := BestIndex(scores[..|scores| - 1]);
      var bestScore := if prev < 0 then Fin(0.0) else scores[prev];
      if Gt(scores[|scores| - 1], bestScore) then |scores| - 1 else prev
  }

  /** With non-negative scores, BestIndex finds no index exactly when all are 0, else the earliest best. */
  lemma {:induction false} BestIndexIsEarliestBest(scores: seq<Float>)
    requires forall k :: 0 <= k < |scores| ==> NonNeg(scores[k])
    ensures var b := BestIndex(scores);
            (b == -1 <==> forall k :: 0 <= k < |scores| ==> scores[k] == Fin(0.0)) &&
            (b >= 0 ==> EarliestBest(scores, b))
    decreases |scores|
  {
    if scores != [] {
      var n := |scores| - 1;
      var xs := scores[..n];
      assert forall k :: 0 <= k < n ==> xs[k] == scores[k];
      BestIndexIsEarliestBest(xs);
      var prev := BestIndex(xs);
      var x := scores[n];
      if prev < 0 {
        if Gt(x, Fin(0.0)) {
          assert EarliestBest(scores, n);
        } else {
          assert x == Fin(0.0);
        }
      } else {
        assert EarliestBest(xs, prev);
        if Gt(x, scores[prev]) {
          forall j | 0 <= j < n
            ensures Gt(x, scores[j])
          {
            GtTotal(xs[j], xs[prev]);
            GtGeTransitive(x, scores[prev], scores[j]);
          }
          forall j | 0 <= j < |scores|
            ensures !Gt(scores[j], x)
          {
            if j < n {
              GtTotal(scores[j], x);
            }
          }
          assert EarliestBest(scores, n);
        } else {
          GtTotal(x, scores[prev]);
          assert EarliestBest(scores, prev);
        }
      }
    }
  }

  lemma BestIndexSnoc(scores: seq<Float>, i: nat)
    requires i < |scores|
    ensures var b := BestIndex(scores[..i]);
            BestIndex(scores[..i + 1]) ==
            if Gt(scores[i], if b < 0 then Fin(0.0) else scores[b]) then i else b
  {
    assert scores[..i + 1][..i] == scores[..i];
  }

  /** The earliest chromosome with the greatest score above 0, or null when every score is 0. */
  method BestSolution(pop: seq<Chromosome>, target: real) returns (best: Chromosome?)
    requires AllValid(pop)
    ensures IsBestSolution(pop, Scores(Bodies(pop), target), best)
  {
    ghost var bodies := Bodies(pop);
    ghost var scores := Scores(bodies, target);
    var bestScore := Fin(0.0);
    best := null;
    ghost var bestIndex := -1;
    var index := 0;
    while index < |pop|
      invariant 0 <= index <= |pop|
      invariant Bodies(pop) == bodies
      invariant bestIndex == BestIndex(scores[..index])
      invariant bestScore == if bestIndex < 0 then Fin(0.0) else scores[bestIndex]
      invariant best == if bestIndex < 0 then null else pop[bestIndex]
    {
      var currScore := MemberScore(pop, target, index);
      assert Bodies(pop) == bodies;
      assert currScore == scores[index];
      BestIndexSnoc(scores, index);
      if Gt(currScore, bestScore) {
        best, bestScore, bestIndex := pop[index], currScore, index;
      }
      index := index + 1;
    }
    assert scores[..index] == scores;
    BestIndexIsEarliestBest(scores);
  }

  // ---------------------------------------------------------------------------------------
  // The growth loop of main

  /** The random draws of one round: two selection draws, the crossover draw, the bit trials. */
  datatype Roll = Roll(first: real, second: real, crossover: real, fires: (nat, nat) -> bool)

  /** The parents chosen for a round, the NaN report of the table, or a panic. */
  datatype Selection = Parents(mother: nat, father: nat) | Report(index: nat) | Crash

  /** What a round of main's growth loop does, on the population's bodies. */
  datatype Breeding = Bred(mother: nat, father: nat, child: seq<Byte>) | Reported(index: nat) | Panics

  /**
   * One round on values: the table is built from the bodies' scores and the running sum; a NaN
   * entry is reported; a Quo panic, a search past the end or a crossover point beyond the
   * father's body panics; otherwise the child is the mutated crossover of the two selected
   * bodies, or the mutated mother when the crossover draw is above the rate.
   */
  function BreedOf(bodies: seq<seq<Byte>>, target: real, sum: Float, crossoverRate: real, roll: Roll): (b: Breeding)
    ensures b.Bred? ==> b.mother < |bodies| && b.father < |bodies|
  {
    match ProbabilityTable(Scores(bodies, target), sum)
    case NaNAt(i) => Reported(i)
    case QuoPanic(_) => Panics
    case Entries(entries) =>
      var i0, i1 := FirstAtLeast(entries, roll.first), FirstAtLeast(entries, roll.second);
      if i0 >= |bodies| || i1 >= |bodies| then Panics
      else if roll.crossover > crossoverRate then Bred(i0, i1, Mutated(bodies[i0], roll.fires))
      else if |bodies[i0]| / 2 > |bodies[i1]| then Panics
      else Bred(i0, i1, Mutated(Crossover(bodies[i0], bodies[i1]), roll.fires))
  }

  /**
   * The bodies after a round that bred child from the mother at position mother: the child is
   * appended, the mother holds it (it was written into her array), and every other member either
   * keeps its body or shares the mother's array and holds the child too.
   */
  predicate RoundStep(before: seq<seq<Byte>>, after: seq<seq<Byte>>, mother: nat, child: seq<Byte>) {
    |after| == |before| + 1 && mother < |before| && after[mother] == child && after[|before|] == child &&
    forall i :: 0 <= i < |before| ==> after[i] == before[i] || after[i] == child
  }

  /** Which members of the population share the array of member m. */
  function Shares(pop: seq<Chromosome>, m: nat): (shared: seq<bool>)
    requires m < |pop|
    ensures |shared| == |pop| && shared[m]
  {
    seq(|pop|, i requires 0 <= i < |pop| => pop[i].data == pop[m].data)
  }

  /** The bodies with every shared member's body replaced by child. */
  function Overwrite(bodies: seq<seq<Byte>>, shared: seq<bool>, child: seq<Byte>): (after: seq<seq<Byte>>)
    requires |shared| == |bodies|
    ensures |after| == |bodies|
    ensures forall i :: 0 <= i < |bodies| ==> after[i] == if shared[i] then child else bodies[i]
  {
    seq(|bodies|, i requires 0 <= i < |bodies| => if shared[i] then child else bodies[i])
  }

  /** The round from before to after with running sum sum and draws roll bred child. */
  ghost predicate RoundBred(before: seq<seq<Byte>>, after: seq<seq<Byte>>, sum: Float, child: seq<Byte>,
                            target: real, crossoverRate: real, roll: Roll) {
    var b := BreedOf(before, target, sum, crossoverRate, roll);
    b.Bred? && b.child == child && RoundStep(before, after, b.mother, child)
  }

  /**
   * A bred round that overwrites the members sharing the mother's array, then appends the child,
   * makes a round step.
   */
  lemma OverwriteIsRoundBred(bodies: seq<seq<Byte>>, shared: seq<bool>, sum: Float, child: seq<Byte>,
                             target: real, crossoverRate: real, roll: Roll)
    requires var b := BreedOf(bodies, target, sum, crossoverRate, roll);
             b.Bred? && b.child == child && |shared| == |bodies| && shared[b.mother]
    ensures RoundBred(bodies, Overwrite(bodies, shared, child) + [child], sum, child, target, crossoverRate, roll)
  {
    var b := BreedOf(bodies, target, sum, crossoverRate, roll);
    assert RoundStep(bodies, Overwrite(bodies, shared, child) + [child], b.mother, child);
  }

  /**
   * history[k] holds the bodies at the start of round k and offspring[k] the child it bred: every
   * round is the BreedOf of its bodies, its running sum (start plus the earlier offspring's
   * scores) and its draws.
   */
  ghost predicate Lineage(history: seq<seq<seq<Byte>>>, offspring: seq<seq<Byte>>, start: Float, target: real,
                          crossoverRate: real, rolls: nat -> Roll) {
    |history| == |offspring| + 1 &&
    forall k :: 0 <= k < |offspring| ==>
      RoundBred(history[k], history[k + 1], AddAll(start, Scores(offspring[..k], target)), offspring[k],
                target, crossoverRate, rolls(k))
  }

  /** A lineage extends by the round bred from its last bodies. */
  lemma LineageSnoc(history: seq<seq<seq<Byte>>>, offspring: seq<seq<Byte>>, start: Float, target: real,
                    crossoverRate: real, rolls: nat -> Roll, after: seq<seq<Byte>>, child: seq<Byte>)
    requires Lineage(history, offspring, start, target, crossoverRate, rolls)
    requires RoundBred(history[|offspring|], after, AddAll(start, Scores(offspring, target)), child,
                       target, crossoverRate, rolls(|offspring|))
    ensures Lineage(history + [after], offspring + [child], start, target, crossoverRate, rolls)
  {
    var h, o := history + [after], offspring + [child];
    forall k | 0 <= k < |o|
      ensures RoundBred(h[k], h[k + 1], AddAll(start, Scores(o[..k], target)), o[k], target, crossoverRate, rolls(k))
    {
      if k < |offspring| {
        assert o[..k] == offspring[..k];
      } else {
        assert o[..k] == offspring;
      }
    }
  }

  /**
   * One round of the growth loop extends the lineage by the bodies Generation leaves behind and
   * adds the child's score to the running sum.
   */
  lemma GrowStep(history: seq<seq<seq<Byte>>>, offspring: seq<seq<Byte>>, start: Float, target: real,
                 crossoverRate: real, rolls: nat -> Roll, shared: seq<bool>, child: seq<Byte>)
    requires Lineage(history, offspring, start, target, crossoverRate, rolls)
    requires var b := BreedOf(history[|offspring|], target, AddAll(start, Scores(offspring, target)),
                              crossoverRate, rolls(|offspring|));
             b.Bred? && b.child == child && |shared| == |history[|offspring|]| && shared[b.mother]
    ensures Lineage(history + [Overwrite(history[|offspring|], shared, child) + [child]], offspring + [child],
                    start, target, crossoverRate, rolls)
    ensures AddAll(start, Scores(offspring + [child], target)) ==
            Add(AddAll(start, Scores(offspring, target)), Score(child, target))
  {
    var bodies, sum := history[|offspring|], AddAll(start, Scores(offspring, target));
    OverwriteIsRoundBred(bodies, shared, sum, child, target, crossoverRate, rolls(|offspring|));
    LineageSnoc(history, offspring, start, target, crossoverRate, rolls, Overwrite(bodies, shared, child) + [child], child);
    ScoresSnoc(offspring, child, target);
    AddAllSnoc(start, Scores(offspring, target), Score(child, target));
  }

  /**
   * The first part of main's growth loop: build the table, report its NaN entry, and search it
   * for the two parents with the draws first and second. Nothing changes.
   */
  method SelectParents(population: seq<Chromosome>, target: real, sumOfFitness: Float, first: real, second: real)
    returns (s: Selection)
    requires AllValid(population) && NonNeg(sumOfFitness)
    ensures var table := ProbabilityTable(Scores(Bodies(population), target), sumOfFitness);
            (s.Report? <==> table.NaNAt?) && (s.Report? ==> s.index == table.index)
    ensures var table := ProbabilityTable(Scores(Bodies(population), target), sumOfFitness);
            s.Crash? <==>
              table.QuoPanic? ||
              (table.Entries? && (FirstAtLeast(table.entries, first) >= |population| ||
                                  FirstAtLeast(table.entries, second) >= |population|))
    ensures s.Parents? ==>
              var table := ProbabilityTable(Scores(Bodies(population), target), sumOfFitness);
              table.Entries? &&
              s.mother == FirstAtLeast(table.entries, first) < |population| &&
              s.father == FirstAtLeast(table.entries, second) < |population|
  {
    ghost var bodies := Bodies(population);
    var table := SumPopulationProbability(population, target, sumOfFitness);
    assert Bodies(population) == bodies;
    if table.NaNAt? {
      return Report(table.index);
    }
    if table.QuoPanic? {
      return Crash;
    }
    ProbabilityTableWellFormed(Scores(bodies, target), sumOfFitness);
    var mother := SearchFloat64s(table.entries, first);
    assert Bodies(population) == bodies;
    if mother >= |population| {
      return Crash;
    }
    var father := SearchFloat64s(table.entries, second);
    assert Bodies(population) == bodies;
    if father >= |population| {
      return Crash;
    }
    return Parents(mother, father);
  }

  /**
   * The second part: mother.Mate(father).Mutate(). The child's body is the mutated crossover, or
   * the mutated mother above the crossover rate, and it sits in the mother's array, so every
   * member sharing that array now holds it; no other body changes.
   */
  method MateAndMutate(population: seq<Chromosome>, ghost width: nat, mother: nat, father: nat,
                       draw: real, crossoverRate: real, fires: (nat, nat) -> bool)
    returns (child: Chromosome)
    requires Uniform(population, width) && AllValid(population)
    requires mother < |population| && father < |population|
    modifies Buffers(population)
    ensures AllValid(population) && child.Valid()
    ensures child.length == width && child.data == population[mother].data
    ensures draw > crossoverRate ==> child == population[mother]
    ensures draw <= crossoverRate ==> fresh(child)
    ensures child.Body() == Mutated(if draw <= crossoverRate
                                    then Crossover(old(Bodies(population))[mother], old(Bodies(population))[father])
                                    else old(Bodies(population))[mother], fires)
    ensures Bodies(population) == Overwrite(old(Bodies(population)), Shares(population, mother), child.Body())
  {
    ghost var bodies := Bodies(population);
    var m, f := population[mother], population[father];
    assert m in population && f in population;
    child := m.Mate(f, draw, crossoverRate);
    child := child.Mutate(fires);
    ghost var shared := Shares(population, mother);
    forall i | 0 <= i < |population|
      ensures Bodies(population)[i] == if shared[i] then child.Body() else bodies[i]
    {
      assert population[i] in population;
      if shared[i] {
        assert population[i].data == child.data && population[i].length == child.length;
      } else {
        assert population[i].data != m.data;
      }
    }
    assert Bodies(population) == Overwrite(bodies, shared, child.Body());
  }

  /** Appending a chromosome that shares a member's buffer keeps the population uniform and appends its body. */
  lemma AppendMember(pop: seq<Chromosome>, width: nat, c: Chromosome)
    requires AllValid(pop) && Uniform(pop, width) && c.Valid()
    requires c.length == width && c.data in Buffers(pop)
    ensures AllValid(pop + [c]) && Uniform(pop + [c], width) && Buffers(pop + [c]) == Buffers(pop)
    ensures Bodies(pop + [c]) == Bodies(pop) + [c.Body()]
  {
    assert Bodies(pop + [c]) == Bodies(pop) + [c.Body()];
  }

  /** A round whose table exists and whose two searches land inside the population breeds. */
  lemma BredRound(bodies: seq<seq<Byte>>, width: nat, target: real, sum: Float, crossoverRate: real, roll: Roll)
    requires forall i :: 0 <= i < |bodies| ==> |bodies[i]| == width
    requires ProbabilityTable(Scores(bodies, target), sum).Entries?
    requires var entries := ProbabilityTable(Scores(bodies, target), sum).entries;
             FirstAtLeast(entries, roll.first) < |bodies| && FirstAtLeast(entries, roll.second) < |bodies|
    ensures var entries := ProbabilityTable(Scores(bodies, target), sum).entries;
            var i0, i1 := FirstAtLeast(entries, roll.first), FirstAtLeast(entries, roll.second);
            BreedOf(bodies, target, sum, crossoverRate, roll) ==
            Bred(i0, i1, Mutated(if roll.crossover <= crossoverRate then Crossover(bodies[i0], bodies[i1])
                                 else bodies[i0], roll.fires))
  {
  }

  /**
   * One round of main's growth loop: breed an offspring, add its score to the running sum and
   * append it to the population; crashed when the round panics.
   */
  method Generation(population: seq<Chromosome>, ghost width: nat, target: real, running: Float,
                    crossoverRate: real, roll: Roll)
    returns (next: seq<Chromosome>, nextRunning: Float, crashed: bool, ghost body: seq<Byte>, ghost bred: Breeding)
    requires Uniform(population, width) && AllValid(population)
    requires NonNeg(running)
    modifies Buffers(population)
    ensures Uniform(next, width) && AllValid(next)
    ensures Buffers(next) <= Buffers(population)
    ensures NonNeg(nextRunning)
    ensures bred == BreedOf(old(Bodies(population)), target, running, crossoverRate, roll)
    ensures !bred.Reported? && (crashed <==> bred.Panics?)
    ensures crashed ==>
              next == population && nextRunning == running && Bodies(population) == old(Bodies(population))
    ensures !crashed ==>
              |next| == |population| + 1 && next[..|population|] == population &&
              body == bred.child && body == next[|population|].Body() &&
              nextRunning == Add(running, Score(body, target)) &&
              Bodies(next) == Overwrite(old(Bodies(population)), Shares(population, bred.mother), body) + [body]
  {
    ghost var bodies := Bodies(population);
    ghost var table := ProbabilityTable(Scores(bodies, target), running);
    var parents := SelectParents(population, target, running, roll.first, roll.second);
    assert Bodies(population) == bodies;
    if parents.Report? {
      // The NaN report of main.go:94-98 cannot happen: the table has no NaN entry.
      ProbabilityTableWellFormed(Scores(bodies, target), running);
      assert false;
    }
    if parents.Crash? {
      ProbabilityTableWellFormed(Scores(bodies, target), running);
      return population, running, true, [], BreedOf(bodies, target, running, crossoverRate, roll);
    }
    BredRound(bodies, width, target, running, crossoverRate, roll);
    bred := BreedOf(bodies, target, running, crossoverRate, roll);
    var child := MateAndMutate(population, width, parents.mother, parents.father,
                               roll.crossover, crossoverRate, roll.fires);
    body := child.Body();
    assert body == bred.child && bred.mother == parents.mother;
    ghost var after := Bodies(population);
    assert after == Overwrite(bodies, Shares(population, bred.mother), body);
    var score := child.GetFitnessScore(target);
    assert Bodies(population) == after && child.Body() == body;
    AddNonNeg(running, score);
    nextRunning := Add(running, score);
    next := population + [child];
    assert next[..|population|] == population;
    AppendMember(population, width, child);
    crashed := false;
  }

  /** How a run of main ends. */
  datatype Outcome =
    | Solution(index: nat)          // an initial chromosome scores infinitely: it is printed and the run exits
    | Panicked                      // big.Float's Quo or an out-of-range parent index aborts the run
    | Finished(best: Chromosome?)   // the population reached its final size; the best chromosome is printed

  function Max(a: int, b: int): int {
    if a < b then b else a
  }

  /** A prefix of a prefix is a prefix. */
  lemma PrefixOfPrefix<T>(a: seq<T>, b: seq<T>, c: seq<T>)
    requires |a| <= |b| <= |c| && b[..|a|] == a && c[..|b|] == b
    ensures c[..|a|] == a
  {
    assert c[..|a|] == c[..|b|][..|a|];
  }

  /**
   * main's growth loop (main.go:91-115): breed one offspring per round, appending it and adding
   * its score to the running sum, until the population has finalPopulation members or a round panics.
   */
  method Grow(initial: seq<Chromosome>, ghost width: nat, target: real, crossoverRate: real,
              finalPopulation: int, rolls: nat -> Roll, start: Float)
    returns (population: seq<Chromosome>, running: Float, panicked: bool,
             ghost offspring: seq<seq<Byte>>, ghost history: seq<seq<seq<Byte>>>)
    requires Uniform(initial, width) && AllValid(initial) && NonNeg(start)
    modifies Buffers(initial)
    ensures Uniform(population, width) && AllValid(population)
    ensures |initial| <= |population| && population[..|initial|] == initial
    ensures |offspring| == |population| - |initial|
    ensures running == AddAll(start, Scores(offspring, target))
    ensures |history| == |offspring| + 1 && history[0] == old(Bodies(initial)) &&
            history[|offspring|] == Bodies(population)
    ensures Lineage(history, offspring, start, target, crossoverRate, rolls)
    ensures panicked ==>
              |population| < finalPopulation &&
              BreedOf(Bodies(population), target, running, crossoverRate, rolls(|offspring|)).Panics?
    ensures !panicked ==> |population| == Max(|initial|, finalPopulation)
  {
    running := start;
    population := initial;
    offspring := [];
    history := [Bodies(initial)];
    while |population| < finalPopulation
      invariant Uniform(population, width) && AllValid(population)
      invariant Buffers(population) <= Buffers(initial)
      invariant |initial| <= |population| <= Max(|initial|, finalPopulation)
      invariant population[..|initial|] == initial
      invariant |offspring| == |population| - |initial|
      invariant NonNeg(running)
      invariant running == AddAll(start, Scores(offspring, target))
      invariant |history| == |offspring| + 1 && history[0] == old(Bodies(initial))
      invariant history[|offspring|] == Bodies(population)
      invariant Lineage(history, offspring, start, target, crossoverRate, rolls)
      decreases finalPopulation - |population|
    {
      ghost var bodies := Bodies(population);
      var next, nextRunning, crashed, body, bred :=
        Generation(population, width, target, running, crossoverRate, rolls(|population| - |initial|));
      if crashed {
        return population, running, true, offspring, history;
      }
      GrowStep(history, offspring, start, target, crossoverRate, rolls, Shares(population, bred.mother), body);
      PrefixOfPrefix(initial, population, next);
      population, running, offspring, history := next, nextRunning, offspring + [body], history + [Bodies(next)];
    }
    panicked := false;
  }

  /**
   * main from the initial population on: sum the fitness (reporting an initial exact hit),
   * then grow the population round by round until it has finalPopulation members; then pick the best.
   */
  method Evolve(initial: seq<Chromosome>, ghost width: nat, target: real, crossoverRate: real,
                finalPopulation: int, rolls: nat -> Roll)
    returns (population: seq<Chromosome>, sumOfFitness: Option<Float>, outcome: Outcome,
             ghost offspring: seq<seq<Byte>>, ghost history: seq<seq<seq<Byte>>>)
    requires Uniform(initial, width) && AllValid(initial)
    modifies Buffers(initial)
    ensures Uniform(population, width) && AllValid(population)
    ensures |initial| <= |population| && population[..|initial|] == initial
    ensures |offspring| == |population| - |initial|
    ensures |history| == |offspring| + 1 && history[0] == old(Bodies(initial)) &&
            history[|offspring|] == Bodies(population)
    ensures outcome.Solution? <==> !AllFinite(old(Scores(Bodies(initial), target)))
    ensures outcome.Solution? ==>
              population == initial && offspring == [] && sumOfFitness == None && outcome.index < |initial| &&
              !old(Scores(Bodies(initial), target))[outcome.index].Fin? &&
              AllFinite(old(Scores(Bodies(initial), target))[..outcome.index])
    ensures !outcome.Solution? ==>
              sumOfFitness == Some(AddAll(Fin(SumReals(Reals(old(Scores(Bodies(initial), target))))),
                                          Scores(offspring, target)))
    ensures !outcome.Solution? ==>
              Lineage(history, offspring, Fin(SumReals(Reals(old(Scores(Bodies(initial), target))))),
                      target, crossoverRate, rolls)
    ensures outcome.Panicked? ==>
              |population| < finalPopulation && sumOfFitness.Some? &&
              BreedOf(Bodies(population), target, sumOfFitness.value, crossoverRate, rolls(|offspring|)).Panics?
    ensures outcome.Finished? ==>
              |population| == Max(|initial|, finalPopulation) &&
              IsBestSolution(population, Scores(Bodies(population), target), outcome.best)
  {
    ghost var bodies := Bodies(initial);
    var sum, solution := SumFitnessScore(initial, target);
    assert Bodies(initial) == bodies;
    if solution >= 0 {
      return initial, None, Solution(solution), [], [bodies];
    }
    var running, panicked;
    population, running, panicked, offspring, history :=
      Grow(initial, width, target, crossoverRate, finalPopulation, rolls, Fin(sum.value));
    if panicked {
      return population, Some(running), Panicked, offspring, history;
    }
    var best := BestSolution(population, target);
    return population, Some(running), Finished(best), offspring, history;
  }
}
