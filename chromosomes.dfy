/**
 * Chromosomes (chromosome.go). A chromosome owns a byte slice, its body, holding two 4-bit
 * genes per byte, the high nibble first. Evaluating it reads the genes left to right as a
 * flat arithmetic expression without precedence; its fitness is the inverse distance of that
 * total to the target. Mating splices two bodies at the byte midpoint, writing into the first
 * parent's backing array when the result fits there, and mutation toggles bits in place.
 *
 * The random draws the program makes (the crossover draw, the per-bit mutation trials, the
 * bytes of a fresh chromosome) are parameters here.
 */
module Chromosomes {
  import opened Wrappers
  import opened Ieee
  import opened Genes

  type Byte = bv8

  // ---------------------------------------------------------------------------------------
  // Genes of a packed body

  /** Gene `index` of a body: the high nibble of byte index/2 for an even index, else the low one. */
  function GeneAt(body: seq<Byte>, index: nat): Gene
    requires index < 2 * |body|
  {
    var b := body[index / 2];
    if index % 2 == 0 then b >> 4 else b & 0x0f
  }

  /** All genes of a body, in order (gene i is GeneAt(body, i)). */
  function GenesOf(body: seq<Byte>): (gs: seq<Gene>)
    ensures |gs| == 2 * |body|
  {
    seq(2 * |body|, i requires 0 <= i < 2 * |body| => GeneAt(body, i))
  }

  /** Every gene is a 4-bit value, and the two genes of a byte put back together give the byte. */
  lemma GeneNibbles(body: seq<Byte>, k: nat)
    requires k < |body|
    ensures GeneAt(body, 2 * k) < 16 && GeneAt(body, 2 * k + 1) < 16
    ensures GeneAt(body, 2 * k) == body[k] >> 4 && GeneAt(body, 2 * k + 1) == body[k] & 0x0f
    ensures 16 * GeneAt(body, 2 * k) as int + GeneAt(body, 2 * k + 1) as int == body[k] as int
  {
    var b := body[k];
    assert (2 * k) / 2 == k && (2 * k + 1) / 2 == k;
    assert (b >> 4) * 16 + (b & 0x0f) == b;
  }

  // ---------------------------------------------------------------------------------------
  // Evaluation: the state machine of CalculateTotal

  /** The locals of CalculateTotal's loop. */
  datatype EvalState = EvalState(total: Float, operator: Gene, lookingForNumber: bool)

  /** The "no number read yet" marker of chromosome.go:10; it is tested by equality. */
  const Uninitialized: Float := PosInf

  const Start: EvalState := EvalState(Uninitialized, 0, true)

  /** A number gene read while a number is expected: it starts the total or is applied to it. */
  function Apply(total: Float, operator: Gene, n: Gene): Float {
    var v := Fin(GetFloatValue(n));
    if total == Uninitialized then v else Operate(operator, total, v)
  }

  /** One iteration of CalculateTotal's loop; a gene of the kind not expected is skipped. */
  function Step(s: EvalState, g: Gene): EvalState {
    if s.lookingForNumber && IsNumber(g) then
      EvalState(Apply(s.total, s.operator, g), s.operator, false)
    else if !s.lookingForNumber && IsOperator(g) then
      EvalState(s.total, g, true)
    else
      s
  }

  function RunFrom(s: EvalState, gs: seq<Gene>): EvalState
    decreases |gs|
  {
    if gs == [] then s else RunFrom(Step(s, gs[0]), gs[1..])
  }

  /** The value CalculateTotal returns for a gene sequence. */
  function Total(gs: seq<Gene>): Float {
    RunFrom(Start, gs).total
  }

  lemma {:induction false} RunFromAppend(s: EvalState, a: seq<Gene>, b: seq<Gene>)
    ensures RunFrom(s, a + b) == RunFrom(RunFrom(s, a), b)
    decreases |a|
  {
    if a == [] {
      assert a + b == b;
    } else {
      assert (a + b)[0] == a[0] && (a + b)[1..] == a[1..] + b;
      RunFromAppend(Step(s, a[0]), a[1..], b);
    }
  }

  lemma RunFromSnoc(s: EvalState, a: seq<Gene>, g: Gene)
    ensures RunFrom(s, a + [g]) == Step(RunFrom(s, a), g)
  {
    RunFromAppend(s, a, [g]);
    assert [g][1..] == [];
  }

  // ---------------------------------------------------------------------------------------
  // A reference evaluator: first pick out the alternating stream, then fold it

  /** The genes the evaluation consumes: numbers and operators strictly in turn, starting with `wantNumber`. */
  function Kept(gs: seq<Gene>, wantNumber: bool): seq<Gene>
    decreases |gs|
  {
    if gs == [] then []
    else if IsNumber(gs[0]) == wantNumber then [gs[0]] + Kept(gs[1..], !wantNumber)
    else Kept(gs[1..], wantNumber)
  }

  /** Folds operator/number pairs into the total from left to right; a lone trailing operator does nothing. */
  function FoldPairs(total: Float, pairs: seq<Gene>): Float
    decreases |pairs|
  {
    if |pairs| < 2 then total else FoldPairs(Apply(total, pairs[0], pairs[1]), pairs[2..])
  }

  /** Left-to-right evaluation of the kept stream n0 o1 n1 o2 n2 ..., the sentinel when there is no number. */
  function Evaluate(gs: seq<Gene>): Float {
    var tokens := Kept(gs, true);
    if tokens == [] then Uninitialized else FoldPairs(Fin(GetFloatValue(tokens[0])), tokens[1..])
  }

  /** The kept stream alternates, starting with the kind asked for. */
  lemma {:induction false} KeptAlternates(gs: seq<Gene>, wantNumber: bool)
    ensures forall i :: 0 <= i < |Kept(gs, wantNumber)| ==>
              IsNumber(Kept(gs, wantNumber)[i]) == (wantNumber == (i % 2 == 0))
    decreases |gs|
  {
    if gs != [] {
      if IsNumber(gs[0]) == wantNumber {
        KeptAlternates(gs[1..], !wantNumber);
      } else {
        KeptAlternates(gs[1..], wantNumber);
      }
    }
  }

  /** Genes skipped by the state machine leave its state as it is. */
  lemma {:induction false} SkippedGenesIrrelevant(s: EvalState, gs: seq<Gene>)
    ensures RunFrom(s, gs) == RunFrom(s, Kept(gs, s.lookingForNumber))
    decreases |gs|
  {
    if gs != [] {
      var t := Kept(gs, s.lookingForNumber);
      if IsNumber(gs[0]) == s.lookingForNumber {
        assert t == [gs[0]] + Kept(gs[1..], !s.lookingForNumber);
        assert t[0] == gs[0] && t[1..] == Kept(gs[1..], !s.lookingForNumber);
        SkippedGenesIrrelevant(Step(s, gs[0]), gs[1..]);
      } else {
        assert Step(s, gs[0]) == s;
        SkippedGenesIrrelevant(s, gs[1..]);
      }
    }
  }

  /** On an alternating operator/number stream the state machine computes the fold. */
  lemma {:induction false} RunIsFold(total: Float, operator: Gene, pairs: seq<Gene>)
    requires forall i :: 0 <= i < |pairs| ==> IsNumber(pairs[i]) == (i % 2 == 1)
    ensures RunFrom(EvalState(total, operator, false), pairs).total == FoldPairs(total, pairs)
    decreases |pairs|
  {
    if |pairs| == 1 {
      assert pairs[1..] == [];
    } else if |pairs| >= 2 {
      var s1 := Step(EvalState(total, operator, false), pairs[0]);
      assert s1 == EvalState(total, pairs[0], true);
      var s2 := Step(s1, pairs[1]);
      assert s2 == EvalState(Apply(total, pairs[0], pairs[1]), pairs[0], false);
      assert pairs[1..][0] == pairs[1] && pairs[1..][1..] == pairs[2..];
      RunIsFold(Apply(total, pairs[0], pairs[1]), pairs[0], pairs[2..]);
    }
  }

  /**
   * CalculateTotal is the strictly left-to-right evaluation of the alternating stream it keeps:
   * no precedence, out-of-turn genes ignored, the sentinel when no number occurs.
   */
  lemma EvaluationIsLeftToRight(gs: seq<Gene>)
    ensures Total(gs) == Evaluate(gs)
  {
    var tokens := Kept(gs, true);
    SkippedGenesIrrelevant(Start, gs);
    if tokens != [] {
      KeptAlternates(gs, true);
      var s1 := Step(Start, tokens[0]);
      assert s1 == EvalState(Fin(GetFloatValue(tokens[0])), 0, false);
      assert forall i :: 0 <= i < |tokens[1..]| ==> tokens[1..][i] == tokens[i + 1];
      RunIsFold(Fin(GetFloatValue(tokens[0])), 0, tokens[1..]);
    }
  }

  // ---------------------------------------------------------------------------------------
  // Consequences of the skip-until-match policy

  /** After any number gene the machine waits for an operator; after any operator, for a number. */
  lemma TurnAfterGene(s: EvalState, a: seq<Gene>, g: Gene)
    ensures IsNumber(g) ==> !RunFrom(s, a + [g]).lookingForNumber
    ensures IsOperator(g) ==> RunFrom(s, a + [g]).lookingForNumber
  {
    RunFromSnoc(s, a, g);
  }

  /** An operator before the first number is skipped. */
  lemma LeadingOperatorSkipped(o: Gene, gs: seq<Gene>)
    requires IsOperator(o)
    ensures Total([o] + gs) == Total(gs)
  {
    RunFromAppend(Start, [o], gs);
    assert [o][1..] == [];
  }

  /** A number directly after a number is skipped. */
  lemma NumberAfterNumberSkipped(pre: seq<Gene>, n1: Gene, n2: Gene, post: seq<Gene>)
    requires IsNumber(n1) && IsNumber(n2)
    ensures Total(pre + [n1, n2] + post) == Total(pre + [n1] + post)
  {
    var s := RunFrom(Start, pre + [n1]);
    TurnAfterGene(Start, pre, n1);
    assert pre + [n1, n2] + post == (pre + [n1]) + ([n2] + post);
    assert pre + [n1] + post == (pre + [n1]) + post;
    RunFromAppend(Start, pre + [n1], [n2] + post);
    RunFromAppend(Start, pre + [n1], post);
    assert ([n2] + post)[0] == n2 && ([n2] + post)[1..] == post;
    assert Step(s, n2) == s;
  }

  /** Of two consecutive operators only the first is applied. */
  lemma OperatorAfterOperatorSkipped(pre: seq<Gene>, o1: Gene, o2: Gene, post: seq<Gene>)
    requires IsOperator(o1) && IsOperator(o2)
    ensures Total(pre + [o1, o2] + post) == Total(pre + [o1] + post)
  {
    var s := RunFrom(Start, pre + [o1]);
    TurnAfterGene(Start, pre, o1);
    assert pre + [o1, o2] + post == (pre + [o1]) + ([o2] + post);
    assert pre + [o1] + post == (pre + [o1]) + post;
    RunFromAppend(Start, pre + [o1], [o2] + post);
    RunFromAppend(Start, pre + [o1], post);
    assert ([o2] + post)[0] == o2 && ([o2] + post)[1..] == post;
    assert Step(s, o2) == s;
  }

  /** A trailing operator has no effect on the total. */
  lemma TrailingOperatorIgnored(gs: seq<Gene>, o: Gene)
    requires IsOperator(o)
    ensures Total(gs + [o]) == Total(gs)
  {
    RunFromSnoc(Start, gs, o);
  }

  /** Without a number gene the total is the +Inf sentinel. */
  lemma {:induction false} NoNumberGivesSentinel(gs: seq<Gene>)
    requires forall i :: 0 <= i < |gs| ==> IsOperator(gs[i])
    ensures Total(gs) == Uninitialized
    decreases |gs|
  {
    if gs != [] {
      LeadingOperatorSkipped(gs[0], gs[1..]);
      assert [gs[0]] + gs[1..] == gs;
      NoNumberGivesSentinel(gs[1..]);
    }
  }

  /** Two states that behave alike from here on: the operator matters only while it is still pending. */
  ghost predicate SameFuture(s1: EvalState, s2: EvalState) {
    s1.total == s2.total && s1.lookingForNumber == s2.lookingForNumber &&
    (s1.operator == s2.operator || !s1.lookingForNumber || s1.total == Uninitialized)
  }

  lemma {:induction false} SameFutureSameTotal(s1: EvalState, s2: EvalState, gs: seq<Gene>)
    requires SameFuture(s1, s2)
    ensures RunFrom(s1, gs).total == RunFrom(s2, gs).total
    decreases |gs|
  {
    if gs != [] {
      assert SameFuture(Step(s1, gs[0]), Step(s2, gs[0]));
      SameFutureSameTotal(Step(s1, gs[0]), Step(s2, gs[0]), gs[1..]);
    }
  }

  /**
   * Once the running total is +Inf it is taken for the sentinel: everything read so far is
   * forgotten except whose turn it is, and the next number consumed starts a fresh total.
   */
  lemma InfiniteTotalRestarts(pre: seq<Gene>, post: seq<Gene>)
    requires RunFrom(Start, pre).total == PosInf
    ensures Total(pre + post) ==
            RunFrom(EvalState(Uninitialized, 0, RunFrom(Start, pre).lookingForNumber), post).total
  {
    RunFromAppend(Start, pre, post);
    SameFutureSameTotal(RunFrom(Start, pre),
                        EvalState(Uninitialized, 0, RunFrom(Start, pre).lookingForNumber), post);
  }

  /** Genes 5 + 3 * 2 evaluate to 16: left to right, with no precedence. */
  lemma NoPrecedenceExample()
    ensures Total([5, Plus, 3, Star, 2]) == Fin(16.0)
  {
    var gs: seq<Gene> := [5, Plus, 3, Star, 2];
    EvaluationIsLeftToRight(gs);
    assert Kept(gs[4..], true) == [2];
    assert Kept(gs[3..], false) == [Star, 2];
    assert Kept(gs[2..], true) == [3, Star, 2];
    assert Kept(gs[1..], false) == [Plus, 3, Star, 2];
    assert Kept(gs, true) == gs;
    assert gs[1..][2..] == [Star, 2] && [Star, 2][2..] == [];
    assert Apply(Fin(5.0), Plus, 3) == Fin(8.0);
    assert Apply(Fin(8.0), Star, 2) == Fin(16.0);
    assert FoldPairs(Fin(5.0), gs[1..]) == FoldPairs(Fin(8.0), [Star, 2]);
    assert FoldPairs(Fin(8.0), [Star, 2]) == FoldPairs(Fin(16.0), []) == Fin(16.0);
    assert Evaluate(gs) == FoldPairs(Fin(GetFloatValue(5)), gs[1..]);
  }

  /** Genes 5 / 0 + 3: the division gives +Inf, which the next number replaces, so the total is 3. */
  lemma SentinelRestartExample()
    ensures Total([5, Slash, 0, Plus, 3]) == Fin(3.0)
  {
    var gs: seq<Gene> := [5, Slash, 0, Plus, 3];
    EvaluationIsLeftToRight(gs);
    assert Kept(gs[4..], true) == [3];
    assert Kept(gs[3..], false) == [Plus, 3];
    assert Kept(gs[2..], true) == [0, Plus, 3];
    assert Kept(gs[1..], false) == [Slash, 0, Plus, 3];
    assert Kept(gs, true) == gs;
    assert gs[1..][2..] == [Plus, 3] && [Plus, 3][2..] == [];
    assert Apply(Fin(5.0), Slash, 0) == PosInf;
    assert Apply(PosInf, Plus, 3) == Fin(3.0);
    assert FoldPairs(Fin(5.0), gs[1..]) == FoldPairs(PosInf, [Plus, 3]);
    assert FoldPairs(PosInf, [Plus, 3]) == FoldPairs(Fin(3.0), []) == Fin(3.0);
    assert Evaluate(gs) == FoldPairs(Fin(GetFloatValue(5)), gs[1..]);
  }

  // ---------------------------------------------------------------------------------------
  // Fitness

  /** GetFitnessScore on a total: 0 for NaN and the infinities (the sentinel included), else |1 / (target - total)|. */
  function Fitness(total: Float, target: real): (score: Float)
    ensures NonNeg(score)
    ensures score == PosInf <==> total == Fin(target)
    ensures score == Fin(0.0) <==> !total.Fin?
    ensures total.Fin? && total.r != target ==>
              score.Fin? && score.r * (if target > total.r then target - total.r else total.r - target) == 1.0
  {
    if IsNaN(total) || IsInf(total) then Fin(0.0)
    else Abs(Div(Fin(1.0), Sub(Fin(target), total)))
  }

  /** The fitness score of a body. */
  function Score(body: seq<Byte>, target: real): Float {
    Fitness(Total(GenesOf(body)), target)
  }

  // ---------------------------------------------------------------------------------------
  // Crossover and mutation on body contents

  /** Single-point crossover at the byte midpoint of the first body. */
  function Crossover(a: seq<Byte>, b: seq<Byte>): seq<Byte>
    requires |a| / 2 <= |b|
  {
    a[..|a| / 2] + b[|a| / 2..]
  }

  /**
   * The child's genes are the first parent's up to the gene midpoint and the second parent's
   * after it; its length is the second parent's; mating a body with itself gives it back.
   */
  lemma CrossoverGenes(a: seq<Byte>, b: seq<Byte>)
    requires |a| / 2 <= |b|
    ensures |Crossover(a, b)| == |b|
    ensures GenesOf(Crossover(a, b)) == GenesOf(a)[..2 * (|a| / 2)] + GenesOf(b)[2 * (|a| / 2)..]
    ensures Crossover(a, a) == a
  {
    var c, h := Crossover(a, b), |a| / 2;
    var lhs, rhs := GenesOf(c), GenesOf(a)[..2 * h] + GenesOf(b)[2 * h..];
    assert |lhs| == |rhs|;
    forall i | 0 <= i < |lhs|
      ensures lhs[i] == rhs[i]
    {
      if i < 2 * h {
        assert c[i / 2] == a[i / 2];
      } else {
        assert c[i / 2] == b[i / 2];
      }
    }
    assert a[..h] + a[h..] == a;
  }

  /** The bit mutation trial j toggles: byte(1 << (j + 1)), which for j = 7 is 0. */
  function TrialMask(j: nat): Byte
    requires j < 8
  {
    (1 as bv8) << (j + 1)
  }

  /** Clears the mask's bits when they are set in b, else sets them. */
  function Toggle(b: Byte, mask: Byte): Byte {
    if b & mask > 0 then b & !mask else b | mask
  }

  /** Byte i after the first n of its eight trials; trial j toggles when fires(i, j). */
  function MutateBits(b: Byte, i: nat, fires: (nat, nat) -> bool, n: nat): Byte
    requires n <= 8
  {
    if n == 0 then b
    else
      var prev := MutateBits(b, i, fires, n - 1);
      if fires(i, n - 1) then Toggle(prev, TrialMask(n - 1)) else prev
  }

  /** A body after a full round of mutation trials. */
  function Mutated(body: seq<Byte>, fires: (nat, nat) -> bool): (r: seq<Byte>)
    ensures |r| == |body|
  {
    seq(|body|, i requires 0 <= i < |body| => MutateBits(body[i], i, fires, 8))
  }

  function Bit(b: Byte, k: nat): Byte
    requires k < 8
  {
    (b >> k) & 1
  }

  /** A mask with at most one bit set: Toggle is then an exclusive or. */
  lemma ToggleIsXor(x: Byte, m: Byte)
    requires m & (m - 1) == 0
    ensures Toggle(x, m) == x ^ m
  {
  }

  lemma TrialMaskBits(j: nat, k: nat)
    requires j < 8 && k < 8
    ensures TrialMask(j) & (TrialMask(j) - 1) == 0
    ensures Bit(TrialMask(j), k) == if k == j + 1 then 1 else 0
  {
  }

  lemma XorBit(x: Byte, m: Byte, k: nat)
    requires k < 8
    ensures Bit(x ^ m, k) == Bit(x, k) ^ Bit(m, k)
  {
    if k == 0 {} else if k == 1 {} else if k == 2 {} else if k == 3 {}
    else if k == 4 {} else if k == 5 {} else if k == 6 {} else {}
  }

  lemma ToggleFlipsOneBit(x: Byte, j: nat, k: nat)
    requires j < 8 && k < 8
    ensures Bit(Toggle(x, TrialMask(j)), k) != Bit(x, k) <==> k == j + 1
  {
    TrialMaskBits(j, k);
    ToggleIsXor(x, TrialMask(j));
    XorBit(x, TrialMask(j), k);
  }

  lemma {:induction false} MutateBitsFlips(b: Byte, i: nat, fires: (nat, nat) -> bool, n: nat, k: nat)
    requires n <= 8 && k < 8
    ensures Bit(MutateBits(b, i, fires, n), k) != Bit(b, k) <==> 1 <= k <= n && fires(i, k - 1)
  {
    if n > 0 {
      MutateBitsFlips(b, i, fires, n - 1, k);
      if fires(i, n - 1) {
        ToggleFlipsOneBit(MutateBits(b, i, fires, n - 1), n - 1, k);
      }
    }
  }

  /**
   * Mutation flips bit j + 1 of byte i exactly when trial (i, j) fires, for j in 0..6; trial 7
   * changes nothing, so bit 0 of a byte never changes.
   */
  lemma MutationFlipsFiredBits(body: seq<Byte>, fires: (nat, nat) -> bool, i: nat, k: nat)
    requires i < |body| && k < 8
    ensures Bit(Mutated(body, fires)[i], k) != Bit(body[i], k) <==> 1 <= k && fires(i, k - 1)
    ensures Bit(Mutated(body, fires)[i], 0) == Bit(body[i], 0)
  {
    MutateBitsFlips(body[i], i, fires, 8, k);
    MutateBitsFlips(body[i], i, fires, 8, 0);
  }

  /** Bit 0 of a byte is the low bit of its second gene: mutation never changes an odd gene's parity. */
  lemma MutationKeepsOddGeneParity(body: seq<Byte>, fires: (nat, nat) -> bool, k: nat)
    requires k < |body|
    ensures GeneAt(Mutated(body, fires), 2 * k + 1) % 2 == GeneAt(body, 2 * k + 1) % 2
  {
    MutationFlipsFiredBits(body, fires, k, 0);
    var b, m := body[k], Mutated(body, fires)[k];
    assert (2 * k + 1) / 2 == k && (2 * k + 1) % 2 == 1;
    assert (m >> 0) & 1 == (b >> 0) & 1;
    assert (m & 0x0f) % 2 == (b & 0x0f) % 2;
  }

  // ---------------------------------------------------------------------------------------
  // The chromosome object

  class Chromosome {
    /** The backing array of the body slice; its Length is the slice's capacity. */
    const data: array<Byte>
    /** The length of the body slice. */
    const length: nat

    ghost predicate Valid() {
      length <= data.Length
    }

    /** The bytes of the body slice. */
    function Body(): (s: seq<Byte>)
      reads data
      requires Valid()
      ensures |s| == length
    {
      data[..length]
    }

    /** GenerateRandomChromosome: a body of numberOfGenes / 2 bytes, filled from the secure byte source. */
    constructor Generate(numberOfGenes: int, random: seq<Byte>)
      requires numberOfGenes >= 0 && |random| == numberOfGenes / 2
      ensures Valid() && fresh(data)
      ensures length == data.Length == numberOfGenes / 2
      ensures Body() == random
    {
      length := numberOfGenes / 2;
      data := new Byte[numberOfGenes / 2](i requires 0 <= i < |random| => random[i]);
    }

    /** A chromosome whose body is the first n bytes of a. */
    constructor Slice(a: array<Byte>, n: nat)
      requires n <= a.Length
      ensures Valid() && data == a && length == n
    {
      data := a;
      length := n;
    }

    /** A gene is a 4-bit code: a number, or one of the four operators Operate knows. */
    function GetGene(index: nat): (g: Gene)
      reads data
      requires Valid() && index < 2 * length
      ensures g < 16
      ensures IsOperator(g) ==> Symbol(g).Some?
    {
      GeneNibbles(Body(), index / 2);
      assert index == 2 * (index / 2) || index == 2 * (index / 2) + 1;
      GeneAt(Body(), index)
    }

    method CalculateTotal() returns (total: Float)
      requires Valid()
      ensures total == Total(GenesOf(Body()))
    {
      ghost var genes := GenesOf(Body());
      total := Uninitialized;
      var operator: Gene := 0;
      var lookingForNumber := true;
      var index := 0;
      while index < length * 2
        invariant 0 <= index <= length * 2
        invariant EvalState(total, operator, lookingForNumber) == RunFrom(Start, genes[..index])
      {
        var curr := GetGene(index);
        if lookingForNumber && IsNumber(curr) {
          lookingForNumber := false;
          if total == Uninitialized {
            total := Fin(GetFloatValue(curr));
          } else {
            total := Operate(operator, total, Fin(GetFloatValue(curr)));
          }
        } else if !lookingForNumber && IsOperator(curr) {
          lookingForNumber := true;
          operator := curr;
        }
        RunFromSnoc(Start, genes[..index], curr);
        assert genes[..index + 1] == genes[..index] + [curr];
        index := index + 1;
      }
      assert genes[..length * 2] == genes;
    }

    method GetFitnessScore(target: real) returns (score: Float)
      requires Valid()
      ensures score == Score(Body(), target)
    {
      var total := CalculateTotal();
      if IsNaN(total) || IsInf(total) {
        return Fin(0.0);
      }
      score := Abs(Div(Fin(1.0), Sub(Fin(target), total)));
    }

    /**
     * Mate: when the draw is above the crossover rate the child is this very chromosome.
     * Otherwise the child's body is append(body[:length/2], other.body[length/2:]...): when
     * other's length fits in this backing array, other's tail is written over this body's
     * second half in place and the child shares the array; else a new array is allocated.
     */
    method Mate(other: Chromosome, draw: real, crossoverRate: real) returns (child: Chromosome)
      requires Valid() && other.Valid()
      requires draw <= crossoverRate ==> length / 2 <= other.length
      modifies data
      ensures child.Valid()
      ensures draw > crossoverRate ==> child == this && data[..] == old(data[..])
      ensures draw <= crossoverRate ==> fresh(child)
      ensures draw <= crossoverRate ==> child.Body() == Crossover(old(Body()), old(other.Body()))
      ensures draw <= crossoverRate && other.length <= data.Length ==>
                child.data == data && data[other.length..] == old(data[other.length..])
      ensures draw <= crossoverRate && other.length > data.Length ==>
                fresh(child.data) && data[..] == old(data[..])
      ensures other.Body() == old(other.Body())
    {
      if draw <= crossoverRate {
        if other.length <= data.Length {
          OverwriteTail(other);
          child := new Chromosome.Slice(data, other.length);
        } else {
          var grown := SplicedCopy(other);
          child := new Chromosome.Slice(grown, other.length);
        }
      } else {
        child := this;
      }
    }

    /** append's in-place path: other's bytes from length / 2 on are copied over this backing array. */
    method OverwriteTail(other: Chromosome)
      requires Valid() && other.Valid()
      requires length / 2 <= other.length <= data.Length
      modifies data
      ensures data[..other.length] == Crossover(old(Body()), old(other.Body()))
      ensures data[other.length..] == old(data[other.length..])
      ensures other.Body() == old(other.Body())
    {
      var half, n := length / 2, other.length;
      var k := half;
      while k < n
        invariant half <= k <= n
        invariant forall m :: 0 <= m < half ==> data[m] == old(data[m])
        invariant forall m :: half <= m < k ==> data[m] == old(other.data[m])
        invariant forall m :: k <= m < data.Length ==> data[m] == old(data[m])
        invariant other.data == data ==> data[..] == old(data[..])
      {
        data[k] := other.data[k];
        k := k + 1;
      }
      assert forall m :: 0 <= m < n ==> data[..n][m] == Crossover(old(Body()), old(other.Body()))[m];
    }

    /** append's reallocating path: a new array holding the first half of this body and other's tail. */
    method SplicedCopy(other: Chromosome) returns (grown: array<Byte>)
      requires Valid() && other.Valid()
      requires length / 2 <= other.length
      ensures fresh(grown) && grown[..] == Crossover(Body(), other.Body())
    {
      var half, n := length / 2, other.length;
      grown := new Byte[n];
      var k := 0;
      while k < n
        invariant 0 <= k <= n
        invariant forall m :: 0 <= m < k ==> grown[m] == (if m < half then data[m] else other.data[m])
      {
        grown[k] := if k < half then data[k] else other.data[k];
        k := k + 1;
      }
      assert forall m :: 0 <= m < n ==> grown[..][m] == Crossover(Body(), other.Body())[m];
    }

    /** Mutate: runs the eight bit trials of every byte of the body in place and returns this chromosome. */
    method Mutate(fires: (nat, nat) -> bool) returns (c: Chromosome)
      requires Valid()
      modifies data
      ensures c == this
      ensures Body() == Mutated(old(Body()), fires)
      ensures data[length..] == old(data[length..])
    {
      var i := 0;
      while i < length
        invariant 0 <= i <= length
        invariant forall m :: 0 <= m < i ==> data[m] == MutateBits(old(data[m]), m, fires, 8)
        invariant forall m :: i <= m < data.Length ==> data[m] == old(data[m])
      {
        ghost var before := data[..];
        var j := 0;
        while j < 8
          invariant 0 <= j <= 8
          invariant data[i] == MutateBits(old(data[i]), i, fires, j)
          invariant forall m :: 0 <= m < data.Length && m != i ==> data[m] == before[m]
        {
          if fires(i, j) {
            var bitmask := TrialMask(j);
            if data[i] & bitmask > 0 {
              data[i] := data[i] & !bitmask;
            } else {
              data[i] := data[i] | bitmask;
            }
          }
          j := j + 1;
        }
        i := i + 1;
      }
      c := this;
    }
  }
}
