# A genetic algorithm searching for arithmetic expressions

The program evolves a population of chromosomes toward an arithmetic expression whose value is
a target number (145). A chromosome is a byte slice that packs two 4-bit genes per byte, high
nibble first. A gene below 12 is the number with that value; 12, 13, 14 and 15 are `+`, `-`, `/`
and `*`. The genes are read left to right as a flat expression without precedence:
number, operator, number, and so on. A gene of the kind not expected next is skipped. The total
starts at the sentinel +Inf. While the total equals that sentinel, the next number replaces it
rather than being combined with it. A chromosome's fitness is `|1 / (target - total)|`. It is 0
for a NaN or infinite total, and +Inf for an exact hit.

`main` first sums the fitness of the initial population. If some chromosome scores infinitely,
it is reported as the solution. Otherwise each round does the following:

- It builds a table of accumulated selection probabilities. The division is done with
  `big.Float` at 53-bit precision, which has no NaN: 0/0 and Inf/Inf panic. The table is then
  checked for NaN entries.
- It picks two parents by binary search of two uniform draws in that table.
- It mates the parents with single-point crossover at the byte midpoint, then mutates the
  result bit by bit.
- It adds the offspring's fitness to the running sum and appends the offspring to the
  population.

When the population reaches its final size, the chromosome with the highest score is printed.

The model is five modules:

- `Wrappers`: `Option`.
- `Ieee`: doubles as exact reals plus the two infinities and NaN, with the IEEE 754 rules for
  NaN and division by zero. `Quo` is `big.Float` division, computed exactly. Where a double
  division would give NaN, it gives `None`, standing for the `ErrNaN` panic.
- `Genes`: gene predicates, values, symbols and `Operate` (gene.go).
- `Chromosomes`: packed genes and the evaluation state machine with a reference evaluator.
  Also fitness, crossover and the bit trials of mutation. The `Chromosome` class has a backing
  `array` (the slice's capacity) and a `length`. Slice aliasing is therefore modelled exactly:
  when the spliced body fits, `Mate` writes it into the first parent's array. Its result then
  shares that array, and `Mutate` changes it in place (chromosome.go).
- `Evolution`: `SumFitnessScore`, `SumPopulationProbability`, `sort.SearchFloat64s`,
  `BestSolution`, and `main`'s loop from the initial population on (main.go).

The random draws are parameters: `mathrand.Float64` for selection and crossover, the outcome of
each `Int31n` mutation trial, and the `crypto/rand` bytes of a new chromosome.

## Model

| member | source | states |
|---|---|---|
| Genes.IsNumber | gene.go:9-11 | among 4-bit codes, a gene is a number exactly when String prints no operator symbol for it |
| Genes.Symbol | gene.go:41-54 | String prints an operator symbol exactly for codes 12 to 15, each a single character |
| Genes.IsOperator | gene.go:13-15 | a gene is an operator exactly when it is not a number |
| Genes.IsPlus | gene.go:17-19 | the plus gene is an operator printed as "+" |
| Genes.IsMinus | gene.go:21-23 | the minus gene is an operator printed as "-" |
| Genes.IsMultiply | gene.go:25-27 | the gene named "multiply" (14) is the operator printed as "/" |
| Genes.IsDivide | gene.go:29-31 | the gene named "divide" (15) is the operator printed as "*" |
| Genes.GetValue | gene.go:33-35 | the value lies between 0 and 255 and converts back to the gene, and below 12 exactly for a number gene |
| Genes.GetFloatValue | gene.go:37-39 | the float value equals the integer value; a number gene's value lies in 0..11 |
| Genes.Operate | gene.go:56-69 | 12 adds, 13 subtracts, 14 divides, 15 multiplies; any other code returns the left operand |
| Genes.OperatorPredicatesPartition | gene.go:13-31 | exactly one of IsPlus/IsMinus/IsMultiply/IsDivide holds for each operator code up to 15, none for any other code |
| Genes.SymbolMatchesOperate | gene.go:41-69 | the symbol String prints for a gene is the operation Operate performs on finite numbers |
| Genes.MultiplyDivideNamesSwapped | gene.go:25-31 | IsMultiply holds for the code Operate divides by, and IsDivide for the one it multiplies by |
| Genes.DivisionByZeroGene | gene.go:62-63 | dividing a positive, negative or zero total by the zero gene gives +Inf, -Inf or NaN |
| Ieee.Classes | chromosome.go:61 | math.IsNaN and math.IsInf(x, 0) split the doubles: each value is exactly one of NaN, an infinity or finite, and neither test depends on the sign |
| Ieee.Add | gene.go:58-59 | finite summands add exactly |
| Ieee.AddSpecialValues | gene.go:58-59 | NaN absorbs, +Inf + -Inf is NaN, and an infinity plus anything else that is not NaN is that infinity |
| Ieee.AddNonNeg | main.go:25 | the sum of two non-negative values is non-negative and at least each summand |
| Ieee.Sub | gene.go:61 | finite operands subtract exactly; a NaN operand or Inf minus the same Inf gives NaN |
| Ieee.Mul | gene.go:65 | finite operands multiply exactly; a NaN operand, or an infinity times zero, gives NaN; otherwise an infinite operand gives the infinity whose sign is the product of the signs |
| Ieee.GtOrder | main.go:54 | float64 `>` is false whenever either side is NaN, the real order on finite values, with +Inf above and -Inf below every other value |
| Ieee.GeOrder | main.go:102 | float64 `>=` is false whenever either side is NaN, the real order on finite values, with +Inf above and -Inf below every value |
| Ieee.GtTotal | main.go:54 | between values that are not NaN, `x > y` holds exactly when `y >= x` does not |
| Ieee.Div | gene.go:62-63 | x / 0 is +Inf, -Inf or NaN according to the sign of x |
| Ieee.Abs | chromosome.go:64 | the absolute value of anything but NaN is non-negative |
| Ieee.Quo | main.go:36-37 | big.Float division panics exactly for 0/0, Inf/Inf (or a NaN operand), and keeps non-negative values non-negative |
| Chromosomes.GeneNibbles | chromosome.go:25-32 | gene 2k is the high and gene 2k+1 the low nibble of byte k; both are below 16 and together rebuild the byte |
| Chromosomes.GenesOf | chromosome.go:39 | a body of n bytes holds 2n genes |
| Chromosomes.EvaluationIsLeftToRight | chromosome.go:34-57 | the loop's total equals the reference evaluator: keep alternating numbers and operators, then fold the pairs left to right |
| Chromosomes.TurnAfterGene | chromosome.go:42-54 | after a number gene the loop waits for an operator, and after an operator for a number |
| Chromosomes.LeadingOperatorSkipped | chromosome.go:42-54 | an operator before the first number does not change the total |
| Chromosomes.NumberAfterNumberSkipped | chromosome.go:42-49 | of two adjacent numbers the second is skipped |
| Chromosomes.OperatorAfterOperatorSkipped | chromosome.go:50-54 | of two adjacent operators only the first is applied |
| Chromosomes.TrailingOperatorIgnored | chromosome.go:50-56 | an operator after the last number does not change the total |
| Chromosomes.NoNumberGivesSentinel | chromosome.go:35-56 | a body without a number gene evaluates to the +Inf sentinel |
| Chromosomes.InfiniteTotalRestarts | chromosome.go:45-48 | once the total is +Inf, everything read before is forgotten and the next number starts a new total |
| Chromosomes.NoPrecedenceExample | chromosome.go:34-57 | 5 + 3 * 2 evaluates to 16 (no precedence) |
| Chromosomes.SentinelRestartExample | chromosome.go:45-48 | 5 / 0 + 3 evaluates to 3: the +Inf quotient is replaced by the next number |
| Chromosomes.Fitness | chromosome.go:59-65 | the score is non-negative; it is +Inf exactly on an exact hit, 0 exactly for a NaN or infinite total, and otherwise times the distance to the target it gives 1 |
| Chromosomes.CrossoverGenes | chromosome.go:67-75 | the child has the second parent's length; its genes are the first parent's up to the byte midpoint, then the second's; crossing a body with itself gives it back |
| Chromosomes.ToggleIsXor | chromosome.go:82-86 | with a mask of at most one bit, clear-if-set-else-set is an exclusive or |
| Chromosomes.TrialMaskBits | chromosome.go:81 | the mask of trial j is the single bit j+1, and nothing for j = 7 |
| Chromosomes.ToggleFlipsOneBit | chromosome.go:81-86 | trial j flips bit j+1 of the byte and no other bit |
| Chromosomes.MutateBitsFlips | chromosome.go:79-88 | after the first n trials of a byte, bit k differs exactly when 1 <= k <= n and trial k-1 fired |
| Chromosomes.MutationFlipsFiredBits | chromosome.go:77-91 | mutation flips bit k of byte i exactly when k >= 1 and trial k-1 of that byte fired; bit 0 never changes |
| Chromosomes.MutationKeepsOddGeneParity | chromosome.go:77-91 | mutation never changes the parity of the second gene of a byte |
| Chromosomes.Chromosome.Generate | chromosome.go:17-23 | a fresh body of numberOfGenes / 2 bytes, holding the random bytes |
| Chromosomes.Chromosome.GetGene | chromosome.go:25-32 | a gene read from a body is a 4-bit code, and an operator gene is one of the four that Operate knows |
| Chromosomes.Chromosome.CalculateTotal | chromosome.go:34-57 | the loop returns the total of the body's genes |
| Chromosomes.Chromosome.GetFitnessScore | chromosome.go:59-65 | the score is the fitness of the body's total |
| Chromosomes.Chromosome.Slice | chromosome.go:70-72 | the chromosome literal is valid, has the given array as its body's backing array and the given length |
| Chromosomes.Chromosome.Mate | chromosome.go:67-75 | above the crossover rate the parent itself comes back, unchanged. Otherwise there is a fresh chromosome whose body is the crossover; when it fits, it is written into the first parent's array, else into a new array. The other parent never changes |
| Chromosomes.Chromosome.OverwriteTail | chromosome.go:71 | append's in-place path: the first parent's array now starts with the crossover, and the rest is unchanged |
| Chromosomes.Chromosome.SplicedCopy | chromosome.go:71 | append's reallocating path: a fresh array holding the crossover |
| Chromosomes.Chromosome.Mutate | chromosome.go:77-91 | the body becomes its bitwise mutation in place, the bytes past the length are unchanged, and the same chromosome is returned |
| Evolution.Scores | chromosome.go:59-65 | one score per body, each non-negative |
| Evolution.MemberScore | main.go:20 | the chromosome's score is its entry in the population's score list, and no body changes |
| Evolution.SumRealsBounds | main.go:25 | a sum of non-negative scores is non-negative and at least each of them |
| Evolution.SumFitnessScore | main.go:17-28 | returns -1 exactly when every score is finite, together with their exact sum. Otherwise it returns no sum and the first index whose score is not finite |
| Evolution.SumPopulationProbability | main.go:30-47 | the result is the table of entries accumulated as written, the first NaN index, or the Quo panic |
| Evolution.ProbabilityTableWellFormed | main.go:36-43 | with non-negative scores and sum no entry is NaN, and a produced table is sorted and non-negative |
| Evolution.AccumulatedBounds | main.go:38-43 | with non-negative probabilities, as-written entry i is at least the sum of the probabilities 0..i |
| Evolution.AccumulatedNonDecreasing | main.go:38-43 | the as-written entries never decrease |
| Evolution.TableFromAccumulates | main.go:33-46 | when every division succeeds exactly, the loop from any position produces the exact as-written accumulation from that position |
| Evolution.AccumulatedFromPrefix | main.go:38-43 | running the accumulation from position i on the table of the first i probabilities gives the whole table |
| Evolution.AsWrittenEntries | main.go:30-47 | with finite scores and a positive sum, the table is the as-written accumulation of score / sum |
| Evolution.AccumulatedReachesOne | main.go:38-43 | with a positive up-to-date sum, the last as-written entry is at least 1 |
| Evolution.AsWrittenTable | main.go:30-47 | with an up-to-date positive sum of finite scores the table is the as-written accumulation of score / sum; it never decreases and its last entry is at least 1 |
| Evolution.FourthOfFourNeverChosen | main.go:38-43 | four equal scores give the table 1/4, 1/2, 1, 2, and no draw in [0, 1) selects the fourth chromosome |
| Evolution.IntendedTableIsCumulative | main.go:36-43 | the corrected table holds the cumulative shares of the sum. It never decreases and its last entry is exactly 1 |
| Evolution.FourthOfFourChosenWhenIntended | main.go:38-43 | with the corrected table the fourth of four equal scores is chosen for draws above 3/4 |
| Evolution.IntendedTableFromCumulates | main.go:36-43 | when every double division is exact, the corrected loop from any position produces the cumulative probabilities |
| Evolution.CumulativeShares | main.go:36-43 | cumulative probability i is the sum of the first i + 1 scores over the sum |
| Evolution.CumulativeGrows | main.go:43 | cumulative probabilities of non-negative probabilities are non-negative and never decrease |
| Evolution.CumulativeReachesOne | main.go:36-43 | the last cumulative share of the sum is exactly 1 |
| Evolution.CumulativeEndsAtOne | main.go:30-47 | the cumulative shares are the prefix sums over the sum; they never decrease, and the last one is exactly 1 |
| Evolution.PrefixSumsGrow | main.go:43 | prefix sums of non-negative probabilities never decrease |
| Evolution.FirstAtLeast | main.go:102 | the position of the first entry at least the draw, or the length when there is none |
| Evolution.FirstAtLeastIsFirst | main.go:102 | any position before which no entry reaches the draw, and at which one does, is that first position |
| Evolution.SearchFloat64s | main.go:102 | the binary search over a sorted table returns the first position whose entry is at least the draw |
| Evolution.UpToDateSumSelectsMember | main.go:99-103 | with an up-to-date sum of finite scores every draw below 1 selects a member of the population |
| Evolution.ExactHitPanicsNextRound | main.go:36-37 | once a score in the population is +Inf (so is the running sum), building the table panics in Quo |
| Evolution.IntendedTableReportsExactHit | main.go:36-42 | with double division the NaN check reports the first chromosome with an infinite score |
| Evolution.BestIndexIsEarliestBest | main.go:49-60 | the position the scan keeps is -1 exactly when every score is 0, and otherwise the earliest score above 0 and above every earlier score, with no score above it |
| Evolution.BestSolution | main.go:49-60 | null exactly when every score is 0. Otherwise the earliest chromosome whose score is above 0 and strictly above every score before it, with no score above it |
| Evolution.SelectParents | main.go:94-110 | the round reports a NaN index exactly when the table has one; it crashes exactly on a Quo panic or a search past the end; otherwise the parents are the first entries reaching the two draws |
| Evolution.MateAndMutate | main.go:112 | the child is the mutated crossover when the crossover draw is at most the rate, otherwise the mutated first parent; it lives in the first parent's array, so exactly the members sharing that array now hold it |
| Evolution.OverwriteIsRoundBred | main.go:112-114 | overwriting the members that share the mother's array and appending the child is a round bred from the bodies before it |
| Evolution.LineageSnoc | main.go:91-115 | a lineage of rounds extends by one more round bred from its last bodies |
| Evolution.GrowStep | main.go:112-114 | one more bred round extends the lineage, and the running sum grows by the child's score |
| Evolution.BredRound | main.go:99-112 | when the table exists and both searches land inside the population, the round breeds the mutated crossover (or the mutated first parent) of the two found parents |
| Evolution.AppendMember | main.go:114 | appending the child, which shares a member's array, keeps the population uniform and appends its body |
| Evolution.Generation | main.go:91-115 | the round is the one BreedOf defines from the bodies, the running sum and the draws: it never reports NaN and panics exactly when BreedOf does, changing nothing; otherwise it appends the bred child, adds its score to the running sum, and exactly the members sharing the mother's array now hold the child |
| Evolution.Grow | main.go:91-115 | the loop keeps the initial members as a prefix; the running sum is the start plus each offspring's score; the history of bodies starts at the initial bodies, each round is bred from the previous bodies, and a panic is a round BreedOf says panics |
| Evolution.Evolve | main.go:85-119 | The run reports an initial solution exactly when some initial score is not finite. Otherwise the running sum is the initial sum plus each offspring's score. Every offspring is the child BreedOf gives for its round, from the bodies, running sum and draws of that round, starting from the initial bodies. A panic is a round that BreedOf says panics, with the population short of its final size; a finished run has the final size and returns the best chromosome |

## Left out

- Printing and timing: `OutputSolution` (main.go:122-129), the progress messages, `time`, `os.Exit`, and String's `%.2f` rendering of number genes (gene.go:51-52). `Genes.Symbol` keeps only the operator symbols.
- Randomness: `mathrand.Seed`, `mathrand.Float64`, `crypto/rand.Read` and `Int31n` are parameters. The per-bit trial outcome is given directly, so the model does not compute `int32(1/rate)` or the trial probability it yields.
- Floating point: rounding, overflow to infinity, subnormals, the sign of zero, and the precision of `big.Float` and its `Float64` conversion. Values are exact reals plus the infinities and NaN.
- Go's `append` growth policy: when the spliced body does not fit the first parent's capacity, the new array is exactly as long as the body. Only the in-place case is observable in main, where all bodies have the same length and capacity.
- The concrete constants of main.go:62-69: the target, the population sizes and the rates are parameters of `Evolve`, `Grow` and `Generation`.
- Chromosomes.Chromosome.Mate: on the crossover path only, requires the first parent's midpoint to lie within the second parent's body; Go panics on the slice expression otherwise, and main never mates chromosomes of different lengths. Above the crossover rate Go returns the parent without slicing, and the model asks nothing there.
- Chromosomes.Chromosome.GetGene: the index is a `nat`. In Go, index -1 reads byte -1/2 = 0 and, since -1 % 2 is -1, returns its low nibble; indices below -1 panic. Neither is modelled, since `CalculateTotal` (chromosome.go:39) and `OutputSolution` (main.go:124) only pass 0 to 2·len-1.
- Evolution.Evolve: requires all initial chromosomes to have the same length equal to their capacity, as `GenerateRandomChromosome` builds them; the initial population is a parameter instead of being generated.
- Evolution.SumPopulationProbability: the slice of probabilities is a sequence extended entry by entry rather than an array of len(pop) written by index; the slice is local and returned only when every entry is written, so the returned entries are the same.
- Evolution.Generation: uses the table as written, with big.Float division; the corrected table (`IntendedTable`) is proved about but not used in the loop.
- When every score is 0, `BestSolution` returns nil (main.go:119) and `OutputSolution` calls `GetGene` on it (main.go:125, chromosome.go:26), so the run panics after the loop. The model stops at `BestSolution`'s null result, since `OutputSolution` is printing.
- Evolution.Evolve: its history records the bodies after each round, not which members share an array; the sharing of each round is stated by `Generation`.
- The commented-out linear search (main.go:104-109) and the TODO notes.

## Findings

| source | as written | input that shows it | evidently intended | confidence | as-written member | corrected member |
|---|---|---|---|---|---|---|
| main.go:43 | `sumOfProb += probSlice[index]` adds each table entry, itself already a running sum, so the entries grow faster than the cumulative probabilities | four chromosomes with score 1 and sum 4: the table is 1/4, 1/2, 1, 2, so the fourth chromosome is never selected | add the probability, so that the table holds cumulative shares ending at 1 | not executed | Evolution.FourthOfFourNeverChosen | Evolution.IntendedTableIsCumulative |
| main.go:36-42 | an offspring with an exact hit makes the running sum +Inf; the next round divides with `big.Float.Quo`, which panics on Inf / Inf before the NaN check can report the solution | a population whose chromosome k scores +Inf, with sum +Inf | with double division Inf / Inf is NaN and the check at main.go:39-42 reports chromosome k | not executed | Evolution.ExactHitPanicsNextRound | Evolution.IntendedTableReportsExactHit |
