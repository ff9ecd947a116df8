/**
 * The status and enumeration tables shared with the engine. Each Go type is an
 * `int` under a new name, so each is a newtype of `int` here: a status read back
 * from the engine may hold any integer, not only one of the declared constants.
 */
module Constants {

  newtype ModelStatus = int

  const ModelNotset: ModelStatus := 0
  const ModelLoadError: ModelStatus := 1
  const ModelError: ModelStatus := 2
  const ModelPresolveError: ModelStatus := 3
  const ModelSolveError: ModelStatus := 4
  const ModelPostsolveError: ModelStatus := 5
  const ModelEmpty: ModelStatus := 6
  const ModelOptimal: ModelStatus := 7
  const ModelInfeasible: ModelStatus := 8
  const ModelUnboundedOrInfeasible: ModelStatus := 9
  const ModelUnbounded: ModelStatus := 10
  const ModelObjectiveBound: ModelStatus := 11
  const ModelObjectiveTarget: ModelStatus := 12
  const ModelTimeLimit: ModelStatus := 13
  const ModelIterationLimit: ModelStatus := 14
  const ModelUnknown: ModelStatus := 15

  /** The declared statuses, in declaration order. */
  const AllStatuses: seq<ModelStatus> := [
    ModelNotset, ModelLoadError, ModelError, ModelPresolveError, ModelSolveError,
    ModelPostsolveError, ModelEmpty, ModelOptimal, ModelInfeasible, ModelUnboundedOrInfeasible,
    ModelUnbounded, ModelObjectiveBound, ModelObjectiveTarget, ModelTimeLimit,
    ModelIterationLimit, ModelUnknown]

  /** The label array indexed by `String`, with the source's spelling kept as is. */
  const StatusLabels: seq<string> := [
    "Model Not Set",
    "Model Load Error",
    "Model Error",
    "Model Presolve Error",
    "Model Solve Error",
    "Model Postsolve Error",
    "Model Empty",
    "Model Optimal",
    "Model Infeasible",
    "Model Unbounded or Infeasible",
    "Model Unbounded",
    "Model Objetive Bound",
    "Model Objective Target",
    "Model TimeL imit",
    "Model Iteration Limit",
    "Model Unknown"]

  /** True for the ordinals the label array covers; `String` panics on any other. */
  predicate HasLabel(d: ModelStatus)
  {
    0 <= d < |StatusLabels| as ModelStatus
  }

  /** `ModelStatus.String`: an index into a 16-entry array literal. */
  function String(d: ModelStatus): (s: string)
    requires HasLabel(d)
    ensures |s| > 6 && s[..6] == "Model "
    ensures d == ModelOptimal <==> s == "Model Optimal"
  {
    StatusLabels[d as int]
  }

  /** The declared constants are the ordinals 0..15, in order, and each has its own label. */
  lemma StatusOrdinals()
    ensures |AllStatuses| == |StatusLabels| == 16
    ensures forall i :: 0 <= i < 16 ==> AllStatuses[i] as int == i && HasLabel(AllStatuses[i])
    ensures forall i, j :: 0 <= i < j < 16 ==> StatusLabels[i] != StatusLabels[j]
  {
  }

  /** Every character is a decimal digit. */
  predicate IsDigits(s: string)
  {
    forall i :: 0 <= i < |s| ==> '0' <= s[i] <= '9'
  }

  /** The number a string of decimal digits denotes, most significant digit first. */
  function DigitsValue(s: string): int
    requires IsDigits(s)
  {
    if s == [] then 0 else DigitsValue(s[..|s| - 1]) * 10 + (s[|s| - 1] as int - '0' as int)
  }

  /**
   * Decimal text of an integer, as `fmt` prints it: digits without a leading
   * zero denoting n, preceded by '-' when n is negative.
   */
  function IntToString(n: int): (s: string)
    ensures |s| > 0
    ensures 0 <= n < 10 ==> |s| == 1
    ensures n >= 0 ==> IsDigits(s) && DigitsValue(s) == n && (s[0] == '0' ==> n == 0)
    ensures n < 0 ==> s[0] == '-' && IsDigits(s[1..]) && DigitsValue(s[1..]) == -n && s[1] != '0'
    decreases if n < 0 then 1 - n else n
  {
    if n < 0 then
      var t := IntToString(-n);
      assert ("-" + t)[1..] == t;
      "-" + t
    else if n < 10 then [('0' as int + n) as char]
    else
      var a, b := IntToString(n / 10), IntToString(n % 10);
      assert (a + b)[..|a + b| - 1] == a;
      a + b
  }

  /**
   * What `fmt`'s `%s` prints for a status. For an ordinal outside the array the
   * `String` method panics; `fmt` recovers the panic and prints it in place.
   */
  function Describe(d: ModelStatus): (s: string)
    ensures HasLabel(d) ==> s == String(d)
    ensures !HasLabel(d) ==> PanicPrefix <= s
    ensures !HasLabel(d) ==> s == PanicPrefix + IntToString(d as int) + (if d < 0 then "])" else "] with length 16)")
  {
    if HasLabel(d) then String(d)
    else
      var tail := if d < 0 then "])" else "] with length 16)";
      var s := PanicPrefix + IntToString(d as int) + tail;
      assert s[..|PanicPrefix|] == PanicPrefix;
      s
  }

  /** How `fmt` opens the text of a recovered panic in a `String` method. */
  const PanicPrefix: string := "%!s(PANIC=String method: runtime error: index out of range ["

  /** The first ordinal past the label array prints as the whole recovered panic, index and length included. */
  lemma DescribeSixteen()
    ensures Describe(16) == PanicPrefix + "16] with length 16)"
  {
    SixteenDigits();
    assert "16" + "] with length 16)" == "16] with length 16)";
  }

  /** The index 16 prints as the two digits '1' and '6'. */
  lemma SixteenDigits()
    ensures IntToString(16) == "16"
  {
    var a, b := IntToString(1), IntToString(6);
    assert a == "1" && b == "6";
  }

  newtype SolutionStatus = int

  const SolutionNone: SolutionStatus := 0
  const SolutionInfeasible: SolutionStatus := 1
  const SolutionFeasible: SolutionStatus := 2

  newtype Sense = int

  const Maximize: Sense := -1
  const Minimize: Sense := 1

  newtype Integrality = int

  const Continious: Integrality := 0
  const Integer: Integrality := 1
  const ImplicitInteger: Integrality := 2
}
