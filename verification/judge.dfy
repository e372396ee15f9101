/**
 * The number-guessing judge (`JudgeExecutor`): it keeps a fixed target and
 * a guess counter, and answers each guess with the final message when it
 * hits the target, or with a signal saying whether it was below or above.
 */
module Judge {
  import opened Text

  /** `NumberSignal`. */
  datatype NumberSignal = Init | Above | Below

  /** The judge's private state. */
  datatype JudgeState = JudgeState(target: int, tries: nat)

  /** What one guess produces: the workflow's output, or a signal sent back to the guesser. */
  datatype Effect = Output(text: string) | Signal(signal: NumberSignal)

  /** A new judge for `target` has seen no guess yet. */
  function NewJudge(target: int): JudgeState {
    JudgeState(target, 0)
  }

  function FoundMessage(target: int, tries: nat): string {
    IntToString(target) + " found in " + NatToString(tries) + " tries!"
  }

  /** `HandleAsync`: count the guess, then answer it. */
  function Handle(j: JudgeState, guess: int): (r: (JudgeState, Effect))
    ensures r.0.target == j.target && r.0.tries == j.tries + 1
    ensures r.1.Output? <==> guess == j.target
    ensures r.1 == Signal(Below) <==> guess < j.target
    ensures r.1 == Signal(Above) <==> guess > j.target
    ensures r.1.Output? ==> r.1.text == FoundMessage(j.target, j.tries + 1)
  {
    var j' := j.(tries := j.tries + 1);
    if guess == j.target then (j', Output(FoundMessage(j.target, j'.tries)))
    else if guess < j.target then (j', Signal(Below))
    else (j', Signal(Above))
  }

  /** The judge run over a sequence of guesses: the final state and every effect, in order. */
  function Play(j: JudgeState, guesses: seq<int>): (r: (JudgeState, seq<Effect>))
    ensures |r.1| == |guesses|
    ensures r.0.target == j.target && r.0.tries == j.tries + |guesses|
    decreases |guesses|
  {
    if guesses == [] then (j, [])
    else
      var (j1, e) := Handle(j, guesses[0]);
      var (j2, es) := Play(j1, guesses[1..]);
      (j2, [e] + es)
  }

  /** Effect `k` of a run answers guess `k` as a judge that had seen `k` more guesses would. */
  lemma {:induction false} PlayAnswersEachGuess(j: JudgeState, guesses: seq<int>, k: nat)
    requires k < |guesses|
    ensures Play(j, guesses).1[k] == Handle(j.(tries := j.tries + k), guesses[k]).1
    decreases k
  {
    if k > 0 {
      var j1 := Handle(j, guesses[0]).0;
      PlayAnswersEachGuess(j1, guesses[1..], k - 1);
      assert j1.(tries := j1.tries + (k - 1)) == j.(tries := j.tries + k);
    }
  }

  /** A hit on guess `k` reports the number of guesses made so far, and the text gives that number back. */
  lemma FoundReportsTries(target: int, guesses: seq<int>, k: nat)
    requires k < |guesses| && guesses[k] == target
    ensures Play(NewJudge(target), guesses).1[k] == Output(FoundMessage(target, k + 1))
    ensures forall n: nat :: FoundMessage(target, n) == FoundMessage(target, k + 1) ==> n == k + 1
  {
    PlayAnswersEachGuess(NewJudge(target), guesses, k);
    forall n: nat | FoundMessage(target, n) == FoundMessage(target, k + 1)
      ensures n == k + 1
    {
      FoundMessageInjective(target, n, k + 1);
    }
  }

  /** Different guess counts give different messages. */
  lemma FoundMessageInjective(target: int, a: nat, b: nat)
    ensures FoundMessage(target, a) == FoundMessage(target, b) ==> a == b
  {
    if FoundMessage(target, a) == FoundMessage(target, b) {
      var p := IntToString(target) + " found in ";
      assert FoundMessage(target, a) == p + (NatToString(a) + " tries!");
      assert FoundMessage(target, b) == p + (NatToString(b) + " tries!");
      assert (p + (NatToString(a) + " tries!"))[|p|..] == NatToString(a) + " tries!";
      assert (p + (NatToString(b) + " tries!"))[|p|..] == NatToString(b) + " tries!";
      DigitsBeforeSuffix(NatToString(a), NatToString(b), " tries!");
      NatToStringValue(a);
      NatToStringValue(b);
    }
  }

  /** Two digit strings followed by the same non-digit suffix are equal. */
  lemma DigitsBeforeSuffix(x: string, y: string, suffix: string)
    requires forall i :: 0 <= i < |x| ==> IsAsciiDigit(x[i])
    requires forall i :: 0 <= i < |y| ==> IsAsciiDigit(y[i])
    requires suffix != [] && !IsAsciiDigit(suffix[0])
    requires x + suffix == y + suffix
    ensures x == y
  {
    var z := x + suffix;
    assert forall i :: 0 <= i < |x| ==> IsAsciiDigit(z[i]);
    assert !IsAsciiDigit(z[|x|]);
    assert z == y + suffix;
    assert forall i :: 0 <= i < |y| ==> IsAsciiDigit(z[i]);
    assert !IsAsciiDigit(z[|y|]);
    assert |x| == |y|;
    assert x == (x + suffix)[..|x|];
    assert y == (y + suffix)[..|y|];
  }

  /** The guessing game of the workflow: target 42, guesses 50, 25, 40, 42. */
  lemma Game42()
    ensures Play(NewJudge(42), [50, 25, 40, 42]).1 ==
      [Signal(Above), Signal(Below), Signal(Below), Output("42 found in 4 tries!")]
  {
    var gs := [50, 25, 40, 42];
    var es := Play(NewJudge(42), gs).1;
    PlayAnswersEachGuess(NewJudge(42), gs, 0);
    PlayAnswersEachGuess(NewJudge(42), gs, 1);
    PlayAnswersEachGuess(NewJudge(42), gs, 2);
    PlayAnswersEachGuess(NewJudge(42), gs, 3);
    FoundMessageOf42();
  }

  /** The text of the demo's winning guess. */
  lemma FoundMessageOf42()
    ensures FoundMessage(42, 4) == "42 found in 4 tries!"
  {
    assert NatToString(42) == "42" by {
      assert NatToString(4) == "4" && NatToString(2) == "2";
    }
    assert IntToString(42) == "42";
  }
}
