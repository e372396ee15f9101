/**
 * The checkpointing demo's `StepExecutor`: each step appends its own tag to
 * the text it receives, remembers the result, and saves or reloads that
 * state under a key of its own in the workflow's state store.
 */
module StepExecutor {
  import opened Wrappers
  import opened Text

  /** The workflow's key/value state store; a stored value may itself be null. */
  type Store = map<string, Option<string>>

  /** One step: its number and its nullable state, initially empty text. */
  datatype Step = Step(step: int, state: Option<string>)

  function NewStep(step: int): (s: Step)
    ensures s.step == step && s.state == Some("")
  {
    Step(step, Some(""))
  }

  /** The tag a step appends. */
  function Tag(step: int): string {
    " -> Step" + IntToString(step)
  }

  /** The store key a step saves its state under. */
  function StateKey(step: int): string {
    "StepExecutorState-" + IntToString(step)
  }

  /**
   * `HandleAsync`: the new state is the input with the step's tag; it is
   * both yielded as output and returned to the next step. The previous
   * state plays no part.
   */
  function Handle(s: Step, input: string): (r: (Step, string))
    ensures r.0.step == s.step && r.0.state == Some(r.1)
    ensures |r.1| > |input| && r.1[..|input|] == input && r.1[|input|..] == Tag(s.step)
  {
    var out := input + Tag(s.step);
    assert out[..|input|] == input && out[|input|..] == Tag(s.step);
    (s.(state := Some(out)), out)
  }

  /** `OnCheckpointingAsync`: queue the state under the step's key. */
  function Checkpoint(s: Step, store: Store): (r: Store)
    ensures StateKey(s.step) in r && r[StateKey(s.step)] == s.state
    ensures forall k :: k != StateKey(s.step) ==> (k in r <==> k in store) && (k in store ==> r[k] == store[k])
  {
    store[StateKey(s.step) := s.state]
  }

  /** `OnCheckpointRestoredAsync`: read the state back; a missing key reads as null. */
  function Restore(s: Step, store: Store): (r: Step)
    ensures r.step == s.step
    ensures StateKey(s.step) in store ==> r.state == store[StateKey(s.step)]
    ensures StateKey(s.step) !in store ==> r.state.None?
  {
    var key := StateKey(s.step);
    s.(state := if key in store then store[key] else None)
  }

  /** Restoring right after checkpointing gives back the same step, whatever its state meanwhile. */
  lemma CheckpointRestore(s: Step, other: Option<string>, store: Store)
    ensures Restore(s.(state := other), Checkpoint(s, store)) == s
  {
  }

  /** Steps with different numbers use different keys. */
  lemma StateKeyInjective(a: int, b: int)
    ensures StateKey(a) == StateKey(b) ==> a == b
  {
    if StateKey(a) == StateKey(b) {
      var p := "StepExecutorState-";
      assert StateKey(a)[|p|..] == IntToString(a);
      assert StateKey(b)[|p|..] == IntToString(b);
      IntToStringInjective(a, b);
    }
  }

  /** One step's checkpoint does not disturb what another step restores. */
  lemma CheckpointsAreIndependent(s: Step, t: Step, store: Store)
    requires s.step != t.step
    ensures Restore(t, Checkpoint(s, store)) == Restore(t, store)
  {
    StateKeyInjective(s.step, t.step);
  }

  /** A chain of steps: each step handles the previous step's output. */
  function Chain(steps: seq<Step>, input: string): (r: (seq<Step>, string))
    ensures |r.0| == |steps|
    ensures forall i :: 0 <= i < |steps| ==> r.0[i].step == steps[i].step
    decreases |steps|
  {
    if steps == [] then ([], input)
    else
      var (s1, out) := Handle(steps[0], input);
      var (rest, final) := Chain(steps[1..], out);
      ([s1] + rest, final)
  }

  /** The chain's output is the input followed by every step's tag in chain order. */
  lemma {:induction false} ChainTags(steps: seq<Step>, input: string)
    ensures Chain(steps, input).1 == input + Tags(steps)
    decreases |steps|
  {
    if steps != [] {
      var tag := Tag(steps[0].step);
      var out := Handle(steps[0], input).1;
      assert out == input + tag;
      ChainTags(steps[1..], out);
      assert Chain(steps, input).1 == Chain(steps[1..], out).1;
      assert Tags(steps) == tag + Tags(steps[1..]);
      assert (input + tag) + Tags(steps[1..]) == input + (tag + Tags(steps[1..]));
    }
  }

  function Tags(steps: seq<Step>): string {
    if steps == [] then "" else Tag(steps[0].step) + Tags(steps[1..])
  }

  /** The tags of steps 1 to 3. */
  lemma SmallTags()
    ensures Tag(1) == " -> Step1" && Tag(2) == " -> Step2" && Tag(3) == " -> Step3"
  {
    assert IntToString(1) == "1" && IntToString(2) == "2" && IntToString(3) == "3";
  }

  /** The tags of the demo's three steps. */
  lemma ThreeTags()
    ensures Tags([NewStep(1), NewStep(2), NewStep(3)]) == " -> Step1 -> Step2 -> Step3"
  {
    var steps := [NewStep(1), NewStep(2), NewStep(3)];
    SmallTags();
    assert steps[1..] == [NewStep(2), NewStep(3)] && steps[1..][1..] == [NewStep(3)];
    assert Tags(steps[1..][1..]) == " -> Step3" + Tags([]);
    assert Tags(steps[1..]) == " -> Step2" + " -> Step3";
    assert Tags(steps) == " -> Step1" + (" -> Step2" + " -> Step3");
  }

  /**
   * The demo's three-step workflow: steps 1, 2 and 3 in a row append their
   * three tags to the start text, whatever it is.
   */
  lemma ThreeSteps(input: string)
    ensures Chain([NewStep(1), NewStep(2), NewStep(3)], input).1 == input + " -> Step1 -> Step2 -> Step3"
  {
    ChainTags([NewStep(1), NewStep(2), NewStep(3)], input);
    ThreeTags();
  }
}
