/**
 The repository's unit-test scenarios as programs of the `Session` model.
 The ambient state is the single boolean the side-effecting target sets; it
 starts true and each test clears it before building its wrapper;
 arguments are a pair of integers and the result is their sum.
 */
module Scenarios {
  import opened CodeContract
  import opened Session

  type Args = (int, int)

  /** Adds its arguments and leaves the ambient flag alone. */
  function Sum(): (t: Target<bool, Args, int>)
  {
    Target("func", (flag: bool, a: Args) => (flag, a.0 + a.1))
  }

  /** Adds its arguments and sets the ambient flag. */
  function SumWithSideEffect(): (t: Target<bool, Args, int>)
  {
    Target("funcWithSideEffect", (flag: bool, a: Args) => (true, a.0 + a.1))
  }

  function BothPositive(): (p: (bool, Args) -> bool)
  {
    (flag: bool, a: Args) => 0 < a.0 && 0 < a.1
  }

  function IsThirty(): (p: (bool, int) -> bool)
  {
    (flag: bool, r: int) => r == 30
  }

  function FlagStillClear(): (p: bool -> bool)
  {
    (flag: bool) => flag == false
  }

  /** A kept contract returns the target's result. */
  lemma ContractKept()
    ensures Run(Initial(true),
                [Enable, SetState(false), Build(Sum(), Contract(Some(BothPositive()), Some(IsThirty()), None)), Invoke(0, (10, 20))]).log
            == [Entry(0, Ok(30))]
  {
  }

  /** A rejected argument list fails before the target runs. */
  lemma PreconditionRejects()
    ensures Run(Initial(true),
                [Enable, SetState(false), Build(Sum(), Contract(Some(BothPositive()), None, None)), Invoke(0, (20, -10))]).log
            == [Entry(0, PreViolation("func", (20, -10)))]
  {
  }

  /** A rejected result fails after the target ran. */
  lemma PostconditionRejects()
    ensures Run(Initial(true),
                [Enable, SetState(false), Build(Sum(), Contract(None, Some(IsThirty()), None)), Invoke(0, (20, 20))]).log
            == [Entry(0, PostViolation("func", (20, 20)))]
  {
  }

  /** An invariant is checked against the state the target left behind. */
  lemma InvariantRejects()
    ensures var w := Run(Initial(true),
                         [Enable, SetState(false), Build(SumWithSideEffect(), Contract(None, None, Some(FlagStillClear()))), Invoke(0, (20, 20))]);
            w.log == [Entry(0, InvariantViolation("funcWithSideEffect"))] && w.state == true
  {
  }

  /** With checking off, arguments and result that break both clauses pass. */
  lemma DisabledSkipsChecks()
    ensures Run(Initial(true),
                [Disable, SetState(false), Build(Sum(), Contract(Some(BothPositive()), Some(IsThirty()), None)), Invoke(0, (-10, -20)), Enable]).log
            == [Entry(0, Ok(-30))]
  {
  }

  /** A wrapper built with checking off stays unchecked after re-enabling. */
  lemma ReenablingDoesNotGuardEarlierWrapper()
    ensures Run(Initial(true),
                [Disable, SetState(false), Build(Sum(), Contract(Some(BothPositive()), Some(IsThirty()), None)), Enable, Invoke(0, (-10, -20))]).log
            == [Entry(0, Ok(-30))]
  {
  }
}
