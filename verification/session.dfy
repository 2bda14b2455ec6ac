/**
 The module-level checking flag over the life of a program. A program is a
 sequence of operations: switching checking on or off, building a wrapper
 (which reads the flag at that moment), invoking a wrapper built earlier
 (which reads the flag again when the call starts) and the caller setting the
 ambient state between calls. Each invocation's outcome
 is logged; a violation is recorded and the program goes on, as a caller that
 catches the failure would.
 */
module Session {
  import opened CodeContract

  datatype Op<!S, !A, !R> =
    | Enable
    | Disable
    | Build(fn: Target<S, A, R>, contract: Contract<S, A, R>)
    | Invoke(wrapper: nat, args: A)
    | SetState(state: S)

  /** One logged call: which wrapper was invoked and what it yielded. */
  datatype Entry<A, R> = Entry(wrapper: nat, outcome: Outcome<A, R>)

  datatype World<!S, !A, !R> = World(
    checkContract: bool,
    state: S,
    wrappers: seq<Wrapped<S, A, R>>,
    log: seq<Entry<A, R>>
  )

  /** Checking starts switched on. */
  function Initial<S, A, R>(s: S): (w: World<S, A, R>)
    ensures w.checkContract && w.state == s && |w.wrappers| == 0 && |w.log| == 0
  {
    World(true, s, [], [])
  }

  /** The flag after one operation, from the flag before it. */
  function Toggled<S, A, R>(op: Op<S, A, R>, flag: bool): (b: bool)
  {
    match op
    case Enable => true
    case Disable => false
    case _ => flag
  }

  /** The flag as the last `Enable` or `Disable` in `ops` left it, or
      `initial` when there is none. */
  function LastToggle<S, A, R>(ops: seq<Op<S, A, R>>, initial: bool): (b: bool)
    decreases |ops|
  {
    if |ops| == 0 then initial
    else match ops[|ops| - 1]
      case Enable => true
      case Disable => false
      case _ => LastToggle(ops[..|ops| - 1], initial)
  }

  /** Every `Invoke` names a wrapper built before it; `built` wrappers exist
      when the program starts. */
  predicate WellFormed<S, A, R>(built: nat, ops: seq<Op<S, A, R>>)
    decreases |ops|
  {
    |ops| == 0 ||
    match ops[0]
    case Invoke(i, _) => i < built && WellFormed(built, ops[1..])
    case Build(_, _) => WellFormed(built + 1, ops[1..])
    case _ => WellFormed(built, ops[1..])
  }

  function Step<S, A, R>(w: World<S, A, R>, op: Op<S, A, R>): (w': World<S, A, R>)
    requires op.Invoke? ==> op.wrapper < |w.wrappers|
    ensures w'.checkContract == Toggled(op, w.checkContract)
    ensures |w'.wrappers| == |w.wrappers| + (if op.Build? then 1 else 0)
    ensures w'.wrappers[..|w.wrappers|] == w.wrappers
    ensures |w'.log| == |w.log| + (if op.Invoke? then 1 else 0)
    ensures w'.log[..|w.log|] == w.log
    // Building reads the flag at wrap time.
    ensures op.Build? ==> w'.wrappers[|w.wrappers|] == Wrap(op.fn, op.contract, w.checkContract)
    // Invoking reads the flag at call time, logs the outcome and keeps the
    // state the call left, whatever the outcome.
    ensures op.Invoke? ==>
              var r := Call(w.wrappers[op.wrapper], w.checkContract, w.state, op.args);
              w'.log[|w.log|] == Entry(op.wrapper, r.outcome) && w'.state == r.state
    ensures op.SetState? ==> w'.state == op.state
    ensures !op.Invoke? && !op.SetState? ==> w'.state == w.state
  {
    match op
    case Enable => w.(checkContract := true)
    case Disable => w.(checkContract := false)
    case Build(fn, contract) => w.(wrappers := w.wrappers + [Wrap(fn, contract, w.checkContract)])
    case Invoke(i, args) =>
      var r := Call(w.wrappers[i], w.checkContract, w.state, args);
      w.(state := r.state, log := w.log + [Entry(i, r.outcome)])
    case SetState(s) => w.(state := s)
  }

  /** Running a program from a world, one operation after another. */
  function Run<S, A, R>(w: World<S, A, R>, ops: seq<Op<S, A, R>>): (w': World<S, A, R>)
    requires WellFormed(|w.wrappers|, ops)
    decreases |ops|
  {
    if |ops| == 0 then w else Run(Step(w, ops[0]), ops[1..])
  }

  lemma {:induction false} LastToggleCons<S, A, R>(op: Op<S, A, R>, rest: seq<Op<S, A, R>>, initial: bool)
    ensures LastToggle([op] + rest, initial) == LastToggle(rest, Toggled(op, initial))
    decreases |rest|
  {
    if |rest| > 0 {
      var last := rest[|rest| - 1];
      assert ([op] + rest)[..|rest|] == [op] + rest[..|rest| - 1];
      if !last.Enable? && !last.Disable? {
        LastToggleCons(op, rest[..|rest| - 1], initial);
      }
    }
  }

  /** Toggle semantics: after any program the flag is what its last
      `Enable` or `Disable` set, and `true` when it has none. */
  lemma {:induction false} FlagIsLastToggle<S, A, R>(w: World<S, A, R>, ops: seq<Op<S, A, R>>)
    requires WellFormed(|w.wrappers|, ops)
    ensures Run(w, ops).checkContract == LastToggle(ops, w.checkContract)
    decreases |ops|
  {
    if |ops| > 0 {
      FlagIsLastToggle(Step(w, ops[0]), ops[1..]);
      assert ops == [ops[0]] + ops[1..];
      LastToggleCons(ops[0], ops[1..], w.checkContract);
    }
  }

  /** Wrappers, once built, are never replaced and never lose their
      contract; log entries are never rewritten. */
  lemma {:induction false} RunOnlyAppends<S, A, R>(w: World<S, A, R>, ops: seq<Op<S, A, R>>)
    requires WellFormed(|w.wrappers|, ops)
    ensures |Run(w, ops).wrappers| >= |w.wrappers|
    ensures Run(w, ops).wrappers[..|w.wrappers|] == w.wrappers
    ensures |Run(w, ops).log| >= |w.log|
    ensures Run(w, ops).log[..|w.log|] == w.log
    decreases |ops|
  {
    if |ops| > 0 {
      var w1 := Step(w, ops[0]);
      RunOnlyAppends(w1, ops[1..]);
      assert w1.wrappers[..|w.wrappers|] == w.wrappers;
      assert Run(w, ops).wrappers[..|w.wrappers|] == Run(w, ops).wrappers[..|w1.wrappers|][..|w.wrappers|];
      assert Run(w, ops).log[..|w.log|] == Run(w, ops).log[..|w1.log|][..|w.log|];
    }
  }

  /** Wrap-time bypass over a whole program: a wrapper built while checking
      was off reports no violation from then on, however often checking is
      switched back on afterwards. */
  lemma {:induction false} UnwrappedNeverViolates<S, A, R>(w: World<S, A, R>, ops: seq<Op<S, A, R>>, i: nat)
    requires WellFormed(|w.wrappers|, ops)
    requires i < |w.wrappers| && w.wrappers[i].Unwrapped?
    ensures forall k | |w.log| <= k < |Run(w, ops).log| && Run(w, ops).log[k].wrapper == i ::
              Run(w, ops).log[k].outcome.Ok?
    decreases |ops|
  {
    if |ops| > 0 {
      var w1 := Step(w, ops[0]);
      assert w1.wrappers[i] == w1.wrappers[..|w.wrappers|][i];
      UnwrappedNeverViolates(w1, ops[1..], i);
      RunOnlyAppends(w1, ops[1..]);
      var final := Run(w, ops);
      forall k | |w.log| <= k < |final.log| && final.log[k].wrapper == i
        ensures final.log[k].outcome.Ok?
      {
        if k < |w1.log| {
          assert final.log[k] == final.log[..|w1.log|][k];
        }
      }
    }
  }

  /** With checking off and never switched on again, no call made from
      then on reports a violation, whichever wrappers are invoked and
      whatever was logged before. */
  lemma {:induction false} DisabledNeverViolates<S, A, R>(w: World<S, A, R>, ops: seq<Op<S, A, R>>)
    requires WellFormed(|w.wrappers|, ops)
    requires !w.checkContract
    requires forall k | 0 <= k < |ops| :: !ops[k].Enable?
    ensures forall k | |w.log| <= k < |Run(w, ops).log| :: Run(w, ops).log[k].outcome.Ok?
    decreases |ops|
  {
    if |ops| > 0 {
      var w1 := Step(w, ops[0]);
      assert forall k | 0 <= k < |ops[1..]| :: !ops[1..][k].Enable? by {
        forall k | 0 <= k < |ops[1..]| ensures !ops[1..][k].Enable? {
          assert ops[1..][k] == ops[k + 1];
        }
      }
      DisabledNeverViolates(w1, ops[1..]);
      RunOnlyAppends(w1, ops[1..]);
      var final := Run(w, ops);
      forall k | |w.log| <= k < |final.log|
        ensures final.log[k].outcome.Ok?
      {
        if k < |w1.log| {
          assert final.log[k] == final.log[..|w1.log|][k];
        }
      }
    }
  }

  /** Every invocation reads the flag as the program's last toggle left it,
      so a wrapper built while checking was on follows every later
      `Enable` and `Disable`. */
  lemma InvokeReadsLatestToggle<S, A, R>(w: World<S, A, R>, ops: seq<Op<S, A, R>>, i: nat, args: A)
    requires WellFormed(|w.wrappers|, ops)
    requires i < |w.wrappers|
    ensures i < |Run(w, ops).wrappers|
    ensures var w' := Run(w, ops);
            Step(w', Invoke(i, args)).log
            == w'.log + [Entry(i, Call(w.wrappers[i], LastToggle(ops, w.checkContract), w'.state, args).outcome)]
  {
    FlagIsLastToggle(w, ops);
    RunOnlyAppends(w, ops);
    var w' := Run(w, ops);
    assert w'.wrappers[i] == w'.wrappers[..|w.wrappers|][i];
  }

  /** Re-enabling restores the checks of a wrapper built while checking was
      on: after a program whose last toggle is `Enable`, invoking it checks
      its contract exactly as a fresh call with checking on would. */
  lemma ReenableRestoresChecks<S, A, R>(
    w: World<S, A, R>, ops: seq<Op<S, A, R>>, i: nat, args: A, fn: Target<S, A, R>, contract: Contract<S, A, R>)
    requires WellFormed(|w.wrappers|, ops + [Enable])
    requires i < |w.wrappers| && w.wrappers[i] == Guarded(fn, contract)
    ensures i < |Run(w, ops + [Enable]).wrappers|
    ensures var w' := Run(w, ops + [Enable]);
            Step(w', Invoke(i, args)).log
            == w'.log + [Entry(i, GuardedCall(fn, contract, true, w'.state, args).outcome)]
  {
    InvokeReadsLatestToggle(w, ops + [Enable], i, args);
    assert (ops + [Enable])[..|ops|] == ops;
  }
}
