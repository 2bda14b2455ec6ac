/**
 A model of a design-by-contract wrapper. `Wrap` binds a target function to a
 contract of three optional clauses (precondition, postcondition, invariant);
 calling the result checks, in this order, the precondition against the
 arguments, runs the target, checks the postcondition against its result and
 the invariant against the ambient state the target left behind.

 Ambient state is made explicit: a target is a function from the state and
 the arguments to the new state and the result, and an invariant is a
 predicate over the state. The process-wide checking flag is passed in as a
 plain boolean; the module `Session` threads it through a whole program.
 */
module CodeContract {

  datatype Option<T> = None | Some(value: T)

  /** The function being guarded, with the name used in diagnostics. */
  datatype Target<!S, !A, !R> = Target(name: string, run: (S, A) -> (S, R))

  /** The three optional clauses; a clause that is absent is never checked.
      Each clause may read the ambient state: the precondition sees the state
      before the call, the postcondition and the invariant the state after it. */
  datatype Contract<!S, !A, !R> = Contract(
    pre: Option<(S, A) -> bool>,
    post: Option<(S, R) -> bool>,
    inv: Option<S -> bool>
  )

  /** The contract used when the caller supplies none. */
  function EmptyContract<S, A, R>(): (c: Contract<S, A, R>)
  {
    Contract(None, None, None)
  }

  /** What a call yields: the target's result or the clause that failed.
      A postcondition violation carries the arguments, not the result. */
  datatype Outcome<A, R> =
    | Ok(value: R)
    | PreViolation(name: string, args: A)
    | PostViolation(name: string, args: A)
    | InvariantViolation(name: string)

  /** The observable steps of one call, in the order they happen. */
  datatype Effect = EvalPre | RunTarget | EvalPost | EvalInvariant

  /** The state after a call, its outcome, and the steps it performed. */
  datatype CallResult<S, A, R> = CallResult(state: S, outcome: Outcome<A, R>, effects: seq<Effect>)

  /** The value `Wrap` returns: the bare target when checking was off at wrap
      time, otherwise a closure over the target and its contract. */
  datatype Wrapped<!S, !A, !R> =
    | Unwrapped(fn: Target<S, A, R>)
    | Guarded(fn: Target<S, A, R>, contract: Contract<S, A, R>)

  /** A clause holds when it is absent or when it accepts its input. */
  predicate PreHolds<S, A, R>(contract: Contract<S, A, R>, s: S, args: A)
  {
    contract.pre.None? || contract.pre.value(s, args)
  }

  predicate PostHolds<S, A, R>(contract: Contract<S, A, R>, s: S, result: R)
  {
    contract.post.None? || contract.post.value(s, result)
  }

  predicate InvHolds<S, A, R>(contract: Contract<S, A, R>, s: S)
  {
    contract.inv.None? || contract.inv.value(s)
  }

  /** The position of each step in the fixed check order. */
  function Rank(e: Effect): (n: nat)
  {
    match e
    case EvalPre => 0
    case RunTarget => 1
    case EvalPost => 2
    case EvalInvariant => 3
  }

  /** Steps appear in check order, each at most once. */
  predicate InCheckOrder(effects: seq<Effect>)
  {
    forall i, j | 0 <= i < j < |effects| :: Rank(effects[i]) < Rank(effects[j])
  }

  /** The steps of a call, given which of them took place. */
  function Trace(pre: bool, run: bool, post: bool, inv: bool): (e: seq<Effect>)
    ensures EvalPre in e <==> pre
    ensures RunTarget in e <==> run
    ensures EvalPost in e <==> post
    ensures EvalInvariant in e <==> inv
    ensures InCheckOrder(e)
  {
    (if pre then [EvalPre] else [])
    + (if run then [RunTarget] else [])
    + (if post then [EvalPost] else [])
    + (if inv then [EvalInvariant] else [])
  }

  /** One call of a guarded wrapper. `check` is the checking flag, read once
      when the call starts and used for all three clauses. */
  function GuardedCall<S, A, R>(fn: Target<S, A, R>, contract: Contract<S, A, R>, check: bool, s: S, args: A)
    : (r: CallResult<S, A, R>)
    // Call-time bypass: with checking off, no clause is evaluated and the
    // target's state and result come back unchanged.
    ensures !check ==>
              r.effects == [RunTarget] && r.outcome == Ok(fn.run(s, args).1) && r.state == fn.run(s, args).0
    // Precondition gate: it fails exactly when checking is on and the
    // precondition rejects the arguments; the target then never runs.
    ensures r.outcome.PreViolation? <==> check && !PreHolds(contract, s, args)
    ensures r.outcome.PreViolation? ==>
              r.outcome == PreViolation(fn.name, args) && r.state == s && r.effects == [EvalPre]
    // Every other outcome comes after exactly one run of the target, and the
    // state is the one the target produced: a failing check rolls nothing back.
    ensures !r.outcome.PreViolation? ==>
              RunTarget in r.effects && r.state == fn.run(s, args).0
    // Postcondition gate: checked against the target's result, only once the
    // precondition passed; the payload is the argument list.
    ensures r.outcome.PostViolation? <==>
              check && PreHolds(contract, s, args) && !PostHolds(contract, fn.run(s, args).0, fn.run(s, args).1)
    ensures r.outcome.PostViolation? ==>
              r.outcome == PostViolation(fn.name, args) && EvalInvariant !in r.effects
    // Invariant gate: checked against the state after the call, only once the
    // pre- and postcondition passed; the payload is the name alone.
    ensures r.outcome.InvariantViolation? <==>
              check && PreHolds(contract, s, args) && PostHolds(contract, fn.run(s, args).0, fn.run(s, args).1)
              && !InvHolds(contract, fn.run(s, args).0)
    ensures r.outcome.InvariantViolation? ==> r.outcome == InvariantViolation(fn.name)
    // Pass-through: when every present clause holds the target's result is returned.
    ensures r.outcome.Ok? <==>
              !check || (PreHolds(contract, s, args) && PostHolds(contract, fn.run(s, args).0, fn.run(s, args).1)
                         && InvHolds(contract, fn.run(s, args).0))
    ensures r.outcome.Ok? ==> r.outcome.value == fn.run(s, args).1
    // Which predicates run: each only when checking is on, the clause is
    // present and every earlier check passed; and always in check order.
    ensures EvalPre in r.effects <==> check && contract.pre.Some?
    ensures EvalPost in r.effects <==>
              check && contract.post.Some? && PreHolds(contract, s, args)
    ensures EvalInvariant in r.effects <==>
              check && contract.inv.Some? && PreHolds(contract, s, args)
              && PostHolds(contract, fn.run(s, args).0, fn.run(s, args).1)
    ensures InCheckOrder(r.effects)
  {
    var evalPre := check && contract.pre.Some?;
    if evalPre && !contract.pre.value(s, args) then
      CallResult(s, PreViolation(fn.name, args), Trace(true, false, false, false))
    else
      var (s', result) := fn.run(s, args);
      var evalPost := check && contract.post.Some?;
      if evalPost && !contract.post.value(s', result) then
        CallResult(s', PostViolation(fn.name, args), Trace(evalPre, true, true, false))
      else
        var evalInv := check && contract.inv.Some?;
        if evalInv && !contract.inv.value(s') then
          CallResult(s', InvariantViolation(fn.name), Trace(evalPre, true, evalPost, true))
        else
          CallResult(s', Ok(result), Trace(evalPre, true, evalPost, evalInv))
  }

  /** Calling what `Wrap` returned, with `check` the flag's value at call time. */
  function Call<S, A, R>(w: Wrapped<S, A, R>, check: bool, s: S, args: A): (r: CallResult<S, A, R>)
    // A bare target ignores the flag entirely.
    ensures w.Unwrapped? ==>
              r.outcome == Ok(w.fn.run(s, args).1) && r.state == w.fn.run(s, args).0 && r.effects == [RunTarget]
    // Whatever the wrapper, a call that is not rejected up front runs the target once.
    ensures !r.outcome.PreViolation? ==> r.state == w.fn.run(s, args).0 && RunTarget in r.effects
    ensures r.outcome.Ok? ==> r.outcome.value == w.fn.run(s, args).1
    // With checking off at call time no violation can occur.
    ensures !check ==> r.outcome == Ok(w.fn.run(s, args).1)
    // A guarded wrapper runs the full check sequence under this call's flag.
    ensures w.Guarded? ==> r == GuardedCall(w.fn, w.contract, check, s, args)
  {
    match w
    case Unwrapped(fn) =>
      var (s', result) := fn.run(s, args);
      CallResult(s', Ok(result), [RunTarget])
    case Guarded(fn, contract) => GuardedCall(fn, contract, check, s, args)
  }

  /** Binding a target to a contract. `checkContract` is the flag's value at
      wrap time: when it is off the target itself is returned, and no later
      change of the flag makes that value check anything. */
  function Wrap<S, A, R>(fn: Target<S, A, R>, contract: Contract<S, A, R>, checkContract: bool): (w: Wrapped<S, A, R>)
    ensures w.fn == fn
    // Wrap-time bypass: with checking off the value handed back is the bare
    // target, whose calls `Call` shows to ignore the flag from then on.
    ensures w.Unwrapped? <==> !checkContract
    ensures w.Guarded? ==> w.contract == contract
  {
    if !checkContract then Unwrapped(fn) else Guarded(fn, contract)
  }

  /** A contract with no clauses makes a wrapper behave like its target. */
  lemma EmptyContractPassesThrough<S, A, R>(fn: Target<S, A, R>, check: bool, s: S, args: A)
    ensures GuardedCall(fn, EmptyContract(), check, s, args).outcome == Ok(fn.run(s, args).1)
    ensures GuardedCall(fn, EmptyContract(), check, s, args).state == fn.run(s, args).0
  {
  }
}
