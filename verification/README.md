# code-contract: a Dafny model

`code-contract.ts` is a design-by-contract wrapper for Deno. `codeContract(fn, contract)`
takes a target function and up to three optional clauses. The clauses are a
precondition over the arguments, a postcondition over the result and an
invariant over ambient state. The function returns a guarded version of `fn`, or `fn` itself when checking is off. A module-level flag, switched by
`enableContract` and `disableContract`, decides whether checks happen.

This project models that behaviour as pure functions:

- `code_contract.dfy`, module `CodeContract`:
  - the contract, the target, the wrapped value (`Unwrapped` or `Guarded`) and the outcome of a call (`Ok`, `PreViolation`, `PostViolation`, `InvariantViolation`);
  - `Wrap` for `codeContract`'s wrap-time decision;
  - `GuardedCall` and `Call` for the call-time sequence.
- Ambient state is an explicit value `S`. A target is a function `(S, A) -> (S, R)`. The precondition reads the arguments and the state before the call; the postcondition reads the result and the state after it; the invariant reads the state the target leaves behind.
- Each call also returns the list of steps it performed (`EvalPre`, `RunTarget`, `EvalPost`, `EvalInvariant`). This lets the contracts say which predicates ran, in what order, and that the target ran at most once.
- `session.dfy`, module `Session`: the module-level flag over a whole program.
  - A program is a sequence of `Enable`, `Disable`, `Build` (calls `codeContract`), `Invoke` (calls a wrapper built earlier) and `SetState` (the caller writes the ambient state between calls) steps.
  - Each invocation's outcome is logged. A violation is recorded and the program continues, like a caller that catches the error.
- `scenarios.dfy`, module `Scenarios`: the repository's unit tests, written as programs of that model.

A wrapper built while checking is off is the bare target (code-contract.ts:39-41), so no later `enableContract` adds checks to it. Only wrappers built while checking was on re-read the flag, once per call (code-contract.ts:43).

The postcondition violation carries the argument list, not the result. The message labels that line "result" but serialises `args` (code-contract.ts:63). The model keeps the arguments as the payload.

## Model

| member | source | states |
|---|---|---|
| CodeContract.Wrap | code-contract.ts:33-41 | the wrapper keeps the target; it is the bare target exactly when checking is off at wrap time, and otherwise it keeps the given contract |
| CodeContract.GuardedCall | code-contract.ts:42-79 | with the flag off, no predicate runs and the target's state and result come back. With it on, the outcome is a precondition violation with name and arguments exactly when the precondition rejects the arguments in the state before the call, and then state is unchanged and the target never ran. Otherwise the target ran once and its state stands. A postcondition violation, carrying the arguments, occurs exactly when pre holds and post rejects the result. An invariant violation, carrying only the name, occurs exactly when pre and post hold and the invariant rejects the new state. `Ok` with the target's result occurs exactly when every present clause holds. Each predicate runs only if present and every earlier check passed, always in the order pre, target, post, invariant |
| CodeContract.Call | code-contract.ts:39-45 | a bare target ignores the flag and returns the target's state and result; a guarded wrapper runs exactly the `GuardedCall` sequence under the flag read at this call; any call not rejected by the precondition has run the target; with the flag off at call time the outcome is always the target's result |
| CodeContract.EmptyContractPassesThrough | code-contract.ts:37 | under the default empty contract a wrapper returns the target's result and state whatever the flag |
| Session.Initial | code-contract.ts:21 | checking starts switched on, with no wrappers and nothing logged |
| Session.Step | code-contract.ts:85-94 | `Enable` sets the flag, `Disable` clears it, other steps keep it; building appends exactly `Wrap` of the target and contract under the flag's current value; invoking logs the outcome of `Call` under the flag's current value and keeps the state that call left; `SetState` replaces the state and no other step changes it; earlier wrappers and entries are never changed |
| Session.FlagIsLastToggle | code-contract.ts:85-94 | after any program the flag equals what its last `Enable` or `Disable` set, or its starting value when there is none |
| Session.RunOnlyAppends | code-contract.ts:42-79 | a bound wrapper and its contract never change over a program, and logged outcomes are never rewritten |
| Session.UnwrappedNeverViolates | code-contract.ts:39-41 | a wrapper built while checking was off reports no violation in any later program, however the flag is toggled and whatever was logged before |
| Session.DisabledNeverViolates | code-contract.ts:43-45 | from a moment checking is off, as long as it is not switched on again, no invocation of any wrapper reports a violation, whatever was logged before |
| Session.InvokeReadsLatestToggle | code-contract.ts:100-102 | an invocation reads the flag as the program's last toggle left it, so a guarded wrapper follows every toggle made after it was built |
| Session.ReenableRestoresChecks | code-contract.ts:85-87 | after a program ending in `Enable`, invoking a guarded wrapper checks its contract exactly as a call with checking on |
| Scenarios.ContractKept | code-contract.test.ts:31-45 | with both clauses kept, `func(10, 20)` yields 30 |
| Scenarios.PreconditionRejects | code-contract.test.ts:46-63 | `func(20, -10)` is rejected by the precondition, carrying the name and arguments |
| Scenarios.PostconditionRejects | code-contract.test.ts:64-81 | `func(20, 20)` is rejected by the postcondition, carrying the arguments |
| Scenarios.InvariantRejects | code-contract.test.ts:82-105 | the side-effecting target sets the ambient flag, the invariant rejects it, and the state change is not undone |
| Scenarios.DisabledSkipsChecks | code-contract.test.ts:106-122 | with checking off, `func(-10, -20)` yields -30 despite breaking both clauses |
| Scenarios.ReenablingDoesNotGuardEarlierWrapper | code-contract.ts:39-41 | a wrapper built with checking off still yields -30 for `(-10, -20)` after checking is switched back on |

## Left out

- Message formatting: the multi-line error text and the `JSON.stringify` of arguments (code-contract.ts:48-53, 60-65, 71-75). Violations are structured outcomes carrying the name and, where the code prints them, the arguments.
- Exceptions thrown by the target or by a predicate: these propagate unchanged in the code. The model treats the target and the predicates as total functions.
- The `=== false` and `!== false` comparisons on values that may not be booleans (code-contract.ts:44-46, 57-58, 68-69): in the model every predicate and the flag are `bool`.
- TypeScript generics, the `as T` cast and variadic `any[]` arguments: the argument list is one abstract type `A`.
- Concurrency and the visibility of the module-level flag: the model is sequential, and the flag is part of the explicit `World` value.
- `Session.Run` requires every `Invoke` to name a wrapper already built. A TypeScript program can only call a wrapper value it holds, so there is no other case.
- Predicates with side effects: in the code the three clauses are arbitrary closures (code-contract.ts:12-14). In the model they may read the ambient state but cannot change it. So the state is unchanged after a precondition violation only when the precondition has no side effects.
- A target or a predicate that calls `enableContract`, `disableContract` or another wrapper: in the model, targets and predicates are functions of the state and their inputs only. Such calls are the way to observe that the flag is read once per call and that value is reused for the later checks (code-contract.ts:43, 57, 68), so the model cannot exhibit it.
- Changing the contract object after wrapping: the closure reads `contract.pre`, `contract.post` and `contract.invariant` from the caller's object on every call (code-contract.ts:45, 57, 68). The model binds the contract by value when the wrapper is built. So `Session.RunOnlyAppends` ("a wrapper's contract never changes") holds for callers that do not mutate the object they passed.
- The receiver `this`: `fn(...args)` (code-contract.ts:55) calls the target without its receiver. A method wrapped while checking is on loses `this`; one wrapped while checking is off keeps it. Targets in the model have no receiver, so `CodeContract.EmptyContractPassesThrough` holds for targets that do not use one.
