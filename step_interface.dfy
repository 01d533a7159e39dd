/**
 * The contract every saga step follows: `execute` and `compensate` receive
 * the saga context, may change the store and the context, and either return
 * a boolean or throw. The interface's default methods are modelled here too.
 */
module SagaStepInterface {
  import opened Base
  import opened Context
  import opened Persistence

  /** How a call of `execute` or `compensate` ended. */
  datatype StepOutcome = Returned(ok: bool) | Threw(error: Exception)

  /** The store and the context after a step call, and how the call ended. */
  datatype StepEffect = StepEffect(db: Db, ctx: ContextState, outcome: StepOutcome)

  /** `getCompensationAction` default: "compensate_" followed by the step name. */
  function CompensationAction(stepName: string): (r: string)
    ensures |r| == |"compensate_"| + |stepName|
    ensures r[..|"compensate_"|] == "compensate_" && r[|"compensate_"|..] == stepName
  {
    "compensate_" + stepName
  }

  /** `getMaxRetries` default. */
  const DefaultMaxRetries: int := 3

  /** `validate` default: every context passes. */
  predicate Validate(c: ContextState)
    ensures Validate(c)
  {
    true
  }

  /** `onSuccess` default hook: the context is left as it was. */
  function OnSuccess(c: ContextState): (r: ContextState)
    ensures r == c
  {
    c
  }

  /** `onFailure` default hook: the context is left as it was. */
  function OnFailure(c: ContextState, error: Exception): (r: ContextState)
    ensures r == c
  {
    c
  }
}
