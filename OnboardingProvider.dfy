/**
 * `OnboardingProvider`: publishes the onboarding hook's value through a
 * context and starts the tour by itself, 500 ms after a render that shows
 * a hydrated, not completed and not active tour. The effect's timer is a
 * due time; the effect runs again, clearing its timer first, whenever one
 * of its three inputs changes.
 */
module OnboardingProvider {
  import opened Wrappers
  import opened Onboarding

  const AUTO_START_DELAY_MS: int := 500

  const USE_ONBOARDING_CONTEXT_ERROR: string := "useOnboardingContext must be used within an OnboardingProvider"

  /** The inputs of the auto-start effect. */
  datatype EffectInputs = EffectInputs(isHydrated: bool, isCompleted: bool, isActive: bool)

  /** The condition under which the effect schedules a start. */
  predicate AutoStart(inputs: EffectInputs)
  {
    inputs.isHydrated && !inputs.isCompleted && !inputs.isActive
  }

  /** A completed tour is never started automatically, whatever the other inputs are. */
  lemma CompletedNeverAutoStarts(isHydrated: bool, isActive: bool)
    ensures !AutoStart(EffectInputs(isHydrated, true, isActive))
  {
  }

  /** `useOnboardingContext`: the provider's value, or the error outside a provider. */
  function UseOnboardingContext(context: Option<OnboardingValue>): (r: Result<OnboardingValue, string>)
    ensures context.None? <==> r == Err(USE_ONBOARDING_CONTEXT_ERROR)
    ensures context.Some? ==> r == Ok(context.value)
  {
    match context
    case None => Err(USE_ONBOARDING_CONTEXT_ERROR)
    case Some(v) => Ok(v)
  }

  class Provider {
    const onboarding: OnboardingHook
    /** The due time of the scheduled start, if one is scheduled. */
    var timer: Option<int>
    /** The inputs the effect last ran with; None before the first run. */
    var lastInputs: Option<EffectInputs>

    ghost predicate Valid()
      reads this, onboarding
    {
      onboarding.Valid()
    }

    constructor(onboarding: OnboardingHook)
      requires onboarding.Valid()
      ensures Valid() && this.onboarding == onboarding
      ensures timer.None? && lastInputs.None?
    {
      this.onboarding := onboarding;
      timer := None;
      lastInputs := None;
    }

    /** The inputs as the current render sees them. */
    function Inputs(): (inputs: EffectInputs)
      reads this, onboarding, onboarding.store
      ensures inputs.isCompleted <==> onboarding.isHydrated && IsCompleted(onboarding.store.storage)
      ensures inputs.isHydrated == onboarding.isHydrated && inputs.isActive == onboarding.isActive
    {
      var v := onboarding.Value();
      EffectInputs(v.isHydrated, v.isCompleted, v.isActive)
    }

    /** The value the context carries: the hook's own, unchanged. */
    function ContextValue(): (v: OnboardingValue)
      reads this, onboarding, onboarding.store
      ensures UseOnboardingContext(Some(v)) == Ok(onboarding.Value())
    {
      onboarding.Value()
    }

    /**
     * After a render at time now: when the inputs differ from the last run,
     * the old timer is cleared and a new one is scheduled if the inputs
     * call for it; otherwise the effect does not run and the timer is kept.
     */
    method AfterRender(now: int)
      requires Valid()
      modifies this
      ensures Valid()
      ensures lastInputs == Some(Inputs())
      ensures old(lastInputs) == Some(Inputs()) ==> timer == old(timer)
      ensures old(lastInputs) != Some(Inputs()) ==>
        timer == (if AutoStart(Inputs()) then Some(now + AUTO_START_DELAY_MS) else None)
    {
      var inputs := Inputs();
      if lastInputs != Some(inputs) {
        timer := None;
        if AutoStart(inputs) {
          timer := Some(now + AUTO_START_DELAY_MS);
        }
        lastInputs := Some(inputs);
      }
    }

    /** The scheduled start fires: the tour starts and the timer is spent. */
    method FireTimer()
      requires Valid() && timer.Some?
      modifies this, onboarding
      ensures Valid()
      ensures timer.None? && onboarding.isActive && onboarding.isHydrated == old(onboarding.isHydrated)
      ensures onboarding.destroyed == old(onboarding.destroyed) + (if old(onboarding.driver).Some? then [old(onboarding.driver).value] else [])
      ensures onboarding.driver == Some(old(onboarding.nextDriver))
      ensures onboarding.started == old(onboarding.started) + [old(onboarding.nextDriver)]
      ensures onboarding.Live() == {old(onboarding.nextDriver)}
      ensures lastInputs == old(lastInputs)
    {
      timer := None;
      onboarding.StartTour();
    }

    /** Unmounting clears the pending start and the hook's cleanup destroys a live driver. */
    method Unmount()
      requires Valid()
      modifies this, onboarding
      ensures timer.None? && onboarding.Live() == {}
      ensures onboarding.destroyed == old(onboarding.destroyed) + (if old(onboarding.driver).Some? then [old(onboarding.driver).value] else [])
      ensures onboarding.driver == old(onboarding.driver) && onboarding.started == old(onboarding.started)
      ensures onboarding.isActive == old(onboarding.isActive) && onboarding.isHydrated == old(onboarding.isHydrated)
      ensures lastInputs == old(lastInputs)
    {
      timer := None;
      onboarding.Unmount();
    }
  }
}
