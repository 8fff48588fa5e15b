/** `src/stores/settings.ts`: the one-bit store remembering that the intro card was dismissed. */
module Settings {

  /** The store's operations; `dismissIntro` is its only one. */
  datatype SettingsOp = DismissIntro

  function Step(introDismissed: bool, op: SettingsOp): bool
  {
    match op
    case DismissIntro => true
  }

  /** The flag after a run of operations. */
  function Run(introDismissed: bool, ops: seq<SettingsOp>): bool
    decreases |ops|
  {
    if ops == [] then introDismissed else Run(Step(introDismissed, ops[0]), ops[1..])
  }

  /**
   * Once set the flag stays set, and from the initial `false` it is set
   * exactly when at least one dismissal happened; dismissing is idempotent.
   */
  lemma {:induction false} RunSpec(introDismissed: bool, ops: seq<SettingsOp>)
    ensures introDismissed ==> Run(introDismissed, ops)
    ensures Run(introDismissed, ops) <==> introDismissed || |ops| > 0
    ensures Step(Step(introDismissed, DismissIntro), DismissIntro) == Step(introDismissed, DismissIntro)
    decreases |ops|
  {
    if ops != [] {
      RunSpec(Step(introDismissed, ops[0]), ops[1..]);
    }
  }

  class SettingsStore {
    var introDismissed: bool

    constructor ()
      ensures !introDismissed
    {
      introDismissed := false;
    }

    /** `dismissIntro`. */
    method DismissIntro()
      modifies this
      ensures introDismissed
      ensures introDismissed == Step(old(introDismissed), SettingsOp.DismissIntro)
    {
      introDismissed := true;
    }
  }
}
