/**
 * The WhenAlert flag enumeration and the alert policy built on it.
 * The enumeration's numeric values are those of the C# [Flags] enum:
 * None = 0, FirstTime = 1, Update = 2, FirstAndUpdate = 3, EveryTime = 4.
 * EveryTime is a separate bit, so it carries neither FirstTime nor Update.
 */
module Alerts {
  datatype WhenAlert = None | FirstTime | Update | FirstAndUpdate | EveryTime

  function Value(w: WhenAlert): bv8 {
    match w
    case None => 0
    case FirstTime => 1
    case Update => 2
    case FirstAndUpdate => 3
    case EveryTime => 4
  }

  /** Enum.HasFlag: every bit of the flag is set in the value. */
  predicate HasFlag(w: WhenAlert, flag: WhenAlert) {
    (Value(w) & Value(flag)) == Value(flag)
  }

  /**
   * Whether drawing a sign on the open bar alerts: the FirstTime bit is set and
   * this provisional run has not alerted yet, or the policy is exactly EveryTime.
   */
  predicate AlertsOnDraw(w: WhenAlert, alreadyAlerted: bool) {
    (HasFlag(w, FirstTime) && !alreadyAlerted) || w == EveryTime
  }

  /** Whether confirming a found sign alerts: the Update bit is set. */
  predicate AlertsOnFix(w: WhenAlert) {
    HasFlag(w, Update)
  }

  /** The FirstTime bit is set exactly in FirstTime and FirstAndUpdate. */
  lemma FirstTimeFlag(w: WhenAlert)
    ensures HasFlag(w, FirstTime) <==> w == FirstTime || w == FirstAndUpdate
  {
  }

  /** The Update bit is set exactly in Update and FirstAndUpdate. */
  lemma UpdateFlag(w: WhenAlert)
    ensures HasFlag(w, Update) <==> w == Update || w == FirstAndUpdate
  {
  }

  /** The draw policy spelled out value by value. */
  lemma DrawPolicy(w: WhenAlert, alreadyAlerted: bool)
    ensures AlertsOnDraw(w, alreadyAlerted) <==>
              ((w == FirstTime || w == FirstAndUpdate) && !alreadyAlerted) || w == EveryTime
  {
    FirstTimeFlag(w);
  }

  /** The confirmation policy spelled out value by value. */
  lemma FixPolicy(w: WhenAlert)
    ensures AlertsOnFix(w) <==> w == Update || w == FirstAndUpdate
  {
    UpdateFlag(w);
  }

  /** Policy None alerts on nothing; EveryTime alerts on every draw but never on a confirmation. */
  lemma NoneAndEveryTime(alreadyAlerted: bool)
    ensures !AlertsOnDraw(None, alreadyAlerted) && !AlertsOnFix(None)
    ensures AlertsOnDraw(EveryTime, alreadyAlerted) && !AlertsOnFix(EveryTime)
  {
  }
}
