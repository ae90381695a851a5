/**
 * The checkout state machine: a total reducer from (state, action) to state,
 * with no entry guards. The payment intent, error and result records are
 * opaque to the reducer and appear as the type parameters I, E and R.
 */
module State {
  import opened Wrappers
  import opened Types

  /** CheckoutState: the eight statuses of a checkout. */
  datatype CheckoutStatus = Idle | Loading | Ready | MethodSelected | Processing | Success | Failed | Closed

  /** ReevitState: the status and its four payload slots (`null` is `None`). */
  datatype ReevitState<I, E, R> = ReevitState(
    status: CheckoutStatus,
    paymentIntent: Option<I>,
    selectedMethod: Option<PaymentMethod>,
    error: Option<E>,
    result: Option<R>)

  /** ReevitAction: the nine action types, plus `Unknown` for any other
      `type` tag, which the reducer's `default:` arm handles. */
  datatype ReevitAction<I, E, R> =
    | InitStart
    | InitSuccess(intent: I)
    | InitError(initError: E)
    | SelectMethod(choice: PaymentMethod)
    | ProcessStart
    | ProcessSuccess(paymentResult: R)
    | ProcessError(processError: E)
    | Reset
    | Close
    | Unknown(tag: string)

  /** The four payload slots of a state. */
  datatype Slot = IntentSlot | MethodSlot | ErrorSlot | ResultSlot

  /** The transition table's status column: the status every action leads
      to, from any status; `None` for an unrecognised action, which keeps it. */
  function TargetStatus<I, E, R>(a: ReevitAction<I, E, R>): Option<CheckoutStatus> {
    match a
    case InitStart => Some(Loading)
    case InitSuccess(_) => Some(Ready)
    case InitError(_) => Some(Failed)
    case SelectMethod(_) => Some(MethodSelected)
    case ProcessStart => Some(Processing)
    case ProcessSuccess(_) => Some(Success)
    case ProcessError(_) => Some(Failed)
    case Reset => Some(Ready)
    case Close => Some(Closed)
    case Unknown(_) => None
  }

  /** The transition table's payload column: the slots an action writes. */
  function Writes<I, E, R>(a: ReevitAction<I, E, R>): set<Slot> {
    match a
    case InitStart => {ErrorSlot}
    case InitSuccess(_) => {IntentSlot}
    case InitError(_) => {ErrorSlot}
    case SelectMethod(_) => {MethodSlot}
    case ProcessStart => {ErrorSlot}
    case ProcessSuccess(_) => {ResultSlot}
    case ProcessError(_) => {ErrorSlot}
    case Reset => {MethodSlot, ErrorSlot, ResultSlot}
    case Close => {}
    case Unknown(_) => {}
  }

  /** `s` and `t` hold the same value in `slot`. */
  ghost predicate SameSlot<I, E, R>(s: ReevitState<I, E, R>, t: ReevitState<I, E, R>, slot: Slot) {
    match slot
    case IntentSlot => s.paymentIntent == t.paymentIntent
    case MethodSlot => s.selectedMethod == t.selectedMethod
    case ErrorSlot => s.error == t.error
    case ResultSlot => s.result == t.result
  }

  /** createInitialState: idle, with every slot empty. */
  function InitialState<I, E, R>(): (s: ReevitState<I, E, R>)
    ensures s.status == Idle
    ensures s.paymentIntent == None && s.selectedMethod == None && s.error == None && s.result == None
  {
    ReevitState(Idle, None, None, None, None)
  }

  /** reevitReducer: every action is accepted from every status. The new
      status is the table's, whatever the old one was, and every slot the
      action does not write keeps its value. */
  function Reduce<I, E, R>(s: ReevitState<I, E, R>, a: ReevitAction<I, E, R>): (r: ReevitState<I, E, R>)
    ensures r.status == if TargetStatus(a).Some? then TargetStatus(a).value else s.status
    ensures forall slot :: slot !in Writes(a) ==> SameSlot(s, r, slot)
  {
    match a
    case InitStart => s.(status := Loading, error := None)
    case InitSuccess(intent) => s.(status := Ready, paymentIntent := Some(intent))
    case InitError(e) => s.(status := Failed, error := Some(e))
    case SelectMethod(m) => s.(status := MethodSelected, selectedMethod := Some(m))
    case ProcessStart => s.(status := Processing, error := None)
    case ProcessSuccess(res) => s.(status := Success, result := Some(res))
    case ProcessError(e) => s.(status := Failed, error := Some(e))
    case Reset => InitialState().(status := Ready, paymentIntent := s.paymentIntent)
    case Close => s.(status := Closed)
    case Unknown(_) => s
  }

  // ---------------------------------------------------------------------------
  // What each action writes into the slots it owns
  // ---------------------------------------------------------------------------

  /** INIT_START and PROCESS_START clear the error and keep the intent, the
      selected method and the result. */
  lemma StartClearsError<I, E, R>(s: ReevitState<I, E, R>, a: ReevitAction<I, E, R>)
    requires a.InitStart? || a.ProcessStart?
    ensures Reduce(s, a).status == (if a.InitStart? then Loading else Processing)
    ensures Reduce(s, a) == s.(status := Reduce(s, a).status, error := None)
  {
  }

  /** INIT_SUCCESS stores the intent and leaves the selected method as it
      was: no method is chosen automatically. */
  lemma InitSuccessStoresIntent<I, E, R>(s: ReevitState<I, E, R>, intent: I)
    ensures Reduce(s, InitSuccess(intent)) == s.(status := Ready, paymentIntent := Some(intent))
    ensures Reduce(s, InitSuccess(intent)).selectedMethod == s.selectedMethod
  {
  }

  /** INIT_ERROR and PROCESS_ERROR both fail the checkout with the given
      error and change nothing else. */
  lemma ErrorsFail<I, E, R>(s: ReevitState<I, E, R>, e: E)
    ensures Reduce(s, InitError(e)) == s.(status := Failed, error := Some(e))
    ensures Reduce(s, ProcessError(e)) == Reduce(s, InitError(e))
  {
  }

  /** SELECT_METHOD and PROCESS_SUCCESS each fill their one slot. */
  lemma SelectAndSucceed<I, E, R>(s: ReevitState<I, E, R>, m: PaymentMethod, res: R)
    ensures Reduce(s, SelectMethod(m)) == s.(status := MethodSelected, selectedMethod := Some(m))
    ensures Reduce(s, ProcessSuccess(res)) == s.(status := Success, result := Some(res))
  {
  }

  /** RESET keeps only the payment intent, and resetting twice is resetting
      once. */
  lemma ResetKeepsIntent<I, E, R>(s: ReevitState<I, E, R>)
    ensures Reduce(s, Reset) == ReevitState(Ready, s.paymentIntent, None, None, None)
    ensures Reduce(Reduce(s, Reset), Reset) == Reduce(s, Reset)
  {
  }

  /** CLOSE changes the status only, and is idempotent. */
  lemma CloseOnlyCloses<I, E, R>(s: ReevitState<I, E, R>)
    ensures Reduce(s, Close) == s.(status := Closed)
    ensures Reduce(Reduce(s, Close), Close) == Reduce(s, Close)
  {
  }

  /** An unrecognised action returns the state unchanged. */
  lemma UnknownIsIdentity<I, E, R>(s: ReevitState<I, E, R>, tag: string)
    ensures Reduce(s, Unknown(tag)) == s
  {
  }

  /** No guards: apart from an unrecognised action, the status an action
      leads to does not depend on the status it is applied in. */
  lemma NoGuards<I, E, R>(s: ReevitState<I, E, R>, t: ReevitState<I, E, R>, a: ReevitAction<I, E, R>)
    requires !a.Unknown?
    ensures Reduce(s, a).status == Reduce(t, a).status
  {
  }

  /** The reset state after a successful payment: ready, the intent kept,
      every other slot cleared. */
  lemma ResetAfterSuccess<I, E, R>(intent: I, res: R, m: PaymentMethod)
    ensures var s: ReevitState<I, E, R> := ReevitState(Success, Some(intent), Some(m), None, Some(res));
            Reduce(s, Reset) == ReevitState(Ready, Some(intent), None, None, None)
  {
  }
}
