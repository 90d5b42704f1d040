/** The state and timeout flags of one transfer and what a cancellation does to them. */
module TransferState {
  const SUCCESS := 0
  const ERROR_NO_DEVICE := -4
  const ERROR_NOT_FOUND := -5

  datatype Status = COMPLETED | ERROR | TIMED_OUT | CANCELLED | STALL | NO_DEVICE | OVERFLOW

  /** One field per state_flags and timeout_flags bit; `answers` records what the backend answered to
      the cancel requests of the current submission. */
  datatype Flags = Flags(inFlight: bool, cancelling: bool, disappeared: bool,
                         handled: bool, osHandles: bool, timedOut: bool, answers: seq<int>)

  /** The flags libusb_submit_transfer starts a submission with. */
  const CLEAR := Flags(false, false, false, false, false, false, [])

  /** libusb_cancel_transfer, given the backend's answer should it be asked. */
  function Cancel(f: Flags, answer: int): (Flags, int) {
    if !f.inFlight || f.cancelling then (f, ERROR_NOT_FOUND)
    else
      var f' := f.(cancelling := true, disappeared := f.disappeared || answer == ERROR_NO_DEVICE);
      (f'.(answers := f.answers + [answer]), answer)
  }

  /** handle_timeout */
  function HandleTimeout(f: Flags, answer: int): Flags {
    var (f', r) := Cancel(f.(handled := true), answer);
    if r == SUCCESS then f'.(timedOut := true) else f'
  }

  /** The flags of a transfer before and after its timeout: it is marked as handled; if it was in flight and nobody
      was cancelling it, the backend has been asked once to cancel it, and it is marked as timed out just
      when the backend agreed; any other transfer is left as it was. */
  ghost predicate TimesOut(f: Flags, f': Flags) {
    && f'.handled && f'.inFlight == f.inFlight && f'.osHandles == f.osHandles
    && if f.inFlight && !f.cancelling then
         && f'.cancelling && |f'.answers| == |f.answers| + 1 && f'.answers[..|f.answers|] == f.answers
         && var answer := f'.answers[|f.answers|];
         && (f'.timedOut <==> f.timedOut || answer == SUCCESS)
         && (f'.disappeared <==> f.disappeared || answer == ERROR_NO_DEVICE)
       else
         && f'.cancelling == f.cancelling && f'.answers == f.answers
         && f'.timedOut == f.timedOut && f'.disappeared == f.disappeared
  }

  lemma {:induction false} HandleTimeoutTimesOut(f: Flags, answer: int)
    ensures TimesOut(f, HandleTimeout(f, answer))
    ensures f.inFlight && !f.cancelling ==> HandleTimeout(f, answer).answers == f.answers + [answer]
  {
  }
}
