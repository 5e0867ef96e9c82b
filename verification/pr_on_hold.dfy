/** The wizard that asks for a reason before putting a purchase request on
    hold. */
module OnHoldWizard {
  import opened Wrappers
  import opened PurchaseRequest

  datatype Error = MissingReason

  class Wizard {
    var request: Request
    var previousState: Option<State>
    var reason: Option<string>

    /** `button_on_hold` opens the wizard with the request's current state
        as its default previous state. */
    constructor (request: Request, reason: Option<string>)
      ensures this.request == request && this.reason == reason
      ensures previousState == Some(request.state)
    {
      this.request := request;
      this.reason := reason;
      previousState := Some(request.state);
    }

    /** `action_put_on_hold`: an empty reason is refused and the request is
        left alone; otherwise exactly state, previous state and reason are
        written. */
    method ActionPutOnHold() returns (o: Outcome<Error>)
      modifies request
      ensures o.Fail? <==> old(reason).None? || old(reason) == Some("")
      ensures o.Fail? ==> request.HoldView() == old(request.HoldView())
      ensures o == Pass ==> request.HoldView() == Hold(old(request.HoldView()), previousState, reason.value)
      ensures request.name == old(request.name) && request.requestedBy == old(request.requestedBy)
      ensures request.assignedTo == old(request.assignedTo) && request.lines == old(request.lines)
    {
      if reason.None? || reason == Some("") {
        return Fail(MissingReason);
      }
      request.state := OnHold;
      request.previousState := previousState;
      request.onHoldReason := reason;
      return Pass;
    }
  }
}
