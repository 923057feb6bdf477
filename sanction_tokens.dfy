/**
 * The sanction token endpoint (website/tokens/handlers.py).
 *
 * A request names a sanction kind, an action and a sanction id. The handler
 * resolves the kind to its model, loads the sanction, refuses a missing,
 * already approved or already rejected sanction with a status code that
 * depends on the kind, invokes the sanction's own approve or reject, saves
 * the sanction, and hands over to the kind's handler, which pushes a success
 * message and picks the page to redirect to.
 *
 * The sanction's approve and reject are not part of this model: what the
 * invoked action did is an input (ActionOutcome) - it returned, with the
 * sanction as it left it, or raised TokenError or PermissionsError.
 */
module SanctionTokens {
  import opened Wrappers

  type NodeId = nat
  type SanctionId = nat

  datatype Kind = RegistrationApproval | Embargo | Retraction

  datatype Action = Approve | Reject

  /** The model table of the handler, keyed by the kind named in the URL. */
  const Models: map<string, Kind> :=
    map["registration" := RegistrationApproval, "embargo" := Embargo, "retraction" := Retraction]

  function KindOf(name: string): (k: Option<Kind>)
    ensures k.None? <==> name !in {"registration", "embargo", "retraction"}
    ensures k == Some(RegistrationApproval) <==> name == "registration"
    ensures k == Some(Embargo) <==> name == "embargo"
    ensures k == Some(Retraction) <==> name == "retraction"
  {
    if name in Models then Some(Models[name]) else None
  }

  /** The sanction method named by the action; any other name finds none. */
  function ActionOf(name: string): (a: Option<Action>)
    ensures a == Some(Approve) <==> name == "approve"
    ensures a == Some(Reject) <==> name == "reject"
  {
    if name == "approve" then Some(Approve)
    else if name == "reject" then Some(Reject)
    else None
  }

  /** What the handler reads of a sanction: its two resolution flags, the
      registration that points at it and that registration's registered_from. */
  datatype Sanction = Sanction(isApproved: bool, isRejected: bool, registration: NodeId, registeredFrom: NodeId)

  datatype SanctionKey = SanctionKey(kind: Kind, id: SanctionId)

  /** What the sanction's approve or reject did when invoked. */
  datatype ActionOutcome =
    | Returned(updated: Sanction)
    | RaisedTokenError(messageShort: string, messageLong: string)
    | RaisedPermissionsError(message: string)

  const BAD_REQUEST: int := 400
  const UNAUTHORIZED: int := 401
  const GONE: int := 410

  /** The data of a raised HTTPError. The first three carry the kind whose
      display name their long message mentions. */
  datatype ErrorMessage =
    | NoSanctionForToken(kind: Kind)
    | NotPending(kind: Kind)
    | SanctionRejected(kind: Kind)
    | TokenFailure(messageShort: string, messageLong: string)
    | UnauthorizedAccess(messageLong: string)

  datatype HttpError = HttpError(code: int, message: ErrorMessage)

  datatype Response =
    | Redirect(target: NodeId)
    | Error(error: HttpError)
    | UnsupportedSanctionHandlerKind
    | NoResponse

  /** Status code for a sanction that is already approved. */
  function AlreadyApprovedStatus(kind: Kind): (code: int)
    ensures code == BAD_REQUEST || code == GONE
    ensures code == BAD_REQUEST <==> kind != Retraction
  {
    if kind in {RegistrationApproval, Embargo} then BAD_REQUEST
    else assert kind.Retraction?; GONE
  }

  /** Status code for a sanction that is already rejected. */
  function AlreadyRejectedStatus(kind: Kind): (code: int)
    ensures code == BAD_REQUEST || code == GONE
    ensures code == GONE <==> kind != Retraction
  {
    if kind in {RegistrationApproval, Embargo} then GONE
    else assert kind.Retraction?; BAD_REQUEST
  }

  /** The decision table of the two resolution codes, kind by kind. */
  lemma ResolvedStatusTable()
    ensures AlreadyApprovedStatus(RegistrationApproval) == 400 && AlreadyRejectedStatus(RegistrationApproval) == 410
    ensures AlreadyApprovedStatus(Embargo) == 400 && AlreadyRejectedStatus(Embargo) == 410
    ensures AlreadyApprovedStatus(Retraction) == 410 && AlreadyRejectedStatus(Retraction) == 400
  {
  }

  /** For every kind the two codes are 400 and 410, in opposite order to retraction's. */
  lemma ResolvedStatusSwapped(kind: Kind)
    ensures {AlreadyApprovedStatus(kind), AlreadyRejectedStatus(kind)} == {BAD_REQUEST, GONE}
    ensures AlreadyApprovedStatus(kind) != AlreadyRejectedStatus(kind)
    ensures kind != Retraction ==> AlreadyApprovedStatus(kind) == AlreadyRejectedStatus(Retraction)
    ensures kind != Retraction ==> AlreadyRejectedStatus(kind) == AlreadyApprovedStatus(Retraction)
  {
  }

  /** The precondition checks, in order: not found, already approved, already rejected. */
  function Precheck(kind: Kind, sanction: Option<Sanction>): (err: Option<HttpError>)
    ensures err.None? <==> sanction.Some? && !sanction.value.isApproved && !sanction.value.isRejected
    ensures sanction.None? ==> err == Some(HttpError(BAD_REQUEST, NoSanctionForToken(kind)))
    ensures sanction.Some? && sanction.value.isApproved
            ==> err == Some(HttpError(AlreadyApprovedStatus(kind), NotPending(kind)))
    ensures sanction.Some? && !sanction.value.isApproved && sanction.value.isRejected
            ==> err == Some(HttpError(AlreadyRejectedStatus(kind), SanctionRejected(kind)))
  {
    if sanction.None? then Some(HttpError(BAD_REQUEST, NoSanctionForToken(kind)))
    else if sanction.value.isApproved then Some(HttpError(AlreadyApprovedStatus(kind), NotPending(kind)))
    else if sanction.value.isRejected then Some(HttpError(AlreadyRejectedStatus(kind), SanctionRejected(kind)))
    else None
  }

  // ---------------------------------------------------------------------
  // The three kind handlers
  // ---------------------------------------------------------------------

  /** The six success messages the handlers push. */
  datatype Notice =
    | RegistrationApprovalAccepted | RegistrationCancelled
    | EmbargoApprovalAccepted | EmbargoCancelled
    | RetractionApprovalAccepted | RetractionCancelled

  /** The text shown for each message. */
  function NoticeText(notice: Notice): string {
    match notice
    case RegistrationApprovalAccepted => "Your registration approval has been accepted."
    case RegistrationCancelled => "Your disapproval has been accepted and the registration has been cancelled."
    case EmbargoApprovalAccepted => "Your embargo approval has been accepted."
    case EmbargoCancelled => "Your disapproval has been accepted and the embargo has been cancelled."
    case RetractionApprovalAccepted => "Your retraction approval has been accepted."
    case RetractionCancelled => "Your disapproval has been accepted and the retraction has been cancelled."
  }

  /** A pushed status message: its text, its kind and whether the text is trusted markup. */
  datatype StatusMessage = StatusMessage(notice: Notice, kind: string, trust: bool)

  function SuccessStatus(notice: Notice): StatusMessage {
    StatusMessage(notice, "success", false)
  }

  datatype Handled = Handled(status: StatusMessage, target: NodeId)

  function RegistrationApprovalHandler(action: Action, registration: NodeId, registeredFrom: NodeId): (h: Handled)
    ensures h.status.kind == "success" && !h.status.trust
    ensures h.target == if action == Approve then registration else registeredFrom
  {
    var notice := match action
      case Approve => RegistrationApprovalAccepted
      case Reject => RegistrationCancelled;
    Handled(SuccessStatus(notice), if action == Approve then registration else registeredFrom)
  }

  function EmbargoHandler(action: Action, registration: NodeId, registeredFrom: NodeId): (h: Handled)
    ensures h.status.kind == "success" && !h.status.trust
    ensures h.target == if action == Approve then registration else registeredFrom
  {
    var notice := match action
      case Approve => EmbargoApprovalAccepted
      case Reject => EmbargoCancelled;
    Handled(SuccessStatus(notice), if action == Approve then registration else registeredFrom)
  }

  function RetractionHandler(action: Action, registration: NodeId, registeredFrom: NodeId): (h: Handled)
    ensures h.status.kind == "success" && !h.status.trust
    ensures h.target == if action == Approve then registeredFrom else registration
  {
    var notice := match action
      case Approve => RetractionApprovalAccepted
      case Reject => RetractionCancelled;
    Handled(SuccessStatus(notice), if action == Approve then registeredFrom else registration)
  }

  /** The handler table of the endpoint, keyed by kind. Approving sends
      registration and embargo tokens to the registration and retraction
      tokens to the project it came from; rejecting, the other way round. */
  function KindHandler(kind: Kind, action: Action, registration: NodeId, registeredFrom: NodeId): (h: Handled)
    ensures h.status.kind == "success" && !h.status.trust
    ensures h.target == if (action == Approve) == (kind != Retraction) then registration else registeredFrom
  {
    match kind
    case RegistrationApproval => RegistrationApprovalHandler(action, registration, registeredFrom)
    case Embargo => EmbargoHandler(action, registration, registeredFrom)
    case Retraction => RetractionHandler(action, registration, registeredFrom)
  }

  function Opposite(action: Action): Action {
    if action == Approve then Reject else Approve
  }

  /** Retraction's targets are the other kinds' targets swapped. */
  lemma RedirectTargets(action: Action, registration: NodeId, registeredFrom: NodeId)
    ensures KindHandler(Retraction, action, registration, registeredFrom).target
         == KindHandler(RegistrationApproval, Opposite(action), registration, registeredFrom).target
         == KindHandler(Embargo, Opposite(action), registration, registeredFrom).target
  {
  }

  /** The status message is a fixed function of (kind, action): it does not
      depend on the nodes, it is pushed as an untrusted success message, and
      each (kind, action) pair has its own message. */
  lemma StatusMessageFixed(kind: Kind, action: Action,
                           reg1: NodeId, from1: NodeId, reg2: NodeId, from2: NodeId)
    ensures KindHandler(kind, action, reg1, from1).status.kind == "success"
    ensures !KindHandler(kind, action, reg1, from1).status.trust
    ensures KindHandler(kind, action, reg1, from1).status == KindHandler(kind, action, reg2, from2).status
  {
  }

  /** Different (kind, action) pairs push different messages. */
  lemma StatusMessagesDistinct(k1: Kind, a1: Action, k2: Kind, a2: Action,
                               reg1: NodeId, from1: NodeId, reg2: NodeId, from2: NodeId)
    ensures (k1, a1) != (k2, a2)
            ==> KindHandler(k1, a1, reg1, from1).status != KindHandler(k2, a2, reg2, from2).status
  {
  }

  // ---------------------------------------------------------------------
  // The endpoint
  // ---------------------------------------------------------------------

  /** What one request does: its response, the sanction saved (if any) and
      the status message pushed (if any). */
  datatype Effect = Effect(response: Response, saved: Option<Sanction>, status: Option<StatusMessage>)

  function Lookup(sanctions: map<SanctionKey, Sanction>, kind: Kind, id: Option<SanctionId>): (s: Option<Sanction>)
    ensures s.Some? <==> id.Some? && SanctionKey(kind, id.value) in sanctions
  {
    if id.Some? && SanctionKey(kind, id.value) in sanctions then Some(sanctions[SanctionKey(kind, id.value)]) else None
  }

  function Dispatch(kindName: string, actionName: string, sanctions: map<SanctionKey, Sanction>,
                    id: Option<SanctionId>, outcome: ActionOutcome): (eff: Effect)
    // an unknown kind is refused before any lookup
    ensures KindOf(kindName).None? ==> eff == Effect(UnsupportedSanctionHandlerKind, None, None)
    // a failed precondition is reported and nothing is invoked, saved or pushed
    ensures KindOf(kindName).Some? && Precheck(KindOf(kindName).value, Lookup(sanctions, KindOf(kindName).value, id)).Some?
            ==> eff == Effect(Error(Precheck(KindOf(kindName).value, Lookup(sanctions, KindOf(kindName).value, id)).value), None, None)
    // a sanction is saved, and a message pushed, exactly when the request redirects
    ensures eff.saved.Some? <==> eff.response.Redirect?
    ensures eff.status.Some? <==> eff.response.Redirect?
    // ... which happens only when every check passed and the action returned
    ensures eff.response.Redirect? ==>
              && KindOf(kindName).Some? && ActionOf(actionName).Some? && outcome.Returned?
              && Lookup(sanctions, KindOf(kindName).value, id).Some?
              && Precheck(KindOf(kindName).value, Lookup(sanctions, KindOf(kindName).value, id)).None?
              && eff.saved == Some(outcome.updated)
    // the action's errors map to 400 and 401
    ensures eff.response == Error(HttpError(UNAUTHORIZED, UnauthorizedAccess(outcome.message)))
            <== KindOf(kindName).Some? && ActionOf(actionName).Some? && outcome.RaisedPermissionsError?
                && Precheck(KindOf(kindName).value, Lookup(sanctions, KindOf(kindName).value, id)).None?
    ensures eff.response == Error(HttpError(BAD_REQUEST, TokenFailure(outcome.messageShort, outcome.messageLong)))
            <== KindOf(kindName).Some? && ActionOf(actionName).Some? && outcome.RaisedTokenError?
                && Precheck(KindOf(kindName).value, Lookup(sanctions, KindOf(kindName).value, id)).None?
    // a name that is no action of the sanction gives no response, and nothing is saved or pushed
    ensures KindOf(kindName).Some? && ActionOf(actionName).None?
            && Precheck(KindOf(kindName).value, Lookup(sanctions, KindOf(kindName).value, id)).None?
            ==> eff == Effect(NoResponse, None, None)
    // once the action returns, the updated sanction is saved and the kind's own
    // handler decides the message pushed and the redirect
    ensures KindOf(kindName).Some? && ActionOf(actionName).Some? && outcome.Returned?
            && Precheck(KindOf(kindName).value, Lookup(sanctions, KindOf(kindName).value, id)).None?
            ==> var s := Lookup(sanctions, KindOf(kindName).value, id).value;
                var h := KindHandler(KindOf(kindName).value, ActionOf(actionName).value, s.registration, s.registeredFrom);
                eff == Effect(Redirect(h.target), Some(outcome.updated), Some(h.status))
  {
    match KindOf(kindName)
    case None => Effect(UnsupportedSanctionHandlerKind, None, None)
    case Some(kind) =>
      var sanction := Lookup(sanctions, kind, id);
      match Precheck(kind, sanction)
      case Some(err) => Effect(Error(err), None, None)
      case None =>
        match ActionOf(actionName)
        case None => Effect(NoResponse, None, None)
        case Some(action) =>
          match outcome
          case RaisedTokenError(short, long) =>
            Effect(Error(HttpError(BAD_REQUEST, TokenFailure(short, long))), None, None)
          case RaisedPermissionsError(message) =>
            Effect(Error(HttpError(UNAUTHORIZED, UnauthorizedAccess(message))), None, None)
          case Returned(updated) =>
            var handled := KindHandler(kind, action, sanction.value.registration, sanction.value.registeredFrom);
            Effect(Redirect(handled.target), Some(updated), Some(handled.status))
  }

  /** Where a successful request redirects: approving a registration or
      embargo token leads to the registration, approving a retraction token
      to the project the registration came from, and rejecting the other way
      round; the message pushed is an untrusted success message. */
  lemma DispatchRedirects(kindName: string, actionName: string, sanctions: map<SanctionKey, Sanction>,
                          id: Option<SanctionId>, outcome: ActionOutcome)
    requires KindOf(kindName).Some? && ActionOf(actionName).Some? && outcome.Returned?
    requires Precheck(KindOf(kindName).value, Lookup(sanctions, KindOf(kindName).value, id)).None?
    ensures var s := Lookup(sanctions, KindOf(kindName).value, id).value;
      var eff := Dispatch(kindName, actionName, sanctions, id, outcome);
      && eff.response == Redirect(if (ActionOf(actionName).value == Approve) == (KindOf(kindName).value != Retraction)
                                  then s.registration else s.registeredFrom)
      && eff.status.Some? && eff.status.value.kind == "success" && !eff.status.value.trust
      && eff.saved == Some(outcome.updated)
  {
  }

  /** The sanctions of every kind, and the status messages queued for the user. */
  class SanctionStore {
    var sanctions: map<SanctionKey, Sanction>
    var statusMessages: seq<StatusMessage>

    constructor (sanctions0: map<SanctionKey, Sanction>)
      ensures sanctions == sanctions0 && statusMessages == []
    {
      sanctions := sanctions0;
      statusMessages := [];
    }

    /** One request to the token endpoint. */
    method HandleSanction(kindName: string, actionName: string, id: Option<SanctionId>, outcome: ActionOutcome)
      returns (r: Response)
      modifies this
      ensures var eff := Dispatch(kindName, actionName, old(sanctions), id, outcome);
        && r == eff.response
        && sanctions == (if eff.saved.Some?
                         then old(sanctions)[SanctionKey(KindOf(kindName).value, id.value) := eff.saved.value]
                         else old(sanctions))
        && statusMessages == old(statusMessages) + (if eff.status.Some? then [eff.status.value] else [])
    {
      var model := KindOf(kindName);
      if model.None? {
        return UnsupportedSanctionHandlerKind;
      }
      var kind := model.value;
      var sanction := Lookup(sanctions, kind, id);
      var err := Precheck(kind, sanction);
      if err.Some? {
        return Error(err.value);
      }
      var action := ActionOf(actionName);
      if action.None? {
        return NoResponse;
      }
      var registration, registeredFrom := sanction.value.registration, sanction.value.registeredFrom;
      match outcome
      case RaisedTokenError(short, long) =>
        return Error(HttpError(BAD_REQUEST, TokenFailure(short, long)));
      case RaisedPermissionsError(message) =>
        return Error(HttpError(UNAUTHORIZED, UnauthorizedAccess(message)));
      case Returned(updated) =>
        sanctions := sanctions[SanctionKey(kind, id.value) := updated];
        var handled := KindHandler(kind, action.value, registration, registeredFrom);
        statusMessages := statusMessages + [handled.status];
        return Redirect(handled.target);
    }
  }
}
