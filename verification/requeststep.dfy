/** One reconcile of a CertificateRequest as a function of the copy it read and of the answers it
    got: internal/controller/certificaterequest_controller.go with the handlers of
    internal/issuer/horizon/issuer.go. The methods of module Controller are proved equal to it. */
module RequestStep {
  import opened Options
  import opened Keys
  import opened Model
  import Metadata
  import Issuance
  import TrustChain

  // ----- Conditions and finalizers -----

  function SetCondition(r: Request, kind: CondKind, status: CondStatus, reason: Reason, message: Message): Request {
    r.(status := r.status.(conditions := r.status.conditions[kind := Condition(status, reason, message)]))
  }

  function SetReady(r: Request, status: CondStatus, reason: Reason, message: Message): Request {
    SetCondition(r, Ready, status, reason, message)
  }

  // ----- Outcome of the body -----

  /** How the body ends: normally, asking for a requeue, with an error, or in a panic. */
  datatype Ending = Done | Requeue | Error(text: string) | Panic

  /** The in-memory request when the body ends, how it ends, and the calls made to Horizon. */
  datatype Outcome = Outcome(request: Request, ending: Ending, calls: seq<Call>)

  // ----- Handlers of internal/issuer/horizon/issuer.go -----

  function HandleFailed(r: Request, text: string): Request {
    SetCondition(r, InvalidRequest, Yes, Failed, Text(text))
  }

  function HandleDenied(r: Request): Request {
    SetCondition(r, Denied, Yes, ByHorizon, DeniedOnHorizon)
  }

  /** The deferred half of `handleCompletedRequest`, once the chain is known. */
  function StoreCertificate(r: Request, info: Issuance.CertificateInfo, chain: string, ca: string): Request {
    var r1 := if ca != "" then r.(status := r.status.(ca := ca)) else r;
    if chain == "" then r1
    else
      var r2 := r1.(annotations := Issuance.Issue(r1.annotations, info), status := r1.status.(certificate := chain));
      SetReady(r2, Yes, Issued, Signed)
  }

  function HandleCompleted(r: Request, client: Client, info: Issuance.CertificateInfo, chain: ChainReply): Outcome {
    var r1 := SetCondition(r, Approved, Yes, ByHorizon, ApprovedOnHorizon);
    var calls := [ChainCall(client, info.text)];
    match chain
    case FetchFailed(text) => Outcome(r1, Error(text), calls)
    case Fetched(certs) => Outcome(StoreCertificate(r1, info, TrustChain.Chain(certs), TrustChain.Ca(certs)), Done, calls)
  }

  function UpdateRequest(r: Request, client: Client, poll: PollReply, chain: ChainReply, text: string): Outcome
    requires IsSubmitted(r)
  {
    var calls := [PollCall(client, r.annotations[RequestId], poll)];
    match poll
    case PollFailed(error) => Outcome(r, Error(error), calls)
    case Polled(status, info) =>
      match status
      case Completed =>
        var o := HandleCompleted(r, client, info, chain);
        o.(calls := calls + o.calls)
      case PendingStatus => Outcome(r, Requeue, calls)
      case ApprovedStatus => Outcome(r, Requeue, calls)
      case DeniedStatus => Outcome(HandleDenied(r), Done, calls)
      case Canceled => Outcome(HandleDenied(r), Done, calls)
      case OtherStatus => Outcome(r, Error(text), calls)
  }

  function Submitted(r: Request, reply: SubmitReply, message: Message, calls: seq<Call>): Outcome {
    match reply
    case Accepted(id) => Outcome(SetReady(r.(annotations := r.annotations[RequestId := id]), No, Pending, message), Done, calls)
    case AnswerLost(text) => Outcome(HandleFailed(r, text), Error(text), calls)
    case Refused(text) => Outcome(HandleFailed(r, text), Error(text), calls)
  }

  function SubmitEnroll(r: Request, client: Client, args: Metadata.Meta, template: Option<Metadata.Meta>, reply: SubmitReply, text: string): Outcome {
    if template.None? then Outcome(HandleFailed(r, text), Error(text), [TemplateCall(client)])
    else Submitted(r, reply, SubmittedEnrolment, [TemplateCall(client), EnrollCall(client, r.spec.csr, Metadata.Sent(args, template.value), reply)])
  }

  function SubmitRenew(r: Request, client: Client, lastId: string, reply: SubmitReply): Outcome {
    Submitted(r, reply, SubmittedRenewal, [RenewCall(client, r.spec.csr, lastId, reply)])
  }

  // ----- The body of Reconcile -----

  function Submit(r: Request, client: Client, q: Replies): Outcome {
    if q.parent.None? then Outcome(r, Error(q.text), [])
    else if q.parent.value.issuing.None? then Outcome(r, Panic, [])
    else
      var parent := q.parent.value;
      if LastCertificateId in parent.annotations && parent.issuing.value in {ManuallyTriggered, Renewing, Expired} then
        SubmitRenew(r, client, parent.annotations[LastCertificateId], q.submit)
      else
        var r1 := if ReadMetadata(q.lookups).None? then SetReady(r, No, Pending, Text(q.text)) else r;
        SubmitEnroll(r1, client, EnrolmentOf(q), q.template, q.submit, q.text)
  }

  function MarkDenied(r: Request, now: nat): Request {
    var r1 := if r.status.failureTime.None? then r.(status := r.status.(failureTime := Some(now))) else r;
    SetReady(r1, No, DeniedReason, DeniedByApprover)
  }

  predicate DnsPasses(spec: IssuerSpec, q: Replies) {
    spec.dnsChecker ==> q.dnsNames.Some? && forall name :: name in q.dnsNames.value ==> name in q.resolvable
  }

  function Process(r: Request, client: Client, q: Replies): Outcome {
    if IsDenied(r) then Outcome(MarkDenied(r, q.now), Done, [])
    else if !DnsPasses(client.spec, q) then Outcome(r, Error(q.text), [])
    else if IsApproved(r) then Outcome(r, Done, [])
    else if IsSubmitted(r) then UpdateRequest(r, client, q.poll, q.chain, q.text)
    else Submit(r, client, q)
  }

  // ----- The deferred block -----

  function MarkError(r: Request, text: string, now: nat): Request {
    var r1 := if IsInvalid(r) then SetReady(r, No, Failed, InvalidRequestMessage) else SetReady(r, No, Pending, Text(text));
    r1.(status := r1.status.(failureTime := Some(now)))
  }

  function FinalOf(r: Request, ending: Ending, now: nat): Request {
    if ending.Error? then MarkError(r, ending.text, now) else r
  }

  function Final(o: Outcome, now: nat): Request {
    FinalOf(o.request, o.ending, now)
  }

  // ----- The whole reconcile -----

  /** The one write made to the request. `MetaWrite` is `Update`, `StatusWrite` is `Status().Update`. */
  datatype Write = NoWrite | MetaWrite(request: Request) | StatusWrite(request: Request)

  /** The write made to the parent Certificate. */
  datatype ParentWrite = NoParentWrite | ParentWrite(id: string)

  datatype Effects = Effects(calls: seq<Call>, write: Write, parent: ParentWrite, ending: Ending)

  function Nothing(ending: Ending): Effects {
    Effects([], NoWrite, NoParentWrite, ending)
  }

  /** What the code before the deferred block decides. */
  datatype Start = Leave(ending: Ending) | Delete(client: Client) | Enter(client: Client, request: Request)

  function SecretOfRequest(clusterNs: string, r: Request, issuer: IssuerObject): SecretRef {
    SecretRef(if r.spec.issuerRef.IssuerRef? then r.spec.ns else clusterNs, issuer.spec.authSecretName)
  }

  function Enters(clusterNs: string, r: Request, q: Replies): Start {
    if !r.spec.ours then Leave(Done)
    else if r.spec.issuerRef.UnknownKind? || q.issuer.None? then Leave(Error(q.text))
    else if !Has(q.issuer.value.conditions, Ready, Yes) then Leave(Done)
    else if !q.secretFound || !q.clientBuilt then Leave(Error(q.text))
    else
      var issuer := q.issuer.value;
      var client := Client(issuer.key, issuer.spec, SecretOfRequest(clusterNs, r, issuer));
      if issuer.spec.revokeCertificates && r.deleting then Delete(client)
      else
        var r1 := if issuer.spec.revokeCertificates then r.(finalizers := r.finalizers + {Ours}) else r;
        if IsTerminal(r1) then Leave(Done) else Enter(client, r1)
  }

  /** `handleDeletion` */
  function Deletion(r: Request, client: Client, q: Replies): Effects {
    if Ours !in r.finalizers then Nothing(Done)
    else
      var calls := [RevokeCall(client, r.status.certificate, q.revokeOk)];
      if !q.revokeOk then Effects(calls, NoWrite, NoParentWrite, Error(q.text))
      else Effects(calls, MetaWrite(r.(finalizers := r.finalizers - {Ours})), NoParentWrite, Done)
  }

  function WriteOf(before: Request, after: Request): Write {
    if after.annotations != before.annotations then MetaWrite(after) else StatusWrite(after)
  }

  function OfferOf(a: Annotations): ParentWrite {
    var id := At(a, CertificateId).GetOr("");
    if id != "" then ParentWrite(id) else NoParentWrite
  }

  function ParentWriteOf(after: Request): ParentWrite {
    OfferOf(after.annotations)
  }

  function Finish(before: Request, o: Outcome, now: nat): Effects {
    var after := Final(o, now);
    Effects(o.calls, WriteOf(before, after), ParentWriteOf(after), o.ending)
  }

  function Run(clusterNs: string, r: Request, q: Replies): Effects {
    match Enters(clusterNs, r, q)
    case Leave(ending) => Nothing(ending)
    case Delete(client) => Deletion(r, client, q)
    case Enter(client, r1) => Finish(r1, Process(r1, client, q), q.now)
  }
}
