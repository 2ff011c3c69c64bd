/** The values the controllers work on: requests, certificates and issuers as the API server stores
    them, and the answers of everything that is not the controller. */
module Model {
  import opened Options
  import opened Keys
  import Metadata
  import Issuance
  import TrustChain

  type Annotations = Metadata.Annotations
  type Uid = nat

  // ----- Conditions -----

  datatype CondKind = Ready | Approved | Denied | InvalidRequest | OtherKind(name: string)

  datatype CondStatus = Yes | No | Unknown

  datatype Reason =
    | Pending
    | Failed
    | DeniedReason
    | Issued
    | ByHorizon
    | FirstSeen
    | Success
    | ErrorReason
    | OtherReason(name: string)

  datatype Message =
    | SubmittedEnrolment
    | SubmittedRenewal
    | InvalidRequestMessage
    | DeniedByApprover
    | DeniedOnHorizon
    | ApprovedOnHorizon
    | Signed
    | FirstSeenMessage
    | CheckSucceeded
    | Text(text: string)

  datatype Condition = Condition(status: CondStatus, reason: Reason, message: Message)

  /** Conditions by kind: the API server keeps at most one of each kind. */
  type Conditions = map<CondKind, Condition>

  predicate Has(cs: Conditions, kind: CondKind, status: CondStatus) {
    kind in cs && cs[kind].status == status
  }

  predicate HasReason(cs: Conditions, kind: CondKind, status: CondStatus, reason: Reason) {
    Has(cs, kind, status) && cs[kind].reason == reason
  }

  // ----- Objects -----

  datatype IssuerKey = Issuer(ns: string, name: string) | ClusterIssuer(name: string)

  datatype IssuerRef = IssuerRef(name: string) | ClusterIssuerRef(name: string) | UnknownKind

  datatype RequestSpec = RequestSpec(ns: string, ours: bool, issuerRef: IssuerRef, csr: string)

  datatype Finalizer = Ours | Theirs(name: string)

  datatype Status = Status(conditions: Conditions, certificate: string, ca: string, failureTime: Option<nat>)

  datatype Request = Request(
    uid: Uid,
    version: nat,
    spec: RequestSpec,
    annotations: Annotations,
    finalizers: set<Finalizer>,
    deleting: bool,
    status: Status)

  datatype CertKey = CertKey(ns: string, name: string)

  datatype IssuingReason = ManuallyTriggered | Renewing | Expired | OtherIssuing

  /** The parent Certificate; `issuing` is the reason of its Issuing condition, if it has one. */
  datatype Certificate = Certificate(
    key: CertKey,
    version: nat,
    annotations: Annotations,
    issuing: Option<IssuingReason>,
    owners: seq<Metadata.OwnerRef>)

  datatype IssuerSpec = IssuerSpec(
    authSecretName: string,
    revokeCertificates: bool,
    default: Option<Metadata.Template>,
    override: Option<Metadata.Template>,
    dnsChecker: bool)

  datatype IssuerObject = IssuerObject(key: IssuerKey, version: nat, spec: IssuerSpec, conditions: Conditions)

  /** The Issuer a request names: namespaced issuers live in the request's own namespace. */
  function IssuerKeyOf(r: Request): Option<IssuerKey> {
    match r.spec.issuerRef
    case IssuerRef(name) => Some(Issuer(r.spec.ns, name))
    case ClusterIssuerRef(name) => Some(ClusterIssuer(name))
    case UnknownKind => None
  }

  /** The Certificate a request names; an absent annotation reads as the empty name. */
  function CertKeyOf(r: Request): CertKey {
    CertKey(r.spec.ns, At(r.annotations, CertificateName).GetOr(""))
  }

  /** Where the Secret of an Issuer is looked up; both controllers compute it, each in its own way. */
  datatype SecretRef = SecretRef(ns: string, name: string)

  // ----- Predicates on requests -----

  predicate IsReady(r: Request) {
    Has(r.status.conditions, Ready, Yes)
  }

  predicate IsFailed(r: Request) {
    HasReason(r.status.conditions, Ready, No, Failed)
  }

  predicate IsMarkedDenied(r: Request) {
    HasReason(r.status.conditions, Ready, No, DeniedReason)
  }

  predicate IsTerminal(r: Request) {
    IsReady(r) || IsFailed(r) || IsMarkedDenied(r)
  }

  predicate IsApproved(r: Request) {
    Has(r.status.conditions, Approved, Yes)
  }

  predicate IsDenied(r: Request) {
    Has(r.status.conditions, Denied, Yes)
  }

  predicate IsSubmitted(r: Request) {
    RequestId in r.annotations
  }

  predicate IsInvalid(r: Request) {
    HasReason(r.status.conditions, InvalidRequest, Yes, Failed)
  }

  // ----- Horizon -----

  /** A Horizon client remembers the Issuer, the spec and the Secret it was built from. */
  datatype Client = Client(issuer: IssuerKey, spec: IssuerSpec, secret: SecretRef)

  datatype RemoteStatus = Completed | PendingStatus | ApprovedStatus | DeniedStatus | Canceled | OtherStatus

  /** `AnswerLost`: Horizon accepted the submission, but the caller got an error. */
  datatype SubmitReply = Accepted(id: string) | AnswerLost(text: string) | Refused(text: string)

  datatype PollReply = Polled(status: RemoteStatus, certificate: Issuance.CertificateInfo) | PollFailed(text: string)

  datatype ChainReply = Fetched(certs: seq<TrustChain.Cf>) | FetchFailed(text: string)

  datatype Call =
    | TemplateCall(client: Client)
    | EnrollCall(client: Client, csr: string, sent: Metadata.Meta, reply: SubmitReply)
    | RenewCall(client: Client, csr: string, lastCertificateId: string, reply: SubmitReply)
    | PollCall(client: Client, requestId: string, answer: PollReply)
    | ChainCall(client: Client, text: string)
    | RevokeCall(client: Client, certificate: string, accepted: bool)

  predicate IsSubmission(c: Call) {
    c.EnrollCall? || c.RenewCall?
  }

  predicate AcceptedByHorizon(c: Call) {
    IsSubmission(c) && !c.reply.Refused?
  }

  // ----- The reads of certificateMetadata -----

  datatype Ingress = Ingress(ns: string, name: string, annotations: Annotations)

  /** What the reads of `certificateMetadata` return; each may fail. */
  datatype MetadataReads = MetadataReads(parent: Option<Certificate>, issuer: Option<IssuerObject>, ingress: Option<Ingress>)

  /** The layers that are merged, if all the reads succeed. */
  function ReadMetadata(m: MetadataReads): Option<Metadata.Layers> {
    if m.parent.None? || m.issuer.None? then None
    else
      var parent, spec := m.parent.value, m.issuer.value.spec;
      var owned := Metadata.LastIngress(parent.owners).Some?;
      if owned && m.ingress.None? then None
      else
        Some(Metadata.Layers(parent.annotations, if owned then m.ingress.value.annotations else map[],
                             Metadata.OrDefault(spec.default), Metadata.OrDefault(spec.override)))
  }

  // ----- What the outside answers during one reconcile -----

  /** The fate of a write that the API server would accept: stored and acknowledged, stored with the
      acknowledgement lost, or not stored. A write from an old version is never stored. */
  datatype Fate = Delivered | Unacknowledged | Dropped

  datatype Replies = Replies(
    issuer: Option<IssuerObject>,
    secretFound: bool,
    clientBuilt: bool,
    dnsNames: Option<seq<string>>,   // the CN and SANs of the CSR, if it decodes
    resolvable: set<string>,
    parent: Option<Certificate>,
    lookups: MetadataReads,
    template: Option<Metadata.Meta>,   // Horizon's template for the enrolment, if it answers
    submit: SubmitReply,
    poll: PollReply,
    chain: ChainReply,
    revokeOk: bool,
    write: Fate,
    parentAgain: Option<Certificate>,
    parentWrite: Fate,
    now: nat,
    text: string)   // the text of whichever other error occurs

  /** The metadata of an enrolment, as it is merged from these reads. */
  function EnrolmentOf(q: Replies): Metadata.Meta {
    Metadata.MergeOf(ReadMetadata(q.lookups))
  }

  /** What is read is found under the name that is asked for: the Certificate and the Issuer that the
      request names, and the Ingress that the Certificate names. */
  predicate Named(r: Request, q: Replies) {
    && (q.issuer.Some? ==> IssuerKeyOf(r) == Some(q.issuer.value.key))
    && (q.parent.Some? ==> q.parent.value.key == CertKeyOf(r))
    && (q.parentAgain.Some? ==> q.parentAgain.value.key == CertKeyOf(r))
    && (q.lookups.parent.Some? ==> q.lookups.parent.value.key == CertKeyOf(r))
    && (q.lookups.issuer.Some? ==> IssuerKeyOf(r) == Some(q.lookups.issuer.value.key))
    && (q.lookups.ingress.Some? ==>
          && q.lookups.parent.Some?
          && q.lookups.ingress.value.ns == q.lookups.parent.value.key.ns
          && Metadata.LastIngress(q.lookups.parent.value.owners) == Some(q.lookups.ingress.value.name))
  }
}
