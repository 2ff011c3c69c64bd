/** What one reconcile can do to the stored request.

    A reconcile computes a whole new object but stores only one half of it: `Update` drops the
    status, `Status().Update` drops the metadata. This module lists the eleven changes that can come
    out, and proves that each reconcile makes one of them, from a state where it is allowed. All the
    properties of runs are proved about these moves. */
module Protocol {
  import opened Options
  import opened Keys
  import opened Model
  import opened RequestStep
  import opened Issuance
  import Metadata
  import TrustChain

  datatype Move =
    | Idle
    | Revoke
    | Register(id: string, guarded: bool)               // request-id, and the finalizer when revoking
    | Annotate(info: CertificateInfo, guarded: bool)    // certificate-id and the issued metadata
    | Certify(chain: string, ca: string)                // Ready=True
    | Approve(ca: string)                               // Approved=True, but no certificate
    | ApproveUnfetched(error: string, at: nat)
    | Deny                                              // Horizon denied: Denied=True
    | MarkAsDenied(at: nat)                             // Denied=True: Ready=False/Denied
    | Fail(error: string, at: nat)                      // the submission failed: Ready=False/Failed
    | Retry(error: string, at: nat)                     // any other error: Ready=False/Pending

  function Guard(f: set<Finalizer>, guarded: bool): set<Finalizer> {
    if guarded then f + {Ours} else f
  }

  function Approving(r: Request): Request {
    SetCondition(r, Approved, Yes, ByHorizon, ApprovedOnHorizon)
  }

  function WithCa(r: Request, ca: string): Request {
    if ca != "" then r.(status := r.status.(ca := ca)) else r
  }

  /** The stored request after a move. */
  function After(r: Request, m: Move): Request {
    match m
    case Idle => r
    case Revoke => r.(finalizers := r.finalizers - {Ours})
    case Register(id, guarded) => r.(annotations := r.annotations[RequestId := id], finalizers := Guard(r.finalizers, guarded))
    case Annotate(info, guarded) => r.(annotations := Issue(r.annotations, info), finalizers := Guard(r.finalizers, guarded))
    case Certify(chain, ca) =>
      var r1 := WithCa(Approving(r), ca);
      SetReady(r1.(status := r1.status.(certificate := chain)), Yes, Issued, Signed)
    case Approve(ca) => WithCa(Approving(r), ca)
    case ApproveUnfetched(error, at) => MarkError(Approving(r), error, at)
    case Deny => HandleDenied(r)
    case MarkAsDenied(at) => MarkDenied(r, at)
    case Fail(error, at) => MarkError(HandleFailed(r, error), error, at)
    case Retry(error, at) => MarkError(r, error, at)
  }

  /** A request that is still being worked on. */
  predicate IsOpen(r: Request) {
    !IsTerminal(r) && !IsDenied(r)
  }

  /** Where each move may start. */
  predicate Allowed(r: Request, m: Move) {
    match m
    case Idle => true
    case Revoke => r.deleting && Ours in r.finalizers
    case Register(_, guarded) => IsOpen(r) && !IsApproved(r) && !IsSubmitted(r) && (guarded ==> !r.deleting)
    case Annotate(info, guarded) =>
      IsOpen(r) && !IsApproved(r) && IsSubmitted(r) && Issue(r.annotations, info) != r.annotations && (guarded ==> !r.deleting)
    case Certify(chain, _) => IsOpen(r) && !IsApproved(r) && IsSubmitted(r) && chain != "" && CertificateId in r.annotations
    case Approve(_) => IsOpen(r) && !IsApproved(r) && IsSubmitted(r)
    case ApproveUnfetched(_, _) => IsOpen(r) && !IsApproved(r) && IsSubmitted(r)
    case Deny => IsOpen(r) && !IsApproved(r) && IsSubmitted(r)
    case MarkAsDenied(_) => !IsTerminal(r) && IsDenied(r)
    case Fail(_, _) => IsOpen(r) && !IsApproved(r) && !IsSubmitted(r)
    case Retry(_, _) => IsOpen(r)
  }

  // ----- Which move a reconcile makes -----

  function MoveOfChain(r: Request, info: CertificateInfo, chain: ChainReply, guarded: bool, now: nat): Move {
    match chain
    case FetchFailed(error) => ApproveUnfetched(error, now)
    case Fetched(certs) =>
      if TrustChain.Chain(certs) == "" then Approve(TrustChain.Ca(certs))
      else if Issue(r.annotations, info) != r.annotations then Annotate(info, guarded)
      else Certify(TrustChain.Chain(certs), TrustChain.Ca(certs))
  }

  function MoveOfPoll(r: Request, q: Replies, guarded: bool): Move {
    match q.poll
    case PollFailed(error) => Retry(error, q.now)
    case Polled(status, info) =>
      match status
      case Completed => MoveOfChain(r, info, q.chain, guarded, q.now)
      case PendingStatus => Idle
      case ApprovedStatus => Idle
      case DeniedStatus => Deny
      case Canceled => Deny
      case OtherStatus => Retry(q.text, q.now)
  }

  function MoveOfReply(reply: SubmitReply, guarded: bool, now: nat): Move {
    match reply
    case Accepted(id) => Register(id, guarded)
    case AnswerLost(error) => Fail(error, now)
    case Refused(error) => Fail(error, now)
  }

  predicate Renews(parent: Certificate) {
    LastCertificateId in parent.annotations && parent.issuing.Some?
    && parent.issuing.value in {ManuallyTriggered, Renewing, Expired}
  }

  function MoveOfSubmission(q: Replies, guarded: bool): Move {
    if q.parent.None? then Retry(q.text, q.now)
    else if q.parent.value.issuing.None? then Idle
    else if !Renews(q.parent.value) && q.template.None? then Fail(q.text, q.now)
    else MoveOfReply(q.submit, guarded, q.now)
  }

  function MoveOfProcess(r: Request, spec: IssuerSpec, q: Replies): Move {
    if IsDenied(r) then MarkAsDenied(q.now)
    else if !DnsPasses(spec, q) then Retry(q.text, q.now)
    else if IsApproved(r) then Idle
    else if IsSubmitted(r) then MoveOfPoll(r, q, spec.revokeCertificates)
    else MoveOfSubmission(q, spec.revokeCertificates)
  }

  function MoveOf(ns: string, r: Request, q: Replies): Move {
    match Enters(ns, r, q)
    case Leave(_) => Idle
    case Delete(_) => if Ours in r.finalizers && q.revokeOk then Revoke else Idle
    case Enter(client, _) => MoveOfProcess(r, client.spec, q)
  }

  // ----- Every reconcile makes its move -----

  /** `Update` keeps the stored status, and `Status().Update` keeps the stored metadata. */
  function Merged(live: Request, w: Write): Request {
    match w
    case NoWrite => live
    case MetaWrite(obj) => live.(annotations := obj.annotations, finalizers := obj.finalizers)
    case StatusWrite(obj) => live.(status := obj.status)
  }

  /** What the deferred block stores over the copy that was read. */
  function Kept(r: Request, guarded: bool, o: Outcome, now: nat): Request {
    Merged(r, WriteOf(r.(finalizers := Guard(r.finalizers, guarded)), Final(o, now)))
  }

  lemma KeepsMetadata(r: Request, guarded: bool, o: Outcome, now: nat)
    requires o.request.annotations != r.annotations
    ensures Kept(r, guarded, o, now) == r.(annotations := o.request.annotations, finalizers := o.request.finalizers)
  {
  }

  lemma KeepsStatus(r: Request, guarded: bool, o: Outcome, now: nat)
    requires o.request.annotations == r.annotations
    ensures Kept(r, guarded, o, now) == r.(status := Final(o, now).status)
  {
  }

  lemma ChainMakesMove(r: Request, client: Client, info: CertificateInfo, chain: ChainReply, guarded: bool, now: nat)
    ensures var r1 := r.(finalizers := Guard(r.finalizers, guarded));
            Kept(r, guarded, HandleCompleted(r1, client, info, chain), now) == After(r, MoveOfChain(r, info, chain, guarded, now))
  {
    var r1 := r.(finalizers := Guard(r.finalizers, guarded));
    var o := HandleCompleted(r1, client, info, chain);
    if chain.Fetched? && TrustChain.Chain(chain.certs) != "" && Issue(r.annotations, info) != r.annotations {
      KeepsMetadata(r, guarded, o, now);
    } else {
      KeepsStatus(r, guarded, o, now);
    }
  }

  lemma PollMakesMove(r: Request, client: Client, q: Replies, guarded: bool)
    requires IsSubmitted(r)
    ensures var r1 := r.(finalizers := Guard(r.finalizers, guarded));
            Kept(r, guarded, UpdateRequest(r1, client, q.poll, q.chain, q.text), q.now) == After(r, MoveOfPoll(r, q, guarded))
  {
    var r1 := r.(finalizers := Guard(r.finalizers, guarded));
    var o := UpdateRequest(r1, client, q.poll, q.chain, q.text);
    if q.poll.Polled? && q.poll.status.Completed? {
      ChainMakesMove(r, client, q.poll.certificate, q.chain, guarded, q.now);
      CallsDoNotMatter(r, guarded, o, HandleCompleted(r1, client, q.poll.certificate, q.chain), q.now);
    } else {
      KeepsStatus(r, guarded, o, q.now);
    }
  }

  lemma CallsDoNotMatter(r: Request, guarded: bool, o: Outcome, p: Outcome, now: nat)
    requires o.request == p.request && o.ending == p.ending
    ensures Kept(r, guarded, o, now) == Kept(r, guarded, p, now)
  {
  }

  /** A failed submission overwrites whatever was noted about the metadata before it. */
  lemma FailureOverwrites(r: Request, note: Message, error: string, now: nat)
    ensures MarkError(HandleFailed(SetReady(r, No, Pending, note), error), error, now) == MarkError(HandleFailed(r, error), error, now)
  {
    var a := HandleFailed(SetReady(r, No, Pending, note), error);
    var b := HandleFailed(r, error);
    assert MarkError(a, error, now).status.conditions == MarkError(b, error, now).status.conditions;
  }

  lemma FailureMakesMove(r: Request, guarded: bool, note: Option<Message>, calls: seq<Call>, error: string, now: nat)
    ensures var r1 := r.(finalizers := Guard(r.finalizers, guarded));
            var r2 := if note.Some? then SetReady(r1, No, Pending, note.value) else r1;
            Kept(r, guarded, Outcome(HandleFailed(r2, error), Error(error), calls), now) == After(r, Fail(error, now))
  {
    var r1 := r.(finalizers := Guard(r.finalizers, guarded));
    var r2 := if note.Some? then SetReady(r1, No, Pending, note.value) else r1;
    KeepsStatus(r, guarded, Outcome(HandleFailed(r2, error), Error(error), calls), now);
    if note.Some? {
      FailureOverwrites(r1, note.value, error, now);
    }
  }

  lemma ReplyMakesMove(r: Request, guarded: bool, note: Option<Message>, reply: SubmitReply, message: Message, calls: seq<Call>, now: nat)
    requires !IsSubmitted(r)
    ensures var r1 := r.(finalizers := Guard(r.finalizers, guarded));
            var r2 := if note.Some? then SetReady(r1, No, Pending, note.value) else r1;
            Kept(r, guarded, Submitted(r2, reply, message, calls), now) == After(r, MoveOfReply(reply, guarded, now))
  {
    var r1 := r.(finalizers := Guard(r.finalizers, guarded));
    var r2 := if note.Some? then SetReady(r1, No, Pending, note.value) else r1;
    match reply
    case Accepted(id) =>
      KeepsMetadata(r, guarded, Submitted(r2, reply, message, calls), now);
    case AnswerLost(error) => FailureMakesMove(r, guarded, note, calls, error, now);
    case Refused(error) => FailureMakesMove(r, guarded, note, calls, error, now);
  }

  lemma SubmissionMakesMove(r: Request, client: Client, q: Replies, guarded: bool)
    requires !IsSubmitted(r)
    ensures var r1 := r.(finalizers := Guard(r.finalizers, guarded));
            Kept(r, guarded, Submit(r1, client, q), q.now) == After(r, MoveOfSubmission(q, guarded))
  {
    var r1 := r.(finalizers := Guard(r.finalizers, guarded));
    if q.parent.None? || q.parent.value.issuing.None? {
      KeepsStatus(r, guarded, Submit(r1, client, q), q.now);
    } else if Renews(q.parent.value) {
      var lastId := q.parent.value.annotations[LastCertificateId];
      ReplyMakesMove(r, guarded, None, q.submit, SubmittedRenewal, [RenewCall(client, r1.spec.csr, lastId, q.submit)], q.now);
    } else {
      var note := if ReadMetadata(q.lookups).None? then Some(Text(q.text)) else None;
      if q.template.Some? {
        ReplyMakesMove(r, guarded, note, q.submit, SubmittedEnrolment,
                       [TemplateCall(client), EnrollCall(client, r1.spec.csr, Metadata.Sent(EnrolmentOf(q), q.template.value), q.submit)], q.now);
      } else {
        FailureMakesMove(r, guarded, note, [TemplateCall(client)], q.text, q.now);
      }
    }
  }

  lemma ProcessMakesMove(r: Request, client: Client, q: Replies)
    ensures var guarded := client.spec.revokeCertificates;
            var r1 := r.(finalizers := Guard(r.finalizers, guarded));
            Kept(r, guarded, Process(r1, client, q), q.now) == After(r, MoveOfProcess(r, client.spec, q))
  {
    var guarded := client.spec.revokeCertificates;
    var r1 := r.(finalizers := Guard(r.finalizers, guarded));
    if IsDenied(r) || !DnsPasses(client.spec, q) || IsApproved(r) {
      KeepsStatus(r, guarded, Process(r1, client, q), q.now);
    } else if IsSubmitted(r) {
      PollMakesMove(r, client, q, guarded);
    } else {
      SubmissionMakesMove(r, client, q, guarded);
    }
  }

  /** The main refinement: what a reconcile stores is what its move says, whatever the answers. */
  lemma ReconcileMakesMove(ns: string, r: Request, q: Replies)
    ensures Merged(r, Run(ns, r, q).write) == After(r, MoveOf(ns, r, q))
  {
    match Enters(ns, r, q)
    case Leave(_) =>
    case Delete(_) =>
    case Enter(client, r1) =>
      ProcessMakesMove(r, client, q);
      assert r1 == r.(finalizers := Guard(r.finalizers, client.spec.revokeCertificates));
  }

  /** And it is a move that its starting point allows. */
  lemma MoveIsAllowed(ns: string, r: Request, q: Replies)
    ensures Allowed(r, MoveOf(ns, r, q))
  {
    match Enters(ns, r, q)
    case Leave(_) =>
    case Delete(_) =>
    case Enter(client, r1) =>
      assert !IsTerminal(r) && (client.spec.revokeCertificates ==> !r.deleting);
      var m := MoveOfProcess(r, client.spec, q);
      if m.Certify? {
        IssueAt(r.annotations, q.poll.certificate, CertificateId);
      }
  }

  // ----- What is written, and what is called -----

  predicate SameIdentity(a: Request, b: Request) {
    a.uid == b.uid && a.version == b.version && a.spec == b.spec && a.deleting == b.deleting
  }

  lemma PollKeepsIdentity(r: Request, client: Client, q: Replies)
    requires IsSubmitted(r)
    ensures SameIdentity(UpdateRequest(r, client, q.poll, q.chain, q.text).request, r)
  {
  }

  /** The calls of a submission, and the request that an enrolment or a renewal starts from. */
  lemma SubmissionShape(r: Request, client: Client, q: Replies)
    ensures var o := Submit(r, client, q);
            && SameIdentity(o.request, r)
            && (|| o.calls == []
                || o.calls == [TemplateCall(client)]
                || (o.calls == [RenewCall(client, r.spec.csr, At(q.parent.value.annotations, LastCertificateId).GetOr(""), q.submit)]
                    && q.parent.Some? && Renews(q.parent.value))
                || (q.template.Some?
                    && o.calls == [TemplateCall(client), EnrollCall(client, r.spec.csr, Metadata.Sent(EnrolmentOf(q), q.template.value), q.submit)]))
  {
    if q.parent.Some? && q.parent.value.issuing.Some? {
      if Renews(q.parent.value) {
        var calls := [RenewCall(client, r.spec.csr, q.parent.value.annotations[LastCertificateId], q.submit)];
        SubmittedShape(r, q.submit, SubmittedRenewal, calls);
      } else if q.template.Some? {
        var r1 := if ReadMetadata(q.lookups).None? then SetReady(r, No, Pending, Text(q.text)) else r;
        var calls := [TemplateCall(client), EnrollCall(client, r.spec.csr, Metadata.Sent(EnrolmentOf(q), q.template.value), q.submit)];
        SubmittedShape(r1, q.submit, SubmittedEnrolment, calls);
      }
    }
  }

  lemma SubmittedShape(r: Request, reply: SubmitReply, message: Message, calls: seq<Call>)
    ensures var o := Submitted(r, reply, message, calls);
            o.calls == calls && SameIdentity(o.request, r)
  {
  }

  lemma SubmissionKeepsIdentity(r: Request, client: Client, q: Replies)
    ensures SameIdentity(Submit(r, client, q).request, r)
  {
    SubmissionShape(r, client, q);
  }

  lemma ProcessKeepsIdentity(r: Request, client: Client, q: Replies)
    ensures SameIdentity(Process(r, client, q).request, r)
  {
    if IsDenied(r) || !DnsPasses(client.spec, q) || IsApproved(r) {
    } else if IsSubmitted(r) {
      PollKeepsIdentity(r, client, q);
    } else {
      SubmissionKeepsIdentity(r, client, q);
    }
  }

  /** A reconcile writes the object it read, from the version it read. */
  lemma WriteKeepsIdentity(ns: string, r: Request, q: Replies)
    ensures var w := Run(ns, r, q).write;
            !w.NoWrite? ==> SameIdentity(w.request, r)
  {
    match Enters(ns, r, q)
    case Leave(_) =>
    case Delete(_) =>
    case Enter(client, r1) =>
      ProcessKeepsIdentity(r1, client, q);
      WriteIsFinal(r1, Process(r1, client, q), q.now);
  }

  lemma WriteIsFinal(r: Request, o: Outcome, now: nat)
    ensures var w := Finish(r, o, now).write;
            !w.NoWrite? && SameIdentity(w.request, o.request)
  {
  }

  /** The submissions among some calls that Horizon accepted. */
  function AcceptedCount(calls: seq<Call>): nat {
    if calls == [] then 0
    else AcceptedCount(calls[..|calls| - 1]) + if AcceptedByHorizon(calls[|calls| - 1]) then 1 else 0
  }

  function ClientOf(ns: string, r: Request, q: Replies): Client
    requires q.issuer.Some?
  {
    Client(q.issuer.value.key, q.issuer.value.spec, SecretOfRequest(ns, r, q.issuer.value))
  }

  lemma AcceptedOfOne(c: Call)
    ensures AcceptedCount([c]) == if AcceptedByHorizon(c) then 1 else 0
  {
    assert [c][..0] == [];
  }

  lemma AcceptedOfTwo(c: Call, d: Call)
    ensures AcceptedCount([c, d]) == (if AcceptedByHorizon(c) then 1 else 0) + if AcceptedByHorizon(d) then 1 else 0
  {
    assert [c, d][..1] == [c];
    AcceptedOfOne(c);
  }

  lemma PollSubmitsNothing(r: Request, client: Client, q: Replies)
    requires IsSubmitted(r)
    ensures var calls := UpdateRequest(r, client, q.poll, q.chain, q.text).calls;
            AcceptedCount(calls) == 0 && forall c :: c in calls ==> !IsSubmission(c)
  {
    AcceptedOfOne(PollCall(client, r.annotations[RequestId], q.poll));
    if q.poll.Polled? {
      AcceptedOfTwo(PollCall(client, r.annotations[RequestId], q.poll), ChainCall(client, q.poll.certificate.text));
    }
  }

  lemma SubmissionSubmitsOnce(r: Request, client: Client, q: Replies, guarded: bool)
    ensures var n := AcceptedCount(Submit(r, client, q).calls);
            var m := MoveOfSubmission(q, guarded);
            n <= 1 && (m.Register? ==> n == 1) && (n == 1 ==> m.Register? || m.Fail?)
  {
    if q.parent.Some? && q.parent.value.issuing.Some? {
      AcceptedOfOne(RenewCall(client, r.spec.csr, At(q.parent.value.annotations, LastCertificateId).GetOr(""), q.submit));
      AcceptedOfOne(TemplateCall(client));
      if q.template.Some? {
        AcceptedOfTwo(TemplateCall(client), EnrollCall(client, r.spec.csr, Metadata.Sent(EnrolmentOf(q), q.template.value), q.submit));
      }
    }
  }

  /** A reconcile submits at most once. If it registers a request id, Horizon accepted a submission in
      it; if Horizon accepted one and no id is registered, the answer was lost and the request fails. */
  lemma SubmissionsOfMove(ns: string, r: Request, q: Replies)
    ensures var n, m := AcceptedCount(Run(ns, r, q).calls), MoveOf(ns, r, q);
            n <= 1 && (m.Register? ==> n == 1) && (n == 1 ==> m.Register? || m.Fail?)
  {
    match Enters(ns, r, q)
    case Leave(_) =>
    case Delete(client) => AcceptedOfOne(RevokeCall(client, r.status.certificate, q.revokeOk));
    case Enter(client, r1) =>
      if IsDenied(r1) || !DnsPasses(client.spec, q) || IsApproved(r1) {
      } else if IsSubmitted(r1) {
        PollSubmitsNothing(r1, client, q);
      } else {
        SubmissionSubmitsOnce(r1, client, q, client.spec.revokeCertificates);
      }
  }

  /** A reconcile that read a request id does not submit, nor does one that read a closed request. */
  lemma SubmittersAreOpen(ns: string, r: Request, q: Replies, c: Call)
    requires c in Run(ns, r, q).calls && IsSubmission(c)
    ensures IsOpen(r) && !IsSubmitted(r) && !IsApproved(r)
  {
    match Enters(ns, r, q)
    case Leave(_) =>
    case Delete(_) =>
    case Enter(client, r1) =>
      if IsSubmitted(r1) {
        PollSubmitsNothing(r1, client, q);
      }
  }

  lemma PollUsesClient(r: Request, client: Client, q: Replies)
    requires IsSubmitted(r)
    ensures forall c :: c in UpdateRequest(r, client, q.poll, q.chain, q.text).calls ==> c.client == client
  {
  }

  lemma SubmissionUsesClient(r: Request, client: Client, q: Replies)
    ensures forall c :: c in Submit(r, client, q).calls ==> c.client == client
  {
    SubmissionShape(r, client, q);
  }

  /** Every call of a reconcile goes through the client built from the Issuer it read, which it found
      ready; and a submission passed the DNS checks of that Issuer. */
  lemma CallsUseReadyIssuer(ns: string, r: Request, q: Replies, c: Call)
    requires c in Run(ns, r, q).calls
    ensures q.issuer.Some? && Has(q.issuer.value.conditions, Ready, Yes) && c.client == ClientOf(ns, r, q)
    ensures IsSubmission(c) ==> DnsPasses(q.issuer.value.spec, q)
  {
    match Enters(ns, r, q)
    case Leave(_) =>
    case Delete(_) =>
    case Enter(client, r1) =>
      if IsSubmitted(r1) {
        PollUsesClient(r1, client, q);
        PollSubmitsNothing(r1, client, q);
      }
      SubmissionUsesClient(r1, client, q);
  }

  /** Only a revocation that Horizon accepted removes the finalizer. */
  lemma RevokeIsAccepted(ns: string, r: Request, q: Replies)
    requires MoveOf(ns, r, q).Revoke?
    ensures exists c :: c in Run(ns, r, q).calls && c.RevokeCall? && c.accepted && c.certificate == r.status.certificate
  {
    match Enters(ns, r, q)
    case Delete(client) => assert RevokeCall(client, r.status.certificate, true) in Run(ns, r, q).calls;
  }

  lemma SubmissionRenews(r: Request, client: Client, q: Replies, c: Call)
    requires c in Submit(r, client, q).calls && c.RenewCall?
    ensures q.parent.Some? && Renews(q.parent.value) && c.lastCertificateId == q.parent.value.annotations[LastCertificateId]
  {
    SubmissionShape(r, client, q);
  }

  /** A submitting call is made by the submission, not by a poll. */
  lemma SubmittersSubmit(ns: string, r: Request, q: Replies, c: Call)
    requires c in Run(ns, r, q).calls && IsSubmission(c)
    ensures Enters(ns, r, q).Enter?
    ensures var e := Enters(ns, r, q); c in Submit(e.request, e.client, q).calls
  {
    match Enters(ns, r, q)
    case Leave(_) =>
    case Delete(_) =>
    case Enter(client, r1) =>
      if IsSubmitted(r1) {
        PollSubmitsNothing(r1, client, q);
      }
  }

  /** A renewal names the last certificate id of the parent Certificate that was read. */
  lemma RenewalNamesParent(ns: string, r: Request, q: Replies, c: Call)
    requires c in Run(ns, r, q).calls && c.RenewCall?
    ensures q.parent.Some? && At(q.parent.value.annotations, LastCertificateId) == Some(c.lastCertificateId)
    ensures q.parent.value.issuing.Some? && q.parent.value.issuing.value in {ManuallyTriggered, Renewing, Expired}
  {
    SubmittersSubmit(ns, r, q, c);
    SubmissionRenews(Enters(ns, r, q).request, Enters(ns, r, q).client, q, c);
  }

  /** The answer behind an issuance: Horizon said completed, and gave a chain that is not empty. */
  predicate Completes(q: Replies, info: CertificateInfo) {
    && q.poll == Polled(Completed, info)
    && q.chain.Fetched?
    && TrustChain.Chain(q.chain.certs) != ""
  }

  /** Annotating and certifying both follow a poll for the registered id that was answered in full. */
  lemma IssuanceFollowsPoll(ns: string, r: Request, q: Replies)
    ensures var e, m := Run(ns, r, q), MoveOf(ns, r, q);
            && (m.Annotate? ==> Completes(q, m.info))
            && (m.Certify? ==>
                  && q.poll.Polled? && Completes(q, q.poll.certificate)
                  && m.chain == TrustChain.Chain(q.chain.certs) && m.ca == TrustChain.Ca(q.chain.certs)
                  && Issue(r.annotations, q.poll.certificate) == r.annotations)
            && (m.Annotate? || m.Certify? ==>
                  IsSubmitted(r) && q.issuer.Some? && PollCall(ClientOf(ns, r, q), r.annotations[RequestId], q.poll) in e.calls)
  {
    match Enters(ns, r, q)
    case Leave(_) =>
    case Delete(_) =>
    case Enter(client, r1) =>
      var m := MoveOfProcess(r, client.spec, q);
      if m.Annotate? || m.Certify? {
        assert IsSubmitted(r1) && Process(r1, client, q) == UpdateRequest(r1, client, q.poll, q.chain, q.text);
      }
  }

  /** The id offered to the parent Certificate is the one on the request, or the one just returned. */
  lemma ParentIdComesFromRequest(ns: string, r: Request, q: Replies)
    ensures var e, m := Run(ns, r, q), MoveOf(ns, r, q);
            e.parent.ParentWrite? ==>
              e.parent.id != ""
              && (At(r.annotations, CertificateId) == Some(e.parent.id) || (m.Annotate? && m.info.id == e.parent.id))
  {
    match Enters(ns, r, q)
    case Leave(_) =>
    case Delete(_) =>
    case Enter(client, r1) =>
      ParentIdOfProcess(r, client, q);
  }

  lemma ParentIdOfProcess(r: Request, client: Client, q: Replies)
    ensures var r1 := r.(finalizers := Guard(r.finalizers, client.spec.revokeCertificates));
            var after, m := Process(r1, client, q).request, MoveOfProcess(r, client.spec, q);
            At(after.annotations, CertificateId) == if m.Annotate? then Some(m.info.id) else At(r.annotations, CertificateId)
  {
    var r1 := r.(finalizers := Guard(r.finalizers, client.spec.revokeCertificates));
    if IsDenied(r) || !DnsPasses(client.spec, q) || IsApproved(r) {
    } else if IsSubmitted(r) {
      if q.poll.Polled? {
        IssueAt(r.annotations, q.poll.certificate, CertificateId);
      }
    } else {
      SubmissionWritesId(r1, client, q, CertificateId);
    }
  }

  lemma SubmittedWritesId(r: Request, reply: SubmitReply, message: Message, calls: seq<Call>, k: Key)
    requires k != RequestId
    ensures At(Submitted(r, reply, message, calls).request.annotations, k) == At(r.annotations, k)
  {
  }

  /** A submission writes no annotation but the request id. */
  lemma SubmissionWritesId(r: Request, client: Client, q: Replies, k: Key)
    requires k != RequestId
    ensures At(Submit(r, client, q).request.annotations, k) == At(r.annotations, k)
  {
    if q.parent.Some? && q.parent.value.issuing.Some? {
      if Renews(q.parent.value) {
        var lastId := q.parent.value.annotations[LastCertificateId];
        SubmittedWritesId(r, q.submit, SubmittedRenewal, [RenewCall(client, r.spec.csr, lastId, q.submit)], k);
      } else if q.template.Some? {
        var r1 := if ReadMetadata(q.lookups).None? then SetReady(r, No, Pending, Text(q.text)) else r;
        SubmittedWritesId(r1, q.submit, SubmittedEnrolment,
                          [TemplateCall(client), EnrollCall(client, r1.spec.csr, Metadata.Sent(EnrolmentOf(q), q.template.value), q.submit)], k);
      }
    }
  }

  /** After a poll the parent is offered the certificate id of the object that was written. */
  lemma PollOffersWrittenId(ns: string, r: Request, q: Replies, c: Call)
    requires c in Run(ns, r, q).calls && c.PollCall?
    ensures var e := Run(ns, r, q);
            !e.write.NoWrite? && e.parent == ParentWriteOf(e.write.request)
  {
  }
}
