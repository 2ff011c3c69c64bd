/** One reconcile of a CertificateRequest from its answers to its effects, case by case and written out:
    when the body is reached, how it ends, what it calls, what it stores, and what the parent is offered. */
module Behaviour {
  import opened Options
  import opened Keys
  import opened Model
  import opened RequestStep
  import opened Protocol
  import opened Issuance
  import Metadata
  import TrustChain

  // ----- Names -----

  /** The Issuer and the Certificate that a request names. */
  lemma NamesOfRequest(r: Request)
    ensures forall name :: r.spec.issuerRef == IssuerRef(name) ==> IssuerKeyOf(r) == Some(Issuer(r.spec.ns, name))
    ensures forall name :: r.spec.issuerRef == ClusterIssuerRef(name) ==> IssuerKeyOf(r) == Some(ClusterIssuer(name))
    ensures r.spec.issuerRef == UnknownKind ==> IssuerKeyOf(r) == None
    ensures CertificateName in r.annotations ==> CertKeyOf(r) == CertKey(r.spec.ns, r.annotations[CertificateName])
    ensures CertificateName !in r.annotations ==> CertKeyOf(r) == CertKey(r.spec.ns, "")
  {
  }

  // ----- Before the body -----

  /** The body is reached exactly by a request of our group whose Issuer is ready, whose Secret and client
      are there, that is not one to be revoked, and that is not Ready, Failed or Denied yet. */
  lemma EntersExactly(ns: string, r: Request, q: Replies)
    ensures Enters(ns, r, q).Enter? <==>
            && r.spec.ours && r.spec.issuerRef != UnknownKind && q.issuer.Some?
            && Ready in q.issuer.value.conditions && q.issuer.value.conditions[Ready].status == Yes
            && q.secretFound && q.clientBuilt
            && !(q.issuer.value.spec.revokeCertificates && r.deleting)
            && !(Ready in r.status.conditions && r.status.conditions[Ready].status == Yes)
            && !(Ready in r.status.conditions && r.status.conditions[Ready].status == No
                 && r.status.conditions[Ready].reason in {Failed, DeniedReason})
    ensures Enters(ns, r, q).Enter? ==>
              var spec := q.issuer.value.spec;
              Enters(ns, r, q) == Enter(Client(q.issuer.value.key, spec, SecretRef(if r.spec.issuerRef.IssuerRef? then r.spec.ns else ns, spec.authSecretName)),
                                        r.(finalizers := if spec.revokeCertificates then r.finalizers + {Ours} else r.finalizers))
  {
  }

  /** A request that is to be revoked is handled by itself: without our finalizer nothing happens, a
      refused revocation is an error, and an accepted one takes our finalizer off and no other. */
  lemma DeletesExactly(ns: string, r: Request, q: Replies)
    requires r.spec.ours && r.spec.issuerRef != UnknownKind && q.issuer.Some?
    requires Ready in q.issuer.value.conditions && q.issuer.value.conditions[Ready].status == Yes
    requires q.secretFound && q.clientBuilt && q.issuer.value.spec.revokeCertificates && r.deleting
    ensures Ours !in r.finalizers ==> Run(ns, r, q) == Effects([], NoWrite, NoParentWrite, Done)
    ensures Ours in r.finalizers ==>
              var spec := q.issuer.value.spec;
              var client := Client(q.issuer.value.key, spec, SecretRef(if r.spec.issuerRef.IssuerRef? then r.spec.ns else ns, spec.authSecretName));
              var revoke := RevokeCall(client, r.status.certificate, q.revokeOk);
              Run(ns, r, q) == if q.revokeOk then Effects([revoke], MetaWrite(r.(finalizers := r.finalizers - {Ours})), NoParentWrite, Done)
                               else Effects([revoke], NoWrite, NoParentWrite, Error(q.text))
  {
  }

  /** In every other case nothing is called or written; it is an error exactly if a request of our group
      names an unknown kind or an Issuer that is not found, or its Issuer is ready but the Secret or the
      client is missing. */
  lemma LeavesExactly(ns: string, r: Request, q: Replies)
    requires !Enters(ns, r, q).Enter? && !Enters(ns, r, q).Delete?
    ensures var e := Run(ns, r, q);
            && e.calls == [] && e.write == NoWrite && e.parent == NoParentWrite
            && e.ending == if r.spec.ours
                              && (|| r.spec.issuerRef == UnknownKind || q.issuer.None?
                                  || (Ready in q.issuer.value.conditions && q.issuer.value.conditions[Ready].status == Yes
                                      && !(q.secretFound && q.clientBuilt)))
                           then Error(q.text) else Done
  {
  }

  /** Only a request of our group is revoked, and the two cases above exclude each other. */
  lemma DeleteOnlyThen(ns: string, r: Request, q: Replies)
    ensures Enters(ns, r, q).Delete? <==>
            && r.spec.ours && r.spec.issuerRef != UnknownKind && q.issuer.Some?
            && Ready in q.issuer.value.conditions && q.issuer.value.conditions[Ready].status == Yes
            && q.secretFound && q.clientBuilt && q.issuer.value.spec.revokeCertificates && r.deleting
  {
  }

  // ----- The order of the body -----

  /** The body is reached, and gets as far as the poll or the submission: the request is not denied, every
      name of the CSR resolves if the Issuer has a DNS checker, and the request is not approved. */
  predicate Proceeds(ns: string, r: Request, q: Replies) {
    && Enters(ns, r, q).Enter?
    && !(Denied in r.status.conditions && r.status.conditions[Denied].status == Yes)
    && (q.issuer.value.spec.dnsChecker ==> q.dnsNames.Some? && forall name :: name in q.dnsNames.value ==> name in q.resolvable)
    && !(Approved in r.status.conditions && r.status.conditions[Approved].status == Yes)
  }

  lemma DnsPassesExactly(spec: IssuerSpec, q: Replies)
    ensures DnsPasses(spec, q) <==> (spec.dnsChecker ==> q.dnsNames.Some? && forall name :: name in q.dnsNames.value ==> name in q.resolvable)
  {
  }

  /** A denied request is marked, without a call, whatever the names in its CSR. */
  lemma DeniedEnds(ns: string, r: Request, q: Replies)
    requires Enters(ns, r, q).Enter? && Denied in r.status.conditions && r.status.conditions[Denied].status == Yes
    ensures Run(ns, r, q).ending == Done && Run(ns, r, q).calls == []
    ensures Merged(r, Run(ns, r, q).write)
            == r.(status := r.status.(conditions := r.status.conditions[Ready := Condition(No, DeniedReason, DeniedByApprover)],
                                      failureTime := if r.status.failureTime.None? then Some(q.now) else r.status.failureTime))
  {
    ReconcileMakesMove(ns, r, q);
  }

  /** One name that does not resolve, or a CSR that does not decode, is an error before any call. */
  lemma UnresolvedEnds(ns: string, r: Request, q: Replies)
    requires Enters(ns, r, q).Enter? && !(Denied in r.status.conditions && r.status.conditions[Denied].status == Yes)
    requires q.issuer.value.spec.dnsChecker && (q.dnsNames.None? || exists name :: name in q.dnsNames.value && name !in q.resolvable)
    ensures Run(ns, r, q).ending == Error(q.text) && Run(ns, r, q).calls == []
  {
    DnsPassesExactly(q.issuer.value.spec, q);
  }

  /** An approved request is left as it is, without a call. */
  lemma ApprovedEnds(ns: string, r: Request, q: Replies)
    requires Enters(ns, r, q).Enter? && !(Denied in r.status.conditions && r.status.conditions[Denied].status == Yes)
    requires q.issuer.value.spec.dnsChecker ==> q.dnsNames.Some? && forall name :: name in q.dnsNames.value ==> name in q.resolvable
    requires Approved in r.status.conditions && r.status.conditions[Approved].status == Yes
    ensures Run(ns, r, q).ending == Done && Run(ns, r, q).calls == [] && Merged(r, Run(ns, r, q).write) == r
  {
    ReconcileMakesMove(ns, r, q);
    DnsPassesExactly(q.issuer.value.spec, q);
  }

  lemma ProceedsIsProcess(ns: string, r: Request, q: Replies)
    requires Proceeds(ns, r, q)
    ensures var e := Enters(ns, r, q);
            && IsSubmitted(e.request) == (RequestId in r.annotations)
            && e.request.annotations == r.annotations && e.request.spec == r.spec && e.request.status == r.status
            && Run(ns, r, q) == Finish(e.request, if IsSubmitted(e.request) then UpdateRequest(e.request, e.client, q.poll, q.chain, q.text)
                                                  else Submit(e.request, e.client, q), q.now)
  {
    DnsPassesExactly(q.issuer.value.spec, q);
  }

  // ----- A submitted request: the poll -----

  /** How a poll ends: an error exactly if the poll fails, if Horizon gives a status that is not one of the
      five, or if it completed the request and the chain cannot be fetched; and a later retry exactly
      if Horizon has not decided. */
  lemma PollEnds(ns: string, r: Request, q: Replies)
    requires Proceeds(ns, r, q) && RequestId in r.annotations
    ensures Run(ns, r, q).ending
            == match q.poll
               case PollFailed(error) => Error(error)
               case Polled(status, _) =>
                 if status == OtherStatus then Error(q.text)
                 else if status == PendingStatus || status == ApprovedStatus then Requeue
                 else if status == Completed && q.chain.FetchFailed? then Error(q.chain.text)
                 else Done
  {
    ProceedsIsProcess(ns, r, q);
  }

  lemma PollErrors(ns: string, r: Request, q: Replies)
    requires Proceeds(ns, r, q) && RequestId in r.annotations
    ensures Run(ns, r, q).ending.Error? <==>
            q.poll.PollFailed? || q.poll.status == OtherStatus || (q.poll.status == Completed && q.chain.FetchFailed?)
  {
    PollEnds(ns, r, q);
  }

  /** What a poll calls: the registered id is asked for, and the chain of the certificate that was
      returned, if the request is completed. */
  lemma PollCalls(ns: string, r: Request, q: Replies)
    requires Proceeds(ns, r, q) && RequestId in r.annotations
    ensures var client := Enters(ns, r, q).client;
            Run(ns, r, q).calls
            == [PollCall(client, r.annotations[RequestId], q.poll)]
               + if q.poll.Polled? && q.poll.status == Completed then [ChainCall(client, q.poll.certificate.text)] else []
  {
    ProceedsIsProcess(ns, r, q);
  }

  /** What a poll stores, if Horizon has not completed the request. */
  lemma PollStores(ns: string, r: Request, q: Replies)
    requires Proceeds(ns, r, q) && RequestId in r.annotations && q.poll.Polled?
    ensures q.poll.status == PendingStatus || q.poll.status == ApprovedStatus ==> Merged(r, Run(ns, r, q).write) == r
    ensures q.poll.status == DeniedStatus || q.poll.status == Canceled ==>
              Merged(r, Run(ns, r, q).write)
              == r.(status := r.status.(conditions := r.status.conditions[Denied := Condition(Yes, ByHorizon, DeniedOnHorizon)]))
  {
    ReconcileMakesMove(ns, r, q);
    DnsPassesExactly(q.issuer.value.spec, q);
  }

  /** What a completed poll stores: Approved in any case but the first of two; with a chain that is not
      empty, first the annotations, as an update of the metadata only, and once they are there the
      certificate, the CA and Ready, as an update of the status only. */
  lemma CompletedStores(ns: string, r: Request, q: Replies)
    requires Proceeds(ns, r, q) && RequestId in r.annotations && q.poll.Polled? && q.poll.status == Completed && q.chain.Fetched?
    ensures var chain, ca, stored := TrustChain.Chain(q.chain.certs), TrustChain.Ca(q.chain.certs), Merged(r, Run(ns, r, q).write);
            var approved := r.status.conditions[Approved := Condition(Yes, ByHorizon, ApprovedOnHorizon)];
            var caNow := if ca != "" then ca else r.status.ca;
            var issued := Issue(r.annotations, q.poll.certificate);
            && (chain == "" ==> stored == r.(status := r.status.(conditions := approved, ca := caNow)))
            && (chain != "" && issued != r.annotations ==>
                  stored == r.(annotations := issued, finalizers := Enters(ns, r, q).request.finalizers))
            && (chain != "" && issued == r.annotations ==>
                  stored == r.(status := r.status.(conditions := approved[Ready := Condition(Yes, Issued, Signed)], certificate := chain, ca := caNow)))
  {
    ReconcileMakesMove(ns, r, q);
    DnsPassesExactly(q.issuer.value.spec, q);
    CompletedMoves(r, q, q.issuer.value.spec.revokeCertificates);
  }

  /** The object that is written when a request is completed has the annotations, the certificate and the
      conditions all at once; the API server keeps one half of it. */
  lemma CompletedWrites(ns: string, r: Request, q: Replies)
    requires Proceeds(ns, r, q) && RequestId in r.annotations && q.poll.Polled? && q.poll.status == Completed && q.chain.Fetched?
    requires TrustChain.Chain(q.chain.certs) != ""
    ensures var ca := TrustChain.Ca(q.chain.certs);
            Run(ns, r, q).write.request
            == Enters(ns, r, q).request.(
                 annotations := Issue(r.annotations, q.poll.certificate),
                 status := r.status.(conditions := r.status.conditions[Approved := Condition(Yes, ByHorizon, ApprovedOnHorizon)]
                                                                      [Ready := Condition(Yes, Issued, Signed)],
                                     certificate := TrustChain.Chain(q.chain.certs),
                                     ca := if ca != "" then ca else r.status.ca))
  {
    ProceedsIsProcess(ns, r, q);
    WritesExactly(ns, r, q);
  }

  lemma CompletedMoves(r: Request, q: Replies, guarded: bool)
    requires q.poll.Polled? && q.poll.status == Completed && q.chain.Fetched?
    ensures var chain, ca := TrustChain.Chain(q.chain.certs), TrustChain.Ca(q.chain.certs);
            MoveOfPoll(r, q, guarded) == if chain == "" then Approve(ca)
                                         else if Issue(r.annotations, q.poll.certificate) != r.annotations then Annotate(q.poll.certificate, guarded)
                                         else Certify(chain, ca)
  {
  }

  /** A key that issuance writes gets what Horizon returned for it, and every other key stays. */
  lemma IssueWrites(a: Annotations, c: CertificateInfo, i: nat, k: Key)
    ensures var b := Issue(a, c);
            && CertificateId in b && b[CertificateId] == c.id
            && Owner in b && b[Owner] == c.owner && Team in b && b[Team] == c.team
            && ContactEmail in b && b[ContactEmail] == c.contactEmail
    ensures i < |c.labels| && (forall j :: i < j < |c.labels| ==> c.labels[j].0 != c.labels[i].0) ==>
              Label(c.labels[i].0) in Issue(a, c) && Issue(a, c)[Label(c.labels[i].0)] == c.labels[i].1
    ensures k !in {CertificateId, Owner, Team, ContactEmail} && (forall j :: 0 <= j < |c.labels| ==> k != Label(c.labels[j].0)) ==>
              (k in Issue(a, c) <==> k in a) && (k in a ==> Issue(a, c)[k] == a[k])
  {
    IssueAt(a, c, CertificateId);
    IssueAt(a, c, Owner);
    IssueAt(a, c, Team);
    IssueAt(a, c, ContactEmail);
    IssueAt(a, c, k);
    if k.Label? {
      LastValueOf(c.labels, k.name);
    }
    if i < |c.labels| {
      IssueAt(a, c, Label(c.labels[i].0));
      if forall j :: i < j < |c.labels| ==> c.labels[j].0 != c.labels[i].0 {
        LastValueIs(c.labels, i);
      }
    }
  }

  lemma {:induction false} LastValueIs(labels: seq<(string, string)>, i: nat)
    requires i < |labels| && forall j :: i < j < |labels| ==> labels[j].0 != labels[i].0
    ensures LastValue(labels, labels[i].0) == Some(labels[i].1)
  {
    if i < |labels| - 1 {
      LastValueIs(labels[..|labels| - 1], i);
    }
  }

  // ----- A request that is not submitted: the submission -----

  /** A renewal is called for by the parent exactly if it has a last certificate id and is being issued
      because of a manual trigger, a renewal or an expiry. */
  lemma RenewsExactly(parent: Certificate)
    ensures Renews(parent) <==>
            && LastCertificateId in parent.annotations && parent.issuing.Some?
            && (parent.issuing.value == ManuallyTriggered || parent.issuing.value == Renewing || parent.issuing.value == Expired)
  {
  }

  /** How a submission ends: an error exactly if the parent is not found, if Horizon gives no template for
      an enrolment, or if the submission is refused or its answer lost. */
  lemma SubmissionEnds(ns: string, r: Request, q: Replies)
    requires Proceeds(ns, r, q) && RequestId !in r.annotations
    ensures Run(ns, r, q).ending
            == if q.parent.None? then Error(q.text)
               else if q.parent.value.issuing.None? then Panic
               else if q.template.None?
                       && !(LastCertificateId in q.parent.value.annotations
                            && q.parent.value.issuing.value in {ManuallyTriggered, Renewing, Expired})
               then Error(q.text)
               else match q.submit case Accepted(_) => Done case AnswerLost(error) => Error(error) case Refused(error) => Error(error)
  {
    ProceedsIsProcess(ns, r, q);
    SubmitEnds(Enters(ns, r, q).request, Enters(ns, r, q).client, q);
  }

  lemma SubmissionErrors(ns: string, r: Request, q: Replies)
    requires Proceeds(ns, r, q) && RequestId !in r.annotations
    ensures Run(ns, r, q).ending.Error? <==>
            || q.parent.None?
            || (q.parent.value.issuing.Some?
                && (|| !q.submit.Accepted?
                    || (q.template.None?
                        && !(LastCertificateId in q.parent.value.annotations
                             && q.parent.value.issuing.value in {ManuallyTriggered, Renewing, Expired}))))
  {
    SubmissionEnds(ns, r, q);
    SubmissionErrorsOf(q, Run(ns, r, q).ending);
  }

  lemma SubmissionErrorsOf(q: Replies, ending: Ending)
    requires ending
             == if q.parent.None? then Error(q.text)
                else if q.parent.value.issuing.None? then Panic
                else if q.template.None?
                        && !(LastCertificateId in q.parent.value.annotations
                             && q.parent.value.issuing.value in {ManuallyTriggered, Renewing, Expired})
                then Error(q.text)
                else match q.submit case Accepted(_) => Done case AnswerLost(error) => Error(error) case Refused(error) => Error(error)
    ensures ending.Error? <==>
            || q.parent.None?
            || (q.parent.value.issuing.Some?
                && (|| !q.submit.Accepted?
                    || (q.template.None?
                        && !(LastCertificateId in q.parent.value.annotations
                             && q.parent.value.issuing.value in {ManuallyTriggered, Renewing, Expired}))))
  {
  }

  lemma SubmitEnds(r: Request, client: Client, q: Replies)
    ensures Submit(r, client, q).ending
            == if q.parent.None? then Error(q.text)
               else if q.parent.value.issuing.None? then Panic
               else if q.template.None? && !Renews(q.parent.value) then Error(q.text)
               else match q.submit case Accepted(_) => Done case AnswerLost(error) => Error(error) case Refused(error) => Error(error)
  {
    if q.parent.Some? && q.parent.value.issuing.Some? {
      if Renews(q.parent.value) {
        SubmittedEnds(r, q.submit, SubmittedRenewal, []);
      } else if q.template.Some? {
        EnrolmentEnds(if ReadMetadata(q.lookups).None? then SetReady(r, No, Pending, Text(q.text)) else r,
                      client, EnrolmentOf(q), q.template, q.submit, q.text);
      }
    }
  }

  lemma SubmittedEnds(r: Request, reply: SubmitReply, message: Message, calls: seq<Call>)
    ensures Submitted(r, reply, message, calls).ending
            == match reply case Accepted(_) => Done case AnswerLost(error) => Error(error) case Refused(error) => Error(error)
  {
  }

  lemma EnrolmentEnds(r: Request, client: Client, args: Metadata.Meta, template: Option<Metadata.Meta>, reply: SubmitReply, text: string)
    ensures SubmitEnroll(r, client, args, template, reply, text).ending
            == if template.None? then Error(text)
               else match reply case Accepted(_) => Done case AnswerLost(error) => Error(error) case Refused(error) => Error(error)
  {
  }

  /** What a submission calls: a renewal of the last certificate id exactly if the parent calls for one,
      and otherwise the template and, if there is one, the enrolment; always with the request's CSR. */
  lemma SubmissionCalls(ns: string, r: Request, q: Replies)
    requires Proceeds(ns, r, q) && RequestId !in r.annotations
    ensures var client, calls := Enters(ns, r, q).client, Run(ns, r, q).calls;
            if q.parent.None? || q.parent.value.issuing.None? then calls == []
            else if LastCertificateId in q.parent.value.annotations && q.parent.value.issuing.value in {ManuallyTriggered, Renewing, Expired}
            then calls == [RenewCall(client, r.spec.csr, q.parent.value.annotations[LastCertificateId], q.submit)]
            else if q.template.None? then calls == [TemplateCall(client)]
            else calls == [TemplateCall(client), EnrollCall(client, r.spec.csr, Metadata.Sent(EnrolmentOf(q), q.template.value), q.submit)]
  {
    ProceedsIsProcess(ns, r, q);
    SubmitCalls(Enters(ns, r, q).request, Enters(ns, r, q).client, q);
  }

  lemma SubmitCalls(r: Request, client: Client, q: Replies)
    ensures var calls := Submit(r, client, q).calls;
            if q.parent.None? || q.parent.value.issuing.None? then calls == []
            else if Renews(q.parent.value)
            then calls == [RenewCall(client, r.spec.csr, q.parent.value.annotations[LastCertificateId], q.submit)]
            else if q.template.None? then calls == [TemplateCall(client)]
            else calls == [TemplateCall(client), EnrollCall(client, r.spec.csr, Metadata.Sent(EnrolmentOf(q), q.template.value), q.submit)]
  {
    if q.parent.Some? && q.parent.value.issuing.Some? {
      if Renews(q.parent.value) {
        SubmittedShape(r, q.submit, SubmittedRenewal, [RenewCall(client, r.spec.csr, q.parent.value.annotations[LastCertificateId], q.submit)]);
      } else if q.template.Some? {
        var r1 := if ReadMetadata(q.lookups).None? then SetReady(r, No, Pending, Text(q.text)) else r;
        SubmittedShape(r1, q.submit, SubmittedEnrolment,
                       [TemplateCall(client), EnrollCall(client, r.spec.csr, Metadata.Sent(EnrolmentOf(q), q.template.value), q.submit)]);
      }
    }
  }

  /** Only a request that gets this far without an id is submitted. */
  lemma SubmittersProceed(ns: string, r: Request, q: Replies, c: Call)
    requires c in Run(ns, r, q).calls && (c.EnrollCall? || c.RenewCall?)
    ensures Proceeds(ns, r, q) && RequestId !in r.annotations
  {
    SubmittersSubmit(ns, r, q, c);
    CallsUseReadyIssuer(ns, r, q, c);
    DnsPassesExactly(q.issuer.value.spec, q);
    SubmittersAreOpen(ns, r, q, c);
  }

  /** The renewal decision: a reconcile that submits renews exactly if the parent it read has a last
      certificate id and is being issued because of a manual trigger, a renewal or an expiry; it then
      renews that certificate, and enrols otherwise. */
  lemma RenewalDecides(ns: string, r: Request, q: Replies, c: Call)
    requires c in Run(ns, r, q).calls && (c.EnrollCall? || c.RenewCall?)
    ensures q.parent.Some? && q.parent.value.issuing.Some?
    ensures c.RenewCall? <==>
            LastCertificateId in q.parent.value.annotations && q.parent.value.issuing.value in {ManuallyTriggered, Renewing, Expired}
    ensures c.RenewCall? ==> c.lastCertificateId == q.parent.value.annotations[LastCertificateId]
    ensures c.csr == r.spec.csr && c.reply == q.submit
  {
    SubmittersProceed(ns, r, q, c);
    SubmissionCalls(ns, r, q);
  }

  /** What a submission stores: the id that Horizon answered, and our finalizer if the Issuer revokes; or
      the failure, whatever was noted about the metadata; and nothing after a panic. */
  lemma SubmissionStores(ns: string, r: Request, q: Replies)
    requires Proceeds(ns, r, q) && RequestId !in r.annotations
    ensures var e := Run(ns, r, q);
            && (e.ending == Panic ==> Merged(r, e.write) == r)
            && (e.ending == Done ==>
                  q.submit.Accepted?
                  && Merged(r, e.write) == r.(annotations := r.annotations[RequestId := q.submit.id], finalizers := Enters(ns, r, q).request.finalizers))
            && (e.ending.Error? && q.parent.Some? ==>
                  Merged(r, e.write)
                  == r.(status := r.status.(conditions := r.status.conditions[InvalidRequest := Condition(Yes, Failed, Text(e.ending.text))]
                                                                             [Ready := Condition(No, Failed, InvalidRequestMessage)],
                                            failureTime := Some(q.now))))
  {
    SubmissionMoves(ns, r, q);
    var e, m := Run(ns, r, q), MoveOf(ns, r, q);
    StoredIsAfter(ns, r, q, m);
    if e.ending.Error? && q.parent.Some? {
      FailureStores(r, e.ending.text, q.now);
    }
  }

  lemma StoredIsAfter(ns: string, r: Request, q: Replies, m: Move)
    requires m == MoveOf(ns, r, q)
    ensures Merged(r, Run(ns, r, q).write) == After(r, m)
  {
    ReconcileMakesMove(ns, r, q);
  }

  lemma FailureStores(r: Request, error: string, at: nat)
    ensures After(r, Fail(error, at))
            == r.(status := r.status.(conditions := r.status.conditions[InvalidRequest := Condition(Yes, Failed, Text(error))]
                                                                       [Ready := Condition(No, Failed, InvalidRequestMessage)],
                                      failureTime := Some(at)))
  {
  }

  /** The object that is written after an accepted submission has the id, and a Ready condition that is
      Pending, whatever was noted about the metadata. */
  lemma SubmissionWrites(ns: string, r: Request, q: Replies)
    requires Proceeds(ns, r, q) && RequestId !in r.annotations && Run(ns, r, q).ending == Done
    ensures q.submit.Accepted? && q.parent.Some? && q.parent.value.issuing.Some?
    ensures var renewal := LastCertificateId in q.parent.value.annotations && q.parent.value.issuing.value in {ManuallyTriggered, Renewing, Expired};
            Run(ns, r, q).write.request
            == Enters(ns, r, q).request.(
                 annotations := r.annotations[RequestId := q.submit.id],
                 status := r.status.(conditions := r.status.conditions[Ready := Condition(No, Pending, if renewal then SubmittedRenewal else SubmittedEnrolment)]))
  {
    ProceedsIsProcess(ns, r, q);
    SubmissionEnds(ns, r, q);
    WritesExactly(ns, r, q);
    SubmitWrites(Enters(ns, r, q).request, Enters(ns, r, q).client, q);
  }

  lemma SubmitWrites(r: Request, client: Client, q: Replies)
    requires q.parent.Some? && q.parent.value.issuing.Some? && q.submit.Accepted? && (q.template.Some? || Renews(q.parent.value))
    ensures Submit(r, client, q).request
            == r.(annotations := r.annotations[RequestId := q.submit.id],
                  status := r.status.(conditions := r.status.conditions[Ready := Condition(No, Pending, if Renews(q.parent.value) then SubmittedRenewal else SubmittedEnrolment)]))
  {
    if Renews(q.parent.value) {
      SubmittedWrites(r, None, q.submit, SubmittedRenewal, []);
    } else {
      var note := if ReadMetadata(q.lookups).None? then Some(Text(q.text)) else None;
      SubmittedWrites(r, note, q.submit, SubmittedEnrolment, []);
    }
  }

  lemma SubmittedWrites(r: Request, note: Option<Message>, reply: SubmitReply, message: Message, calls: seq<Call>)
    requires reply.Accepted?
    ensures Submitted(if note.Some? then SetReady(r, No, Pending, note.value) else r, reply, message, calls).request
            == r.(annotations := r.annotations[RequestId := reply.id],
                  status := r.status.(conditions := r.status.conditions[Ready := Condition(No, Pending, message)]))
  {
    var noted := if note.Some? then SetReady(r, No, Pending, note.value) else r;
    assert noted.status.conditions[Ready := Condition(No, Pending, message)] == r.status.conditions[Ready := Condition(No, Pending, message)];
  }

  lemma SubmissionMoves(ns: string, r: Request, q: Replies)
    requires Proceeds(ns, r, q) && RequestId !in r.annotations
    ensures var e, m := Run(ns, r, q), MoveOf(ns, r, q);
            && (e.ending == Panic ==> m == Idle)
            && (e.ending == Done ==> q.submit.Accepted? && m == Register(q.submit.id, q.issuer.value.spec.revokeCertificates))
            && (e.ending.Error? && q.parent.Some? ==> m == Fail(e.ending.text, q.now))
            && e.ending != Requeue
  {
    DnsPassesExactly(q.issuer.value.spec, q);
    SubmissionEnds(ns, r, q);
    assert MoveOf(ns, r, q) == MoveOfSubmission(q, q.issuer.value.spec.revokeCertificates);
    if q.parent.Some? && q.parent.value.issuing.Some? {
      RenewsExactly(q.parent.value);
    }
  }

  // ----- Errors -----

  /** The body fails: it is reached by a request that is not denied, and a name of its CSR does not
      resolve, or the request is not approved, and it was submitted and the poll fails, gives an unknown
      status or a chain that cannot be fetched, or it was not, and the parent is not found, the template
      of an enrolment is missing, or the submission is refused or its answer lost. */
  predicate Fails(ns: string, r: Request, q: Replies) {
    && Enters(ns, r, q).Enter?
    && !(Denied in r.status.conditions && r.status.conditions[Denied].status == Yes)
    && (|| (q.issuer.value.spec.dnsChecker && (q.dnsNames.None? || exists name :: name in q.dnsNames.value && name !in q.resolvable))
        || (&& !(Approved in r.status.conditions && r.status.conditions[Approved].status == Yes)
            && (|| (RequestId in r.annotations
                    && (q.poll.PollFailed? || q.poll.status == OtherStatus || (q.poll.status == Completed && q.chain.FetchFailed?)))
                || (RequestId !in r.annotations
                    && (|| q.parent.None?
                        || (&& q.parent.value.issuing.Some?
                            && (|| !q.submit.Accepted?
                                || (q.template.None?
                                    && !(LastCertificateId in q.parent.value.annotations
                                         && q.parent.value.issuing.value in {ManuallyTriggered, Renewing, Expired})))))))))
  }

  lemma ErrorsExactly(ns: string, r: Request, q: Replies)
    requires Enters(ns, r, q).Enter?
    ensures Run(ns, r, q).ending.Error? <==> Fails(ns, r, q)
  {
    var spec := q.issuer.value.spec;
    if Denied in r.status.conditions && r.status.conditions[Denied].status == Yes {
      DeniedEnds(ns, r, q);
    } else if spec.dnsChecker && (q.dnsNames.None? || exists name :: name in q.dnsNames.value && name !in q.resolvable) {
      UnresolvedEnds(ns, r, q);
    } else if Approved in r.status.conditions && r.status.conditions[Approved].status == Yes {
      ApprovedEnds(ns, r, q);
    } else if RequestId in r.annotations {
      PollErrors(ns, r, q);
    } else {
      SubmissionErrors(ns, r, q);
    }
  }

  /** The errors of the body that are no failed submissions, in the order in which they can occur: the
      names, the poll, its status, its chain, and the parent of a request to submit. */
  lemma RetriesStore(ns: string, r: Request, q: Replies, text: string)
    requires Enters(ns, r, q).Enter? && Run(ns, r, q).ending == Error(text)
    requires !(InvalidRequest in r.status.conditions && r.status.conditions[InvalidRequest].status == Yes
               && r.status.conditions[InvalidRequest].reason == Failed)
    requires !Proceeds(ns, r, q)
             || (RequestId in r.annotations && !(q.poll.Polled? && q.poll.status == Completed))
             || (RequestId !in r.annotations && q.parent.None?)
    ensures Merged(r, Run(ns, r, q).write)
            == r.(status := r.status.(conditions := r.status.conditions[Ready := Condition(No, Pending, Text(text))], failureTime := Some(q.now)))
  {
    ReconcileMakesMove(ns, r, q);
    DnsPassesExactly(q.issuer.value.spec, q);
    RetryMoves(ns, r, q, text);
  }

  lemma RetryMoves(ns: string, r: Request, q: Replies, text: string)
    requires Enters(ns, r, q).Enter? && Run(ns, r, q).ending == Error(text)
    requires !Proceeds(ns, r, q)
             || (RequestId in r.annotations && !(q.poll.Polled? && q.poll.status == Completed))
             || (RequestId !in r.annotations && q.parent.None?)
    ensures MoveOf(ns, r, q) == Retry(text, q.now)
  {
    DnsPassesExactly(q.issuer.value.spec, q);
    if Proceeds(ns, r, q) {
      if RequestId in r.annotations {
        PollEnds(ns, r, q);
      } else {
        SubmissionEnds(ns, r, q);
      }
    }
  }

  /** A chain that cannot be fetched leaves the request approved, and Pending. */
  lemma UnfetchedStores(ns: string, r: Request, q: Replies)
    requires Proceeds(ns, r, q) && RequestId in r.annotations && q.poll.Polled? && q.poll.status == Completed && q.chain.FetchFailed?
    requires !(InvalidRequest in r.status.conditions && r.status.conditions[InvalidRequest].status == Yes
               && r.status.conditions[InvalidRequest].reason == Failed)
    ensures Merged(r, Run(ns, r, q).write)
            == r.(status := r.status.(conditions := r.status.conditions[Approved := Condition(Yes, ByHorizon, ApprovedOnHorizon)]
                                                                       [Ready := Condition(No, Pending, Text(q.chain.text))],
                                      failureTime := Some(q.now)))
  {
    ReconcileMakesMove(ns, r, q);
    DnsPassesExactly(q.issuer.value.spec, q);
  }

  // ----- The writes -----

  /** Which half of the object is kept. */
  lemma HalvesAreKept(live: Request, obj: Request)
    ensures Merged(live, MetaWrite(obj)) == live.(annotations := obj.annotations, finalizers := obj.finalizers)
    ensures Merged(live, StatusWrite(obj)) == live.(status := obj.status)
    ensures Merged(live, NoWrite) == live
  {
  }

  /** The request is written once by every reconcile that reaches the body: the metadata if the
      annotations changed, and otherwise the status. */
  lemma WritesExactly(ns: string, r: Request, q: Replies)
    requires Enters(ns, r, q).Enter?
    ensures var w := Run(ns, r, q).write;
            && !w.NoWrite?
            && (w.MetaWrite? <==> w.request.annotations != r.annotations)
  {
  }

  /** The parent is offered the certificate id of the request as it was written, unless it is absent or
      empty; a reconcile that does not reach the body offers nothing. */
  lemma OffersExactly(ns: string, r: Request, q: Replies)
    ensures var e := Run(ns, r, q);
            e.parent == if Enters(ns, r, q).Enter? && CertificateId in e.write.request.annotations && e.write.request.annotations[CertificateId] != ""
                        then ParentWrite(e.write.request.annotations[CertificateId]) else NoParentWrite
  {
    if Enters(ns, r, q).Enter? {
      WritesExactly(ns, r, q);
    }
  }
}
