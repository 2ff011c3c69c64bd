/** Errors are never lost on the wrong write path. */
module Failures {
  import opened Options
  import opened Keys
  import opened Model
  import opened RequestStep
  import opened Protocol
  import opened Behaviour
  import opened Issuance
  import opened World
  import opened Coherence
  import opened Lifecycle
  import Metadata

  lemma ErrorsOfSubmission(r: Request, client: Client, q: Replies)
    requires Submit(r, client, q).ending.Error?
    ensures var o := Submit(r, client, q);
            o.request.annotations == r.annotations && (IsInvalid(o.request) <==> IsInvalid(r) || o.calls != [])
  {
    if q.parent.Some? && q.parent.value.issuing.Some? {
      if Renews(q.parent.value) {
        var calls := [RenewCall(client, r.spec.csr, q.parent.value.annotations[LastCertificateId], q.submit)];
        SubmittedErrors(r, q.submit, SubmittedRenewal, calls);
      } else {
        var r1 := if ReadMetadata(q.lookups).None? then SetReady(r, No, Pending, Text(q.text)) else r;
        EnrolmentErrors(r1, client, EnrolmentOf(q), q.template, q.submit, q.text);
      }
    }
  }

  lemma EnrolmentErrors(r: Request, client: Client, args: Metadata.Meta, template: Option<Metadata.Meta>, reply: SubmitReply, text: string)
    ensures var o := SubmitEnroll(r, client, args, template, reply, text);
            o.calls != [] && (o.ending.Error? ==> o.request.annotations == r.annotations && IsInvalid(o.request))
  {
  }

  lemma CallsOfSubmission(r: Request, client: Client, q: Replies)
    ensures forall c :: c in Submit(r, client, q).calls ==> c.TemplateCall? || IsSubmission(c)
  {
    SubmissionShape(r, client, q);
  }

  lemma SubmittedErrors(r: Request, reply: SubmitReply, message: Message, calls: seq<Call>)
    ensures var o := Submitted(r, reply, message, calls);
            o.ending.Error? ==> o.request.annotations == r.annotations && IsInvalid(o.request)
  {
  }

  lemma ErrorsOfPoll(r: Request, client: Client, q: Replies)
    requires IsSubmitted(r)
    ensures var o := UpdateRequest(r, client, q.poll, q.chain, q.text);
            o.ending.Error? ==> o.request.annotations == r.annotations && (IsInvalid(o.request) <==> IsInvalid(r))
    ensures forall c :: c in UpdateRequest(r, client, q.poll, q.chain, q.text).calls ==> c.PollCall? || c.ChainCall?
  {
  }

  ghost predicate Submitting(calls: seq<Call>) {
    exists c :: c in calls && (c.TemplateCall? || IsSubmission(c))
  }

  lemma ErrorsOfProcess(r: Request, client: Client, q: Replies)
    requires !IsInvalid(r) && Process(r, client, q).ending.Error?
    ensures var o := Process(r, client, q);
            o.request.annotations == r.annotations && (IsInvalid(o.request) <==> Submitting(o.calls))
  {
    if IsSubmitted(r) {
      ErrorsOfPoll(r, client, q);
    } else if Process(r, client, q) == Submit(r, client, q) {
      ErrorsOfSubmission(r, client, q);
      CallsOfSubmission(r, client, q);
    }
    var o := Process(r, client, q);
    if o.calls != [] {
      assert o.calls[0] in o.calls;
    }
  }

  /** Whenever the body fails, the annotations are left alone, so the failure is written with the status,
      as Ready=False and with the time of failure. It is final exactly when the reconcile had called
      the template or the submission; any other failure stays Pending. */
  lemma ErrorsReachStatus(ns: string, r: Request, q: Replies)
    requires Sound(r) && Fails(ns, r, q)
    ensures var e := Run(ns, r, q);
            && e.ending.Error?
            && e.write.StatusWrite?
            && e.write.request.annotations == r.annotations
            && Ready in e.write.request.status.conditions
            && e.write.request.status.conditions[Ready].status == No
            && e.write.request.status.conditions[Ready].reason == (if Submitting(e.calls) then Failed else Pending)
            && e.write.request.status.failureTime == Some(q.now)
  {
    var r1 := Enters(ns, r, q).request;
    ErrorsExactly(ns, r, q);
    ErrorsOfProcess(r1, Enters(ns, r, q).client, q);
  }

  /** The failures that are final: those of a request without an id whose parent was found. */
  lemma FinalExactly(ns: string, r: Request, q: Replies)
    requires Fails(ns, r, q)
    ensures Submitting(Run(ns, r, q).calls) <==> Proceeds(ns, r, q) && RequestId !in r.annotations && q.parent.Some?
  {
    var calls := Run(ns, r, q).calls;
    DnsPassesExactly(q.issuer.value.spec, q);
    if !Proceeds(ns, r, q) {
      UnresolvedEnds(ns, r, q);
    } else if RequestId in r.annotations {
      PollCalls(ns, r, q);
    } else {
      SubmissionCalls(ns, r, q);
      if calls != [] {
        assert calls[0] in calls;
      }
    }
  }

  /** In the store: after a reconcile whose body failed, the request is not Ready and remembers when it
      failed, with the annotations it had; or it is what it was, exactly if the copy that was read is not
      the current version or the write is lost. */
  lemma ErrorsInStore(s: State, a: Action)
    requires Coherent(s) && AllSound(s) && Enabled(s, a) && a.ReconcileRequest? && Fails(s.clusterNs, a.read, a.q)
    requires a.read.uid in s.cluster.requests
    ensures a.read.uid in Apply(s, a).cluster.requests
    ensures var before, after := s.cluster.requests[a.read.uid], Apply(s, a).cluster.requests[a.read.uid];
            if before.version == a.read.version && a.q.write != Dropped then
              && after.annotations == before.annotations
              && Ready in after.status.conditions && after.status.conditions[Ready].status == No
              && after.status.conditions[Ready].reason in {Failed, Pending}
              && after.status.failureTime == Some(a.q.now)
            else after == before
  {
    ErrorsReachStatus(s.clusterNs, a.read, a.q);
    StoredExactly(s, a.read, a.q);
    WriteKeepsIdentity(s.clusterNs, a.read, a.q);
  }
}
