/** `HorizonIssuer` of internal/issuer/horizon/issuer.go: the handlers that mutate the request in
    place. What Horizon answers is a parameter; `calls` is the log of the calls made. */
module Horizon {
  import opened Options
  import opened Keys
  import opened Model
  import opened Objects
  import opened RequestStep
  import opened Issuance
  import Metadata
  import TrustChain

  /** The arguments of an enrolment, read as the metadata they stand for. */
  function Arguments(labels: seq<(string, string)>, owner: Option<string>, team: Option<string>, contactEmail: Option<string>): Metadata.Meta {
    Metadata.Meta(Metadata.LabelMap(labels), owner, team, contactEmail)
  }

  class HorizonIssuer {
    var client: Client
    ghost var calls: seq<Call>

    constructor (client: Client)
      ensures this.client == client && calls == []
    {
      this.client, calls := client, [];
    }

    method HandleFailedRequest(req: RequestObject, text: string) returns (ending: Ending)
      requires req.Valid()
      modifies req`conditions
      ensures req.Valid() && req.Value() == HandleFailed(old(req.Value()), text) && ending == Error(text)
    {
      req.SetCondition(InvalidRequest, Yes, Failed, Text(text));
      ending := Error(text);
    }

    /** The end of both submissions: register the id, or fail. */
    method Register(req: RequestObject, reply: SubmitReply, message: Message) returns (ending: Ending)
      requires req.Valid() && req.annotations != null
      modifies req`conditions, req.annotations
      ensures req.Valid()
      ensures var o := Submitted(old(req.Value()), reply, message, []);
              req.Value() == o.request && ending == o.ending
    {
      match reply {
        case Accepted(id) =>
          req.Annotate(RequestId, id);
          req.SetCondition(Ready, No, Pending, message);
          ending := Done;
        case AnswerLost(text) => ending := HandleFailedRequest(req, text);
        case Refused(text) => ending := HandleFailedRequest(req, text);
      }
    }

    /** The template's values, with the arguments put over them; the labels replace the template's. */
    method FillTemplate(labels: seq<(string, string)>, owner: Option<string>, team: Option<string>, contactEmail: Option<string>, template: Metadata.Meta)
      returns (sent: Metadata.Meta)
      ensures sent == Metadata.Sent(Arguments(labels, owner, team, contactEmail), template)
      ensures sent.owner == (if owner.Some? then owner else template.owner) && sent.team == (if team.Some? then team else template.team)
      ensures sent.contactEmail == (if contactEmail.Some? then contactEmail else template.contactEmail)
      ensures sent.labels == Metadata.LabelMap(labels)
    {
      sent := template;
      if owner.Some? {
        sent := sent.(owner := owner);
      }
      if team.Some? {
        sent := sent.(team := team);
      }
      if contactEmail.Some? {
        sent := sent.(contactEmail := contactEmail);
      }
      sent := sent.(labels := Metadata.LabelMap(labels));
    }

    method SubmitEnrollRequest(labels: seq<(string, string)>, owner: Option<string>, team: Option<string>, contactEmail: Option<string>,
                               req: RequestObject, template: Option<Metadata.Meta>, reply: SubmitReply, text: string)
      returns (ending: Ending)
      requires req.Valid() && req.annotations != null
      modifies this`calls, req`conditions, req.annotations
      ensures req.Valid()
      ensures var o := SubmitEnroll(old(req.Value()), client, Arguments(labels, owner, team, contactEmail), template, reply, text);
              req.Value() == o.request && ending == o.ending && calls == old(calls) + o.calls
    {
      ghost var before := calls;
      calls := calls + [TemplateCall(client)];
      if template.None? {
        ending := HandleFailedRequest(req, text);
        return;
      }
      var sent := FillTemplate(labels, owner, team, contactEmail, template.value);
      calls := calls + [EnrollCall(client, req.spec.csr, sent, reply)];
      assert calls == before + [TemplateCall(client), EnrollCall(client, req.spec.csr, sent, reply)];
      ending := Register(req, reply, SubmittedEnrolment);
    }

    method SubmitRenewRequest(req: RequestObject, lastCertificateId: string, reply: SubmitReply) returns (ending: Ending)
      requires req.Valid() && req.annotations != null
      modifies this`calls, req`conditions, req.annotations
      ensures req.Valid()
      ensures var o := SubmitRenew(old(req.Value()), client, lastCertificateId, reply);
              req.Value() == o.request && ending == o.ending && calls == old(calls) + o.calls
    {
      calls := calls + [RenewCall(client, req.spec.csr, lastCertificateId, reply)];
      ending := Register(req, reply, SubmittedRenewal);
    }

    method HandleDeniedRequest(req: RequestObject) returns (ending: Ending)
      requires req.Valid()
      modifies req`conditions
      ensures req.Valid() && req.Value() == HandleDenied(old(req.Value())) && ending == Done
    {
      req.SetCondition(Denied, Yes, ByHorizon, DeniedOnHorizon);
      ending := Done;
    }

    /** The label loop, after the fixed keys. */
    method WriteIssued(req: RequestObject, info: CertificateInfo)
      requires req.annotations != null
      modifies req.annotations
      ensures req.annotations.entries == Issue(old(req.annotations.entries), info)
    {
      req.annotations.Put(CertificateId, info.id);
      req.annotations.Put(Owner, info.owner);
      req.annotations.Put(Team, info.team);
      req.annotations.Put(ContactEmail, info.contactEmail);
      ghost var fixed := req.annotations.entries;
      for i := 0 to |info.labels|
        invariant req.annotations.entries == WithLabels(fixed, info.labels[..i])
      {
        req.annotations.Put(Label(info.labels[i].0), info.labels[i].1);
        assert info.labels[..i + 1][..i] == info.labels[..i];
      }
      assert info.labels[..|info.labels|] == info.labels;
    }

    /** The deferred half of `handleCompletedRequest`. */
    method Store(req: RequestObject, info: CertificateInfo, chain: string, ca: string)
      requires req.Valid() && req.annotations != null
      modifies req`ca, req`certificate, req`conditions, req.annotations
      ensures req.Valid() && req.Value() == StoreCertificate(old(req.Value()), info, chain, ca)
    {
      if ca != "" {
        req.ca := ca;
      }
      if chain != "" {
        WriteIssued(req, info);
        req.certificate := chain;
        req.SetCondition(Ready, Yes, Issued, Signed);
      }
    }

    method HandleCompletedRequest(req: RequestObject, info: CertificateInfo, reply: ChainReply) returns (ending: Ending)
      requires req.Valid() && req.annotations != null
      modifies this`calls, req`ca, req`certificate, req`conditions, req.annotations
      ensures req.Valid()
      ensures var o := HandleCompleted(old(req.Value()), client, info, reply);
              req.Value() == o.request && ending == o.ending && calls == old(calls) + o.calls
    {
      req.SetCondition(Approved, Yes, ByHorizon, ApprovedOnHorizon);
      calls := calls + [ChainCall(client, info.text)];
      match reply {
        case FetchFailed(text) => ending := Error(text);
        case Fetched(certs) =>
          var chain, ca := TrustChain.BuildPemTrustchain(certs);
          Store(req, info, chain, ca);
          ending := Done;
      }
    }

    method UpdateRequest(req: RequestObject, poll: PollReply, chain: ChainReply, text: string) returns (ending: Ending)
      requires req.Valid() && IsSubmitted(req.Value())
      modifies this`calls, req`ca, req`certificate, req`conditions, req.annotations
      ensures req.Valid()
      ensures var o := RequestStep.UpdateRequest(old(req.Value()), client, poll, chain, text);
              req.Value() == o.request && ending == o.ending && calls == old(calls) + o.calls
    {
      ghost var before := calls;
      var call := PollCall(client, req.annotations.entries[RequestId], poll);
      calls := calls + [call];
      match poll {
        case PollFailed(error) => ending := Error(error);
        case Polled(status, info) =>
          match status {
            case Completed =>
              ending := HandleCompletedRequest(req, info, chain);
              assert before + [call] + [ChainCall(client, info.text)] == before + ([call] + [ChainCall(client, info.text)]);
            case PendingStatus => ending := Requeue;
            case ApprovedStatus => ending := Requeue;
            case DeniedStatus => ending := HandleDeniedRequest(req);
            case Canceled => ending := HandleDeniedRequest(req);
            case OtherStatus => ending := Error(text);
          }
      }
    }

    method RevokeCertificate(req: RequestObject, revokeOk: bool) returns (ok: bool)
      requires req.Valid()
      modifies this`calls
      ensures ok == revokeOk && calls == old(calls) + [RevokeCall(client, req.certificate, revokeOk)]
    {
      calls := calls + [RevokeCall(client, req.certificate, revokeOk)];
      ok := revokeOk;
    }
  }
}
