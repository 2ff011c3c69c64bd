/** `CertificateRequestReconciler` of internal/controller/certificaterequest_controller.go, as methods
    that mutate the request they read and write it to the API server, proved equal to module RequestStep. */
module Controller {
  import opened Options
  import opened Keys
  import opened Model
  import opened Objects
  import opened Horizon
  import opened RequestStep
  import opened Protocol
  import opened Behaviour
  import opened Issuance
  import opened World
  import opened Coherence
  import ConditionLists
  import Metadata

  /** A parent that was read in its current version is the current one. */
  predicate ParentIsCurrent(c: Cluster, read: Option<Certificate>) {
    read.Some? && read.value.key in c.certs && c.certs[read.value.key].version == read.value.version
    ==> c.certs[read.value.key] == read.value
  }

  /** What the store has under this uid, if it has this version. */
  predicate StoredAs(c: Cluster, uid: Uid, version: nat, spec: RequestSpec, annotations: Annotations) {
    uid in c.requests && c.requests[uid].version == version
    ==> c.requests[uid].spec == spec && c.requests[uid].annotations == annotations
  }

  /** What the API server promises about the copies that one reconcile reads: they are found under the name
      asked for, a copy with the current version is the current object, and no Certificate has an empty name. */
  predicate Contract(c: Cluster, r: Request, q: Replies) {
    && (r.uid in c.requests && c.requests[r.uid].version == r.version ==> c.requests[r.uid] == r)
    && Named(r, q)
    && (q.parent.Some? ==> q.parent.value.key.name != "")
    && ParentIsCurrent(c, q.parentAgain)
  }

  /** It is kept in every state that a run reaches. */
  lemma ContractHolds(s: State, r: Request, q: Replies)
    requires Coherent(s) && Readable(s, r, q)
    ensures Contract(s.cluster, r, q)
  {
  }

  /** What the caller of a reconcile gets: a failed write turns any result into an error. */
  function Result(e: Effects, c: Cluster, q: Replies, entered: bool): Ending {
    if entered && !e.ending.Panic? && !(TakesWrite(c, e.write, q.write) && q.write.Delivered?) then Error(q.text) else e.ending
  }

  /** Written out: an error of the body stays; a write of the body's result that is refused or not
      acknowledged makes any other result but a panic an error; and before the body it does not matter. */
  lemma ResultExactly(ns: string, r: Request, q: Replies, c: Cluster)
    ensures var e := Run(ns, r, q);
            Result(e, c, q, Enters(ns, r, q).Enter?)
            == if Enters(ns, r, q).Enter? && e.ending != Panic
                  && !(r.uid in c.requests && c.requests[r.uid].version == r.version && q.write == Delivered)
               then Error(q.text) else e.ending
  {
    WriteKeepsIdentity(ns, r, q);
    if Enters(ns, r, q).Enter? {
      WritesExactly(ns, r, q);
    }
  }

  /** The body writes no other name of a Certificate on the request. */
  lemma ProcessKeepsParent(r: Request, client: Client, q: Replies)
    ensures CertKeyOf(RequestStep.Process(r, client, q).request) == CertKeyOf(r)
  {
    if IsDenied(r) || !DnsPasses(client.spec, q) || IsApproved(r) {
    } else if IsSubmitted(r) {
      if q.poll.Polled? {
        IssueAt(r.annotations, q.poll.certificate, CertificateName);
      }
    } else {
      SubmissionWritesId(r, client, q, CertificateName);
      SubmissionKeepsIdentity(r, client, q);
    }
  }

  class CertificateRequestReconciler {
    const server: ApiServer
    const issuer: HorizonIssuer
    const clusterNs: string

    constructor (server: ApiServer, issuer: HorizonIssuer, clusterNs: string)
      ensures this.server == server && this.issuer == issuer && this.clusterNs == clusterNs
    {
      this.server, this.issuer, this.clusterNs := server, issuer, clusterNs;
    }

    /** Every name is resolved until one fails. */
    method CheckNames(spec: IssuerSpec, q: Replies) returns (ok: bool)
      ensures ok <==> (spec.dnsChecker ==> q.dnsNames.Some? && forall name :: name in q.dnsNames.value ==> name in q.resolvable)
    {
      if !spec.dnsChecker {
        return true;
      }
      if q.dnsNames.None? {
        return false;
      }
      for i := 0 to |q.dnsNames.value|
        invariant forall j :: 0 <= j < i ==> q.dnsNames.value[j] in q.resolvable
      {
        if q.dnsNames.value[i] !in q.resolvable {
          return false;
        }
      }
      ok := true;
    }

    /** The Certificate that the annotation of the request names; a nil map names the empty one. */
    method CertificateFromRequest(req: RequestObject, answer: Option<Certificate>) returns (c: Option<Certificate>)
      ensures c == if answer.Some? && answer.value.key == CertKeyOf(req.Value()) then answer else None
    {
      var name := if req.annotations != null && CertificateName in req.annotations.entries then req.annotations.entries[CertificateName] else "";
      c := server.GetCertificate(CertKey(req.spec.ns, name), answer);
    }

    method IssuerFromRequest(req: RequestObject, answer: Option<IssuerObject>) returns (i: Option<IssuerObject>)
      ensures i == if answer.Some? && IssuerKeyOf(req.Value()) == Some(answer.value.key) then answer else None
    {
      match req.spec.issuerRef {
        case UnknownKind => i := None;
        case IssuerRef(name) => i := server.GetIssuer(Issuer(req.spec.ns, name), answer);
        case ClusterIssuerRef(name) => i := server.GetIssuer(ClusterIssuer(name), answer);
      }
    }

    /** The annotations of the Ingress that owns the Certificate, if one does. */
    method IngressFromCertificate(c: Certificate, answer: Option<Ingress>) returns (ok: bool, annotations: Option<Annotations>)
      requires answer.Some? ==> answer.value.ns == c.key.ns && Metadata.LastIngress(c.owners) == Some(answer.value.name)
      ensures ok <==> Metadata.LastIngress(c.owners).None? || answer.Some?
      ensures ok ==> annotations == if answer.Some? then Some(answer.value.annotations) else None
    {
      var name := Metadata.IngressName(c.owners);
      if name.None? {
        return true, None;
      }
      var found := server.GetIngress(c.key.ns, name.value, answer);
      ok := found.Some?;
      annotations := if ok then Some(found.value.annotations) else None;
    }

    method CertificateMetadata(req: RequestObject, q: Replies)
      returns (ok: bool, labels: seq<(string, string)>, owner: Option<string>, team: Option<string>, contactEmail: Option<string>)
      requires Named(req.Value(), q)
      ensures ok <==> ReadMetadata(q.lookups).Some?
      ensures Arguments(labels, owner, team, contactEmail) == EnrolmentOf(q)
      ensures Metadata.Lists(labels, EnrolmentOf(q).labels)
    {
      ok, labels, owner, team, contactEmail := false, [], None, None, None;
      var parent := CertificateFromRequest(req, q.lookups.parent);
      if parent.None? {
        return;
      }
      var issuerRead := IssuerFromRequest(req, q.lookups.issuer);
      if issuerRead.None? {
        return;
      }
      var ingress;
      ok, ingress := IngressFromCertificate(parent.value, q.lookups.ingress);
      if !ok {
        return;
      }
      var spec := issuerRead.value.spec;
      labels, owner, team, contactEmail :=
        Metadata.CertificateMetadata(parent.value.annotations, ingress, spec.default, spec.override);
      Metadata.LabelMapOfList(labels, EnrolmentOf(q).labels);
    }

    method Submit(req: RequestObject, q: Replies) returns (ending: Ending)
      requires req.Valid() && Named(req.Value(), q)
      requires q.parent.Some? ==> q.parent.value.key.name != ""
      modifies issuer`calls, req`conditions, req.annotations
      ensures req.Valid()
      ensures var o := RequestStep.Submit(old(req.Value()), issuer.client, q);
              req.Value() == o.request && ending == o.ending && issuer.calls == old(issuer.calls) + o.calls
    {
      var found := CertificateFromRequest(req, q.parent);
      if found.None? {
        return Error(q.text);
      }
      var parent := found.value;
      if parent.issuing.None? {
        return Panic;   // the condition pointer is nil
      }
      assert CertificateName in req.Annotations();
      if LastCertificateId in parent.annotations && parent.issuing.value in {ManuallyTriggered, Renewing, Expired} {
        ending := issuer.SubmitRenewRequest(req, parent.annotations[LastCertificateId], q.submit);
      } else {
        ending := Enroll(req, q);
      }
    }

    /** A metadata error is noted on the request, and does not stop the enrolment. */
    method Enroll(req: RequestObject, q: Replies) returns (ending: Ending)
      requires req.Valid() && req.annotations != null && Named(req.Value(), q)
      modifies issuer`calls, req`conditions, req.annotations
      ensures req.Valid()
      ensures var r := old(req.Value());
              var o := SubmitEnroll(if ReadMetadata(q.lookups).None? then SetReady(r, No, Pending, Text(q.text)) else r,
                                    issuer.client, EnrolmentOf(q), q.template, q.submit, q.text);
              req.Value() == o.request && ending == o.ending && issuer.calls == old(issuer.calls) + o.calls
    {
      var ok, labels, owner, team, contactEmail := CertificateMetadata(req, q);
      if !ok {
        req.SetCondition(Ready, No, Pending, Text(q.text));
      }
      ending := issuer.SubmitEnrollRequest(labels, owner, team, contactEmail, req, q.template, q.submit, q.text);
    }

    method DenyRequest(req: RequestObject, now: nat)
      requires req.Valid()
      modifies req`failureTime, req`conditions
      ensures req.Valid() && req.Value() == MarkDenied(old(req.Value()), now)
    {
      if req.failureTime.None? {
        req.failureTime := Some(now);
      }
      req.SetCondition(Ready, No, DeniedReason, DeniedByApprover);
    }

    /** The body, from the denial check to the end. */
    method Process(req: RequestObject, q: Replies) returns (ending: Ending)
      requires req.Valid() && Named(req.Value(), q)
      requires q.parent.Some? ==> q.parent.value.key.name != ""
      modifies issuer`calls, req, req.annotations
      ensures req.Valid() && req.annotations == old(req.annotations) && SameIdentity(req.Value(), old(req.Value()))
      ensures CertKeyOf(req.Value()) == old(CertKeyOf(req.Value()))
      ensures var o := RequestStep.Process(old(req.Value()), issuer.client, q);
              req.Value() == o.request && ending == o.ending && issuer.calls == old(issuer.calls) + o.calls
    {
      ProcessKeepsIdentity(req.Value(), issuer.client, q);
      ProcessKeepsParent(req.Value(), issuer.client, q);
      var denied := req.Has(Denied, Yes, None);
      if denied {
        DenyRequest(req, q.now);
        return Done;
      }
      var passes := CheckNames(issuer.client.spec, q);
      if !passes {
        return Error(q.text);
      }
      var approved := req.Has(Approved, Yes, None);
      if approved {
        return Done;
      }
      if RequestId in req.Annotations() {
        ending := issuer.UpdateRequest(req, q.poll, q.chain, q.text);
      } else {
        ending := Submit(req, q);
      }
    }

    method NoteError(req: RequestObject, text: string, now: nat)
      requires req.Valid()
      modifies req`failureTime, req`conditions
      ensures req.Valid() && req.Value() == MarkError(old(req.Value()), text, now)
    {
      var invalid := req.Has(InvalidRequest, Yes, Some(Failed));
      if !invalid {
        req.SetCondition(Ready, No, Pending, Text(text));
      } else {
        req.SetCondition(Ready, No, Failed, InvalidRequestMessage);
      }
      req.failureTime := Some(now);
    }

    /** The parent Certificate is offered the certificate id, if there is one. */
    method OfferId(req: RequestObject, q: Replies)
      requires q.parentAgain.Some? ==> q.parentAgain.value.key == CertKeyOf(req.Value())
      requires ParentIsCurrent(server.cluster, q.parentAgain)
      modifies server
      ensures server.cluster == CommitParent(old(server.cluster), q.parentAgain, OfferOf(old(req.Annotations())), q.parentWrite)
    {
      var id := At(req.Annotations(), CertificateId).GetOr("");
      if id != "" {
        var parent := CertificateFromRequest(req, q.parentAgain);
        var read := if parent.Some? then parent.value.annotations else map[];
        var annotations: AnnotationMap? := null;
        if read != map[] {
          annotations := new AnnotationMap(read);
        }
        if annotations == null {
          annotations := new AnnotationMap(map[]);
        }
        annotations.Put(LastCertificateId, id);
        var _ := server.UpdateParent(parent, annotations, id, q.parentWrite);
      }
    }

    /** The one write: `Update` if the annotations changed since the copy was taken, else the status. */
    method WriteBack(copy: RequestObject, req: RequestObject, q: Replies) returns (ok: bool)
      requires copy.Valid() && req.Valid() && copy != req
      requires copy.annotations == null <==> req.annotations == null
      requires copy.annotations != null ==> copy.annotations != req.annotations
      requires StoredAs(server.cluster, req.uid, req.version, req.spec, copy.Annotations())
      modifies server, req
      ensures var w := WriteOf(old(copy.Value()), old(req.Value()));
              && server.cluster == Commit(old(server.cluster), w, q.write)
              && (ok <==> TakesWrite(old(server.cluster), w, q.write) && q.write.Delivered?)
      ensures server.cluster.certs == old(server.cluster.certs)
      ensures req.Annotations() == old(req.Annotations()) && req.spec == old(req.spec)
    {
      var same := DeepEqual(copy.annotations, req.annotations);
      if !same {
        ok := server.Update(req, q.write);
      } else {
        ok := server.UpdateStatus(req, q.write);
      }
    }

    /** The deferred block. `copy` was taken before the body ran. */
    method Finish(copy: RequestObject, req: RequestObject, ending: Ending, q: Replies) returns (ok: bool)
      requires q.parentAgain.Some? ==> q.parentAgain.value.key == CertKeyOf(req.Value())
      requires copy.Valid() && req.Valid() && copy != req
      requires copy.annotations == null <==> req.annotations == null
      requires copy.annotations != null ==> copy.annotations != req.annotations
      requires StoredAs(server.cluster, req.uid, req.version, req.spec, copy.Annotations())
      requires ParentIsCurrent(server.cluster, q.parentAgain)
      modifies server, req
      ensures var after := FinalOf(old(req.Value()), ending, q.now);
              var w := WriteOf(old(copy.Value()), after);
              && server.cluster == CommitParent(Commit(old(server.cluster), w, q.write), q.parentAgain, ParentWriteOf(after), q.parentWrite)
              && (ok <==> TakesWrite(old(server.cluster), w, q.write) && q.write.Delivered?)
    {
      if ending.Error? {
        NoteError(req, ending.text, q.now);
      }
      ok := WriteBack(copy, req, q);
      OfferId(req, q);
    }

    method HandleDeletion(req: RequestObject, q: Replies) returns (ending: Ending)
      requires req.Valid()
      modifies server, issuer`calls, req
      ensures var e := Deletion(old(req.Value()), issuer.client, q);
              && server.cluster == Commit(old(server.cluster), e.write, q.write)
              && issuer.calls == old(issuer.calls) + e.calls && ending == e.ending
    {
      if Ours in req.finalizers {
        var ok := issuer.RevokeCertificate(req, q.revokeOk);
        if !ok {
          return Error(q.text);
        }
        req.finalizers := req.finalizers - {Ours};
        var _ := server.Update(req, q.write);   // its error is dropped
      }
      ending := Done;
    }

    method IsClosed(req: RequestObject) returns (b: bool)
      requires req.Valid()
      ensures b <==> IsTerminal(req.Value())
    {
      var ready := req.Has(Ready, Yes, None);
      var failed := req.Has(Ready, No, Some(Failed));
      var denied := req.Has(Ready, No, Some(DeniedReason));
      b := ready || failed || denied;
    }

    /** The copy, the body and the deferred block. */
    method Work(req: RequestObject, q: Replies) returns (result: Ending)
      requires req.Valid() && Named(req.Value(), q)
      requires q.parent.Some? ==> q.parent.value.key.name != ""
      requires StoredAs(server.cluster, req.uid, req.version, req.spec, req.Annotations())
      requires ParentIsCurrent(server.cluster, q.parentAgain)
      modifies server, issuer`calls, req, req.annotations
      ensures var r := old(req.Value());
              var e := RequestStep.Finish(r, RequestStep.Process(r, issuer.client, q), q.now);
              && server.cluster == CommitParent(Commit(old(server.cluster), e.write, q.write), q.parentAgain, e.parent, q.parentWrite)
              && issuer.calls == old(issuer.calls) + e.calls
              && result == Result(e, old(server.cluster), q, true)
    {
      var copy := req.DeepCopy();
      var ending := Process(req, q);
      var ok := Finish(copy, req, ending, q);
      result := if ok || ending.Panic? then ending else Error(q.text);
    }

    /** Everything before the copy is taken: the Issuer, its Secret, the client, the finalizer (in memory
        only) and the terminal statuses. */
    method Begin(req: RequestObject, q: Replies) returns (start: Start)
      requires req.Valid() && Named(req.Value(), q)
      modifies issuer`client, req`finalizers
      ensures req.Valid() && start == Enters(clusterNs, old(req.Value()), q)
      ensures Named(req.Value(), q) && req.Annotations() == old(req.Annotations())
      ensures start.Delete? ==> req.Value() == old(req.Value()) && issuer.client == start.client
      ensures start.Enter? ==> req.Value() == start.request && issuer.client == start.client
    {
      if !req.spec.ours {
        return Leave(Done);
      }
      var issuerRead := IssuerFromRequest(req, q.issuer);
      if issuerRead.None? {
        return Leave(Error(q.text));
      }
      var found := issuerRead.value;
      var secretNs := if req.spec.issuerRef.IssuerRef? then req.spec.ns else clusterNs;
      if !Model.Has(found.conditions, Ready, Yes) {
        return Leave(Done);
      }
      if !q.secretFound || !q.clientBuilt {
        return Leave(Error(q.text));
      }
      issuer.client := Client(found.key, found.spec, SecretRef(secretNs, found.spec.authSecretName));
      if found.spec.revokeCertificates {
        if req.deleting {
          return Delete(issuer.client);
        }
        req.finalizers := req.finalizers + {Ours};
      }
      var closed := IsClosed(req);
      start := if closed then Leave(Done) else Enter(issuer.client, req.Value());
    }

    /** The whole reconcile of a copy that was read, with the answers it gets. */
    method Reconcile(read: Request, q: Replies) returns (result: Ending)
      requires Contract(server.cluster, read, q)
      modifies server, issuer
      ensures var e := Run(clusterNs, read, q);
              && server.cluster == CommitParent(Commit(old(server.cluster), e.write, q.write), q.parentAgain, e.parent, q.parentWrite)
              && issuer.calls == old(issuer.calls) + e.calls
              && result == Result(e, old(server.cluster), q, Enters(clusterNs, read, q).Enter?)
    {
      var es := ConditionLists.Decode(read.status.conditions);
      var req := new RequestObject.Load(read, es);
      var start := Begin(req, q);
      match start {
        case Leave(ending) => result := ending;
        case Delete(_) => result := HandleDeletion(req, q);
        case Enter(_, _) => result := Work(req, q);
      }
    }
  }
}
