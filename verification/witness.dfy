/** Concrete runs. One shows that the assumptions about the environment can be met; the others, that
    properties with a condition are false without it. */
module Witness {
  import opened Options
  import opened Keys
  import opened Model
  import opened RequestStep
  import opened Protocol
  import opened Issuance
  import opened IssuerHealth
  import opened World
  import opened Coherence
  import opened Lifecycle
  import opened Convergence
  import opened Submissions
  import opened Revocation
  import Metadata
  import TrustChain

  const NAME := "a"
  const PARENT := Certificate(CertKey(NAME, NAME), 0, map[], Some(OtherIssuing), [])
  const PLAIN: Annotations := map[CertificateName := NAME]
  const LABELLED: Annotations := map[CertificateName := NAME, Label(NAME) := NAME]

  function NewIssuer(revokes: bool): IssuerObject {
    IssuerObject(ClusterIssuer(NAME), 0, IssuerSpec(NAME, revokes, None, None, false), map[])
  }

  function Unsubmitted(annotations: Annotations): Request {
    Request(0, 0, RequestSpec(NAME, true, ClusterIssuerRef(NAME), NAME), annotations, {}, false, Status(map[], "", "", None))
  }

  function HealthyCheck(): CheckReplies {
    CheckReplies(true, true, true, Delivered, "")
  }

  ghost predicate OnlyChecks(log: seq<Event>) {
    forall i :: 0 <= i < |log| ==> log[i].Checked?
  }

  lemma Then(ns: string, actions: seq<Action>, a: Action, s: State, t: State)
    requires Exec(Initial(ns), actions) == Some(s) && Enabled(s, a) && Apply(s, a) == t
    ensures Exec(Initial(ns), actions + [a]) == Some(t)
  {
    ExecOneMore(ns, actions, a);
  }

  /** The Issuer is created and checked twice. */
  lemma IssuerGetsReady(ns: string, revokes: bool) returns (actions: seq<Action>, s: State, issuer: IssuerObject)
    ensures Exec(Initial(ns), actions) == Some(s) && issuer in s.seenIssuers && OnlyChecks(s.log)
    ensures issuer.key == NewIssuer(revokes).key && issuer.spec == NewIssuer(revokes).spec && IsHealthy(issuer)
    ensures issuer.key in s.cluster.issuers && s.cluster.issuers[issuer.key] == issuer
    ensures s.seenRequests == {} && s.seenCerts == {} && s.cluster.requests == map[] && s.cluster.certs == map[]
  {
    var s0, i0 := Initial(ns), NewIssuer(revokes);
    assert Exec(s0, []) == Some(s0);
    var a1 := CreateIssuer(i0);
    var s1 := PutIssuer(s0, i0);
    Then(ns, [], a1, s0, s1);
    var i1 := s1.cluster.issuers[i0.key];
    var q := HealthyCheck();
    var a2 := ReconcileIssuer(i1, q);
    var s2 := AfterCheck(s1, i1, q);
    Then(ns, [] + [a1], a2, s1, s2);
    var i2 := s2.cluster.issuers[i0.key];
    assert Ready in i2.conditions;
    var a3 := ReconcileIssuer(i2, q);
    var s3 := AfterCheck(s2, i2, q);
    Then(ns, [] + [a1] + [a2], a3, s2, s3);
    issuer := s3.cluster.issuers[i0.key];
    actions, s := [] + [a1] + [a2] + [a3], s3;
  }

  /** A Certificate and its request are created. */
  lemma RequestIsCreated(ns: string, before: seq<Action>, s: State, annotations: Annotations)
    returns (actions: seq<Action>, t: State, parent: Certificate, r: Request)
    requires Exec(Initial(ns), before) == Some(s) && RequestId !in annotations && CertificateId !in annotations
    requires s.seenRequests == {} && s.seenCerts == {} && s.cluster.requests == map[] && s.cluster.certs == map[]
    ensures Exec(Initial(ns), actions) == Some(t) && t.seenIssuers == s.seenIssuers && t.log == s.log
    ensures parent in t.seenCerts && parent.(version := 0) == PARENT
    ensures r.uid in t.cluster.requests && t.cluster.requests[r.uid] == r && r in t.seenRequests && SameContent(r, Unsubmitted(annotations))
  {
    var r0 := Unsubmitted(annotations);
    var a1, s1 := CreateCert(PARENT), PutCert(s, PARENT);
    assert PARENT.key.name != "";
    Then(ns, before, a1, s, s1);
    parent := s1.cluster.certs[PARENT.key];
    var a2, s2 := CreateRequest(r0), AddRequest(s1, r0);
    assert NewRequest(r0);
    Then(ns, before + [a1], a2, s1, s2);
    r := s2.cluster.requests[0];
    actions, t := before + [a1] + [a2], s2;
  }

  function RepliesOf(issuer: IssuerObject, parent: Certificate, info: CertificateInfo, certs: seq<TrustChain.Cf>): Replies {
    Replies(Some(issuer), true, true, None, {}, Some(parent), MetadataReads(Some(parent), Some(issuer), None),
            Some(Metadata.NOTHING), Accepted(NAME), Polled(Completed, info),
            Fetched(certs), true, Delivered, Some(parent), Delivered, 0, "")
  }

  /** No layer has any metadata, so none is sent. */
  lemma NothingIsSent(issuer: IssuerObject, parent: Certificate, info: CertificateInfo, certs: seq<TrustChain.Cf>)
    requires parent.(version := 0) == PARENT && issuer.spec.default.None? && issuer.spec.override.None?
    ensures var q := RepliesOf(issuer, parent, info, certs);
            Metadata.Sent(EnrolmentOf(q), Metadata.NOTHING) == Metadata.NOTHING
  {
    OneLayer(map[]);
    assert Metadata.LabelsIn(map[]) == map[];
  }

  /** The start of the runs below: a request that Horizon will answer with these certificates. */
  lemma RequestCanGoOn(ns: string, revokes: bool, annotations: Annotations, info: CertificateInfo, certs: seq<TrustChain.Cf>)
    returns (actions: seq<Action>, s: State, r: Request, q: Replies)
    requires annotations == PLAIN || annotations == LABELLED
    ensures CanGoOn(ns, actions, s, r, q) && SameContent(r, Unsubmitted(annotations)) && OnlyChecks(s.log)
    ensures MoveOf(ns, r, q).Register? && MoveOf(ns, r, q).guarded == revokes
    ensures q.poll == Polled(Completed, info) && q.chain == Fetched(certs)
    ensures q.issuer.Some? && q.issuer.value.spec.revokeCertificates == revokes
    ensures TrustChain.Chain(certs) != "" ==> NoFaults(q)
    ensures exists c :: c in Run(ns, r, q).calls && c.EnrollCall? && c.sent == Metadata.NOTHING
  {
    var before, s0, issuer := IssuerGetsReady(ns, revokes);
    var parent;
    actions, s, parent, r := RequestIsCreated(ns, before, s0, annotations);
    q := RepliesOf(issuer, parent, info, certs);
    assert Works(r, q) && Readable(s, r, q);
    WorkingMove(ns, r, q);
    NothingIsSent(issuer, parent, info, certs);
    EnrolmentIsCalled(ns, r, q);
  }

  lemma EnrolmentIsCalled(ns: string, r: Request, q: Replies)
    requires Works(r, q) && IsOpen(r) && !IsApproved(r) && !IsSubmitted(r)
    requires q.parent.Some? && q.parent.value.issuing.Some? && !Renews(q.parent.value) && q.template.Some?
    ensures exists c :: c in Run(ns, r, q).calls && c.EnrollCall? && c.sent == Metadata.Sent(EnrolmentOf(q), q.template.value)
  {
    var client := ClientOf(ns, r, q);
    var r1 := r.(finalizers := Guard(r.finalizers, client.spec.revokeCertificates));
    assert Enters(ns, r, q) == Enter(client, r1) && Process(r1, client, q) == Submit(r1, client, q);
    SubmissionShape(r1, client, q);
    var calls := Submit(r1, client, q).calls;
    assert calls == Run(ns, r, q).calls && calls[1] in calls;
  }

  /** A request gets its certificate. */
  lemma RequestIsIssued(ns: string, info: CertificateInfo) returns (actions: seq<Action>, r: Request)
    ensures Exec(Initial(ns), actions).Some? && r in Exec(Initial(ns), actions).value.seenRequests && IsReady(r)
  {
    var start, s, r0, q := RequestCanGoOn(ns, true, PLAIN, info, [TrustChain.Cf(NAME, false)]);
    assert TrustChain.Chain([TrustChain.Cf(NAME, false)]) == NAME;
    var more := TerminalIsReachable(ns, start, r0, q);
    actions := start + more;
    r := Exec(Initial(ns), actions).value.cluster.requests[r0.uid];
  }

  /** Convergence fails on a lone self-signed certificate: the request ends approved, but not Ready. */
  lemma DeadEndIsReachable(ns: string, info: CertificateInfo) returns (actions: seq<Action>, r: Request)
    ensures Exec(Initial(ns), actions).Some? && r in Exec(Initial(ns), actions).value.seenRequests && IsStuck(r)
  {
    var start, s0, r0, q := RequestCanGoOn(ns, true, PLAIN, info, [TrustChain.Cf(NAME, true)]);
    var s1, r1 := GoesOnOnce(ns, start, s0, r0, q);
    var after := start + [ReconcileRequest(r0, q)];
    LogOfRunIsHonest(ns, start);
    StateIsSound(ns, after);
    StuckOnLoneRoot(ns, r1, q);
    var s2, r2 := GoesOnOnce(ns, after, s1, r1, q);
    LogOfRunIsHonest(ns, after);
    actions, r := after + [ReconcileRequest(r1, q)], r2;
    RunIsCoherent(ns, actions);
  }

  /** And a submission whose write is lost is made again: Horizon accepts two for one request. */
  lemma SubmittedTwice(ns: string, info: CertificateInfo) returns (actions: seq<Action>, uid: Uid)
    ensures Exec(Initial(ns), actions).Some? && AcceptedFor(Exec(Initial(ns), actions).value.log, uid) >= 2
  {
    var start, s, r, q := RequestCanGoOn(ns, true, PLAIN, info, []);
    var q1 := q.(write := Dropped);
    var a := ReconcileRequest(r, q1);
    assert Run(ns, r, q1) == Run(ns, r, q) && MoveOf(ns, r, q1) == MoveOf(ns, r, q);
    SubmissionsOfMove(ns, r, q1);
    Again(ns, start, s, a);
    Again(ns, start + [a], Apply(s, a), a);
    actions, uid := start + [a] + [a], r.uid;
  }

  lemma Again(ns: string, actions: seq<Action>, s: State, a: Action)
    requires Exec(Initial(ns), actions) == Some(s) && Enabled(s, a) && a.ReconcileRequest?
    requires AcceptedCount(Run(ns, a.read, a.q).calls) == 1
    ensures Exec(Initial(ns), actions + [a]) == Some(Apply(s, a)) && Enabled(Apply(s, a), a)
    ensures AcceptedFor(Apply(s, a).log, a.read.uid) == AcceptedFor(s.log, a.read.uid) + 1
  {
    ExecOneMore(ns, actions, a);
    LogOfRunIsHonest(ns, actions);
    LogGrows(s, a);
    NewEvent(s, a);
    AfterEffectsForgets(s, a.read, a.q, Run(ns, a.read, a.q));
    var e := Apply(s, a).log[|s.log|];
    assert Apply(s, a).log == s.log + [e];
    AcceptedForOneMore(s.log, e, a.read.uid);
  }

  // ----- A label that was there before -----

  lemma {:induction false} SettleKeepsLabel(ns: string, r: Request, qs: seq<Replies>, l: string)
    requires Label(l) in r.annotations
    ensures Label(l) in Settle(ns, r, qs).annotations
    decreases |qs|
  {
    if qs != [] {
      NextKeepsLabel(ns, r, qs[0], l);
      SettleKeepsLabel(ns, Next(ns, r, qs[0]), qs[1..], l);
    }
  }

  lemma NextKeepsLabel(ns: string, r: Request, q: Replies, l: string)
    requires Label(l) in r.annotations
    ensures Label(l) in Next(ns, r, q).annotations
  {
    var m := MoveOf(ns, r, q);
    if m.Annotate? {
      IssueAt(r.annotations, m.info, Label(l));
    }
  }

  /** Horizon's answer echoes what was sent for a request, but the request has other labels. */
  ghost predicate HasOtherLabels(log: seq<Event>, r: Request, info: CertificateInfo) {
    exists i, c :: 0 <= i < |log| && log[i].Reconciled? && log[i].read.uid == r.uid
                   && c in log[i].effects.calls && c.EnrollCall? && Echoes(info, c.sent)
                   && Metadata.LabelsIn(r.annotations) != c.sent.labels
  }

  lemma LabelIsIn(a: Annotations, l: string)
    requires Label(l) in a
    ensures Metadata.LabelsIn(a) != map[]
  {
    Metadata.LabelsInAt(a, l);
  }

  /** A labelled request is registered, by an enrolment without metadata. */
  lemma LabelledIsRegistered(ns: string, info: CertificateInfo)
    returns (actions: seq<Action>, n: nat, s: State, r: Request, q: Replies)
    ensures CanGoOn(ns, actions, s, r, q) && IsOpen(r) && !IsStuck(r) && Label(NAME) in r.annotations
    ensures NoFaults(q) && q.poll == Polled(Completed, info)
    ensures n < |s.log| && s.log[n].Reconciled? && s.log[n].read.uid == r.uid
    ensures exists c :: c in s.log[n].effects.calls && c.EnrollCall? && c.sent == Metadata.NOTHING
  {
    var start, s0, r0;
    start, s0, r0, q := RequestCanGoOn(ns, true, LABELLED, info, [TrustChain.Cf(NAME, false)]);
    assert TrustChain.Chain([TrustChain.Cf(NAME, false)]) == NAME;
    LogOfRunIsHonest(ns, start);
    NextKeepsLabel(ns, r0, q, NAME);
    s, r := GoesOnOnce(ns, start, s0, r0, q);
    actions, n := start + [ReconcileRequest(r0, q)], |s0.log|;
    NewEvent(s0, ReconcileRequest(r0, q));
  }

  /** The labels of an issued request are not always those that were sent for it: one that was created
      with a label, and enrolled without, ends Ready with its label although Horizon echoes the others. */
  lemma OtherLabelsStay(ns: string) returns (actions: seq<Action>, r: Request, info: CertificateInfo)
    ensures Exec(Initial(ns), actions).Some? && r in Exec(Initial(ns), actions).value.seenRequests && IsReady(r)
    ensures HasOtherLabels(Exec(Initial(ns), actions).value.log, r, info)
  {
    info := CertificateInfo(NAME, "", "", "", [], NAME);
    var start, n, s, r1, q := LabelledIsRegistered(ns, info);
    var more := TerminalIsReachable(ns, start, r1, q);
    actions := start + more;
    var t := Exec(Initial(ns), actions).value;
    r := t.cluster.requests[r1.uid];
    RunIsCoherent(ns, actions);
    SettleKeepsLabel(s.clusterNs, r1, Repeat(q, 3), NAME);
    LabelIsIn(r.annotations, NAME);
    assert actions[..|start|] == start;
    RunGrows(ns, actions, |start|);
    var c :| c in s.log[n].effects.calls && c.EnrollCall? && c.sent == Metadata.NOTHING;
    assert t.log[n] == s.log[n] && Echoes(info, c.sent);
  }

  // ----- A request that nothing guards -----

  lemma DeletedIsGone(ns: string, before: seq<Action>, s: State, r: Request) returns (a: Action)
    requires Exec(Initial(ns), before) == Some(s) && Coherent(s)
    requires r.uid in s.cluster.requests && s.cluster.requests[r.uid] == r && r.finalizers == {}
    ensures Exec(Initial(ns), before + [a]).Some?
    ensures var t := Exec(Initial(ns), before + [a]).value;
            r.uid !in t.cluster.requests && t.log == s.log && s.seenRequests <= t.seenRequests
  {
    a := EditRequest(r.(deleting := true));
    assert OthersMayEdit(r, r.(deleting := true));
    ExecOneMore(ns, before, a);
    LogGrows(s, a);
  }

  /** Revoke before disappearing needs the guard: a request that was submitted while its Issuer did not
      revoke has no finalizer, and whoever deletes it removes it unrevoked. */
  lemma RemovedUnrevoked(ns: string, info: CertificateInfo) returns (actions: seq<Action>, uid: Uid)
    ensures Exec(Initial(ns), actions).Some?
    ensures var t := Exec(Initial(ns), actions).value;
            EverSubmitted(t, uid) && uid !in t.cluster.requests && !Revoked(t.log, uid)
  {
    var start, s0, r0, q := RequestCanGoOn(ns, false, PLAIN, info, []);
    var a := ReconcileRequest(r0, q);
    LogOfRunIsHonest(ns, start);
    var s1, r1 := GoesOnOnce(ns, start, s0, r0, q);
    RunIsCoherent(ns, start + [a]);
    var edit := DeletedIsGone(ns, start + [a], s1, r1);
    actions, uid := start + [a] + [edit], r1.uid;
    assert IsSubmitted(r1) && r1 in s1.seenRequests;
    NotGuarded(s0, a, uid);
    RevokedBeforeLeaving(ns, actions, uid);
  }

  lemma NotGuarded(s: State, a: Action, uid: Uid)
    requires Enabled(s, a) && a.ReconcileRequest? && OnlyChecks(s.log)
    requires a.q.issuer.Some? && !a.q.issuer.value.spec.revokeCertificates
    ensures !GuardedIn(Apply(s, a).log, uid)
  {
    LogGrows(s, a);
    NewEvent(s, a);
    assert forall i :: 0 <= i < |s.log| ==> Apply(s, a).log[i] == s.log[i];
  }

  // ----- A request that is certified while it is being deleted -----

  /** The same Issuer, ready in two versions: one that revokes, and a later one that does not. */
  lemma IssuerStopsRevoking(ns: string) returns (actions: seq<Action>, s: State, on: IssuerObject, off: IssuerObject)
    ensures Exec(Initial(ns), actions) == Some(s) && on in s.seenIssuers && off in s.seenIssuers
    ensures on.key == off.key == NewIssuer(true).key && on.spec == NewIssuer(true).spec && off.spec == NewIssuer(false).spec
    ensures IsHealthy(on) && IsHealthy(off)
    ensures s.seenRequests == {} && s.seenCerts == {} && s.cluster.requests == map[] && s.cluster.certs == map[]
  {
    var before, s0;
    before, s0, on := IssuerGetsReady(ns, true);
    var edited := on.(spec := NewIssuer(false).spec);
    s := PutIssuer(s0, edited);
    Then(ns, before, EditIssuer(edited), s0, s);
    actions, off := before + [EditIssuer(edited)], s.cluster.issuers[on.key];
  }

  /** The answers of an Issuer that revokes, and of its later version that does not. */
  ghost predicate Apart(r: Request, on: Replies, off: Replies, info: CertificateInfo) {
    && Works(r, off) && NoFaults(off) && off.poll == Polled(Completed, info) && !off.write.Dropped?
    && !off.issuer.value.spec.revokeCertificates
    && Works(r.(deleting := false), on) && on.issuer.value.spec.revokeCertificates && on.revokeOk
  }

  lemma CreatedApart(ns: string, info: CertificateInfo) returns (actions: seq<Action>, s: State, r: Request, on: Replies, off: Replies)
    ensures CanGoOn(ns, actions, s, r, on) && Readable(s, r, off) && Apart(r, on, off, info)
    ensures SameContent(r, Unsubmitted(PLAIN)) && MoveOf(ns, r, on).Register?
  {
    var before, s0, i, j := IssuerStopsRevoking(ns);
    var parent;
    actions, s, parent, r := RequestIsCreated(ns, before, s0, PLAIN);
    assert TrustChain.Chain([TrustChain.Cf(NAME, false)]) == NAME;
    on := RepliesOf(i, parent, info, [TrustChain.Cf(NAME, false)]);
    off := RepliesOf(j, parent, info, [TrustChain.Cf(NAME, false)]);
    WorkingMove(ns, r, on);
  }

  lemma RegisteredApart(ns: string, info: CertificateInfo) returns (actions: seq<Action>, s: State, r: Request, on: Replies, off: Replies)
    ensures CanGoOn(ns, actions, s, r, on) && Readable(s, r, off) && Apart(r, on, off, info)
    ensures Coherent(s) && Ours in r.finalizers && IsOpen(r) && !IsStuck(r)
  {
    var start, s0, r0;
    start, s0, r0, on, off := CreatedApart(ns, info);
    RegistrationIsGuarded(ns, r0, on);
    s, r := GoesOnOnce(ns, start, s0, r0, on);
    actions := start + [ReconcileRequest(r0, on)];
    LogOfRunIsHonest(ns, start);
    LogGrows(s0, ReconcileRequest(r0, on));
    RunIsCoherent(ns, actions);
  }

  /** A registered request, guarded by its finalizer, is being deleted. */
  lemma GuardedIsDeleted(ns: string, info: CertificateInfo)
    returns (actions: seq<Action>, s: State, r: Request, on: Replies, off: Replies)
    ensures CanGoOn(ns, actions, s, r, off) && Readable(s, r, on) && Apart(r, on, off, info)
    ensures r.deleting && Ours in r.finalizers && IsOpen(r) && !IsStuck(r)
  {
    var before, s0, r0;
    before, s0, r0, on, off := RegisteredApart(ns, info);
    actions, s, r := DeletionStarts(ns, before, s0, r0);
  }

  lemma DeletionStarts(ns: string, before: seq<Action>, s: State, r: Request) returns (actions: seq<Action>, t: State, r': Request)
    requires Exec(Initial(ns), before) == Some(s) && Coherent(s)
    requires r.uid in s.cluster.requests && s.cluster.requests[r.uid] == r && r.finalizers != {}
    ensures Exec(Initial(ns), actions) == Some(t) && Grows(s, t)
    ensures r.uid in t.cluster.requests && t.cluster.requests[r.uid] == r' && r' in t.seenRequests
    ensures SameContent(r', r.(deleting := true))
  {
    var a := EditRequest(r.(deleting := true));
    assert OthersMayEdit(r, r.(deleting := true));
    ExecOneMore(ns, before, a);
    LogGrows(s, a);
    actions, t := before + [a], Apply(s, a);
    r' := t.cluster.requests[r.uid];
  }

  lemma StaleRevocation(ns: string, before: seq<Action>, s: State, stale: Request, q: Replies) returns (a: Action, c: Call)
    requires Exec(Initial(ns), before) == Some(s) && Readable(s, stale, q)
    requires stale.deleting && Ours in stale.finalizers && q.revokeOk
    requires Works(stale.(deleting := false), q) && q.issuer.value.spec.revokeCertificates
    ensures Exec(Initial(ns), before + [a]).Some? && c.RevokeCall? && c.accepted && c.certificate == stale.status.certificate
    ensures var t := Exec(Initial(ns), before + [a]).value;
            && Grows(s, t) && |s.log| < |t.log|
            && t.log[|s.log|].Reconciled? && t.log[|s.log|].read == stale && c in t.log[|s.log|].effects.calls
  {
    a := ReconcileRequest(stale, q);
    ExecOneMore(ns, before, a);
    LogGrows(s, a);
    NewEvent(s, a);
    LogOfRunIsHonest(ns, before);
    c := RevokeCall(ClientOf(ns, stale, q), stale.status.certificate, true);
    assert c in Run(ns, stale, q).calls;
  }

  lemma CertifiedInBetween(ns: string, info: CertificateInfo)
    returns (actions: seq<Action>, s: State, stale: Request, r: Request, on: Replies)
    ensures Exec(Initial(ns), actions) == Some(s) && Readable(s, stale, on) && r in s.seenRequests && r.uid == stale.uid
    ensures stale.deleting && Ours in stale.finalizers && !IsReady(stale) && r.deleting && IsReady(r)
    ensures Works(stale.(deleting := false), on) && on.issuer.value.spec.revokeCertificates && on.revokeOk
  {
    var start, s0, off;
    start, s0, stale, on, off := GuardedIsDeleted(ns, info);
    var more := TerminalIsReachable(ns, start, stale, off);
    actions := start + more;
    s := Exec(Initial(ns), actions).value;
    assert actions[..|start|] == start;
    RunGrows(ns, actions, |start|);
    RunIsCoherent(ns, actions);
    DeletedHasOneCertificate(ns, actions, stale.uid);
    r := s.cluster.requests[stale.uid];
  }

  /** A revocation can name another certificate than the request has, if the Issuer stopped revoking in
      between: the request is certified while it is being deleted, and a stale copy revokes nothing. */
  lemma RevokesAnother(ns: string, info: CertificateInfo) returns (actions: seq<Action>, i: nat, c: Call, r: Request)
    ensures Exec(Initial(ns), actions).Some?
    ensures var t := Exec(Initial(ns), actions).value;
            && i < |t.log| && t.log[i].Reconciled? && c in t.log[i].effects.calls && c.RevokeCall? && c.accepted
            && r in t.seenRequests && r.uid == t.log[i].read.uid && r.deleting && c.certificate != r.status.certificate
  {
    var before, s, stale, on, a;
    before, s, stale, r, on := CertifiedInBetween(ns, info);
    StateIsSound(ns, before);
    a, c := StaleRevocation(ns, before, s, stale, on);
    actions, i := before + [a], |s.log|;
  }
}
