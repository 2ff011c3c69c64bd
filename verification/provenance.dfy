/** The whole story of a certificate: the submission, the annotations and the status belong together,
    and the metadata on an issued request is what was merged for its enrolment. */
module Provenance {
  import opened Options
  import opened Keys
  import opened Model
  import opened RequestStep
  import opened Protocol
  import opened Issuance
  import opened World
  import opened Coherence
  import opened Lifecycle
  import opened Submissions
  import opened Issued
  import Metadata

  // ----- One request id for life -----

  ghost predicate SameIds(s: State) {
    forall r, r' :: r in s.seenRequests && r' in s.seenRequests && r.uid == r'.uid && IsSubmitted(r) && IsSubmitted(r')
                    ==> r.annotations[RequestId] == r'.annotations[RequestId]
  }

  /** A new version with a request id has the id of the version it was made from, or is the first. */
  lemma NewVersionKeepsId(s: State, a: Action, r: Request)
    requires Coherent(s) && AllSound(s) && Enabled(s, a)
    requires r in Apply(s, a).seenRequests && r !in s.seenRequests && IsSubmitted(r)
    ensures || (exists b :: b in s.seenRequests && b.uid == r.uid && At(b.annotations, RequestId) == At(r.annotations, RequestId))
            || (RegistersNow(s, a, r.uid) && At(r.annotations, RequestId) == Some(MoveOf(s.clusterNs, a.read, a.q).id))
  {
    Origin(s, a, r);
    if EditedTo(s, a, r) {
      var before := s.cluster.requests[r.uid];
      assert Reserved(before, RequestId);
      assert before in s.seenRequests && before.uid == r.uid;
    } else if MovedTo(s, a, r) {
      var m := MoveOf(s.clusterNs, a.read, a.q);
      OnlyRegisterGivesId(s.clusterNs, a.read, a.q);
      MoveIsAllowed(s.clusterNs, a.read, a.q);
      if IsSubmitted(a.read) {
        MoveIsLater(a.read, m);
        assert a.read in s.seenRequests && At(a.read.annotations, RequestId) == At(r.annotations, RequestId);
      }
    }
  }

  lemma SameIdsStep(s: State, a: Action, r: Request, r': Request)
    requires Coherent(s) && AllSound(s) && SameIds(s) && Enabled(s, a) && LiveKeepsId(s, r.uid)
    requires r in Apply(s, a).seenRequests && r !in s.seenRequests && IsSubmitted(r)
    requires r' in s.seenRequests && r'.uid == r.uid && IsSubmitted(r')
    ensures r.annotations[RequestId] == r'.annotations[RequestId]
  {
    NewVersionKeepsId(s, a, r);
    if RegistersNow(s, a, r.uid) {
      RegisteringFacts(s, a, r.uid);
      assert false;
    }
  }

  /** Write once: in every run, all versions of a request that carry a request id carry the same one. */
  lemma {:induction false} OneIdForLife(ns: string, actions: seq<Action>)
    requires Exec(Initial(ns), actions).Some?
    ensures SameIds(Exec(Initial(ns), actions).value)
  {
    if actions != [] {
      var n := |actions| - 1;
      var s, t := Exec(Initial(ns), actions[..n]).value, Exec(Initial(ns), actions).value;
      OneIdForLife(ns, actions[..n]);
      StateIsSound(ns, actions[..n]);
      forall r, r' | r in t.seenRequests && r' in t.seenRequests && r.uid == r'.uid && IsSubmitted(r) && IsSubmitted(r')
        ensures r.annotations[RequestId] == r'.annotations[RequestId]
      {
        RunIsBalanced(ns, actions[..n], r.uid);
        if r !in s.seenRequests && r' !in s.seenRequests {
          OneNewVersion(s, actions[n], r, r');
        } else if r !in s.seenRequests {
          SameIdsStep(s, actions[n], r, r');
        } else if r' !in s.seenRequests {
          SameIdsStep(s, actions[n], r', r);
        }
      }
    }
  }

  // ----- Where a request id comes from -----

  /** In this event Horizon accepted a submission of this request's own CSR and answered this id, and the
      write after it was stored. */
  ghost predicate Submits(e: Event, uid: Uid, id: string) {
    && e.Reconciled? && e.stored && e.read.uid == uid
    && exists c :: c in e.effects.calls && IsSubmission(c) && c.csr == e.read.spec.csr && c.reply == Accepted(id)
  }

  ghost predicate SubmittedBefore(log: seq<Event>, i: nat, uid: Uid, id: string) {
    exists k :: 0 <= k < i && k < |log| && Submits(log[k], uid, id)
  }

  lemma SubmittedLater(log: seq<Event>, more: seq<Event>, i: nat, n: nat, uid: Uid, id: string)
    requires SubmittedBefore(log, i, uid, id) && log <= more && (i <= n || |log| <= n)
    ensures SubmittedBefore(more, n, uid, id)
  {
    var k :| 0 <= k < i && k < |log| && Submits(log[k], uid, id);
    assert more[k] == log[k];
  }

  ghost predicate IdsAreGiven(s: State) {
    forall r :: r in s.seenRequests && IsSubmitted(r) ==> SubmittedBefore(s.log, |s.log|, r.uid, r.annotations[RequestId])
  }

  ghost predicate ReadsAreGiven(s: State) {
    forall i :: 0 <= i < |s.log| && s.log[i].Reconciled? && IsSubmitted(s.log[i].read) ==>
                  SubmittedBefore(s.log, i, s.log[i].read.uid, s.log[i].read.annotations[RequestId])
  }

  lemma RegisteringSubmits(s: State, a: Action, uid: Uid)
    requires Enabled(s, a) && RegistersNow(s, a, uid)
    ensures var t := Apply(s, a);
            SubmittedBefore(t.log, |t.log|, uid, MoveOf(s.clusterNs, a.read, a.q).id)
  {
    NewEvent(s, a);
    LogGrows(s, a);
    RegisteredIdIsAnswered(s.clusterNs, a.read, a.q);
    assert Submits(Apply(s, a).log[|s.log|], uid, MoveOf(s.clusterNs, a.read, a.q).id);
  }

  lemma SubmissionIsAnswered(r: Request, client: Client, q: Replies, guarded: bool)
    requires MoveOfSubmission(q, guarded).Register?
    ensures var calls := Submit(r, client, q).calls;
            && calls != [] && q.submit == Accepted(MoveOfSubmission(q, guarded).id)
            && IsSubmission(calls[|calls| - 1]) && calls[|calls| - 1].csr == r.spec.csr && calls[|calls| - 1].reply == q.submit
  {
    SubmissionShape(r, client, q);
  }

  /** The id that is registered is the one that Horizon answered to a submission of this reconcile. */
  lemma RegisteredIdIsAnswered(ns: string, r: Request, q: Replies)
    requires MoveOf(ns, r, q).Register?
    ensures exists c :: c in Run(ns, r, q).calls && IsSubmission(c) && c.csr == r.spec.csr && c.reply == Accepted(MoveOf(ns, r, q).id)
  {
    match Enters(ns, r, q)
    case Delete(_) => assert false;
    case Enter(client, r1) =>
      SubmissionIsAnswered(r1, client, q, client.spec.revokeCertificates);
      var calls := Submit(r1, client, q).calls;
      assert calls == Run(ns, r, q).calls && calls[|calls| - 1] in calls;
  }

  lemma IdsStayGiven(s: State, a: Action)
    requires Coherent(s) && AllSound(s) && Enabled(s, a) && IdsAreGiven(s)
    ensures IdsAreGiven(Apply(s, a))
  {
    var t := Apply(s, a);
    LogGrows(s, a);
    forall r | r in t.seenRequests && IsSubmitted(r)
      ensures SubmittedBefore(t.log, |t.log|, r.uid, r.annotations[RequestId])
    {
      if r in s.seenRequests {
        SubmittedLater(s.log, t.log, |s.log|, |t.log|, r.uid, r.annotations[RequestId]);
      } else {
        NewVersionKeepsId(s, a, r);
        if RegistersNow(s, a, r.uid) && At(r.annotations, RequestId) == Some(MoveOf(s.clusterNs, a.read, a.q).id) {
          RegisteringSubmits(s, a, r.uid);
        } else {
          var b :| b in s.seenRequests && b.uid == r.uid && At(b.annotations, RequestId) == At(r.annotations, RequestId);
          SubmittedLater(s.log, t.log, |s.log|, |t.log|, b.uid, b.annotations[RequestId]);
        }
      }
    }
  }

  lemma ReadsStayGiven(s: State, a: Action)
    requires Enabled(s, a) && IdsAreGiven(s) && ReadsAreGiven(s)
    ensures ReadsAreGiven(Apply(s, a))
  {
    var t := Apply(s, a);
    LogGrows(s, a);
    NewEvent(s, a);
    forall i | 0 <= i < |t.log| && t.log[i].Reconciled? && IsSubmitted(t.log[i].read)
      ensures SubmittedBefore(t.log, i, t.log[i].read.uid, t.log[i].read.annotations[RequestId])
    {
      var r := t.log[i].read;
      if i < |s.log| {
        assert t.log[i] == s.log[i];
        SubmittedLater(s.log, t.log, i, i, r.uid, r.annotations[RequestId]);
      } else {
        assert r in s.seenRequests;
        SubmittedLater(s.log, t.log, |s.log|, i, r.uid, r.annotations[RequestId]);
      }
    }
  }

  lemma {:induction false} RunGivesIds(ns: string, actions: seq<Action>)
    requires Exec(Initial(ns), actions).Some?
    ensures IdsAreGiven(Exec(Initial(ns), actions).value) && ReadsAreGiven(Exec(Initial(ns), actions).value)
  {
    if actions != [] {
      var n := |actions| - 1;
      var s := Exec(Initial(ns), actions[..n]).value;
      RunGivesIds(ns, actions[..n]);
      StateIsSound(ns, actions[..n]);
      IdsStayGiven(s, actions[n]);
      ReadsStayGiven(s, actions[n]);
    }
  }

  // ----- The metadata of an issued request -----

  /** What the write of an annotating event wrote. */
  lemma AnnotatingWritesIssue(ns: string, e: Event, r: Request)
    requires Annotates(e, r) && e.effects == Run(ns, e.read, e.q)
    ensures SameIssued(Issue(e.read.annotations, e.q.poll.certificate), r.annotations)
  {
    ReconcileMakesMove(ns, e.read, e.q);
    PollingMoves(ns, e.read, e.q);
    MetaWritesChange(ns, e.read, e.q);
  }

  lemma PollingMoves(ns: string, r: Request, q: Replies)
    requires exists c :: c in Run(ns, r, q).calls && c.PollCall?
    requires q.poll.Polled? && Completes(q, q.poll.certificate)
    ensures var m := MoveOf(ns, r, q);
            m.Certify? || m == Annotate(q.poll.certificate, q.issuer.value.spec.revokeCertificates)
  {
    match Enters(ns, r, q)
    case Delete(_) => assert false;
    case Enter(client, r1) =>
      if !IsSubmitted(r1) {
        SubmissionPollsNothing(r1, client, q);
      }
  }

  lemma SubmissionPollsNothing(r: Request, client: Client, q: Replies)
    ensures forall c :: c in Submit(r, client, q).calls ==> !c.PollCall?
  {
    SubmissionShape(r, client, q);
  }

  lemma MetaWritesChange(ns: string, r: Request, q: Replies)
    requires Run(ns, r, q).write.MetaWrite? && Enters(ns, r, q).Enter?
    ensures Run(ns, r, q).write.request.annotations != r.annotations
  {
  }

  /** A request carries the metadata that was merged for its enrolment: owner, team and contact are the
      merged ones, and so is each merged label; the labels are exactly the merged ones if and only if
      the copy that was annotated had no others. */
  ghost predicate Carries(r: Request, before: Annotations, m: Metadata.Meta) {
    && At(r.annotations, Owner) == Some(m.owner.GetOr(""))
    && At(r.annotations, Team) == Some(m.team.GetOr(""))
    && At(r.annotations, ContactEmail) == Some(m.contactEmail.GetOr(""))
    && (forall l :: l in m.labels ==> At(r.annotations, Label(l)) == Some(m.labels[l]))
    && (Metadata.LabelsIn(r.annotations) == m.labels <==> Metadata.LabelsIn(before).Keys <= m.labels.Keys)
  }

  lemma EchoIsCarried(r: Request, before: Annotations, info: CertificateInfo, m: Metadata.Meta)
    requires SameIssued(Issue(before, info), r.annotations) && Echoes(info, m)
    ensures Carries(r, before, m)
  {
    FixedRoundTrip(before, info, m);
    LabelsRoundTrip(before, info, m);
    SameLabels(Issue(before, info), r.annotations);
    forall l | l in m.labels
      ensures At(r.annotations, Label(l)) == Some(m.labels[l])
    {
      IssueAt(before, info, Label(l));
      LastValueOfList(info.labels, m.labels, l);
    }
  }

  lemma SameLabels(a: Annotations, b: Annotations)
    requires SameIssued(a, b)
    ensures Metadata.LabelsIn(a) == Metadata.LabelsIn(b)
  {
    forall l: string
      ensures At(Metadata.LabelsIn(a), l) == At(Metadata.LabelsIn(b), l)
    {
      Metadata.LabelsInAt(a, l);
      Metadata.LabelsInAt(b, l);
    }
    Metadata.SameMap(Metadata.LabelsIn(a), Metadata.LabelsIn(b));
  }

  /** Horizon's answer in event `e` echoes what these calls submitted, and `r` carries it. */
  ghost predicate EchoesReach(calls: seq<Call>, e: Event, r: Request)
    requires e.Reconciled? && e.q.poll.Polled?
  {
    forall c :: c in calls && c.EnrollCall? && Echoes(e.q.poll.certificate, c.sent) ==> Carries(r, e.read.annotations, c.sent)
  }

  ghost predicate Story(log: seq<Event>, k: int, j: int, i: int, r: Request) {
    && 0 <= k < j < i < |log|
    && IsSubmitted(r) && Submits(log[k], r.uid, r.annotations[RequestId])
    && Annotates(log[j], r) && At(log[j].read.annotations, RequestId) == At(r.annotations, RequestId)
    && EchoesReach(log[k].effects.calls, log[j], r)
    && Certifies(log[i], r) && At(log[i].read.annotations, RequestId) == At(r.annotations, RequestId)
  }

  /** The story of every Ready request of every run: Horizon accepted a submission of its CSR; a later
      reconcile polled the id of that submission and stored the annotations; a still later one polled
      the same id and stored the certificate. If Horizon's answer echoes the metadata that was sent with
      the submission, the request carries it. */
  lemma StoryOfCertificate(ns: string, actions: seq<Action>, r: Request)
    requires Exec(Initial(ns), actions).Some? && r in Exec(Initial(ns), actions).value.seenRequests && IsReady(r)
    ensures exists k, j, i :: Story(Exec(Initial(ns), actions).value.log, k, j, i, r)
  {
    var s := Exec(Initial(ns), actions).value;
    AnnotationsBeforeStatus(ns, actions, r);
    EveryVersionIsSound(ns, actions, r);
    var i, j :| 0 <= j < i < |s.log| && Annotates(s.log[j], r) && Certifies(s.log[i], r);
    LogOfRunIsHonest(ns, actions);
    OneIdForLife(ns, actions);
    RunGivesIds(ns, actions);
    PollerReadsId(s, s.log[i], r);
    PollerReadsId(s, s.log[j], r);
    SubmittedBeforeRead(s, j);
    var k :| 0 <= k < j && k < |s.log| && Submits(s.log[k], r.uid, r.annotations[RequestId]);
    AnnotatingCarries(ns, s.log[k].effects.calls, s.log[j], r);
    assert Story(s.log, k, j, i, r);
  }

  lemma PollerReadsId(s: State, e: Event, r: Request)
    requires SameIds(s) && LogIsHonest(s) && e in s.log && r in s.seenRequests && IsSubmitted(r)
    requires e.Reconciled? && Polls(e) && e.read.uid == r.uid
    ensures e.effects == Run(s.clusterNs, e.read, e.q) && At(e.read.annotations, RequestId) == At(r.annotations, RequestId)
  {
    assert Honest(s, e);
  }

  lemma SubmittedBeforeRead(s: State, j: nat)
    requires ReadsAreGiven(s) && j < |s.log| && s.log[j].Reconciled? && IsSubmitted(s.log[j].read)
    ensures SubmittedBefore(s.log, j, s.log[j].read.uid, s.log[j].read.annotations[RequestId])
  {
  }

  lemma AnnotatingCarries(ns: string, calls: seq<Call>, e: Event, r: Request)
    requires Annotates(e, r) && e.effects == Run(ns, e.read, e.q)
    ensures EchoesReach(calls, e, r)
  {
    AnnotatingWritesIssue(ns, e, r);
    forall c | c in calls && c.EnrollCall? && Echoes(e.q.poll.certificate, c.sent)
      ensures Carries(r, e.read.annotations, c.sent)
    {
      EchoIsCarried(r, e.read.annotations, e.q.poll.certificate, c.sent);
    }
  }

  // ----- The metadata of an enrolment -----

  /** Layers that were stored: a version of the request's own Certificate, one of its own Issuer, and
      an Ingress only if the Certificate has one as an owner. */
  ghost predicate OwnLayers(s: State, r: Request, l: Metadata.Layers) {
    exists parent, issuer ::
      && parent in s.seenCerts && parent.key == CertKeyOf(r)
      && issuer in s.seenIssuers && IssuerKeyOf(r) == Some(issuer.key)
      && l.certificate == parent.annotations
      && (Metadata.LastIngress(parent.owners).None? ==> l.ingress == map[])
      && l.default == Metadata.OrDefault(issuer.spec.default) && l.override == Metadata.OrDefault(issuer.spec.override)
  }

  lemma EnrolmentIsMerged(ns: string, r: Request, q: Replies, c: Call)
    requires c in Run(ns, r, q).calls && c.EnrollCall?
    ensures q.template.Some? && c.sent == Metadata.Sent(EnrolmentOf(q), q.template.value) && c.csr == r.spec.csr
  {
    match Enters(ns, r, q)
    case Enter(client, r1) =>
      if IsSubmitted(r1) {
        PollSubmitsNothing(r1, client, q);
      }
      SubmissionShape(r1, client, q);
  }

  lemma ReadLayersAreOwn(s: State, r: Request, q: Replies)
    requires Readable(s, r, q) && ReadMetadata(q.lookups).Some?
    ensures OwnLayers(s, r, ReadMetadata(q.lookups).value)
  {
    var parent, issuer := q.lookups.parent.value, q.lookups.issuer.value;
    assert parent in s.seenCerts && issuer in s.seenIssuers;
  }

  /** The enrolment reads all it needs: the Certificate, the Issuer, and the Ingress if the Certificate
      has one as an owner. */
  lemma ReadsExactly(m: MetadataReads)
    ensures ReadMetadata(m).Some? <==>
            && m.parent.Some? && m.issuer.Some?
            && ((exists o :: o in m.parent.value.owners && o.ingress) ==> m.ingress.Some?)
    ensures ReadMetadata(m).Some? ==>
              && ReadMetadata(m).value.certificate == m.parent.value.annotations
              && ReadMetadata(m).value.ingress
                 == (if exists o :: o in m.parent.value.owners && o.ingress then m.ingress.value.annotations else map[])
              && ReadMetadata(m).value.default == m.issuer.value.spec.default.GetOr(Metadata.NO_TEMPLATE)
              && ReadMetadata(m).value.override == m.issuer.value.spec.override.GetOr(Metadata.NO_TEMPLATE)
  {
    if m.parent.Some? {
      Metadata.LastIngressIsLast(m.parent.value.owners);
    }
  }

  /** What is sent for owner, team and contact: the first value that is present, from the override template
      over the annotations of the Certificate and of the Ingress to the default template, and the one of
      Horizon's template if that is empty or there is none. */
  predicate SendsFields(parent: Annotations, ingress: Annotations, under: Option<Metadata.Template>, over: Option<Metadata.Template>, t: Metadata.Meta, sent: Metadata.Meta) {
    && (var v := if over.Some? && over.value.owner.Some? then over.value.owner.value
                 else if Owner in parent then parent[Owner]
                 else if Owner in ingress then ingress[Owner]
                 else if under.Some? && under.value.owner.Some? then under.value.owner.value
                 else "";
        sent.owner == if v != "" then Some(v) else t.owner)
    && (var v := if over.Some? && over.value.team.Some? then over.value.team.value
                 else if Team in parent then parent[Team]
                 else if Team in ingress then ingress[Team]
                 else if under.Some? && under.value.team.Some? then under.value.team.value
                 else "";
        sent.team == if v != "" then Some(v) else t.team)
    && (var v := if over.Some? && over.value.contactEmail.Some? then over.value.contactEmail.value
                 else if ContactEmail in parent then parent[ContactEmail]
                 else if ContactEmail in ingress then ingress[ContactEmail]
                 else if under.Some? && under.value.contactEmail.Some? then under.value.contactEmail.value
                 else "";
        sent.contactEmail == if v != "" then Some(v) else t.contactEmail)
  }

  /** What is sent for a label: the value of the highest layer that has it; labels of Horizon's template
      are not sent. */
  predicate SendsLabel(parent: Annotations, ingress: Annotations, under: Option<Metadata.Template>, over: Option<Metadata.Template>, sent: Metadata.Meta, l: string) {
    if over.Some? && l in over.value.labels then l in sent.labels && sent.labels[l] == over.value.labels[l]
    else if Label(l) in parent then l in sent.labels && sent.labels[l] == parent[Label(l)]
    else if Label(l) in ingress then l in sent.labels && sent.labels[l] == ingress[Label(l)]
    else if under.Some? && l in under.value.labels then l in sent.labels && sent.labels[l] == under.value.labels[l]
    else l !in sent.labels
  }

  lemma FieldsSent(parent: Annotations, ingress: Annotations, under: Option<Metadata.Template>, over: Option<Metadata.Template>, t: Metadata.Meta, sent: Metadata.Meta)
    requires sent == Metadata.Sent(Metadata.Merge(parent, ingress, under.GetOr(Metadata.NO_TEMPLATE), over.GetOr(Metadata.NO_TEMPLATE)), t)
    ensures SendsFields(parent, ingress, under, over, t, sent)
  {
    Metadata.FieldsAreLayered(parent, ingress, under.GetOr(Metadata.NO_TEMPLATE), over.GetOr(Metadata.NO_TEMPLATE));
  }

  lemma LabelSent(parent: Annotations, ingress: Annotations, under: Option<Metadata.Template>, over: Option<Metadata.Template>, t: Metadata.Meta, sent: Metadata.Meta, l: string)
    requires sent == Metadata.Sent(Metadata.Merge(parent, ingress, under.GetOr(Metadata.NO_TEMPLATE), over.GetOr(Metadata.NO_TEMPLATE)), t)
    ensures SendsLabel(parent, ingress, under, over, sent, l)
  {
    Metadata.LabelsAreLayered(parent, ingress, under.GetOr(Metadata.NO_TEMPLATE), over.GetOr(Metadata.NO_TEMPLATE), l);
  }

  /** The reads are stored versions of the Certificate and of the Issuer that the request names, and an
      Ingress that owns the Certificate. */
  ghost predicate ReadsOwn(s: State, r: Request, m: MetadataReads)
    requires m.parent.Some? && m.issuer.Some?
  {
    && m.parent.value in s.seenCerts && m.parent.value.key == CertKeyOf(r)
    && m.issuer.value in s.seenIssuers && IssuerKeyOf(r) == Some(m.issuer.value.key)
    && (m.ingress.Some? ==> m.ingress.value.ns == m.parent.value.key.ns
                            && exists o :: o in m.parent.value.owners && o.ingress && o.name == m.ingress.value.name)
  }

  /** The values sent are those of the reads; without one of them no metadata is sent. */
  ghost predicate Sends(s: State, r: Request, m: MetadataReads, t: Metadata.Meta, sent: Metadata.Meta, l: string) {
    if m.parent.None? || m.issuer.None? || (m.ingress.None? && exists o :: o in m.parent.value.owners && o.ingress) then
      sent == Metadata.Meta(map[], t.owner, t.team, t.contactEmail)
    else
      var parent, under, over := m.parent.value.annotations, m.issuer.value.spec.default, m.issuer.value.spec.override;
      var ingress: Annotations := if m.ingress.Some? then m.ingress.value.annotations else map[];
      && ReadsOwn(s, r, m)
      && SendsFields(parent, ingress, under, over, t, sent)
      && SendsLabel(parent, ingress, under, over, sent, l)
  }

  lemma ReadsAreOwn(s: State, r: Request, q: Replies)
    requires Readable(s, r, q) && q.lookups.parent.Some? && q.lookups.issuer.Some?
    ensures ReadsOwn(s, r, q.lookups)
    ensures q.lookups.ingress.Some? ==> exists o :: o in q.lookups.parent.value.owners && o.ingress
  {
    Metadata.LastIngressIsLast(q.lookups.parent.value.owners);
  }

  lemma ReadsSend(s: State, r: Request, q: Replies, sent: Metadata.Meta, l: string)
    requires Readable(s, r, q) && q.template.Some? && sent == Metadata.Sent(EnrolmentOf(q), q.template.value)
    ensures Sends(s, r, q.lookups, q.template.value, sent, l)
  {
    var m := q.lookups;
    ReadsExactly(m);
    if ReadMetadata(m).Some? {
      var layers := ReadMetadata(m).value;
      var under, over := m.issuer.value.spec.default, m.issuer.value.spec.override;
      ReadsAreOwn(s, r, q);
      FieldsSent(layers.certificate, layers.ingress, under, over, q.template.value, sent);
      LabelSent(layers.certificate, layers.ingress, under, over, q.template.value, sent, l);
    }
  }

  /** The enrolments of every run, value by value. With all reads answered, each of owner, team, contact
      and label is the layered one of stored versions of the request's own Certificate and Issuer and of
      the Ingress that owns the Certificate; otherwise Horizon's template is sent with no label. */
  lemma EnrolmentSends(ns: string, actions: seq<Action>, i: nat, c: Call, l: string)
    requires Exec(Initial(ns), actions).Some?
    requires var log := Exec(Initial(ns), actions).value.log;
             i < |log| && log[i].Reconciled? && c in log[i].effects.calls && c.EnrollCall?
    ensures var s := Exec(Initial(ns), actions).value;
            var r, m, template := s.log[i].read, s.log[i].q.lookups, s.log[i].q.template;
            template.Some? && Sends(s, r, m, template.value, c.sent, l)
  {
    var s := Exec(Initial(ns), actions).value;
    var e := s.log[i];
    LogOfRunIsHonest(ns, actions);
    assert Honest(s, e);
    EnrolmentIsMerged(ns, e.read, e.q, c);
    ReadsSend(s, e.read, e.q, c.sent, l);
  }

  /** In every run, every enrolment sends the request's own CSR and, over Horizon's template, the layered
      merge of a version of its own Certificate and of its own Issuer; or no metadata of theirs, if
      one of the reads failed. */
  lemma EnrolmentProvenance(ns: string, actions: seq<Action>, i: nat, c: Call)
    requires Exec(Initial(ns), actions).Some?
    requires var log := Exec(Initial(ns), actions).value.log;
             i < |log| && log[i].Reconciled? && c in log[i].effects.calls && c.EnrollCall?
    ensures var s := Exec(Initial(ns), actions).value;
            var e := s.log[i];
            && c.csr == e.read.spec.csr && e.q.template.Some?
            && c.sent == Metadata.Sent(EnrolmentOf(e.q), e.q.template.value)
            && (ReadMetadata(e.q.lookups).Some? ==> OwnLayers(s, e.read, ReadMetadata(e.q.lookups).value))
  {
    var s := Exec(Initial(ns), actions).value;
    var e := s.log[i];
    LogOfRunIsHonest(ns, actions);
    assert Honest(s, e);
    EnrolmentIsMerged(ns, e.read, e.q, c);
    if ReadMetadata(e.q.lookups).Some? {
      ReadLayersAreOwn(s, e.read, e.q);
    }
  }
}
