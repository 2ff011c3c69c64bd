/** Where the certificate id of a renewal comes from, and how it reaches the parent Certificate. */
module Renewal {
  import opened Options
  import opened Keys
  import opened Model
  import opened RequestStep
  import opened Protocol
  import opened Behaviour
  import opened Issuance
  import opened World
  import opened Coherence
  import opened Lifecycle
  import opened Submissions
  import opened Issued

  // ----- A request points at one Certificate for life -----

  ghost predicate SameParents(s: State) {
    forall r, r' :: r in s.seenRequests && r' in s.seenRequests && r.uid == r'.uid ==> CertKeyOf(r) == CertKeyOf(r')
  }

  lemma NewVersionSameParent(s: State, a: Action, r: Request, r': Request)
    requires Coherent(s) && AllSound(s) && SameParents(s) && Enabled(s, a)
    requires r in Apply(s, a).seenRequests && r !in s.seenRequests && r' in s.seenRequests && r.uid == r'.uid
    ensures CertKeyOf(r) == CertKeyOf(r')
  {
    Origin(s, a, r);
    if MovedTo(s, a, r) {
      var m := MoveOf(s.clusterNs, a.read, a.q);
      MoveIsAllowed(s.clusterNs, a.read, a.q);
      MoveIsLater(a.read, m);
      assert CertKeyOf(r) == CertKeyOf(a.read);
    } else if EditedTo(s, a, r) {
      EditIsLater(s.cluster.requests[r.uid], r);
      assert CertKeyOf(r) == CertKeyOf(s.cluster.requests[r.uid]);
    }
  }

  lemma {:induction false} RunKeepsParents(ns: string, actions: seq<Action>)
    requires Exec(Initial(ns), actions).Some?
    ensures SameParents(Exec(Initial(ns), actions).value)
  {
    if actions != [] {
      var n := |actions| - 1;
      var s, t := Exec(Initial(ns), actions[..n]).value, Exec(Initial(ns), actions).value;
      RunKeepsParents(ns, actions[..n]);
      StateIsSound(ns, actions[..n]);
      forall r, r' | r in t.seenRequests && r' in t.seenRequests && r.uid == r'.uid
        ensures CertKeyOf(r) == CertKeyOf(r')
      {
        if r !in s.seenRequests && r' !in s.seenRequests {
          OneNewVersion(s, actions[n], r, r');
        } else if r !in s.seenRequests {
          NewVersionSameParent(s, actions[n], r, r');
        } else if r' !in s.seenRequests {
          NewVersionSameParent(s, actions[n], r', r);
        }
      }
    }
  }

  // ----- Provenance -----

  /** In this event Horizon answered a poll, for a request of this Certificate, with completed and
      this certificate id. */
  ghost predicate Returns(e: Event, key: CertKey, id: string) {
    && e.Reconciled? && CertKeyOf(e.read) == key
    && Polls(e) && e.q.poll.Polled? && Completes(e.q, e.q.poll.certificate)
    && e.q.poll.certificate.id == id
  }

  ghost predicate ReturnedBefore(log: seq<Event>, i: nat, key: CertKey, id: string) {
    exists j :: 0 <= j < i && j < |log| && Returns(log[j], key, id)
  }

  lemma ReturnedLater(log: seq<Event>, more: seq<Event>, i: nat, k: nat, key: CertKey, id: string)
    requires ReturnedBefore(log, i, key, id) && log <= more && (i <= k || |log| <= k)
    ensures ReturnedBefore(more, k, key, id)
  {
    var j :| 0 <= j < i && j < |log| && Returns(log[j], key, id);
    assert more[j] == log[j];
  }

  /** The certificate id on a request was returned for it. */
  lemma RequestIdIsReturned(s: State, r: Request)
    requires SameParents(s) && LogIsHonest(s) && AllExplained(s)
    requires r in s.seenRequests && CertificateId in r.annotations
    ensures ReturnedBefore(s.log, |s.log|, CertKeyOf(r), r.annotations[CertificateId])
  {
    assert Explained(s.log, r);
    var j :| 0 <= j < |s.log| && Annotates(s.log[j], r);
    var e := s.log[j];
    assert Honest(s, e);
    assert At(r.annotations, CertificateId) == Returned(e.q.poll.certificate, CertificateId);
    assert Returns(s.log[j], CertKeyOf(r), r.annotations[CertificateId]);
  }

  /** The last certificate id on a Certificate was returned for one of its requests. */
  ghost predicate CertsAreReturned(s: State) {
    forall c :: c in s.seenCerts && LastCertificateId in c.annotations ==>
      ReturnedBefore(s.log, |s.log|, c.key, c.annotations[LastCertificateId])
  }

  /** A new version of a Certificate keeps the id of the last one, or has the id a reconcile wrote. */
  lemma NewCertVersion(s: State, a: Action, c: Certificate)
    requires Coherent(s) && Enabled(s, a) && c in Apply(s, a).seenCerts && c !in s.seenCerts
    ensures || LastCertificateId !in c.annotations
            || (c.key in s.cluster.certs && At(s.cluster.certs[c.key].annotations, LastCertificateId) == At(c.annotations, LastCertificateId))
            || (a.ReconcileRequest? && c.key == CertKeyOf(a.read)
                && Run(s.clusterNs, a.read, a.q).parent == ParentWrite(c.annotations[LastCertificateId]))
  {
    if a.ReconcileRequest? {
      NewCertOfEffects(s, a.read, a.q, Run(s.clusterNs, a.read, a.q), c);
    }
  }

  lemma NewCertOfEffects(s: State, read: Request, q: Replies, e: Effects, c: Certificate)
    requires Coherent(s) && CertReadable(s, q.parentAgain) && Named(read, q)
    requires c in AfterEffects(s, read, q, e).seenCerts && c !in s.seenCerts
    ensures c.key == CertKeyOf(read) && LastCertificateId in c.annotations && e.parent == ParentWrite(c.annotations[LastCertificateId])
  {
  }

  lemma OfferedIdIsReturned(s: State, a: Action)
    requires Enabled(s, a) && a.ReconcileRequest? && SameParents(s) && LogIsHonest(s) && AllExplained(s)
    requires Run(s.clusterNs, a.read, a.q).parent.ParentWrite?
    ensures var t := Apply(s, a);
            ReturnedBefore(t.log, |t.log|, CertKeyOf(a.read), Run(s.clusterNs, a.read, a.q).parent.id)
  {
    var e, m := Run(s.clusterNs, a.read, a.q), MoveOf(s.clusterNs, a.read, a.q);
    var t := Apply(s, a);
    ParentIdComesFromRequest(s.clusterNs, a.read, a.q);
    LogGrows(s, a);
    NewEvent(s, a);
    if At(a.read.annotations, CertificateId) == Some(e.parent.id) {
      RequestIdIsReturned(s, a.read);
      ReturnedLater(s.log, t.log, |s.log|, |t.log|, CertKeyOf(a.read), e.parent.id);
    } else {
      IssuanceFollowsPoll(s.clusterNs, a.read, a.q);
      IssuancePolls(s.clusterNs, t.log[|s.log|]);
      assert Returns(t.log[|s.log|], CertKeyOf(a.read), e.parent.id);
    }
  }

  lemma CertsStayReturned(s: State, a: Action)
    requires Coherent(s) && Enabled(s, a) && SameParents(s) && LogIsHonest(s) && AllExplained(s) && CertsAreReturned(s)
    ensures CertsAreReturned(Apply(s, a))
  {
    var t := Apply(s, a);
    LogGrows(s, a);
    forall c | c in t.seenCerts && LastCertificateId in c.annotations
      ensures ReturnedBefore(t.log, |t.log|, c.key, c.annotations[LastCertificateId])
    {
      if c in s.seenCerts {
        ReturnedLater(s.log, t.log, |s.log|, |t.log|, c.key, c.annotations[LastCertificateId]);
      } else {
        NewCertVersion(s, a, c);
        if a.ReconcileRequest? && Run(s.clusterNs, a.read, a.q).parent == ParentWrite(c.annotations[LastCertificateId]) && c.key == CertKeyOf(a.read) {
          OfferedIdIsReturned(s, a);
        } else {
          ReturnedLater(s.log, t.log, |s.log|, |t.log|, c.key, c.annotations[LastCertificateId]);
        }
      }
    }
  }

  ghost predicate RenewsReturned(log: seq<Event>, i: nat)
    requires i < |log|
  {
    log[i].Reconciled? ==>
      forall c :: c in log[i].effects.calls && c.RenewCall? ==> ReturnedBefore(log, i, CertKeyOf(log[i].read), c.lastCertificateId)
  }

  ghost predicate RenewalsAreReturned(s: State) {
    forall i :: 0 <= i < |s.log| ==> RenewsReturned(s.log, i)
  }

  lemma NewRenewalIsReturned(s: State, a: Action)
    requires Enabled(s, a) && CertsAreReturned(s) && a.ReconcileRequest?
    ensures |s.log| < |Apply(s, a).log| && RenewsReturned(Apply(s, a).log, |s.log|)
  {
    LogGrows(s, a);
    NewEvent(s, a);
    var t := Apply(s, a);
    forall c | c in Run(s.clusterNs, a.read, a.q).calls && c.RenewCall?
      ensures ReturnedBefore(t.log, |s.log|, CertKeyOf(a.read), c.lastCertificateId)
    {
      RenewalNamesParent(s.clusterNs, a.read, a.q, c);
      ReturnedLater(s.log, t.log, |s.log|, |s.log|, CertKeyOf(a.read), c.lastCertificateId);
    }
  }

  lemma RenewalsStayReturned(s: State, a: Action)
    requires Enabled(s, a) && CertsAreReturned(s) && RenewalsAreReturned(s)
    ensures RenewalsAreReturned(Apply(s, a))
  {
    LogGrows(s, a);
    NewEvent(s, a);
    var t := Apply(s, a);
    forall i | 0 <= i < |t.log|
      ensures RenewsReturned(t.log, i)
    {
      if i < |s.log| {
        assert t.log[i] == s.log[i] && RenewsReturned(s.log, i);
        forall c | t.log[i].Reconciled? && c in t.log[i].effects.calls && c.RenewCall?
          ensures ReturnedBefore(t.log, i, CertKeyOf(t.log[i].read), c.lastCertificateId)
        {
          ReturnedLater(s.log, t.log, i, i, CertKeyOf(t.log[i].read), c.lastCertificateId);
        }
      } else if a.ReconcileRequest? {
        NewRenewalIsReturned(s, a);
      }
    }
  }

  lemma {:induction false} RunIsReturned(ns: string, actions: seq<Action>)
    requires Exec(Initial(ns), actions).Some?
    ensures CertsAreReturned(Exec(Initial(ns), actions).value) && RenewalsAreReturned(Exec(Initial(ns), actions).value)
  {
    if actions != [] {
      var n := |actions| - 1;
      var s := Exec(Initial(ns), actions[..n]).value;
      RunIsReturned(ns, actions[..n]);
      RunIsCoherent(ns, actions[..n]);
      RunKeepsParents(ns, actions[..n]);
      LogOfRunIsHonest(ns, actions[..n]);
      RunIsExplained(ns, actions[..n]);
      CertsStayReturned(s, actions[n]);
      RenewalsStayReturned(s, actions[n]);
    }
  }

  /** In every run, over any number of requests and Certificates, a renewal names a certificate id that
      Horizon returned earlier, for a completed request of the same Certificate. */
  lemma RenewalProvenance(ns: string, actions: seq<Action>, i: nat, c: Call)
    requires Exec(Initial(ns), actions).Some?
    requires var log := Exec(Initial(ns), actions).value.log;
             i < |log| && log[i].Reconciled? && c in log[i].effects.calls && c.RenewCall?
    ensures var log := Exec(Initial(ns), actions).value.log;
            exists j :: 0 <= j < i && Returns(log[j], CertKeyOf(log[i].read), c.lastCertificateId)
  {
    RunIsReturned(ns, actions);
    var log := Exec(Initial(ns), actions).value.log;
    assert RenewsReturned(log, i);
    var j :| 0 <= j < i && j < |log| && Returns(log[j], CertKeyOf(log[i].read), c.lastCertificateId);
  }

  /** The renewal decision in every run: a submission is a renewal exactly if the version of the request's
      own Certificate that was read has a last certificate id and is being issued because of a manual
      trigger, a renewal or an expiry; every other one is an enrolment. */
  lemma RenewsWhenCalledFor(ns: string, actions: seq<Action>, i: nat, c: Call)
    requires Exec(Initial(ns), actions).Some?
    requires var log := Exec(Initial(ns), actions).value.log;
             i < |log| && log[i].Reconciled? && c in log[i].effects.calls && (c.EnrollCall? || c.RenewCall?)
    ensures var s := Exec(Initial(ns), actions).value;
            var e := s.log[i];
            exists p :: && p in s.seenCerts && e.q.parent == Some(p) && p.key == CertKeyOf(e.read) && p.issuing.Some?
                        && (c.RenewCall? <==> LastCertificateId in p.annotations && p.issuing.value in {ManuallyTriggered, Renewing, Expired})
                        && (c.RenewCall? ==> c.lastCertificateId == p.annotations[LastCertificateId])
  {
    var s := Exec(Initial(ns), actions).value;
    LogOfRunIsHonest(ns, actions);
    assert Honest(s, s.log[i]);
    RenewalDecides(ns, s.log[i].read, s.log[i].q, c);
    assert s.log[i].q.parent.value in s.seenCerts;
  }

  // ----- The parent is offered the id twice -----

  /** A Certificate with this key carried this id at some time. */
  ghost predicate Received(s: State, key: CertKey, id: string) {
    exists c :: c in s.seenCerts && c.key == key && At(c.annotations, LastCertificateId) == Some(id)
  }

  ghost predicate Delivers(s: State, e: Event) {
    e.Reconciled? && e.parentStored ==> e.effects.parent.ParentWrite? && Received(s, CertKeyOf(e.read), e.effects.parent.id)
  }

  ghost predicate AllDelivered(s: State) {
    forall i :: 0 <= i < |s.log| ==> Delivers(s, s.log[i])
  }

  lemma EffectsDeliver(s: State, read: Request, q: Replies, e: Effects)
    requires Coherent(s) && CertReadable(s, q.parentAgain) && Named(read, q)
    ensures var t := AfterEffects(s, read, q, e);
            |t.log| == |s.log| + 1 && Delivers(t, t.log[|s.log|]) && s.seenCerts <= t.seenCerts
  {
    var t := AfterEffects(s, read, q, e);
    var c := Commit(s.cluster, e.write, q.write);
    if TakesParent(c, q.parentAgain, e.parent, q.parentWrite) {
      var key := q.parentAgain.value.key;
      assert c.certs == s.cluster.certs && key in c.certs && c.certs[key].key == key;
      assert t.cluster.certs[key] in t.seenCerts;
    }
  }

  lemma DeliveriesStay(s: State, a: Action)
    requires Coherent(s) && Enabled(s, a) && AllDelivered(s)
    ensures AllDelivered(Apply(s, a))
  {
    LogGrows(s, a);
    NewEvent(s, a);
    var t := Apply(s, a);
    if a.ReconcileRequest? {
      EffectsDeliver(s, a.read, a.q, Run(s.clusterNs, a.read, a.q));
    }
    assert s.seenCerts <= t.seenCerts;
    forall i | 0 <= i < |t.log|
      ensures Delivers(t, t.log[i])
    {
      if i < |s.log| {
        assert t.log[i] == s.log[i] && Delivers(s, s.log[i]);
      }
    }
  }

  lemma {:induction false} RunDelivers(ns: string, actions: seq<Action>)
    requires Exec(Initial(ns), actions).Some?
    ensures AllDelivered(Exec(Initial(ns), actions).value)
  {
    if actions != [] {
      var n := |actions| - 1;
      RunDelivers(ns, actions[..n]);
      RunIsCoherent(ns, actions[..n]);
      DeliveriesStay(Exec(Initial(ns), actions[..n]).value, actions[n]);
    }
  }

  lemma IssuanceOffersId(s: State, e: Event, r: Request)
    requires Honest(s, e) && (Annotates(e, r) || Certifies(e, r))
    requires CertificateId in r.annotations && r.annotations[CertificateId] != ""
    ensures e.effects.parent == ParentWrite(r.annotations[CertificateId])
  {
    var c :| c in e.effects.calls && c.PollCall?;
    PollOffersWrittenId(s.clusterNs, e.read, e.q, c);
    if Certifies(e, r) {
      StatusWritesKeepAnnotations(s.clusterNs, e.read, e.q);
    }
    assert IsIssuedKey(CertificateId);
  }

  lemma StatusWritesKeepAnnotations(ns: string, r: Request, q: Replies)
    requires Run(ns, r, q).write.StatusWrite?
    ensures Run(ns, r, q).write.request.annotations == r.annotations
  {
  }

  /** A Ready request's certificate id was offered to the parent Certificate in two reconciles, the one
      that stored the annotations and the one that stored Ready=True: if either of the two parent
      writes was stored, the parent has carried the id. */
  lemma ParentSurvivesOneLoss(ns: string, actions: seq<Action>, r: Request)
    requires Exec(Initial(ns), actions).Some? && r in Exec(Initial(ns), actions).value.seenRequests && IsReady(r)
    requires CertificateId in r.annotations && r.annotations[CertificateId] != ""
    ensures var t := Exec(Initial(ns), actions).value;
            exists i, j :: && 0 <= j < i < |t.log| && Annotates(t.log[j], r) && Certifies(t.log[i], r)
                           && t.log[j].effects.parent == ParentWrite(r.annotations[CertificateId])
                           && t.log[i].effects.parent == ParentWrite(r.annotations[CertificateId])
                           && (t.log[i].parentStored || t.log[j].parentStored
                               ==> Received(t, CertKeyOf(r), r.annotations[CertificateId]))
  {
    var t := Exec(Initial(ns), actions).value;
    AnnotationsBeforeStatus(ns, actions, r);
    LogOfRunIsHonest(ns, actions);
    RunDelivers(ns, actions);
    RunKeepsParents(ns, actions);
    var i, j :| 0 <= j < i < |t.log| && Annotates(t.log[j], r) && Certifies(t.log[i], r);
    assert Honest(t, t.log[i]) && Honest(t, t.log[j]) && Delivers(t, t.log[i]) && Delivers(t, t.log[j]);
    IssuanceOffersId(t, t.log[i], r);
    IssuanceOffersId(t, t.log[j], r);
  }
}
