/** Revoke before disappearing: a request that was ever guarded by the finalizer leaves the store only
    after Horizon has accepted its revocation, and it is guarded from the first time a reconcile stores
    annotations for an Issuer that revokes. */
module Revocation {
  import opened Options
  import opened Keys
  import opened Model
  import opened RequestStep
  import opened Protocol
  import opened Issuance
  import opened World
  import opened Coherence
  import opened Lifecycle
  import opened Submissions
  import opened Issued

  ghost predicate RevokesIn(e: Event, uid: Uid) {
    e.Reconciled? && e.read.uid == uid && exists c :: c in e.effects.calls && c.RevokeCall? && c.accepted
  }

  ghost predicate Revoked(log: seq<Event>, uid: Uid) {
    exists i :: 0 <= i < |log| && RevokesIn(log[i], uid)
  }

  lemma RevokedLater(log: seq<Event>, more: seq<Event>, uid: Uid)
    requires Revoked(log, uid) && log <= more
    ensures Revoked(more, uid)
  {
    var i :| 0 <= i < |log| && RevokesIn(log[i], uid);
    assert more[i] == log[i];
  }

  /** The finalizer comes with the request id, in the same write, when the Issuer revokes. */
  lemma RegistrationIsGuarded(ns: string, r: Request, q: Replies)
    requires MoveOf(ns, r, q).Register?
    ensures q.issuer.Some? && MoveOf(ns, r, q).guarded == q.issuer.value.spec.revokeCertificates
  {
  }

  lemma OnlyRevokeDropsFinalizer(r: Request, m: Move)
    requires Ours in r.finalizers && Ours !in After(r, m).finalizers
    ensures m.Revoke?
  {
  }

  lemma RevokeIsLogged(s: State, a: Action)
    requires Enabled(s, a) && a.ReconcileRequest? && MoveOf(s.clusterNs, a.read, a.q).Revoke?
    ensures Revoked(Apply(s, a).log, a.read.uid)
  {
    NewEvent(s, a);
    RevokeIsAccepted(s.clusterNs, a.read, a.q);
    assert RevokesIn(Apply(s, a).log[|s.log|], a.read.uid);
  }

  lemma GuardedStep(s: State, a: Action, uid: Uid)
    requires Coherent(s) && Enabled(s, a)
    requires uid in s.cluster.requests && Ours in s.cluster.requests[uid].finalizers
    ensures var t := Apply(s, a);
            (uid in t.cluster.requests && Ours in t.cluster.requests[uid].finalizers) || Revoked(t.log, uid)
  {
    var before := s.cluster.requests[uid];
    if uid in Apply(s, a).cluster.requests {
      LiveSucceeds(s, a, uid);
      var after := Apply(s, a).cluster.requests[uid];
      if MovedTo(s, a, after) && a.read == before && Ours !in after.finalizers {
        OnlyRevokeDropsFinalizer(before, MoveOf(s.clusterNs, before, a.q));
        RevokeIsLogged(s, a);
      }
    } else {
      LeavesByLastFinalizer(s, a, uid);
      if a.ReconcileRequest? {
        OnlyRevokeDropsFinalizer(before, MoveOf(s.clusterNs, before, a.q));
        RevokeIsLogged(s, a);
      }
    }
  }

  lemma NewVersionIsLive(s: State, a: Action, r: Request)
    requires Coherent(s) && Enabled(s, a)
    requires r in Apply(s, a).seenRequests && r !in s.seenRequests
    ensures r.uid in Apply(s, a).cluster.requests && Apply(s, a).cluster.requests[r.uid] == r
  {
    if a.ReconcileRequest? {
      NewVersionOfEffects(s, a.read, a.q, r);
    }
  }

  lemma NewVersionOfEffects(s: State, read: Request, q: Replies, r: Request)
    requires Coherent(s) && read in s.seenRequests
    requires var t := AfterEffects(s, read, q, Run(s.clusterNs, read, q)); r in t.seenRequests && r !in s.seenRequests
    ensures var t := AfterEffects(s, read, q, Run(s.clusterNs, read, q)); r.uid in t.cluster.requests && t.cluster.requests[r.uid] == r
  {
    TakenWriteIsCurrent(s, read, q);
    MovesKeepIdentity(read, MoveOf(s.clusterNs, read, q));
  }

  lemma RevocationsReadDeleted(ns: string, r: Request, q: Replies, c: Call)
    requires c in Run(ns, r, q).calls && c.RevokeCall?
    ensures r.deleting && Ours in r.finalizers && c.certificate == r.status.certificate
  {
    match Enters(ns, r, q)
    case Leave(_) =>
    case Delete(_) =>
    case Enter(client, r1) =>
      if IsSubmitted(r1) {
        PollRevokesNothing(r1, client, q);
      }
      SubmissionRevokesNothing(r1, client, q);
  }

  lemma PollRevokesNothing(r: Request, client: Client, q: Replies)
    requires IsSubmitted(r)
    ensures forall c :: c in UpdateRequest(r, client, q.poll, q.chain, q.text).calls ==> !c.RevokeCall?
  {
  }

  lemma SubmissionRevokesNothing(r: Request, client: Client, q: Replies)
    ensures forall c :: c in Submit(r, client, q).calls ==> !c.RevokeCall?
  {
    SubmissionShape(r, client, q);
  }

  // ----- Guarded requests -----

  /** The finalizer was stored on this request at some time. */
  ghost predicate EverGuarded(s: State, uid: Uid) {
    exists r :: r in s.seenRequests && r.uid == uid && Ours in r.finalizers
  }

  ghost predicate GuardedNow(s: State, uid: Uid) {
    uid in s.cluster.requests && Ours in s.cluster.requests[uid].finalizers
  }

  /** A request that was ever guarded is guarded still, or was revoked; and only such ones are revoked. */
  ghost predicate RevokedWhenFreed(s: State, uid: Uid) {
    && (EverGuarded(s, uid) ==> GuardedNow(s, uid) || Revoked(s.log, uid))
    && (Revoked(s.log, uid) ==> EverGuarded(s, uid))
  }

  lemma GuardedIsKept(s: State, a: Action, uid: Uid)
    requires Coherent(s) && Enabled(s, a) && EverGuarded(s, uid)
    ensures EverGuarded(Apply(s, a), uid)
  {
    LogGrows(s, a);
    var r :| r in s.seenRequests && r.uid == uid && Ours in r.finalizers;
    assert r in Apply(s, a).seenRequests;
  }

  lemma NewlyGuarded(s: State, a: Action, uid: Uid)
    requires Coherent(s) && Enabled(s, a) && !EverGuarded(s, uid) && EverGuarded(Apply(s, a), uid)
    ensures GuardedNow(Apply(s, a), uid)
  {
    var r :| r in Apply(s, a).seenRequests && r.uid == uid && Ours in r.finalizers;
    NewVersionIsLive(s, a, r);
  }

  lemma NewlyRevoked(s: State, a: Action, uid: Uid)
    requires Coherent(s) && Enabled(s, a) && !Revoked(s.log, uid) && Revoked(Apply(s, a).log, uid)
    ensures EverGuarded(s, uid)
  {
    LogGrows(s, a);
    NewEvent(s, a);
    var t := Apply(s, a);
    assert forall j :: 0 <= j < |s.log| ==> t.log[j] == s.log[j];
    var i :| 0 <= i < |t.log| && RevokesIn(t.log[i], uid);
    var c :| c in t.log[i].effects.calls && c.RevokeCall? && c.accepted;
    RevocationsReadDeleted(s.clusterNs, a.read, a.q, c);
    assert a.read in s.seenRequests && a.read.uid == uid && Ours in a.read.finalizers;
  }

  lemma RevokedWhenFreedStep(s: State, a: Action, uid: Uid)
    requires Coherent(s) && Enabled(s, a) && RevokedWhenFreed(s, uid)
    ensures RevokedWhenFreed(Apply(s, a), uid)
  {
    LogGrows(s, a);
    if EverGuarded(s, uid) {
      GuardedIsKept(s, a, uid);
      if Revoked(s.log, uid) {
        RevokedLater(s.log, Apply(s, a).log, uid);
      } else {
        GuardedStep(s, a, uid);
      }
    } else {
      if EverGuarded(Apply(s, a), uid) {
        NewlyGuarded(s, a, uid);
      }
      if Revoked(Apply(s, a).log, uid) {
        NewlyRevoked(s, a, uid);
      }
    }
  }

  lemma {:induction false} RunRevokesFreed(ns: string, actions: seq<Action>, uid: Uid)
    requires Exec(Initial(ns), actions).Some?
    ensures RevokedWhenFreed(Exec(Initial(ns), actions).value, uid)
  {
    if actions != [] {
      var n := |actions| - 1;
      RunRevokesFreed(ns, actions[..n], uid);
      RunIsCoherent(ns, actions[..n]);
      RevokedWhenFreedStep(Exec(Initial(ns), actions[..n]).value, actions[n], uid);
    }
  }

  // ----- Which reconciles guard -----

  /** In this event a reconcile for an Issuer that revokes stored annotations of a request that was not
      being deleted. */
  predicate Guards(e: Event, uid: Uid) {
    && e.Reconciled? && e.stored && e.read.uid == uid && !e.read.deleting && e.effects.write.MetaWrite?
    && e.q.issuer.Some? && e.q.issuer.value.spec.revokeCertificates
  }

  ghost predicate GuardedIn(log: seq<Event>, uid: Uid) {
    exists i :: 0 <= i < |log| && Guards(log[i], uid)
  }

  lemma GuardedLater(log: seq<Event>, more: seq<Event>, uid: Uid)
    requires GuardedIn(log, uid) && log <= more
    ensures GuardedIn(more, uid)
  {
    var i :| 0 <= i < |log| && Guards(log[i], uid);
    assert more[i] == log[i];
  }

  /** The moves that store annotations are those that can store the finalizer, and they do when the
      Issuer revokes. */
  lemma AnnotatingMoves(ns: string, r: Request, q: Replies)
    requires !r.deleting
    ensures var m, w := MoveOf(ns, r, q), Run(ns, r, q).write;
            && (w.MetaWrite? <==> m.Register? || m.Annotate?)
            && (w.MetaWrite? ==> q.issuer.Some?)
            && (w.MetaWrite? && q.issuer.value.spec.revokeCertificates ==> Ours in After(r, m).finalizers)
            && (Ours in After(r, m).finalizers ==> Ours in r.finalizers || (w.MetaWrite? && q.issuer.value.spec.revokeCertificates))
  {
    ReconcileMakesMove(ns, r, q);
    MoveIsAllowed(ns, r, q);
    if MoveOf(ns, r, q).Register? || MoveOf(ns, r, q).Annotate? {
      AnnotatingMoveIsGuarded(ns, r, q);
    }
    var m, w := MoveOf(ns, r, q), Run(ns, r, q).write;
    if w.MetaWrite? {
      MetaWriteChanges(ns, r, q);
    }
    assert w.MetaWrite? ==> Merged(r, w).annotations == w.request.annotations;
    assert !w.MetaWrite? ==> Merged(r, w).annotations == r.annotations && Merged(r, w).finalizers == r.finalizers;
  }

  lemma AnnotatingMoveIsGuarded(ns: string, r: Request, q: Replies)
    requires MoveOf(ns, r, q).Register? || MoveOf(ns, r, q).Annotate?
    ensures q.issuer.Some? && MoveOf(ns, r, q).guarded == q.issuer.value.spec.revokeCertificates
  {
  }

  lemma MetaWriteChanges(ns: string, r: Request, q: Replies)
    requires !r.deleting && Run(ns, r, q).write.MetaWrite?
    ensures Run(ns, r, q).write.request.annotations != r.annotations
  {
  }

  lemma EditKeepsGuard(s: State, a: Action, r: Request)
    requires Coherent(s) && EditedTo(s, a, r) && Ours in r.finalizers
    ensures EverGuarded(s, r.uid)
  {
    var before := s.cluster.requests[r.uid];
    assert before in s.seenRequests && before.uid == r.uid && Ours in before.finalizers;
  }

  lemma NewlyGuardedBy(s: State, a: Action, uid: Uid)
    requires Coherent(s) && Enabled(s, a) && !EverGuarded(s, uid) && EverGuarded(Apply(s, a), uid)
    ensures GuardedIn(Apply(s, a).log, uid)
  {
    var r :| r in Apply(s, a).seenRequests && r.uid == uid && Ours in r.finalizers;
    Origin(s, a, r);
    if EditedTo(s, a, r) {
      EditKeepsGuard(s, a, r);
    } else if MovedTo(s, a, r) {
      var m := MoveOf(s.clusterNs, a.read, a.q);
      MoveIsAllowed(s.clusterNs, a.read, a.q);
      assert Ours !in a.read.finalizers && Ours in After(a.read, m).finalizers;
      NewlyGuardedMove(a.read, m);
      AnnotatingMoves(s.clusterNs, a.read, a.q);
      NewEvent(s, a);
      assert Guards(Apply(s, a).log[|s.log|], uid);
    }
  }

  lemma NewlyGuardedMove(r: Request, m: Move)
    requires Allowed(r, m) && Ours !in r.finalizers && Ours in After(r, m).finalizers
    ensures !r.deleting
  {
  }

  lemma GuardingGuards(s: State, a: Action, uid: Uid)
    requires Coherent(s) && Enabled(s, a) && !GuardedIn(s.log, uid) && GuardedIn(Apply(s, a).log, uid)
    ensures EverGuarded(Apply(s, a), uid)
  {
    LogGrows(s, a);
    NewEvent(s, a);
    var t := Apply(s, a);
    assert forall j :: 0 <= j < |s.log| ==> t.log[j] == s.log[j];
    var i :| 0 <= i < |t.log| && Guards(t.log[i], uid);
    AnnotatingMoves(s.clusterNs, a.read, a.q);
    GuardIsStored(s, a.read, a.q);
  }

  lemma GuardIsStored(s: State, read: Request, q: Replies)
    requires Coherent(s) && read in s.seenRequests && !read.deleting
    requires TakesWrite(s.cluster, Run(s.clusterNs, read, q).write, q.write)
    requires Ours in After(read, MoveOf(s.clusterNs, read, q)).finalizers
    ensures EverGuarded(AfterEffects(s, read, q, Run(s.clusterNs, read, q)), read.uid)
  {
    TakenWriteIsCurrent(s, read, q);
    MovesKeepIdentity(read, MoveOf(s.clusterNs, read, q));
    var c := Commit(s.cluster, Run(s.clusterNs, read, q).write, q.write);
    var r := c.requests[read.uid];
    assert r in LiveRequests(c, read.uid) && Ours in r.finalizers && r.uid == read.uid;
  }

  lemma {:induction false} RunGuards(ns: string, actions: seq<Action>, uid: Uid)
    requires Exec(Initial(ns), actions).Some?
    ensures var t := Exec(Initial(ns), actions).value;
            EverGuarded(t, uid) <==> GuardedIn(t.log, uid)
  {
    if actions != [] {
      var n := |actions| - 1;
      var s, a := Exec(Initial(ns), actions[..n]).value, actions[n];
      RunGuards(ns, actions[..n], uid);
      RunIsCoherent(ns, actions[..n]);
      LogGrows(s, a);
      if EverGuarded(s, uid) {
        GuardedIsKept(s, a, uid);
        GuardedLater(s.log, Apply(s, a).log, uid);
      } else if EverGuarded(Apply(s, a), uid) {
        NewlyGuardedBy(s, a, uid);
      } else if GuardedIn(Apply(s, a).log, uid) {
        GuardingGuards(s, a, uid);
      }
    }
  }

  /** Revoke before disappearing, exactly. In every run, with any Issuers: a request for which some
      reconcile stored annotations while its Issuer revoked is guarded by the finalizer until Horizon
      accepts its revocation. So one that has left the store was revoked if and only if there was such
      a reconcile. */
  lemma RevokedBeforeLeaving(ns: string, actions: seq<Action>, uid: Uid)
    requires Exec(Initial(ns), actions).Some?
    ensures var t := Exec(Initial(ns), actions).value;
            && (GuardedIn(t.log, uid) ==> GuardedNow(t, uid) || Revoked(t.log, uid))
            && (Revoked(t.log, uid) ==> GuardedIn(t.log, uid))
            && (uid !in t.cluster.requests ==> (Revoked(t.log, uid) <==> GuardedIn(t.log, uid)))
  {
    RunRevokesFreed(ns, actions, uid);
    RunGuards(ns, actions, uid);
  }

  // ----- A request that was submitted -----

  /** The Issuer that the registering reconcile read revokes. */
  ghost predicate RegisteredByRevoker(log: seq<Event>, uid: Uid) {
    exists i :: 0 <= i < |log| && Registers(log[i]) && log[i].read.uid == uid && log[i].q.issuer.Some?
                && log[i].q.issuer.value.spec.revokeCertificates
  }

  lemma RegistrationGuards(ns: string, e: Event, uid: Uid)
    requires Registers(e) && e.read.uid == uid && e.effects == Run(ns, e.read, e.q)
    requires e.q.issuer.Some? && e.q.issuer.value.spec.revokeCertificates
    ensures Guards(e, uid)
  {
    OnlyRegisterGivesId(ns, e.read, e.q);
    MoveIsAllowed(ns, e.read, e.q);
    RegistrationIsGuarded(ns, e.read, e.q);
  }

  /** So for a submitted request it is enough that one Issuer revokes, the one that the registering
      reconcile read: the request does not leave the store unrevoked, whatever any Issuer says later. */
  lemma SubmittedIsRevoked(ns: string, actions: seq<Action>, uid: Uid)
    requires Exec(Initial(ns), actions).Some? && RegisteredByRevoker(Exec(Initial(ns), actions).value.log, uid)
    ensures var t := Exec(Initial(ns), actions).value; GuardedNow(t, uid) || Revoked(t.log, uid)
  {
    var t := Exec(Initial(ns), actions).value;
    LogOfRunIsHonest(ns, actions);
    var i :| 0 <= i < |t.log| && Registers(t.log[i]) && t.log[i].read.uid == uid && t.log[i].q.issuer.Some?
             && t.log[i].q.issuer.value.spec.revokeCertificates;
    assert Honest(t, t.log[i]);
    RegistrationGuards(ns, t.log[i], uid);
    assert GuardedIn(t.log, uid);
    RevokedBeforeLeaving(ns, actions, uid);
  }

  // ----- What is revoked -----

  /** In this event a reconcile of a copy that was being deleted stored a certificate. */
  predicate CertifiesDeleting(e: Event, uid: Uid) {
    && e.Reconciled? && e.stored && e.read.uid == uid && e.read.deleting
    && e.effects.write.StatusWrite? && IsReady(e.effects.write.request)
  }

  ghost predicate CertifiedInDeletion(log: seq<Event>, uid: Uid) {
    exists i :: 0 <= i < |log| && CertifiesDeleting(log[i], uid)
  }

  lemma CertifiedLater(log: seq<Event>, more: seq<Event>, uid: Uid)
    requires CertifiedInDeletion(log, uid) && log <= more
    ensures CertifiedInDeletion(more, uid)
  {
    var i :| 0 <= i < |log| && CertifiesDeleting(log[i], uid);
    assert more[i] == log[i];
  }

  /** The versions of a request that are being deleted all carry the same certificate. */
  ghost predicate OneCertificate(s: State, uid: Uid) {
    forall r, r' :: r in s.seenRequests && r' in s.seenRequests && r.uid == uid && r'.uid == uid && r.deleting && r'.deleting
                    ==> r.status.certificate == r'.status.certificate
  }

  ghost predicate DeletingForGood(s: State, uid: Uid) {
    forall r :: r in s.seenRequests && r.uid == uid && r.deleting && uid in s.cluster.requests ==> s.cluster.requests[uid].deleting
  }

  /** While a request is being deleted, an Issuer that revokes leaves its status alone. */
  lemma DeletionSettles(ns: string, r: Request, q: Replies)
    requires r.deleting && (q.issuer.Some? ==> q.issuer.value.spec.revokeCertificates)
    ensures After(r, MoveOf(ns, r, q)).status == r.status
    ensures !Run(ns, r, q).write.StatusWrite?
  {
  }

  /** A reconcile changes the certificate of a request exactly when it writes the status as Ready. */
  lemma CertificateChanges(ns: string, r: Request, q: Replies)
    requires Sound(r)
    ensures var w := Run(ns, r, q).write;
            After(r, MoveOf(ns, r, q)).status.certificate != r.status.certificate <==> w.StatusWrite? && IsReady(w.request)
  {
    var m, w := MoveOf(ns, r, q), Run(ns, r, q).write;
    MoveIsAllowed(ns, r, q);
    ReconcileMakesMove(ns, r, q);
    OnlyCertifyCertifies(r, m);
    if m.Certify? {
      CertifyWritesStatus(ns, r, q);
    }
    if w.StatusWrite? {
      assert Merged(r, w).status == w.request.status && !IsTerminal(r);
    }
  }

  lemma OnlyCertifyCertifies(r: Request, m: Move)
    requires Sound(r) && Allowed(r, m)
    ensures After(r, m).status.certificate != r.status.certificate <==> m.Certify?
    ensures !IsReady(r) ==> (IsReady(After(r, m)) <==> m.Certify?)
  {
  }

  /** A step that certifies the request while it is being deleted. */
  ghost predicate CertifiesNow(s: State, a: Action, uid: Uid)
    requires Enabled(s, a)
  {
    |Apply(s, a).log| > |s.log| && CertifiesDeleting(Apply(s, a).log[|s.log|], uid)
  }

  lemma CertifiedStep(s: State, a: Action, uid: Uid)
    requires Enabled(s, a)
    ensures CertifiedInDeletion(Apply(s, a).log, uid) <==> CertifiedInDeletion(s.log, uid) || CertifiesNow(s, a, uid)
  {
    LogGrows(s, a);
    NewEvent(s, a);
    var t := Apply(s, a);
    if CertifiedInDeletion(s.log, uid) {
      CertifiedLater(s.log, t.log, uid);
    }
    assert forall j :: 0 <= j < |s.log| ==> t.log[j] == s.log[j];
  }

  lemma NewDeletingVersion(s: State, a: Action, r: Request, r': Request)
    requires Coherent(s) && AllSound(s) && OneCertificate(s, r.uid) && DeletingForGood(s, r.uid)
    requires Enabled(s, a) && !CertifiesNow(s, a, r.uid)
    requires r in Apply(s, a).seenRequests && r !in s.seenRequests && r.deleting
    requires r' in s.seenRequests && r'.uid == r.uid && r'.deleting
    ensures r.status.certificate == r'.status.certificate
  {
    Origin(s, a, r);
    NewEvent(s, a);
    if MovedTo(s, a, r) {
      MovesKeepIdentity(a.read, MoveOf(s.clusterNs, a.read, a.q));
      CertificateChanges(s.clusterNs, a.read, a.q);
    } else if EditedTo(s, a, r) {
      assert s.cluster.requests[r.uid].deleting;
    }
  }

  lemma DeletingStays(s: State, a: Action, uid: Uid)
    requires Coherent(s) && AllSound(s) && DeletingForGood(s, uid) && Enabled(s, a)
    ensures DeletingForGood(Apply(s, a), uid)
  {
    forall r | r in Apply(s, a).seenRequests && r.uid == uid && r.deleting && uid in Apply(s, a).cluster.requests
      ensures Apply(s, a).cluster.requests[uid].deleting
    {
      if r in s.seenRequests {
        GoneStaysGone(s, a, r);
        StepIsLater(s, a, uid);
      } else {
        NewVersionIsLive(s, a, r);
      }
    }
  }

  lemma OneCertificateStep(s: State, a: Action, uid: Uid)
    requires Coherent(s) && AllSound(s) && OneCertificate(s, uid) && DeletingForGood(s, uid)
    requires Enabled(s, a) && !CertifiesNow(s, a, uid)
    ensures OneCertificate(Apply(s, a), uid)
  {
    var t := Apply(s, a);
    forall r, r' | r in t.seenRequests && r' in t.seenRequests && r.uid == uid && r'.uid == uid && r.deleting && r'.deleting
      ensures r.status.certificate == r'.status.certificate
    {
      if r !in s.seenRequests && r' !in s.seenRequests {
        OneNewVersion(s, a, r, r');
      } else if r !in s.seenRequests {
        NewDeletingVersion(s, a, r, r');
      } else if r' !in s.seenRequests {
        NewDeletingVersion(s, a, r', r);
      }
    }
  }

  /** Certifying a request that is being deleted leaves two versions that differ. */
  lemma CertifyingDivides(s: State, a: Action, uid: Uid)
    requires Coherent(s) && AllSound(s) && Enabled(s, a) && CertifiesNow(s, a, uid)
    ensures !OneCertificate(Apply(s, a), uid)
  {
    LogGrows(s, a);
    NewEvent(s, a);
    var m := MoveOf(s.clusterNs, a.read, a.q);
    CertificateChanges(s.clusterNs, a.read, a.q);
    MoveIsAllowed(s.clusterNs, a.read, a.q);
    OnlyCertifyCertifies(a.read, m);
    CertifiedIsStored(s, a.read, a.q);
    var r :| r in Apply(s, a).seenRequests && SameContent(r, After(a.read, m));
    MovesKeepIdentity(a.read, m);
    assert a.read in Apply(s, a).seenRequests && r.uid == uid && r.deleting;
  }

  lemma CertifiedIsStored(s: State, read: Request, q: Replies)
    requires Coherent(s) && read in s.seenRequests && MoveOf(s.clusterNs, read, q).Certify?
    requires TakesWrite(s.cluster, Run(s.clusterNs, read, q).write, q.write)
    ensures var t := AfterEffects(s, read, q, Run(s.clusterNs, read, q));
            exists r :: r in t.seenRequests && SameContent(r, After(read, MoveOf(s.clusterNs, read, q)))
  {
    TakenWriteIsCurrent(s, read, q);
    CertifyingStays(read, MoveOf(s.clusterNs, read, q));
    PutIsSeen(s, read, After(read, MoveOf(s.clusterNs, read, q)));
  }

  lemma CertifyingStays(r: Request, m: Move)
    requires m.Certify? && !Gone(r)
    ensures !Gone(After(r, m))
  {
  }

  lemma PutIsSeen(s: State, live: Request, after: Request)
    requires live.uid in s.cluster.requests && s.cluster.requests[live.uid] == live && !Gone(after)
    ensures exists r :: r in LiveRequests(Put(s.cluster, live.uid, after), live.uid) && SameContent(r, after)
  {
    var c := Put(s.cluster, live.uid, after);
    assert c.requests[live.uid] in LiveRequests(c, live.uid);
  }

  lemma DivisionStays(s: State, a: Action, uid: Uid)
    requires Enabled(s, a) && !OneCertificate(s, uid)
    ensures !OneCertificate(Apply(s, a), uid)
  {
    LogGrows(s, a);
    var r, r' :| r in s.seenRequests && r' in s.seenRequests && r.uid == uid && r'.uid == uid && r.deleting && r'.deleting
                 && r.status.certificate != r'.status.certificate;
    assert r in Apply(s, a).seenRequests && r' in Apply(s, a).seenRequests;
  }

  /** In every run, all versions of a request that is being deleted carry one certificate, if and only
      if no reconcile stored a certificate on it in that time. */
  lemma {:induction false} DeletedHasOneCertificate(ns: string, actions: seq<Action>, uid: Uid)
    requires Exec(Initial(ns), actions).Some?
    ensures var t := Exec(Initial(ns), actions).value;
            DeletingForGood(t, uid) && (OneCertificate(t, uid) <==> !CertifiedInDeletion(t.log, uid))
  {
    if actions != [] {
      var n := |actions| - 1;
      var s, a := Exec(Initial(ns), actions[..n]).value, actions[n];
      DeletedHasOneCertificate(ns, actions[..n], uid);
      StateIsSound(ns, actions[..n]);
      DeletingStays(s, a, uid);
      CertifiedStep(s, a, uid);
      if !OneCertificate(s, uid) {
        DivisionStays(s, a, uid);
      } else if CertifiesNow(s, a, uid) {
        CertifyingDivides(s, a, uid);
      } else {
        OneCertificateStep(s, a, uid);
      }
    }
  }

  /** Even when it reads a stale copy, a revocation names the certificate that is on the request, in
      every version of it that is being deleted, unless a reconcile certified it in that time. */
  lemma RevocationNamesCertificate(ns: string, actions: seq<Action>, i: nat, c: Call, r: Request)
    requires Exec(Initial(ns), actions).Some?
    requires var t := Exec(Initial(ns), actions).value;
             && i < |t.log| && t.log[i].Reconciled? && c in t.log[i].effects.calls && c.RevokeCall?
             && r in t.seenRequests && r.uid == t.log[i].read.uid && r.deleting
             && !CertifiedInDeletion(t.log, r.uid)
    ensures c.certificate == r.status.certificate
  {
    var t := Exec(Initial(ns), actions).value;
    LogOfRunIsHonest(ns, actions);
    DeletedHasOneCertificate(ns, actions, r.uid);
    assert Honest(t, t.log[i]);
    RevocationsReadDeleted(ns, t.log[i].read, t.log[i].q, c);
  }

  /** Revocation is on in every version of the Issuer that the request names. */
  ghost predicate OwnIssuerRevokes(s: State, uid: Uid) {
    forall r, i :: r in s.seenRequests && r.uid == uid && i in s.seenIssuers && IssuerKeyOf(r) == Some(i.key)
                   ==> i.spec.revokeCertificates
  }

  /** For which it is enough that the request's own Issuer revokes, whatever other Issuers do. */
  lemma OwnIssuerNeverCertifies(ns: string, actions: seq<Action>, uid: Uid)
    requires Exec(Initial(ns), actions).Some? && OwnIssuerRevokes(Exec(Initial(ns), actions).value, uid)
    ensures !CertifiedInDeletion(Exec(Initial(ns), actions).value.log, uid)
  {
    var t := Exec(Initial(ns), actions).value;
    LogOfRunIsHonest(ns, actions);
    forall i | 0 <= i < |t.log| && t.log[i].Reconciled? && t.log[i].read.uid == uid && t.log[i].read.deleting
      ensures !t.log[i].effects.write.StatusWrite?
    {
      assert Honest(t, t.log[i]);
      DeletionSettles(ns, t.log[i].read, t.log[i].q);
    }
  }
}
