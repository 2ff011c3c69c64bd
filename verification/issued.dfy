/** Annotations before status: a request becomes Ready only after an earlier, separate reconcile
    stored what Horizon returned about its certificate. */
module Issued {
  import opened Options
  import opened Keys
  import opened Model
  import opened RequestStep
  import opened Protocol
  import opened Issuance
  import opened World
  import opened Coherence
  import opened Lifecycle
  import opened Submissions
  import TrustChain

  predicate IsIssuedKey(k: Key) {
    k.CertificateId? || IsMetadata(k)
  }

  ghost predicate SameIssued(a: Annotations, b: Annotations) {
    forall k :: IsIssuedKey(k) ==> At(a, k) == At(b, k)
  }

  /** Annotations say everything that Horizon returned about a certificate. */
  ghost predicate Says(a: Annotations, info: CertificateInfo) {
    forall k :: Returned(info, k).Some? ==> At(a, k) == Returned(info, k)
  }

  /** The reconcile polled Horizon for the request id it read. */
  ghost predicate Polls(e: Event)
    requires e.Reconciled?
  {
    exists c :: c in e.effects.calls && c.PollCall? && c.answer == e.q.poll && At(e.read.annotations, RequestId) == Some(c.requestId)
  }

  /** In this event, after a completed poll, a write of annotations stored the issued ones of `r`. */
  ghost predicate Annotates(e: Event, r: Request) {
    && e.Reconciled? && e.stored && e.read.uid == r.uid && e.effects.write.MetaWrite?
    && Polls(e) && e.q.poll.Polled? && Completes(e.q, e.q.poll.certificate)
    && SameIssued(e.effects.write.request.annotations, r.annotations)
    && Says(r.annotations, e.q.poll.certificate)
  }

  /** In this event a write of the status made `r` Ready, with the chain and the CA that Horizon
      returned in it; the annotations of the copy it read already said what Horizon said again. */
  ghost predicate Certifies(e: Event, r: Request) {
    && e.Reconciled? && e.stored && e.read.uid == r.uid && e.effects.write.StatusWrite?
    && Polls(e) && e.q.poll.Polled? && Completes(e.q, e.q.poll.certificate)
    && CertificateId in e.read.annotations && SameIssued(e.read.annotations, r.annotations)
    && Says(r.annotations, e.q.poll.certificate)
    && r.status.certificate == TrustChain.Chain(e.q.chain.certs)
    && (TrustChain.Ca(e.q.chain.certs) != "" ==> r.status.ca == TrustChain.Ca(e.q.chain.certs))
  }

  ghost predicate AnnotatedBefore(log: seq<Event>, i: nat, r: Request) {
    exists j :: 0 <= j < i && j < |log| && Annotates(log[j], r)
  }

  ghost predicate Certified(log: seq<Event>, r: Request) {
    exists i :: 0 <= i < |log| && Certifies(log[i], r) && AnnotatedBefore(log, i, r)
  }

  ghost predicate Explained(log: seq<Event>, r: Request) {
    && (CertificateId in r.annotations ==> AnnotatedBefore(log, |log|, r))
    && (IsReady(r) ==> Certified(log, r))
  }

  lemma AnnotatedLater(log: seq<Event>, more: seq<Event>, i: nat, n: nat, r: Request)
    requires AnnotatedBefore(log, i, r) && log <= more && i <= n
    ensures AnnotatedBefore(more, n, r)
  {
    var j :| 0 <= j < i && j < |log| && Annotates(log[j], r);
    assert more[j] == log[j];
  }

  lemma ExplainedLater(log: seq<Event>, more: seq<Event>, r: Request)
    requires Explained(log, r) && log <= more
    ensures Explained(more, r)
  {
    if CertificateId in r.annotations {
      AnnotatedLater(log, more, |log|, |more|, r);
    }
    if IsReady(r) {
      var i :| 0 <= i < |log| && Certifies(log[i], r) && AnnotatedBefore(log, i, r);
      AnnotatedLater(log, more, i, i, r);
      assert more[i] == log[i] && Certified(more, r);
    }
  }

  /** A version that keeps the issued annotations and the outcome keeps its explanation. */
  lemma ExplainedAlike(log: seq<Event>, a: Request, b: Request)
    requires Explained(log, a) && a.uid == b.uid
    requires CertificateId in a.annotations ==> SameIssued(a.annotations, b.annotations)
    requires CertificateId in b.annotations ==> CertificateId in a.annotations
    requires IsReady(a) ==> CertificateId in a.annotations
    requires IsReady(b) ==> IsReady(a) && b.status.certificate == a.status.certificate && b.status.ca == a.status.ca
    ensures Explained(log, b)
  {
    if CertificateId in b.annotations {
      var j :| 0 <= j < |log| && Annotates(log[j], a);
      AnnotatesAlike(log[j], a, b);
    }
    if IsReady(b) {
      var i :| 0 <= i < |log| && Certifies(log[i], a) && AnnotatedBefore(log, i, a);
      var j :| 0 <= j < i && Annotates(log[j], a);
      AnnotatesAlike(log[j], a, b);
      SaysAlike(a.annotations, b.annotations, log[i].q.poll.certificate);
      assert Certifies(log[i], b) && AnnotatedBefore(log, i, b);
    }
  }

  lemma SaysAlike(a: Annotations, b: Annotations, info: CertificateInfo)
    requires SameIssued(a, b) && Says(a, info)
    ensures Says(b, info)
  {
    forall k | Returned(info, k).Some?
      ensures At(b, k) == Returned(info, k)
    {
      assert IsIssuedKey(k);
    }
  }

  lemma AnnotatesAlike(e: Event, a: Request, b: Request)
    requires Annotates(e, a) && SameIssued(a.annotations, b.annotations) && a.uid == b.uid
    ensures Annotates(e, b)
  {
    SaysAlike(a.annotations, b.annotations, e.q.poll.certificate);
  }

  lemma EditIsExplained(log: seq<Event>, before: Request, after: Request)
    requires Explained(log, before) && Sound(before) && OthersMayEdit(before, after)
    ensures Explained(log, after)
  {
    assert Reserved(before, CertificateId);
    if CertificateId in before.annotations {
      forall k | IsIssuedKey(k)
        ensures At(before.annotations, k) == At(after.annotations, k)
      {
        assert Reserved(before, k);
      }
    }
    ExplainedAlike(log, before, after);
  }

  /** The event of a stored annotation explains the version it stored. */
  lemma AnnotateExplains(ns: string, e: Event, r: Request)
    requires e.Reconciled? && e.stored && e.effects == Run(ns, e.read, e.q) && Sound(e.read)
    requires MoveOf(ns, e.read, e.q).Annotate? && SameContent(r, After(e.read, MoveOf(ns, e.read, e.q)))
    ensures Annotates(e, r) && !IsReady(r)
  {
    var m, w := MoveOf(ns, e.read, e.q), e.effects.write;
    MoveIsAllowed(ns, e.read, e.q);
    IssuanceFollowsPoll(ns, e.read, e.q);
    IssuancePolls(ns, e);
    ReconcileMakesMove(ns, e.read, e.q);
    MovesKeepIdentity(e.read, m);
    assert Merged(e.read, w).annotations == Issue(e.read.annotations, m.info) != e.read.annotations;
    assert w.MetaWrite? && w.request.annotations == r.annotations;
    forall k | Returned(m.info, k).Some?
      ensures At(r.annotations, k) == Returned(m.info, k)
    {
      IssueAt(e.read.annotations, m.info, k);
    }
  }

  /** The event of a stored certificate certifies the version it stored. */
  lemma CertifyExplains(ns: string, e: Event, r: Request)
    requires e.Reconciled? && e.stored && e.effects == Run(ns, e.read, e.q)
    requires MoveOf(ns, e.read, e.q).Certify? && SameContent(r, After(e.read, MoveOf(ns, e.read, e.q)))
    ensures Certifies(e, r) && r.annotations == e.read.annotations
  {
    var m, w := MoveOf(ns, e.read, e.q), e.effects.write;
    MoveIsAllowed(ns, e.read, e.q);
    IssuanceFollowsPoll(ns, e.read, e.q);
    IssuancePolls(ns, e);
    MovesKeepIdentity(e.read, m);
    IssueChangesNothing(e.read.annotations, e.q.poll.certificate);
    CertifyWritesStatus(ns, e.read, e.q);
  }

  lemma IssuancePolls(ns: string, e: Event)
    requires e.Reconciled? && e.effects == Run(ns, e.read, e.q)
    requires MoveOf(ns, e.read, e.q).Annotate? || MoveOf(ns, e.read, e.q).Certify?
    ensures Polls(e)
  {
    IssuanceFollowsPoll(ns, e.read, e.q);
    var c := PollCall(ClientOf(ns, e.read, e.q), e.read.annotations[RequestId], e.q.poll);
    assert c in e.effects.calls;
  }

  lemma CertifyWritesStatus(ns: string, r: Request, q: Replies)
    requires MoveOf(ns, r, q).Certify?
    ensures Run(ns, r, q).write.StatusWrite?
  {
    ReconcileMakesMove(ns, r, q);
    MoveIsAllowed(ns, r, q);
    var w := Run(ns, r, q).write;
    assert IsReady(Merged(r, w)) && !IsReady(r);
  }

  lemma MoveIsExplained(ns: string, log: seq<Event>, e: Event, r: Request)
    requires e.Reconciled? && e.stored && e.effects == Run(ns, e.read, e.q) && Sound(e.read)
    requires Explained(log, e.read) && SameContent(r, After(e.read, MoveOf(ns, e.read, e.q)))
    ensures Explained(log + [e], r)
  {
    var m := MoveOf(ns, e.read, e.q);
    MoveIsAllowed(ns, e.read, e.q);
    MovesKeepIdentity(e.read, m);
    var more := log + [e];
    assert more[|log|] == e;
    if m.Annotate? {
      AnnotateExplains(ns, e, r);
    } else if m.Certify? {
      CertifyExplains(ns, e, r);
      var j :| 0 <= j < |log| && Annotates(log[j], e.read);
      AnnotatesAlike(log[j], e.read, r);
      assert more[j] == log[j] && AnnotatedBefore(more, |log|, r) && Certifies(more[|log|], r);
      assert AnnotatedBefore(more, |more|, r);
    } else {
      OtherMovesKeepIssued(e.read, m, r);
      ExplainedAlike(log, e.read, r);
      ExplainedLater(log, more, r);
    }
  }

  lemma OtherMovesKeepIssued(r: Request, m: Move, after: Request)
    requires Allowed(r, m) && Sound(r) && !m.Annotate? && !m.Certify? && SameContent(after, After(r, m))
    ensures CertificateId in r.annotations ==> SameIssued(r.annotations, after.annotations)
    ensures CertificateId in after.annotations ==> CertificateId in r.annotations
    ensures IsReady(after) ==> IsReady(r) && after.status.certificate == r.status.certificate && after.status.ca == r.status.ca
  {
  }

  ghost predicate AllExplained(s: State) {
    forall r :: r in s.seenRequests ==> Explained(s.log, r)
  }

  lemma StepIsExplained(s: State, a: Action, r: Request)
    requires Coherent(s) && AllSound(s) && AllExplained(s) && Enabled(s, a) && r in Apply(s, a).seenRequests
    ensures Explained(Apply(s, a).log, r)
  {
    LogGrows(s, a);
    NewEvent(s, a);
    var t := Apply(s, a);
    if r in s.seenRequests {
      ExplainedLater(s.log, t.log, r);
    } else {
      Origin(s, a, r);
      if EditedTo(s, a, r) {
        EditIsExplained(s.log, s.cluster.requests[r.uid], r);
        ExplainedLater(s.log, t.log, r);
      } else if MovedTo(s, a, r) {
        var e := t.log[|s.log|];
        assert t.log == s.log + [e];
        MoveIsExplained(s.clusterNs, s.log, e, r);
      }
    }
  }

  lemma {:induction false} RunIsExplained(ns: string, actions: seq<Action>)
    requires Exec(Initial(ns), actions).Some?
    ensures AllExplained(Exec(Initial(ns), actions).value)
  {
    if actions != [] {
      var n := |actions| - 1;
      RunIsExplained(ns, actions[..n]);
      StateIsSound(ns, actions[..n]);
      var s := Exec(Initial(ns), actions[..n]).value;
      var t := Exec(Initial(ns), actions).value;
      forall r | r in t.seenRequests
        ensures Explained(t.log, r)
      {
        StepIsExplained(s, actions[n], r);
      }
    }
  }

  /** In every run, a Ready request holds the certificate of a poll that Horizon answered with
      completed, is Approved, and its annotations say what that answer said; a write of an earlier
      reconcile had stored them. */
  lemma AnnotationsBeforeStatus(ns: string, actions: seq<Action>, r: Request)
    requires Exec(Initial(ns), actions).Some? && r in Exec(Initial(ns), actions).value.seenRequests && IsReady(r)
    ensures r.status.certificate != "" && IsApproved(r)
    ensures var log := Exec(Initial(ns), actions).value.log;
            exists i, j :: 0 <= j < i < |log| && Annotates(log[j], r) && Certifies(log[i], r)
  {
    RunIsExplained(ns, actions);
    EveryVersionIsSound(ns, actions, r);
    var log := Exec(Initial(ns), actions).value.log;
    assert Explained(log, r);
    var i :| 0 <= i < |log| && Certifies(log[i], r) && AnnotatedBefore(log, i, r);
    var j :| 0 <= j < i && Annotates(log[j], r);
  }
}
