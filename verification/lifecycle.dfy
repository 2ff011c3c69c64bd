/** Safety of the request life cycle over every run: outcomes exclude each other, terminal statuses
    absorb, and a request id is written once. */
module Lifecycle {
  import opened Options
  import opened Keys
  import opened Model
  import opened RequestStep
  import opened Protocol
  import opened Issuance
  import opened World
  import opened Coherence

  /** What holds of every version of a request that is ever stored. */
  predicate Sound(r: Request) {
    && !(IsApproved(r) && IsDenied(r))
    && (IsInvalid(r) <==> IsFailed(r))
    && (IsFailed(r) ==> !IsSubmitted(r))
    && (IsFailed(r) || IsMarkedDenied(r) ==> r.status.failureTime.Some?)
    && (IsMarkedDenied(r) ==> IsDenied(r))
    && (IsReady(r) ==> IsApproved(r) && r.status.certificate != "" && CertificateId in r.annotations)
    && (r.status.certificate != "" ==> IsReady(r))
    && (IsApproved(r) ==> IsSubmitted(r))
    && (CertificateId in r.annotations ==> IsSubmitted(r))
  }

  lemma MetadataMovesAreSound(r: Request, m: Move)
    requires Sound(r) && Allowed(r, m) && (m.Idle? || m.Revoke? || m.Register? || m.Annotate?)
    ensures Sound(After(r, m))
  {
    if m.Annotate? {
      IssueAt(r.annotations, m.info, RequestId);
    }
  }

  lemma StatusMovesAreSound(r: Request, m: Move)
    requires Sound(r) && Allowed(r, m) && !(m.Idle? || m.Revoke? || m.Register? || m.Annotate?)
    ensures Sound(After(r, m))
  {
  }

  lemma EditsAreSound(before: Request, after: Request)
    requires Sound(before) && OthersMayEdit(before, after)
    ensures Sound(after)
  {
    assert Reserved(before, RequestId) && Reserved(before, CertificateId);
  }

  lemma SameContentIsSound(a: Request, b: Request)
    requires Sound(b) && SameContent(a, b)
    ensures Sound(a)
  {
  }

  ghost predicate AllSound(s: State) {
    forall r :: r in s.seenRequests ==> Sound(r)
  }

  lemma MoveIsSound(ns: string, r: Request, q: Replies)
    requires Sound(r)
    ensures Sound(After(r, MoveOf(ns, r, q)))
  {
    var m := MoveOf(ns, r, q);
    MoveIsAllowed(ns, r, q);
    if m.Idle? || m.Revoke? || m.Register? || m.Annotate? {
      MetadataMovesAreSound(r, m);
    } else {
      StatusMovesAreSound(r, m);
    }
  }

  lemma VersionIsSound(s: State, a: Action, r: Request)
    requires Coherent(s) && AllSound(s) && Enabled(s, a)
    requires r in Apply(s, a).seenRequests && r !in s.seenRequests
    ensures Sound(r)
  {
    Origin(s, a, r);
    if EditedTo(s, a, r) {
      EditsAreSound(s.cluster.requests[r.uid], r);
    } else if MovedTo(s, a, r) {
      MoveIsSound(s.clusterNs, a.read, a.q);
      SameContentIsSound(r, After(a.read, MoveOf(s.clusterNs, a.read, a.q)));
    }
  }

  /** Outcome exclusivity, in every version that any run ever stores. */
  lemma {:induction false} EveryVersionIsSound(ns: string, actions: seq<Action>, r: Request)
    requires Exec(Initial(ns), actions).Some? && r in Exec(Initial(ns), actions).value.seenRequests
    ensures Sound(r)
  {
    if actions != [] {
      var n := |actions| - 1;
      var s := Exec(Initial(ns), actions[..n]).value;
      RunIsCoherent(ns, actions[..n]);
      forall r' | r' in s.seenRequests
        ensures Sound(r')
      {
        EveryVersionIsSound(ns, actions[..n], r');
      }
      if r !in s.seenRequests {
        VersionIsSound(s, actions[n], r);
      }
    }
  }

  // ----- What can never be taken back -----

  /** The part of the status that only the controller writes, and that edits by others leave alone. */
  predicate SameOutcome(a: Status, b: Status) {
    a.certificate == b.certificate && a.ca == b.ca && a.failureTime == b.failureTime && SameConditions(a.conditions, b.conditions)
  }

  predicate Later(before: Request, after: Request) {
    && before.uid == after.uid && before.spec == after.spec
    && At(before.annotations, CertificateName) == At(after.annotations, CertificateName)
    && (IsSubmitted(before) ==> At(after.annotations, RequestId) == At(before.annotations, RequestId))
    && (CertificateId in before.annotations ==> CertificateId in after.annotations)
    && (IsTerminal(before) ==> SameOutcome(before.status, after.status))
    && (IsApproved(before) && !IsReady(before) ==> IsApproved(after) && !IsReady(after))
    && (before.deleting ==> after.deleting)
  }

  /** A terminal request absorbs every reconcile: no status is written over its own, from any copy of
      it and for any answers. */
  lemma TerminalAbsorbs(ns: string, r: Request, q: Replies)
    requires IsTerminal(r)
    ensures After(r, MoveOf(ns, r, q)).status == r.status
  {
    MoveIsAllowed(ns, r, q);
  }

  /** In the store: whatever copy a reconcile of any request read, the whole status of a terminal
      request stays as it was. */
  lemma ReconcileKeepsTerminal(s: State, a: Action, uid: Uid)
    requires Coherent(s) && Enabled(s, a) && (a.ReconcileRequest? || a.ReconcileIssuer?)
    requires uid in s.cluster.requests && uid in Apply(s, a).cluster.requests && IsTerminal(s.cluster.requests[uid])
    ensures Apply(s, a).cluster.requests[uid].status == s.cluster.requests[uid].status
  {
    LiveSucceeds(s, a, uid);
    if a.ReconcileRequest? && a.read == s.cluster.requests[uid] {
      TerminalAbsorbs(s.clusterNs, a.read, a.q);
    }
  }

  lemma LaterIsTransitive(a: Request, b: Request, c: Request)
    requires Later(a, b) && Later(b, c)
    ensures Later(a, c)
  {
  }

  lemma EditIsLater(before: Request, after: Request)
    requires OthersMayEdit(before, after)
    ensures Later(before, after)
  {
    assert Reserved(before, RequestId) && Reserved(before, CertificateId) && Reserved(before, CertificateName);
  }

  lemma MoveIsLater(r: Request, m: Move)
    requires Sound(r) && Allowed(r, m)
    ensures Later(r, After(r, m))
  {
    if m.Annotate? {
      IssueAt(r.annotations, m.info, RequestId);
      IssueAt(r.annotations, m.info, CertificateId);
      IssueAt(r.annotations, m.info, CertificateName);
    }
  }

  lemma ChangeIsLater(s: State, a: Action, before: Request, after: Request)
    requires Sound(before)
    requires || after == before
             || (a.EditRequest? && OthersMayEdit(before, after))
             || (MovedTo(s, a, after) && a.read == before)
    ensures Later(before, after)
  {
    if MovedTo(s, a, after) && a.read == before {
      var m := MoveOf(s.clusterNs, before, a.q);
      MoveIsAllowed(s.clusterNs, before, a.q);
      MoveIsLater(before, m);
      LaterIsTransitive(before, After(before, m), after);
    } else if a.EditRequest? && OthersMayEdit(before, after) {
      EditIsLater(before, after);
    }
  }

  lemma StepIsLater(s: State, a: Action, uid: Uid)
    requires Coherent(s) && AllSound(s) && Enabled(s, a)
    requires uid in s.cluster.requests && uid in Apply(s, a).cluster.requests
    ensures Later(s.cluster.requests[uid], Apply(s, a).cluster.requests[uid])
  {
    LiveSucceeds(s, a, uid);
    ChangeIsLater(s, a, s.cluster.requests[uid], Apply(s, a).cluster.requests[uid]);
  }

  lemma {:induction false} PrefixRuns(ns: string, actions: seq<Action>, k: nat)
    requires k <= |actions| && Exec(Initial(ns), actions).Some?
    ensures Exec(Initial(ns), actions[..k]).Some?
  {
    if k < |actions| {
      PrefixRuns(ns, actions[..|actions| - 1], k);
      assert actions[..|actions| - 1][..k] == actions[..k];
    } else {
      assert actions[..k] == actions;
    }
  }

  lemma StateIsSound(ns: string, actions: seq<Action>)
    requires Exec(Initial(ns), actions).Some?
    ensures Coherent(Exec(Initial(ns), actions).value) && AllSound(Exec(Initial(ns), actions).value)
  {
    RunIsCoherent(ns, actions);
    forall r | r in Exec(Initial(ns), actions).value.seenRequests
      ensures Sound(r)
    {
      EveryVersionIsSound(ns, actions, r);
    }
  }

  /** Between any two points of any run: a stored request id is never changed or removed, a terminal
      outcome never changes, and an approved request without a certificate never gets one. */
  lemma {:induction false} HistoryIsMonotone(ns: string, actions: seq<Action>, k: nat, uid: Uid)
    requires k <= |actions| && Exec(Initial(ns), actions).Some? && Exec(Initial(ns), actions[..k]).Some?
    requires uid in Exec(Initial(ns), actions[..k]).value.cluster.requests
    ensures var s, t := Exec(Initial(ns), actions[..k]).value, Exec(Initial(ns), actions).value;
            s.cluster.requests[uid] in t.seenRequests
            && (uid in t.cluster.requests ==> Later(s.cluster.requests[uid], t.cluster.requests[uid]))
  {
    var s := Exec(Initial(ns), actions[..k]).value;
    var r := s.cluster.requests[uid];
    if k == |actions| {
      assert actions[..k] == actions;
      RunIsCoherent(ns, actions);
    } else {
      var n := |actions| - 1;
      assert actions[..n][..k] == actions[..k];
      HistoryIsMonotone(ns, actions[..n], k, uid);
      var m := Exec(Initial(ns), actions[..n]).value;
      StateIsSound(ns, actions[..n]);
      RunIsCoherent(ns, actions[..k]);
      assert r.uid == uid;
      GoneStaysGone(m, actions[n], r);
      StepsOn(m, actions[n], r, uid);
    }
  }

  lemma StepsOn(m: State, a: Action, r: Request, uid: Uid)
    requires Coherent(m) && AllSound(m) && Enabled(m, a) && r in m.seenRequests && r.uid == uid
    requires uid in m.cluster.requests ==> Later(r, m.cluster.requests[uid])
    ensures uid in Apply(m, a).cluster.requests ==> Later(r, Apply(m, a).cluster.requests[uid])
  {
    GoneStaysGone(m, a, r);
    if uid in Apply(m, a).cluster.requests {
      StepIsLater(m, a, uid);
      LaterIsTransitive(r, m.cluster.requests[uid], Apply(m, a).cluster.requests[uid]);
    }
  }

  ghost predicate EditedIn(actions: seq<Action>, k: int, uid: Uid) {
    exists n :: 0 <= n < |actions| && k <= n && actions[n].EditRequest? && actions[n].request.uid == uid
  }

  lemma EditedInPrefix(actions: seq<Action>, k: int, uid: Uid)
    requires actions != [] && EditedIn(actions[..|actions| - 1], k, uid)
    ensures EditedIn(actions, k, uid)
  {
    var n :| 0 <= n < |actions| - 1 && k <= n && actions[..|actions| - 1][n].EditRequest? && actions[..|actions| - 1][n].request.uid == uid;
    assert actions[n].EditRequest? && actions[n].request.uid == uid;
  }

  lemma StatusStays(s: State, a: Action, uid: Uid, status: Status)
    requires Coherent(s) && AllSound(s) && Enabled(s, a) && !(a.EditRequest? && a.request.uid == uid)
    requires (exists r :: r in s.seenRequests && r.uid == uid) && uid in Apply(s, a).cluster.requests
    requires uid in s.cluster.requests ==> IsTerminal(s.cluster.requests[uid]) && s.cluster.requests[uid].status == status
    ensures Apply(s, a).cluster.requests[uid].status == status && IsTerminal(Apply(s, a).cluster.requests[uid])
  {
    var r :| r in s.seenRequests && r.uid == uid;
    GoneStaysGone(s, a, r);
    if a.ReconcileRequest? || a.ReconcileIssuer? {
      ReconcileKeepsTerminal(s, a, uid);
    } else {
      LiveSucceeds(s, a, uid);
    }
  }

  /** Terminal statuses absorb: from the moment a terminal status is stored, nothing but an edit by
      others changes any part of the status, in any run. */
  lemma {:induction false} TerminalForever(ns: string, actions: seq<Action>, k: nat, uid: Uid)
    requires k <= |actions| && Exec(Initial(ns), actions).Some? && Exec(Initial(ns), actions[..k]).Some?
    requires uid in Exec(Initial(ns), actions[..k]).value.cluster.requests && !EditedIn(actions, k, uid)
    requires IsTerminal(Exec(Initial(ns), actions[..k]).value.cluster.requests[uid])
    ensures var s, t := Exec(Initial(ns), actions[..k]).value, Exec(Initial(ns), actions).value;
            uid in t.cluster.requests ==>
              t.cluster.requests[uid].status == s.cluster.requests[uid].status && IsTerminal(t.cluster.requests[uid])
  {
    var n := |actions| - 1;
    if k == |actions| {
      assert actions[..k] == actions;
    } else if uid in Exec(Initial(ns), actions).value.cluster.requests {
      assert actions[..n][..k] == actions[..k];
      if EditedIn(actions[..n], k, uid) {
        EditedInPrefix(actions, k, uid);
      }
      TerminalForever(ns, actions[..n], k, uid);
      HistoryIsMonotone(ns, actions[..n], k, uid);
      StateIsSound(ns, actions[..n]);
      RunIsCoherent(ns, actions[..k]);
      StatusStays(Exec(Initial(ns), actions[..n]).value, actions[n], uid, Exec(Initial(ns), actions[..k]).value.cluster.requests[uid].status);
    }
  }
}
