/** "It is run only once": how many submissions Horizon accepts for a request, over every run. */
module Submissions {
  import opened Options
  import opened Keys
  import opened Model
  import opened RequestStep
  import opened Protocol
  import opened Issuance
  import opened World
  import opened Coherence
  import opened Lifecycle

  // ----- The log -----

  /** The log says what the reconciles read and did. */
  ghost predicate Honest(s: State, e: Event) {
    e.Reconciled? ==> e.effects == Run(s.clusterNs, e.read, e.q) && Readable(s, e.read, e.q)
  }

  ghost predicate LogIsHonest(s: State) {
    forall i :: 0 <= i < |s.log| ==> Honest(s, s.log[i])
  }

  lemma LogGrows(s: State, a: Action)
    requires Enabled(s, a)
    ensures Apply(s, a).clusterNs == s.clusterNs && s.log <= Apply(s, a).log
    ensures s.seenRequests <= Apply(s, a).seenRequests
    ensures s.seenCerts <= Apply(s, a).seenCerts && s.seenIssuers <= Apply(s, a).seenIssuers
  {
  }

  lemma NewEvent(s: State, a: Action)
    requires Enabled(s, a)
    ensures !a.ReconcileRequest? && !a.ReconcileIssuer? ==> Apply(s, a).log == s.log
    ensures a.ReconcileRequest? || a.ReconcileIssuer? ==> |Apply(s, a).log| == |s.log| + 1
    ensures a.ReconcileRequest? ==>
              var e := Apply(s, a).log[|s.log|];
              e.Reconciled? && e.read == a.read && e.q == a.q && e.effects == Run(s.clusterNs, a.read, a.q)
              && e.stored == TakesWrite(s.cluster, e.effects.write, a.q.write)
    ensures a.ReconcileIssuer? ==> Apply(s, a).log[|s.log|].Checked?
  {
  }

  lemma {:induction false} LogOfRunIsHonest(ns: string, actions: seq<Action>)
    requires Exec(Initial(ns), actions).Some?
    ensures Exec(Initial(ns), actions).value.clusterNs == ns && LogIsHonest(Exec(Initial(ns), actions).value)
  {
    if actions != [] {
      var n := |actions| - 1;
      LogOfRunIsHonest(ns, actions[..n]);
      LogStaysHonest(Exec(Initial(ns), actions[..n]).value, actions[n]);
    }
  }

  lemma LogStaysHonest(s: State, a: Action)
    requires Enabled(s, a) && LogIsHonest(s)
    ensures LogIsHonest(Apply(s, a)) && Apply(s, a).clusterNs == s.clusterNs
  {
    LogGrows(s, a);
    NewEvent(s, a);
    var t := Apply(s, a);
    forall i | 0 <= i < |t.log|
      ensures Honest(t, t.log[i])
    {
      if i < |s.log| {
        assert t.log[i] == s.log[i] && Honest(s, s.log[i]);
        HonestLater(s, t, s.log[i]);
      }
    }
  }

  ghost predicate Grows(s: State, t: State) {
    s.log <= t.log && s.seenRequests <= t.seenRequests && s.seenCerts <= t.seenCerts && s.seenIssuers <= t.seenIssuers
  }

  /** What was logged or seen stays so. */
  lemma {:induction false} RunGrows(ns: string, actions: seq<Action>, k: nat)
    requires k <= |actions| && Exec(Initial(ns), actions).Some? && Exec(Initial(ns), actions[..k]).Some?
    ensures Grows(Exec(Initial(ns), actions[..k]).value, Exec(Initial(ns), actions).value)
  {
    if k == |actions| {
      assert actions[..k] == actions;
    } else {
      var n := |actions| - 1;
      assert actions[..n][..k] == actions[..k];
      RunGrows(ns, actions[..n], k);
      var s, m := Exec(Initial(ns), actions[..k]).value, Exec(Initial(ns), actions[..n]).value;
      StepGrows(m, actions[n]);
      GrowsIsTransitive(s, m, Apply(m, actions[n]));
    }
  }

  lemma StepGrows(s: State, a: Action)
    requires Enabled(s, a)
    ensures Grows(s, Apply(s, a))
  {
    LogGrows(s, a);
  }

  lemma GrowsIsTransitive(s: State, m: State, t: State)
    requires Grows(s, m) && Grows(m, t)
    ensures Grows(s, t)
  {
  }

  lemma HonestLater(s: State, t: State, e: Event)
    requires Honest(s, e) && s.clusterNs == t.clusterNs
    requires s.seenRequests <= t.seenRequests && s.seenCerts <= t.seenCerts && s.seenIssuers <= t.seenIssuers
    ensures Honest(t, e)
  {
  }

  /** In every run, a reconcile that read a request id, or a closed request, submitted nothing. */
  lemma SubmittersReadNoId(ns: string, actions: seq<Action>, i: nat, c: Call)
    requires Exec(Initial(ns), actions).Some? && i < |Exec(Initial(ns), actions).value.log|
    requires var e := Exec(Initial(ns), actions).value.log[i];
             e.Reconciled? && c in e.effects.calls && IsSubmission(c)
    ensures var e := Exec(Initial(ns), actions).value.log[i];
            IsOpen(e.read) && !IsSubmitted(e.read)
  {
    LogOfRunIsHonest(ns, actions);
    var s := Exec(Initial(ns), actions).value;
    assert Honest(s, s.log[i]);
    SubmittersAreOpen(ns, s.log[i].read, s.log[i].q, c);
  }

  // ----- The account -----

  /** The write that followed a submission stored its request id. */
  predicate Registers(e: Event) {
    e.Reconciled? && e.stored && e.effects.write.MetaWrite? && RequestId in e.effects.write.request.annotations && !IsSubmitted(e.read)
  }

  /** The submissions for a request that Horizon accepted. */
  function AcceptedFor(log: seq<Event>, uid: Uid): nat {
    if log == [] then 0
    else
      var e := log[|log| - 1];
      AcceptedFor(log[..|log| - 1], uid) + if e.Reconciled? && e.read.uid == uid then AcceptedCount(e.effects.calls) else 0
  }

  /** Those among them whose id was not stored: the write was refused or dropped, or the answer lost. */
  function WastedFor(log: seq<Event>, uid: Uid): nat {
    if log == [] then 0
    else
      var e := log[|log| - 1];
      WastedFor(log[..|log| - 1], uid)
      + if e.Reconciled? && e.read.uid == uid && !Registers(e) then AcceptedCount(e.effects.calls) else 0
  }

  /** A request id was stored for this request at some time. */
  ghost predicate EverSubmitted(s: State, uid: Uid) {
    exists r :: r in s.seenRequests && r.uid == uid && IsSubmitted(r)
  }

  ghost predicate LiveKeepsId(s: State, uid: Uid) {
    EverSubmitted(s, uid) && uid in s.cluster.requests ==> IsSubmitted(s.cluster.requests[uid])
  }

  ghost predicate Balanced(s: State, uid: Uid) {
    AcceptedFor(s.log, uid) == WastedFor(s.log, uid) + if EverSubmitted(s, uid) then 1 else 0
  }

  /** A move registers an id exactly when the stored object gets one it did not have. */
  lemma OnlyRegisterGivesId(ns: string, r: Request, q: Replies)
    ensures var m, w := MoveOf(ns, r, q), Run(ns, r, q).write;
            && (IsSubmitted(After(r, m)) <==> IsSubmitted(r) || m.Register?)
            && (m.Register? <==> w.MetaWrite? && RequestId in w.request.annotations && !IsSubmitted(r))
  {
    var m, w := MoveOf(ns, r, q), Run(ns, r, q).write;
    ReconcileMakesMove(ns, r, q);
    MoveIsAllowed(ns, r, q);
    if m.Annotate? {
      IssueAt(r.annotations, m.info, RequestId);
    }
    assert w.MetaWrite? ==> Merged(r, w).annotations == w.request.annotations;
    assert !w.MetaWrite? ==> Merged(r, w).annotations == r.annotations;
  }

  lemma AcceptedForOneMore(log: seq<Event>, e: Event, uid: Uid)
    ensures var n := if e.Reconciled? && e.read.uid == uid then AcceptedCount(e.effects.calls) else 0;
            && AcceptedFor(log + [e], uid) == AcceptedFor(log, uid) + n
            && WastedFor(log + [e], uid) == WastedFor(log, uid) + if Registers(e) then 0 else n
  {
    assert (log + [e])[..|log|] == log;
  }

  /** A stored move to this request that gives it its id. */
  ghost predicate RegistersNow(s: State, a: Action, uid: Uid) {
    && a.ReconcileRequest? && a.read.uid == uid
    && TakesWrite(s.cluster, Run(s.clusterNs, a.read, a.q).write, a.q.write)
    && MoveOf(s.clusterNs, a.read, a.q).Register?
  }

  lemma NewVersionHasNewId(s: State, a: Action, r: Request)
    requires Coherent(s) && Enabled(s, a)
    requires r in Apply(s, a).seenRequests && r !in s.seenRequests && IsSubmitted(r)
    ensures EverSubmitted(s, r.uid) || RegistersNow(s, a, r.uid)
  {
    Origin(s, a, r);
    if EditedTo(s, a, r) {
      var before := s.cluster.requests[r.uid];
      assert Reserved(before, RequestId);
      assert IsSubmitted(before);
    } else if MovedTo(s, a, r) {
      OnlyRegisterGivesId(s.clusterNs, a.read, a.q);
      assert IsSubmitted(a.read) || RegistersNow(s, a, r.uid);
    }
  }

  lemma RegisteringFacts(s: State, a: Action, uid: Uid)
    requires Coherent(s) && Enabled(s, a) && LiveKeepsId(s, uid) && RegistersNow(s, a, uid)
    ensures !EverSubmitted(s, uid) && EverSubmitted(Apply(s, a), uid)
  {
    var m := MoveOf(s.clusterNs, a.read, a.q);
    MoveIsAllowed(s.clusterNs, a.read, a.q);
    TakenWriteIsCurrent(s, a.read, a.q);
    OnlyRegisterGivesId(s.clusterNs, a.read, a.q);
    RegisteredIsSeen(s, a.read, a.q);
  }

  lemma RegisteredIsSeen(s: State, read: Request, q: Replies)
    requires Coherent(s) && read in s.seenRequests
    requires TakesWrite(s.cluster, Run(s.clusterNs, read, q).write, q.write)
    requires MoveOf(s.clusterNs, read, q).Register?
    ensures EverSubmitted(AfterEffects(s, read, q, Run(s.clusterNs, read, q)), read.uid)
  {
    var m := MoveOf(s.clusterNs, read, q);
    TakenWriteIsCurrent(s, read, q);
    MoveIsAllowed(s.clusterNs, read, q);
    var c := Commit(s.cluster, Run(s.clusterNs, read, q).write, q.write);
    assert !Gone(read) && !Gone(After(read, m));
    var r := c.requests[read.uid];
    assert r in LiveRequests(c, read.uid) && IsSubmitted(r) && r.uid == read.uid;
  }

  lemma EverSubmittedStep(s: State, a: Action, uid: Uid)
    requires Coherent(s) && Enabled(s, a) && LiveKeepsId(s, uid)
    ensures EverSubmitted(Apply(s, a), uid) <==> EverSubmitted(s, uid) || RegistersNow(s, a, uid)
  {
    LogGrows(s, a);
    var t := Apply(s, a);
    if RegistersNow(s, a, uid) {
      RegisteringFacts(s, a, uid);
    } else if EverSubmitted(t, uid) {
      var r :| r in t.seenRequests && r.uid == uid && IsSubmitted(r);
      if r !in s.seenRequests {
        NewVersionHasNewId(s, a, r);
      }
    }
  }

  lemma LiveKeepsIdStep(s: State, a: Action, uid: Uid)
    requires Coherent(s) && AllSound(s) && Enabled(s, a) && LiveKeepsId(s, uid)
    ensures LiveKeepsId(Apply(s, a), uid)
  {
    EverSubmittedStep(s, a, uid);
    var t := Apply(s, a);
    if EverSubmitted(t, uid) && uid in t.cluster.requests {
      if EverSubmitted(s, uid) {
        var r :| r in s.seenRequests && r.uid == uid && IsSubmitted(r);
        GoneStaysGone(s, a, r);
        StepIsLater(s, a, uid);
      } else {
        LiveAfterRegistering(s, a.read, a.q);
      }
    }
  }

  lemma LiveAfterRegistering(s: State, read: Request, q: Replies)
    requires Coherent(s) && read in s.seenRequests
    requires TakesWrite(s.cluster, Run(s.clusterNs, read, q).write, q.write)
    requires MoveOf(s.clusterNs, read, q).Register?
    ensures var c := AfterEffects(s, read, q, Run(s.clusterNs, read, q)).cluster;
            read.uid in c.requests ==> IsSubmitted(c.requests[read.uid])
  {
    TakenWriteIsCurrent(s, read, q);
  }

  lemma BalanceStep(s: State, a: Action, uid: Uid)
    requires Coherent(s) && Enabled(s, a) && LiveKeepsId(s, uid) && Balanced(s, uid)
    ensures Balanced(Apply(s, a), uid)
  {
    EverSubmittedStep(s, a, uid);
    NewEvent(s, a);
    LogGrows(s, a);
    var t := Apply(s, a);
    if |t.log| == |s.log| + 1 {
      var e := t.log[|s.log|];
      assert t.log == s.log + [e];
      AcceptedForOneMore(s.log, e, uid);
      if a.ReconcileRequest? {
        SubmissionsOfMove(s.clusterNs, a.read, a.q);
        OnlyRegisterGivesId(s.clusterNs, a.read, a.q);
        assert Registers(e) <==> e.stored && MoveOf(s.clusterNs, a.read, a.q).Register?;
        if RegistersNow(s, a, uid) {
          RegisteringFacts(s, a, uid);
        }
      }
    }
  }

  lemma {:induction false} RunIsBalanced(ns: string, actions: seq<Action>, uid: Uid)
    requires Exec(Initial(ns), actions).Some?
    ensures Balanced(Exec(Initial(ns), actions).value, uid) && LiveKeepsId(Exec(Initial(ns), actions).value, uid)
  {
    if actions != [] {
      var n := |actions| - 1;
      RunIsBalanced(ns, actions[..n], uid);
      StateIsSound(ns, actions[..n]);
      var s := Exec(Initial(ns), actions[..n]).value;
      BalanceStep(s, actions[n], uid);
      LiveKeepsIdStep(s, actions[n], uid);
    }
  }

  /** Exact account of "run only once": Horizon accepts one submission for each request that ever got
      a request id, plus those whose id was never stored. */
  lemma SubmissionAccount(ns: string, actions: seq<Action>, uid: Uid)
    requires Exec(Initial(ns), actions).Some?
    ensures var t := Exec(Initial(ns), actions).value;
            && AcceptedFor(t.log, uid) == WastedFor(t.log, uid) + (if EverSubmitted(t, uid) then 1 else 0)
            && (WastedFor(t.log, uid) == 0 ==> AcceptedFor(t.log, uid) <= 1)
  {
    RunIsBalanced(ns, actions, uid);
  }
}
