/** Issuer readiness over runs, and the joint safety of the two controllers. */
module Gating {
  import opened Options
  import opened Keys
  import opened Model
  import opened RequestStep
  import opened Protocol
  import opened IssuerHealth
  import opened World
  import opened Coherence
  import opened Submissions

  // ----- One check -----

  /** The first check only notes that the Issuer was seen. From then on the Ready condition is True
      exactly if the Secret was found, the checker was built and the check passed, and False with the
      error otherwise. Other conditions stay. */
  lemma CheckOutcome(i: IssuerObject, q: CheckReplies)
    ensures Assess(i, q).Keys == i.conditions.Keys + {Ready}
    ensures forall k :: k in i.conditions && k != Ready ==> Assess(i, q)[k] == i.conditions[k]
    ensures Ready !in i.conditions ==> Assess(i, q)[Ready] == Condition(Unknown, FirstSeen, FirstSeenMessage)
    ensures Ready in i.conditions && q.secretFound && q.checkerBuilt && q.checkPasses ==>
              Assess(i, q)[Ready] == Condition(Yes, Success, CheckSucceeded)
    ensures Ready in i.conditions && !(q.secretFound && q.checkerBuilt && q.checkPasses) ==>
              Assess(i, q)[Ready] == Condition(No, ErrorReason, Text(q.text))
  {
  }

  /** What the log calls a check that passed, and when an Issuer is healthy. */
  lemma PassesExactly(i: IssuerObject, q: CheckReplies)
    ensures Passes(i, q) <==> Ready in i.conditions && q.secretFound && q.checkerBuilt && q.checkPasses
    ensures IsHealthy(i) <==> Ready in i.conditions && i.conditions[Ready].status == Yes
    ensures Has(Assess(i, q), Ready, Yes) <==> Ready in i.conditions && q.secretFound && q.checkerBuilt && q.checkPasses
  {
  }

  // ----- Readiness over runs -----

  /** Whether the last check whose result was stored for this Issuer passed. */
  function LastStored(log: seq<Event>, key: IssuerKey): Option<bool> {
    if log == [] then None
    else
      var e := log[|log| - 1];
      if e.Checked? && e.stored && e.issuer.key == key then Some(Passes(e.issuer, e.check)) else LastStored(log[..|log| - 1], key)
  }

  lemma LastStoredOneMore(log: seq<Event>, e: Event, key: IssuerKey)
    ensures LastStored(log + [e], key)
            == if e.Checked? && e.stored && e.issuer.key == key then Some(Passes(e.issuer, e.check)) else LastStored(log, key)
  {
    assert (log + [e])[..|log|] == log;
  }

  ghost predicate Tells(s: State, key: IssuerKey) {
    key in s.cluster.issuers && Ready in s.cluster.issuers[key].conditions ==>
      LastStored(s.log, key) == Some(IsHealthy(s.cluster.issuers[key]))
  }

  lemma CheckTells(s: State, i: IssuerObject, q: CheckReplies, key: IssuerKey)
    requires Coherent(s) && i in s.seenIssuers && Tells(s, key)
    ensures Tells(AfterCheck(s, i, q), key)
  {
    var e := Checked(i, q, SecretOfIssuer(s.clusterNs, i), TakesIssuer(s.cluster, i, q.write));
    LastStoredOneMore(s.log, e, key);
    CheckOutcome(i, q);
  }

  lemma EffectsTell(s: State, r: Request, q: Replies, e: Effects, key: IssuerKey)
    requires Tells(s, key)
    ensures Tells(AfterEffects(s, r, q, e), key)
  {
    var t := AfterEffects(s, r, q, e);
    LastStoredOneMore(s.log, t.log[|s.log|], key);
    assert t.cluster.issuers == s.cluster.issuers;
  }

  lemma StepTells(s: State, a: Action, key: IssuerKey)
    requires Coherent(s) && Enabled(s, a) && Tells(s, key)
    ensures Tells(Apply(s, a), key)
  {
    if a.ReconcileIssuer? {
      CheckTells(s, a.readIssuer, a.check, key);
    } else if a.ReconcileRequest? {
      EffectsTell(s, a.read, a.q, Run(s.clusterNs, a.read, a.q), key);
    }
  }

  /** In every run, an Issuer that has a Ready condition is ready exactly if the last check whose result
      was stored passed, even when checks started from stale copies. */
  lemma {:induction false} ReadinessIsLastCheck(ns: string, actions: seq<Action>, key: IssuerKey)
    requires Exec(Initial(ns), actions).Some?
    ensures Tells(Exec(Initial(ns), actions).value, key)
  {
    if actions != [] {
      var n := |actions| - 1;
      ReadinessIsLastCheck(ns, actions[..n], key);
      RunIsCoherent(ns, actions[..n]);
      StepTells(Exec(Initial(ns), actions[..n]).value, actions[n], key);
    }
  }

  /** The Ready condition of an Issuer that stays in the store is never lost, and changes only when a
      check of the current version is stored: from nothing to Unknown, and from then on to what the
      check found. */
  lemma ReadinessStep(s: State, a: Action, key: IssuerKey)
    requires Coherent(s) && Enabled(s, a) && key in s.cluster.issuers && key in Apply(s, a).cluster.issuers
    ensures var before, after := s.cluster.issuers[key], Apply(s, a).cluster.issuers[key];
            && (Ready in before.conditions ==> Ready in after.conditions)
            && (after.conditions != before.conditions ==>
                  && a.ReconcileIssuer? && a.readIssuer == before
                  && (Ready !in before.conditions ==> HasReason(after.conditions, Ready, Unknown, FirstSeen))
                  && (IsHealthy(after) <==> Passes(before, a.check)))
  {
    if a.ReconcileIssuer? {
      StoredCheck(s, a.readIssuer, a.check, key);
      CheckOutcome(a.readIssuer, a.check);
    } else if a.ReconcileRequest? {
      EffectsKeepIssuerObjects(s, a.read, a.q, Run(s.clusterNs, a.read, a.q));
    }
  }

  lemma StoredCheck(s: State, i: IssuerObject, q: CheckReplies, key: IssuerKey)
    requires Coherent(s) && i in s.seenIssuers && key in s.cluster.issuers
    ensures var before, after := s.cluster.issuers[key], AfterCheck(s, i, q).cluster.issuers[key];
            after != before ==> before == i && after.conditions == Assess(i, q)
  {
  }

  lemma EffectsKeepIssuerObjects(s: State, r: Request, q: Replies, e: Effects)
    ensures AfterEffects(s, r, q, e).cluster.issuers == s.cluster.issuers
    ensures AfterEffects(s, r, q, e).seenIssuers == s.seenIssuers
  {
  }

  // ----- Since an Issuer was created -----

  /** Some check of this Issuer was stored from position `from` of the log on. */
  ghost predicate StoredSince(log: seq<Event>, from: nat, key: IssuerKey) {
    exists n :: from <= n < |log| && log[n].Checked? && log[n].stored && log[n].issuer.key == key
  }

  lemma StoredSinceOneMore(log: seq<Event>, e: Event, from: nat, key: IssuerKey)
    requires from <= |log|
    ensures StoredSince(log + [e], from, key) <==> StoredSince(log, from, key) || (e.Checked? && e.stored && e.issuer.key == key)
  {
    var more := log + [e];
    if StoredSince(log, from, key) {
      var n :| from <= n < |log| && log[n].Checked? && log[n].stored && log[n].issuer.key == key;
      assert more[n] == log[n];
    }
    if e.Checked? && e.stored && e.issuer.key == key {
      assert more[|log|] == e;
    }
  }

  /** The Issuer is in the store, and has a Ready condition exactly if a check of it was stored since. */
  ghost predicate SinceCreated(s: State, from: nat, key: IssuerKey) {
    && from <= |s.log| && key in s.cluster.issuers
    && (Ready in s.cluster.issuers[key].conditions <==> StoredSince(s.log, from, key))
  }

  lemma EventSinceCreated(s: State, a: Action, from: nat, key: IssuerKey)
    requires Enabled(s, a) && from <= |s.log|
    ensures var t := Apply(s, a);
            StoredSince(t.log, from, key)
            <==> StoredSince(s.log, from, key)
                 || (a.ReconcileIssuer? && a.readIssuer.key == key && TakesIssuer(s.cluster, a.readIssuer, a.check.write))
  {
    var t := Apply(s, a);
    LogGrows(s, a);
    NewEvent(s, a);
    if a.ReconcileRequest? || a.ReconcileIssuer? {
      assert t.log == s.log + [t.log[|s.log|]];
      StoredSinceOneMore(s.log, t.log[|s.log|], from, key);
    }
  }

  lemma StepSinceCreated(s: State, a: Action, from: nat, key: IssuerKey)
    requires Coherent(s) && Enabled(s, a) && SinceCreated(s, from, key)
    requires !(a.RemoveIssuer? && a.issuerKey == key)
    ensures SinceCreated(Apply(s, a), from, key)
  {
    LogGrows(s, a);
    EventSinceCreated(s, a, from, key);
    if a.ReconcileIssuer? {
      CheckOutcome(a.readIssuer, a.check);
      StoredConditions(s, a.readIssuer, a.check, key);
    } else if a.ReconcileRequest? {
      EffectsKeepIssuerObjects(s, a.read, a.q, Run(s.clusterNs, a.read, a.q));
    }
  }

  /** The result of a check is stored exactly on the version that was read. */
  lemma StoredConditions(s: State, i: IssuerObject, q: CheckReplies, key: IssuerKey)
    requires key in s.cluster.issuers
    ensures var t := AfterCheck(s, i, q);
            && key in t.cluster.issuers
            && t.cluster.issuers[key].conditions
               == if i.key == key && s.cluster.issuers[key].version == i.version && q.write != Dropped then Assess(i, q)
                  else s.cluster.issuers[key].conditions
  {
  }

  /** From its creation on, and as long as it is not removed, an Issuer has a Ready condition exactly
      from the first time the result of a check of it is stored; with `ReadinessIsLastCheck`, it is then
      always what the last stored check found. */
  lemma {:induction false} ReadySinceFirstCheck(ns: string, actions: seq<Action>, k: nat, key: IssuerKey)
    requires k < |actions| && Exec(Initial(ns), actions).Some? && Exec(Initial(ns), actions[..k]).Some?
    requires actions[k].CreateIssuer? && actions[k].issuer.key == key
    requires forall n :: k < n < |actions| ==> actions[n] != RemoveIssuer(key)
    ensures SinceCreated(Exec(Initial(ns), actions).value, |Exec(Initial(ns), actions[..k]).value.log|, key)
  {
    var n := |actions| - 1;
    var m := Exec(Initial(ns), actions[..n]).value;
    if k < n {
      assert actions[..n][..k] == actions[..k];
      ReadySinceFirstCheck(ns, actions[..n], k, key);
      RunIsCoherent(ns, actions[..n]);
      StepSinceCreated(m, actions[n], |Exec(Initial(ns), actions[..k]).value.log|, key);
    }
  }

  // ----- No call before a successful check -----

  ghost predicate PassedBefore(log: seq<Event>, n: nat, key: IssuerKey) {
    exists k :: 0 <= k < n && k < |log| && log[k].Checked? && log[k].issuer.key == key && Passes(log[k].issuer, log[k].check)
  }

  lemma PassedLater(log: seq<Event>, more: seq<Event>, n: nat, m: nat, key: IssuerKey)
    requires PassedBefore(log, n, key) && log <= more && (n <= m || |log| <= m)
    ensures PassedBefore(more, m, key)
  {
    var k :| 0 <= k < n && k < |log| && log[k].Checked? && log[k].issuer.key == key && Passes(log[k].issuer, log[k].check);
    assert more[k] == log[k];
  }

  /** Every version of an Issuer that was ever ready passed a check. */
  ghost predicate ReadyPassed(s: State) {
    forall i :: i in s.seenIssuers && IsHealthy(i) ==> PassedBefore(s.log, |s.log|, i.key)
  }

  lemma NewIssuerVersion(s: State, a: Action, i: IssuerObject)
    requires Coherent(s) && Enabled(s, a) && i in Apply(s, a).seenIssuers && i !in s.seenIssuers && IsHealthy(i)
    ensures || (i.key in s.cluster.issuers && s.cluster.issuers[i.key].conditions == i.conditions)
            || (a.ReconcileIssuer? && a.readIssuer.key == i.key && Passes(a.readIssuer, a.check))
  {
    if a.ReconcileRequest? {
      EffectsKeepIssuerObjects(s, a.read, a.q, Run(s.clusterNs, a.read, a.q));
    }
    if a.ReconcileIssuer? {
      CheckOutcome(a.readIssuer, a.check);
    }
  }

  lemma CheckIsLogged(s: State, a: Action)
    requires Enabled(s, a) && a.ReconcileIssuer? && Passes(a.readIssuer, a.check)
    ensures var t := Apply(s, a); PassedBefore(t.log, |t.log|, a.readIssuer.key)
  {
    var t := Apply(s, a);
    assert t.log[|s.log|] == Checked(a.readIssuer, a.check, SecretOfIssuer(s.clusterNs, a.readIssuer), TakesIssuer(s.cluster, a.readIssuer, a.check.write));
  }

  lemma ReadyStaysPassed(s: State, a: Action)
    requires Coherent(s) && Enabled(s, a) && ReadyPassed(s)
    ensures ReadyPassed(Apply(s, a))
  {
    var t := Apply(s, a);
    LogGrows(s, a);
    forall i | i in t.seenIssuers && IsHealthy(i)
      ensures PassedBefore(t.log, |t.log|, i.key)
    {
      if i in s.seenIssuers {
        PassedLater(s.log, t.log, |s.log|, |t.log|, i.key);
      } else {
        NewIssuerVersion(s, a, i);
        if a.ReconcileIssuer? && Passes(a.readIssuer, a.check) && a.readIssuer.key == i.key {
          CheckIsLogged(s, a);
        } else {
          PassedLater(s.log, t.log, |s.log|, |t.log|, i.key);
        }
      }
    }
  }

  /** A call of this event is covered by a check before it, of the Issuer that the request names. */
  ghost predicate Covered(ns: string, log: seq<Event>, n: nat)
    requires n < |log|
  {
    log[n].Reconciled? ==>
      forall c :: c in log[n].effects.calls ==>
        && IssuerKeyOf(log[n].read) == Some(c.client.issuer)
        && PassedBefore(log, n, c.client.issuer)
        && c.client.secret == SecretOfIssuer(ns, IssuerObject(c.client.issuer, 0, c.client.spec, map[]))
        && (IsSubmission(c) ==> DnsPasses(c.client.spec, log[n].q))
  }

  ghost predicate AllCovered(s: State) {
    forall n :: 0 <= n < |s.log| ==> Covered(s.clusterNs, s.log, n)
  }

  lemma NewCallsAreCovered(s: State, a: Action)
    requires Enabled(s, a) && ReadyPassed(s) && a.ReconcileRequest?
    ensures |s.log| < |Apply(s, a).log| && Covered(s.clusterNs, Apply(s, a).log, |s.log|)
  {
    var t := Apply(s, a);
    LogGrows(s, a);
    NewEvent(s, a);
    forall c | c in Run(s.clusterNs, a.read, a.q).calls
      ensures IssuerKeyOf(a.read) == Some(c.client.issuer) && PassedBefore(t.log, |s.log|, c.client.issuer)
      ensures c.client.secret == SecretOfIssuer(s.clusterNs, IssuerObject(c.client.issuer, 0, c.client.spec, map[]))
      ensures IsSubmission(c) ==> DnsPasses(c.client.spec, a.q)
    {
      CallsUseReadyIssuer(s.clusterNs, a.read, a.q, c);
      PassedLater(s.log, t.log, |s.log|, |s.log|, c.client.issuer);
    }
  }

  lemma CallsStayCovered(s: State, a: Action)
    requires Enabled(s, a) && ReadyPassed(s) && AllCovered(s)
    ensures AllCovered(Apply(s, a))
  {
    LogGrows(s, a);
    NewEvent(s, a);
    var t := Apply(s, a);
    forall n | 0 <= n < |t.log|
      ensures Covered(t.clusterNs, t.log, n)
    {
      if n < |s.log| {
        assert t.log[n] == s.log[n] && Covered(s.clusterNs, s.log, n);
        forall c | t.log[n].Reconciled? && c in t.log[n].effects.calls
          ensures PassedBefore(t.log, n, c.client.issuer)
        {
          PassedLater(s.log, t.log, n, n, c.client.issuer);
        }
      } else if a.ReconcileRequest? {
        NewCallsAreCovered(s, a);
      }
    }
  }

  lemma {:induction false} RunIsCovered(ns: string, actions: seq<Action>)
    requires Exec(Initial(ns), actions).Some?
    ensures ReadyPassed(Exec(Initial(ns), actions).value) && AllCovered(Exec(Initial(ns), actions).value)
  {
    if actions != [] {
      var n := |actions| - 1;
      var s := Exec(Initial(ns), actions[..n]).value;
      RunIsCovered(ns, actions[..n]);
      RunIsCoherent(ns, actions[..n]);
      ReadyStaysPassed(s, actions[n]);
      CallsStayCovered(s, actions[n]);
    }
  }

  /** Joint safety: in every interleaving of the two controllers, every call to Horizon for a request
      goes through a client of the Issuer that the request names, built with the Secret in the
      namespace of the request, or in the one of the cluster for a ClusterIssuer; an earlier check of
      that Issuer found its Secret in the same namespace and was answered by Horizon; and a submission for
      an Issuer with a DNS checker follows the resolution of every name of the CSR. */
  lemma CallsFollowCheck(ns: string, actions: seq<Action>, n: nat, c: Call)
    requires Exec(Initial(ns), actions).Some?
    requires var log := Exec(Initial(ns), actions).value.log;
             n < |log| && log[n].Reconciled? && c in log[n].effects.calls
    ensures var log := Exec(Initial(ns), actions).value.log;
            var r, q := log[n].read, log[n].q;
            && IssuerKeyOf(r) == Some(c.client.issuer)
            && c.client.secret == SecretRef(if r.spec.issuerRef.IssuerRef? then r.spec.ns else ns, c.client.spec.authSecretName)
            && (exists k :: 0 <= k < n && log[k].Checked? && log[k].issuer.key == c.client.issuer
                            && Ready in log[k].issuer.conditions
                            && log[k].check.secretFound && log[k].check.checkerBuilt && log[k].check.checkPasses
                            && log[k].secret.ns == c.client.secret.ns)
            && ((c.EnrollCall? || c.RenewCall?) && c.client.spec.dnsChecker ==>
                  q.dnsNames.Some? && forall name :: name in q.dnsNames.value ==> name in q.resolvable)
  {
    RunIsCovered(ns, actions);
    LogOfRunIsHonest(ns, actions);
    RunChecksRightSecret(ns, actions);
    var log := Exec(Initial(ns), actions).value.log;
    assert Covered(ns, log, n);
    assert Honest(Exec(Initial(ns), actions).value, log[n]);
    CallsUseReadyIssuer(ns, log[n].read, log[n].q, c);
    var k :| 0 <= k < n && log[k].Checked? && log[k].issuer.key == c.client.issuer && Passes(log[k].issuer, log[k].check);
    PassesExactly(log[k].issuer, log[k].check);
    assert log[k].secret == SecretOfIssuer(ns, log[k].issuer);
  }

  lemma {:induction false} RunChecksRightSecret(ns: string, actions: seq<Action>)
    requires Exec(Initial(ns), actions).Some?
    ensures var log := Exec(Initial(ns), actions).value.log;
            forall k :: 0 <= k < |log| && log[k].Checked? ==> log[k].secret == SecretOfIssuer(ns, log[k].issuer)
  {
    if actions != [] {
      var n := |actions| - 1;
      RunChecksRightSecret(ns, actions[..n]);
      LogOfRunIsHonest(ns, actions[..n]);
      LogGrows(Exec(Initial(ns), actions[..n]).value, actions[n]);
      NewEvent(Exec(Initial(ns), actions[..n]).value, actions[n]);
    }
  }
}
