/** Resource versions do their work: a copy that carries the current version is the current object.
    From this follows where every stored version of a request comes from. */
module Coherence {
  import opened Options
  import opened Keys
  import opened Model
  import opened RequestStep
  import opened Protocol
  import opened IssuerHealth
  import opened World

  ghost predicate RequestsCoherent(s: State) {
    && (forall u :: u in s.cluster.requests ==>
                    s.cluster.requests[u].uid == u && s.cluster.requests[u] in s.seenRequests && !Gone(s.cluster.requests[u]))
    && (forall r :: r in s.seenRequests ==> r.version < s.cluster.clock)
    && (forall r :: r in s.seenRequests && r.uid in s.cluster.requests && s.cluster.requests[r.uid].version == r.version
                    ==> s.cluster.requests[r.uid] == r)
  }

  ghost predicate CertsCoherent(s: State) {
    && (forall k :: k in s.cluster.certs ==> s.cluster.certs[k].key == k && s.cluster.certs[k] in s.seenCerts)
    && (forall c :: c in s.seenCerts ==> c.version < s.cluster.clock && c.key.name != "")
    && (forall c :: c in s.seenCerts && c.key in s.cluster.certs && s.cluster.certs[c.key].version == c.version
                    ==> s.cluster.certs[c.key] == c)
  }

  ghost predicate IssuersCoherent(s: State) {
    && (forall k :: k in s.cluster.issuers ==> s.cluster.issuers[k].key == k && s.cluster.issuers[k] in s.seenIssuers)
    && (forall i :: i in s.seenIssuers ==> i.version < s.cluster.clock)
    && (forall i :: i in s.seenIssuers && i.key in s.cluster.issuers && s.cluster.issuers[i.key].version == i.version
                    ==> s.cluster.issuers[i.key] == i)
  }

  ghost predicate Coherent(s: State) {
    RequestsCoherent(s) && CertsCoherent(s) && IssuersCoherent(s)
  }

  // ----- One reconcile, seen from the store -----

  /** A write that the store takes was made from the current version, so the copy was current. */
  lemma TakenWriteIsCurrent(s: State, r: Request, q: Replies)
    requires Coherent(s) && r in s.seenRequests
    requires TakesWrite(s.cluster, Run(s.clusterNs, r, q).write, q.write)
    ensures r.uid in s.cluster.requests && s.cluster.requests[r.uid] == r
    ensures Commit(s.cluster, Run(s.clusterNs, r, q).write, q.write) == Put(s.cluster, r.uid, After(r, MoveOf(s.clusterNs, r, q)))
  {
    WriteKeepsIdentity(s.clusterNs, r, q);
    ReconcileMakesMove(s.clusterNs, r, q);
    var w := Run(s.clusterNs, r, q).write;
    TakenIsCurrent(s, r, w, q.write);
  }

  lemma TakenIsCurrent(s: State, r: Request, w: Write, fate: Fate)
    requires Coherent(s) && r in s.seenRequests
    requires TakesWrite(s.cluster, w, fate) && SameIdentity(w.request, r)
    ensures r.uid in s.cluster.requests && s.cluster.requests[r.uid] == r
    ensures Commit(s.cluster, w, fate) == Put(s.cluster, r.uid, Merged(r, w))
  {
  }

  lemma CommitExactly(s: State, r: Request, w: Write, fate: Fate)
    requires Coherent(s) && r in s.seenRequests && r.uid in s.cluster.requests
    requires w != NoWrite ==> SameIdentity(w.request, r)
    ensures var live, after, stored := s.cluster.requests[r.uid], Merged(r, w), Commit(s.cluster, w, fate).requests;
            if w != NoWrite && live.version == r.version && fate != Dropped then
              && live == r
              && stored - {r.uid} == s.cluster.requests - {r.uid}
              && (if after.deleting && after.finalizers == {} then r.uid !in stored
                  else r.uid in stored && stored[r.uid] == after.(version := stored[r.uid].version))
            else stored == s.cluster.requests
  {
    if TakesWrite(s.cluster, w, fate) {
      TakenIsCurrent(s, r, w, fate);
    }
  }

  /** What the store has after a reconcile: what was written, exactly if the copy was the current version
      and the write is not lost; an object that is being deleted goes with its last finalizer. */
  lemma StoredExactly(s: State, r: Request, q: Replies)
    requires Coherent(s) && r in s.seenRequests && r.uid in s.cluster.requests
    ensures var w := Run(s.clusterNs, r, q).write;
            var live, after := s.cluster.requests[r.uid], Merged(r, w);
            var stored := AfterEffects(s, r, q, Run(s.clusterNs, r, q)).cluster.requests;
            if w != NoWrite && live.version == r.version && q.write != Dropped then
              && live == r
              && stored - {r.uid} == s.cluster.requests - {r.uid}
              && (if after.deleting && after.finalizers == {} then r.uid !in stored
                  else r.uid in stored && stored[r.uid] == after.(version := stored[r.uid].version))
            else stored == s.cluster.requests
  {
    var e := Run(s.clusterNs, r, q);
    WriteKeepsIdentity(s.clusterNs, r, q);
    CommitExactly(s, r, e.write, q.write);
    ParentLeavesRequests(s, r, q, e);
  }

  lemma ParentLeavesRequests(s: State, r: Request, q: Replies, e: Effects)
    ensures AfterEffects(s, r, q, e).cluster.requests == Commit(s.cluster, e.write, q.write).requests
  {
  }

  /** What the parent has after a reconcile: the id that is offered, exactly if the copy that was read
      is the current version and the write is not lost; and nothing else of it changes. */
  lemma ParentStoredExactly(s: State, r: Request, q: Replies, e: Effects)
    requires Coherent(s)
    ensures var stored := AfterEffects(s, r, q, e).cluster.certs;
            if e.parent.ParentWrite? && q.parentAgain.Some? && q.parentAgain.value.key in s.cluster.certs
               && s.cluster.certs[q.parentAgain.value.key].version == q.parentAgain.value.version && q.parentWrite != Dropped
            then
              var key := q.parentAgain.value.key;
              var live := s.cluster.certs[key];
              && key in stored && stored - {key} == s.cluster.certs - {key}
              && stored[key] == live.(annotations := live.annotations[LastCertificateId := e.parent.id], version := stored[key].version)
            else stored == s.cluster.certs
  {
    var c := Commit(s.cluster, e.write, q.write);
    assert c.certs == s.cluster.certs;
  }

  // ----- Coherence holds in every state of every run -----

  lemma RequestPutIsCoherent(s: State, uid: Uid, r: Request)
    requires RequestsCoherent(s) && uid in s.cluster.requests && r.uid == uid && r.version == s.cluster.requests[uid].version
    ensures var c := Put(s.cluster, uid, r);
            RequestsCoherent(s.(cluster := c, seenRequests := s.seenRequests + LiveRequests(c, uid)))
  {
  }

  lemma EffectsKeepRequests(s: State, r: Request, q: Replies, e: Effects)
    requires Coherent(s) && r in s.seenRequests
    requires !e.write.NoWrite? ==> SameIdentity(e.write.request, r)
    ensures RequestsCoherent(AfterEffects(s, r, q, e))
  {
    if TakesWrite(s.cluster, e.write, q.write) {
      TakenIsCurrent(s, r, e.write, q.write);
      RequestPutIsCoherent(s, r.uid, Merged(r, e.write));
    }
  }

  lemma EffectsKeepCerts(s: State, r: Request, q: Replies, e: Effects)
    requires Coherent(s)
    ensures CertsCoherent(AfterEffects(s, r, q, e))
  {
    var c := Commit(s.cluster, e.write, q.write);
    assert c.certs == s.cluster.certs && c.clock >= s.cluster.clock;
  }

  lemma EffectsKeepIssuers(s: State, r: Request, q: Replies, e: Effects)
    requires Coherent(s)
    ensures IssuersCoherent(AfterEffects(s, r, q, e))
  {
    var c := Commit(s.cluster, e.write, q.write);
    assert c.issuers == s.cluster.issuers && c.clock >= s.cluster.clock;
  }

  lemma CertPutIsCoherent(s: State, c: Certificate)
    requires Coherent(s) && c.key.name != ""
    ensures Coherent(PutCert(s, c))
  {
  }

  lemma IssuerPutIsCoherent(s: State, i: IssuerObject)
    requires Coherent(s)
    ensures Coherent(PutIssuer(s, i))
  {
  }

  lemma NewRequestIsCoherent(s: State, r: Request)
    requires Coherent(s) && r.uid !in s.cluster.requests && !Gone(r)
    requires forall r' :: r' in s.seenRequests ==> r'.uid != r.uid
    ensures Coherent(AddRequest(s, r))
  {
  }

  lemma RequestEditIsCoherent(s: State, r: Request)
    requires Coherent(s) && r.uid in s.cluster.requests
    ensures Coherent(AfterRequestEdit(s, r))
  {
    RequestPutIsCoherent(s, r.uid, r.(version := s.cluster.requests[r.uid].version));
  }

  lemma StaysCoherent(s: State, a: Action)
    requires Coherent(s) && Enabled(s, a)
    ensures Coherent(Apply(s, a))
  {
    match a
    case CreateRequest(r) => NewRequestIsCoherent(s, r);
    case EditRequest(r) => RequestEditIsCoherent(s, r);
    case CreateCert(c) => CertPutIsCoherent(s, c);
    case EditCert(c) => CertPutIsCoherent(s, c);
    case RemoveCert(_) =>
    case CreateIssuer(i) => IssuerPutIsCoherent(s, i);
    case EditIssuer(i) => IssuerPutIsCoherent(s, i);
    case RemoveIssuer(_) =>
    case ReconcileRequest(r, q) =>
      var e := Run(s.clusterNs, r, q);
      WriteKeepsIdentity(s.clusterNs, r, q);
      EffectsKeepRequests(s, r, q, e);
      EffectsKeepCerts(s, r, q, e);
      EffectsKeepIssuers(s, r, q, e);
    case ReconcileIssuer(i, q) =>
      if TakesIssuer(s.cluster, i, q.write) {
        IssuerPutIsCoherent(s, s.cluster.issuers[i.key].(conditions := Assess(i, q)));
      }
  }

  lemma {:induction false} RunIsCoherent(ns: string, actions: seq<Action>)
    requires Exec(Initial(ns), actions).Some?
    ensures Coherent(Exec(Initial(ns), actions).value)
  {
    if actions != [] {
      var n := |actions| - 1;
      RunIsCoherent(ns, actions[..n]);
      StaysCoherent(Exec(Initial(ns), actions[..n]).value, actions[n]);
    }
  }

  // ----- Where a stored version comes from -----

  /** Equal up to the resource version. */
  predicate SameContent(a: Request, b: Request) {
    a == b.(version := a.version)
  }

  /** A reconcile that changes the store: the move it made, from the object it read. */
  ghost predicate MovedTo(s: State, a: Action, r: Request) {
    && a.ReconcileRequest?
    && TakesWrite(s.cluster, Run(s.clusterNs, a.read, a.q).write, a.q.write)
    && a.read.uid == r.uid
    && SameContent(r, After(a.read, MoveOf(s.clusterNs, a.read, a.q)))
  }

  ghost predicate EditedTo(s: State, a: Action, r: Request) {
    a.EditRequest? && r.uid in s.cluster.requests && OthersMayEdit(s.cluster.requests[r.uid], r)
  }

  lemma MovesKeepIdentity(r: Request, m: Move)
    ensures SameIdentity(After(r, m), r)
  {
  }

  /** Every new version is a new request, an edit of the live one by others, or a move from it. */
  lemma Origin(s: State, a: Action, r: Request)
    requires Coherent(s) && Enabled(s, a)
    requires r in Apply(s, a).seenRequests && r !in s.seenRequests
    ensures (a.CreateRequest? && NewRequest(r)) || EditedTo(s, a, r) || MovedTo(s, a, r)
  {
    if a.ReconcileRequest? {
      OriginOfEffects(s, a.read, a.q, r);
    }
  }

  lemma OriginOfEffects(s: State, read: Request, q: Replies, r: Request)
    requires Coherent(s) && read in s.seenRequests
    requires r in AfterEffects(s, read, q, Run(s.clusterNs, read, q)).seenRequests && r !in s.seenRequests
    ensures MovedTo(s, ReconcileRequest(read, q), r)
  {
    TakenWriteIsCurrent(s, read, q);
    MovesKeepIdentity(read, MoveOf(s.clusterNs, read, q));
  }

  /** A step stores at most one new version of a request. */
  lemma OneNewVersion(s: State, a: Action, r: Request, r': Request)
    requires Coherent(s) && Enabled(s, a)
    requires r in Apply(s, a).seenRequests && r !in s.seenRequests
    requires r' in Apply(s, a).seenRequests && r' !in s.seenRequests
    ensures r == r'
  {
  }

  /** What happens to the live object of a request in one step: nothing, an edit by others, a move, or
      its removal. */
  ghost predicate Succeeds(s: State, a: Action, uid: Uid)
    requires Enabled(s, a) && uid in s.cluster.requests
  {
    var t := Apply(s, a);
    uid in t.cluster.requests ==>
      var before, after := s.cluster.requests[uid], t.cluster.requests[uid];
      || after == before
      || (a.EditRequest? && OthersMayEdit(before, after))
      || (MovedTo(s, a, after) && a.read == before)
  }

  lemma LiveSucceeds(s: State, a: Action, uid: Uid)
    requires Coherent(s) && Enabled(s, a) && uid in s.cluster.requests
    ensures Succeeds(s, a, uid)
  {
    if a.ReconcileRequest? {
      LiveAfterEffects(s, a.read, a.q, uid);
    }
  }

  lemma LiveAfterEffects(s: State, read: Request, q: Replies, uid: Uid)
    requires Coherent(s) && read in s.seenRequests && uid in s.cluster.requests
    ensures var c := AfterEffects(s, read, q, Run(s.clusterNs, read, q)).cluster;
            uid in c.requests && c.requests[uid] != s.cluster.requests[uid] ==>
              read == s.cluster.requests[uid] && MovedTo(s, ReconcileRequest(read, q), c.requests[uid])
  {
    if TakesWrite(s.cluster, Run(s.clusterNs, read, q).write, q.write) {
      TakenWriteIsCurrent(s, read, q);
      MovesKeepIdentity(read, MoveOf(s.clusterNs, read, q));
    }
  }

  /** An object leaves the store when an edit by others, or a move from it, takes its last finalizer. */
  lemma LeavesByLastFinalizer(s: State, a: Action, uid: Uid)
    requires Coherent(s) && Enabled(s, a) && uid in s.cluster.requests && uid !in Apply(s, a).cluster.requests
    ensures || (a.EditRequest? && a.request.uid == uid && Gone(a.request))
            || (a.ReconcileRequest? && a.read == s.cluster.requests[uid]
                && TakesWrite(s.cluster, Run(s.clusterNs, a.read, a.q).write, a.q.write)
                && Gone(After(a.read, MoveOf(s.clusterNs, a.read, a.q))))
  {
    if a.ReconcileRequest? {
      EffectsRemove(s, a.read, a.q, uid);
    }
  }

  lemma EffectsRemove(s: State, read: Request, q: Replies, uid: Uid)
    requires Coherent(s) && read in s.seenRequests && uid in s.cluster.requests
    requires uid !in AfterEffects(s, read, q, Run(s.clusterNs, read, q)).cluster.requests
    ensures read == s.cluster.requests[uid]
    ensures TakesWrite(s.cluster, Run(s.clusterNs, read, q).write, q.write) && Gone(After(read, MoveOf(s.clusterNs, read, q)))
  {
    if TakesWrite(s.cluster, Run(s.clusterNs, read, q).write, q.write) {
      TakenWriteIsCurrent(s, read, q);
    }
  }

  /** A request that has left the store does not come back, and its old versions stay known. */
  lemma GoneStaysGone(s: State, a: Action, r: Request)
    requires Coherent(s) && Enabled(s, a) && r in s.seenRequests
    ensures r in Apply(s, a).seenRequests
    ensures r.uid !in s.cluster.requests ==> r.uid !in Apply(s, a).cluster.requests
  {
    if a.ReconcileRequest? {
      EffectsForgetNothing(s, a.read, a.q, Run(s.clusterNs, a.read, a.q), r);
    }
  }

  lemma EffectsForgetNothing(s: State, read: Request, q: Replies, e: Effects, r: Request)
    requires Coherent(s) && r in s.seenRequests
    ensures var t := AfterEffects(s, read, q, e);
            r in t.seenRequests && (r.uid !in s.cluster.requests ==> r.uid !in t.cluster.requests)
  {
  }
}
