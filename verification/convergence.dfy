/** Progress: how many undisturbed reconciles bring a request to the end, and exactly when none will. */
module Convergence {
  import opened Options
  import opened Keys
  import opened Model
  import opened RequestStep
  import opened Protocol
  import opened Issuance
  import opened World
  import opened Coherence
  import opened Lifecycle
  import TrustChain

  /** Nothing stands between the reconcile and its body: the Issuer is ready, the lookups succeed, and
      the request is not one to be revoked. */
  predicate Works(r: Request, q: Replies) {
    && r.spec.ours && !r.spec.issuerRef.UnknownKind?
    && q.issuer.Some? && Has(q.issuer.value.conditions, Ready, Yes) && q.secretFound && q.clientBuilt
    && (q.issuer.value.spec.revokeCertificates ==> !r.deleting)
    && DnsPasses(q.issuer.value.spec, q)
  }

  /** Horizon is healthy: it accepts the submission, answers the poll and returns a chain. */
  predicate NoFaults(q: Replies) {
    && q.parent.Some? && q.parent.value.issuing.Some? && q.template.Some? && q.submit.Accepted?
    && q.poll.Polled?
    && (q.poll.status.Completed? ==> Completes(q, q.poll.certificate))
  }

  predicate Final(answer: PollReply) {
    answer.Polled? && (answer.status.Completed? || answer.status.DeniedStatus? || answer.status.Canceled?)
  }

  /** Approved without a certificate: the dead end. */
  predicate IsStuck(r: Request) {
    IsApproved(r) && !IsReady(r)
  }

  // ----- A measure -----

  /** How many reconciles are still to come, once Horizon's answer is fixed. */
  function Stage(r: Request, answer: PollReply): nat {
    if IsTerminal(r) then 0
    else if IsDenied(r) then 1
    else if !IsSubmitted(r) then 3
    else if answer.Polled? && answer.status.Completed? && Issue(r.annotations, answer.certificate) == r.annotations then 1
    else 2
  }

  function Next(ns: string, r: Request, q: Replies): Request {
    After(r, MoveOf(ns, r, q))
  }

  lemma WorkingMove(ns: string, r: Request, q: Replies)
    requires Works(r, q)
    ensures MoveOf(ns, r, q) == if IsTerminal(r) then Idle else MoveOfProcess(r, q.issuer.value.spec, q)
  {
  }

  lemma NextKeepsWorking(ns: string, r: Request, q: Replies, q': Replies)
    requires Works(r, q')
    ensures Works(Next(ns, r, q), q')
  {
    MovesKeepIdentity(r, MoveOf(ns, r, q));
  }

  lemma NextIsSound(ns: string, r: Request, q: Replies)
    requires Sound(r) && !IsStuck(r) && Works(r, q) && NoFaults(q)
    ensures Sound(Next(ns, r, q)) && !IsStuck(Next(ns, r, q))
  {
    MoveIsSound(ns, r, q);
    WorkingMove(ns, r, q);
  }

  /** With a fixed final answer, every reconcile of an open request gets strictly closer to the end. */
  lemma StageDrops(ns: string, r: Request, q: Replies)
    requires Sound(r) && !IsStuck(r) && Works(r, q) && NoFaults(q) && Final(q.poll)
    ensures Stage(Next(ns, r, q), q.poll) < Stage(r, q.poll) || IsTerminal(r)
    ensures IsTerminal(r) ==> Next(ns, r, q) == r
  {
    WorkingMove(ns, r, q);
    var m := MoveOf(ns, r, q);
    if m.Annotate? {
      IssueTwice(r.annotations, m.info);
      IssueAt(r.annotations, m.info, RequestId);
    }
  }

  function Settle(ns: string, r: Request, qs: seq<Replies>): Request
    decreases |qs|
  {
    if qs == [] then r else Settle(ns, Next(ns, r, qs[0]), qs[1..])
  }

  ghost predicate Calm(r: Request, qs: seq<Replies>) {
    forall i :: 0 <= i < |qs| ==> Works(r, qs[i]) && NoFaults(qs[i])
  }

  lemma NextIsCalm(ns: string, r: Request, qs: seq<Replies>)
    requires qs != [] && Calm(r, qs)
    ensures Calm(Next(ns, r, qs[0]), qs[1..])
  {
    forall i | 0 <= i < |qs[1..]|
      ensures Works(Next(ns, r, qs[0]), qs[1..][i]) && NoFaults(qs[1..][i])
    {
      NextKeepsWorking(ns, r, qs[0], qs[i + 1]);
    }
  }

  /** Once Horizon's answer is fixed at completed, denied or canceled, as many reconciles as the stage
      says are enough; three are, from anywhere. */
  lemma {:induction false} TerminalAfterStage(ns: string, r: Request, answer: PollReply, qs: seq<Replies>)
    requires Sound(r) && !IsStuck(r) && Calm(r, qs) && Final(answer)
    requires forall i :: 0 <= i < |qs| ==> qs[i].poll == answer
    requires |qs| >= Stage(r, answer)
    ensures IsTerminal(Settle(ns, r, qs))
    decreases |qs|
  {
    if qs != [] {
      StageDrops(ns, r, qs[0]);
      NextIsSound(ns, r, qs[0]);
      NextIsCalm(ns, r, qs);
      TerminalAfterStage(ns, Next(ns, r, qs[0]), answer, qs[1..]);
    }
  }

  lemma TerminalAfterThree(ns: string, r: Request, answer: PollReply, qs: seq<Replies>)
    requires Sound(r) && !IsStuck(r) && Calm(r, qs) && Final(answer)
    requires |qs| >= 3 && forall i :: 0 <= i < |qs| ==> qs[i].poll == answer
    ensures IsTerminal(Settle(ns, r, qs))
  {
    TerminalAfterStage(ns, r, answer, qs);
  }

  /** The end that a final answer leads to. */
  predicate Heads(r: Request, answer: PollReply)
    requires answer.Polled?
  {
    !IsFailed(r) && if answer.status.Completed? then !IsDenied(r) && !IsMarkedDenied(r) else !IsReady(r)
  }

  lemma NextHeads(ns: string, r: Request, q: Replies)
    requires Sound(r) && !IsStuck(r) && Works(r, q) && NoFaults(q) && Final(q.poll) && Heads(r, q.poll)
    ensures Heads(Next(ns, r, q), q.poll)
  {
    WorkingMove(ns, r, q);
  }

  lemma {:induction false} EndIsAnswer(ns: string, r: Request, answer: PollReply, qs: seq<Replies>)
    requires Sound(r) && !IsStuck(r) && Calm(r, qs) && Final(answer) && Heads(r, answer)
    requires forall i :: 0 <= i < |qs| ==> qs[i].poll == answer
    ensures Heads(Settle(ns, r, qs), answer)
    decreases |qs|
  {
    if qs != [] {
      NextHeads(ns, r, qs[0]);
      NextIsSound(ns, r, qs[0]);
      NextIsCalm(ns, r, qs);
      EndIsAnswer(ns, Next(ns, r, qs[0]), answer, qs[1..]);
    }
  }

  /** An open request ends as Horizon answered: Ready when completed, Denied when denied or canceled. */
  lemma EndMatchesAnswer(ns: string, r: Request, answer: PollReply, qs: seq<Replies>)
    requires Sound(r) && IsOpen(r) && !IsStuck(r) && Calm(r, qs) && Final(answer)
    requires |qs| >= 3 && forall i :: 0 <= i < |qs| ==> qs[i].poll == answer
    ensures IsReady(Settle(ns, r, qs)) <==> answer.status.Completed?
    ensures IsMarkedDenied(Settle(ns, r, qs)) <==> !answer.status.Completed?
  {
    TerminalAfterThree(ns, r, answer, qs);
    EndIsAnswer(ns, r, answer, qs);
  }

  /** Two reconciles are not enough for a new request, whatever Horizon answers. */
  lemma NotBeforeThree(ns: string, r: Request, q: Replies, q': Replies)
    requires Sound(r) && IsOpen(r) && !IsStuck(r) && !IsSubmitted(r) && Works(r, q) && NoFaults(q) && Works(r, q') && NoFaults(q')
    ensures !IsTerminal(Settle(ns, r, [q, q']))
  {
    SettleTwo(ns, r, q, q');
    var r1 := Next(ns, r, q);
    WorkingMove(ns, r, q);
    NextKeepsWorking(ns, r, q, q');
    WorkingMove(ns, r1, q');
    assert IsSubmitted(r1) && CertificateId !in r1.annotations;
    if q'.poll.status.Completed? {
      IssueAt(r1.annotations, q'.poll.certificate, CertificateId);
    }
  }

  lemma SettleTwo(ns: string, r: Request, q: Replies, q': Replies)
    ensures Settle(ns, r, [q, q']) == Next(ns, Next(ns, r, q), q')
  {
    var r1 := Next(ns, r, q);
    assert [q, q'][1..] == [q'] && [q'][1..] == [];
    assert Settle(ns, Next(ns, r1, q'), []) == Next(ns, r1, q');
    assert Settle(ns, r1, [q']) == Settle(ns, Next(ns, r1, q'), []);
  }

  // ----- Answers that still change -----

  function Answers(qs: seq<Replies>): (infos: seq<CertificateInfo>)
    requires forall i :: 0 <= i < |qs| ==> qs[i].poll.Polled?
    ensures |infos| == |qs|
  {
    if qs == [] then [] else [qs[0].poll.certificate] + Answers(qs[1..])
  }

  /** How often an answer differs from the one before it. */
  function Changes(infos: seq<CertificateInfo>): nat {
    if |infos| <= 1 then 0 else (if infos[0] != infos[1] then 1 else 0) + Changes(infos[1..])
  }

  predicate AllCompleted(qs: seq<Replies>) {
    forall i :: 0 <= i < |qs| ==> qs[i].poll.Polled? && qs[i].poll.status.Completed?
  }

  lemma {:induction false} ReadyStays(ns: string, r: Request, qs: seq<Replies>)
    requires IsReady(r) && Calm(r, qs)
    ensures Settle(ns, r, qs) == r
  {
    if qs != [] {
      WorkingMove(ns, r, qs[0]);
      NextIsCalm(ns, r, qs);
      ReadyStays(ns, r, qs[1..]);
    }
  }

  predicate IsPolling(r: Request) {
    Sound(r) && IsOpen(r) && !IsApproved(r) && IsSubmitted(r)
  }

  /** A completed poll certifies if the annotations already say so, and otherwise makes them say so. */
  lemma CompletedPoll(ns: string, r: Request, q: Replies)
    requires IsPolling(r) && Works(r, q) && NoFaults(q) && q.poll.status.Completed?
    ensures var info := q.poll.certificate;
            if Issue(r.annotations, info) == r.annotations then IsReady(Next(ns, r, q))
            else IsPolling(Next(ns, r, q)) && Issue(Next(ns, r, q).annotations, info) == Next(ns, r, q).annotations
  {
    WorkingMove(ns, r, q);
    NextIsSound(ns, r, q);
    IssueTwice(r.annotations, q.poll.certificate);
    IssueAt(r.annotations, q.poll.certificate, RequestId);
  }

  lemma {:induction false} ReadyAfterSettled(ns: string, r: Request, info: CertificateInfo, qs: seq<Replies>)
    requires IsPolling(r) && Calm(r, qs) && AllCompleted(qs) && Issue(r.annotations, info) == r.annotations
    requires |qs| >= 1 + Changes([info] + Answers(qs))
    ensures IsReady(Settle(ns, r, qs))
    decreases |qs|
  {
    var q, next := qs[0], Next(ns, r, qs[0]);
    var rest := qs[1..];
    CompletedPoll(ns, r, q);
    NextIsCalm(ns, r, qs);
    if IsReady(next) {
      ReadyStays(ns, next, rest);
    } else {
      assert ([info] + Answers(qs))[1..] == [q.poll.certificate] + Answers(rest);
      ReadyAfterSettled(ns, next, q.poll.certificate, rest);
    }
  }

  /** After Horizon has completed a request, its certificate is stored after at most two reconciles
      plus one for every time Horizon changes what it returns. */
  lemma ReadyAfterChanges(ns: string, r: Request, qs: seq<Replies>)
    requires IsPolling(r) && Calm(r, qs) && AllCompleted(qs)
    requires |qs| >= 2 + Changes(Answers(qs))
    ensures IsReady(Settle(ns, r, qs))
  {
    var q, next, rest := qs[0], Next(ns, r, qs[0]), qs[1..];
    CompletedPoll(ns, r, q);
    NextIsCalm(ns, r, qs);
    if IsReady(next) {
      ReadyStays(ns, next, rest);
    } else {
      ReadyAfterSettled(ns, next, q.poll.certificate, rest);
    }
  }

  // ----- The dead end -----

  /** A completed poll leads to the dead end exactly when the chain is not fetched, or is empty. With
      `HistoryIsMonotone`, no later reconcile of any run gets out of it. */
  lemma StuckExactly(ns: string, r: Request, q: Replies)
    requires IsPolling(r) && Works(r, q) && q.poll.Polled? && q.poll.status.Completed?
    ensures IsStuck(Next(ns, r, q)) <==> q.chain.FetchFailed? || TrustChain.Chain(q.chain.certs) == ""
  {
    WorkingMove(ns, r, q);
  }

  /** In terms of what Horizon returned: no certificate at all, or a lone one that is self-signed or
      has no text, is a dead end even though Horizon completed the request. */
  lemma StuckOnLoneRoot(ns: string, r: Request, q: Replies)
    requires IsPolling(r) && Works(r, q) && q.poll.Polled? && q.poll.status.Completed? && q.chain.Fetched?
    ensures IsStuck(Next(ns, r, q)) <==>
              q.chain.certs == [] || (|q.chain.certs| == 1 && (q.chain.certs[0].selfSigned || q.chain.certs[0].pem == ""))
  {
    StuckExactly(ns, r, q);
    TrustChain.ChainEmptyExactly(q.chain.certs);
  }

  /** While Horizon has not decided, a poll stores nothing new and asks to come back. */
  lemma PendingChangesNothing(ns: string, r: Request, q: Replies)
    requires IsPolling(r) && Works(r, q) && q.poll.Polled? && (q.poll.status.PendingStatus? || q.poll.status.ApprovedStatus?)
    ensures Run(ns, r, q).ending == Requeue && Merged(r, Run(ns, r, q).write) == r
  {
    WorkingMove(ns, r, q);
    ReconcileMakesMove(ns, r, q);
  }

  // ----- The same, in the store -----

  lemma VersionDoesNotMatter(ns: string, r: Request, q: Replies, v: nat)
    ensures Next(ns, r.(version := v), q) == Next(ns, r, q).(version := v)
  {
    var r' := r.(version := v);
    EntersAlike(ns, r, q, v);
    var m := MoveOf(ns, r, q);
    assert MoveOf(ns, r', q) == m;
    if m.Idle? || m.Revoke? || m.Register? || m.Annotate? {
      MetadataAfterAlike(r, m, v);
    } else {
      StatusAfterAlike(r, m, v);
    }
  }

  lemma EntersAlike(ns: string, r: Request, q: Replies, v: nat)
    ensures MoveOf(ns, r.(version := v), q) == MoveOf(ns, r, q)
  {
  }

  lemma MetadataAfterAlike(r: Request, m: Move, v: nat)
    requires m.Idle? || m.Revoke? || m.Register? || m.Annotate?
    ensures After(r.(version := v), m) == After(r, m).(version := v)
  {
  }

  lemma MarkErrorAlike(r: Request, text: string, at: nat, v: nat)
    ensures MarkError(r.(version := v), text, at) == MarkError(r, text, at).(version := v)
  {
  }

  lemma StatusAfterAlike(r: Request, m: Move, v: nat)
    requires !(m.Idle? || m.Revoke? || m.Register? || m.Annotate?)
    ensures After(r.(version := v), m) == After(r, m).(version := v)
  {
    match m
    case ApproveUnfetched(error, at) => MarkErrorAlike(Approving(r), error, at, v);
    case Fail(error, at) => MarkErrorAlike(HandleFailed(r, error), error, at, v);
    case Retry(error, at) => MarkErrorAlike(r, error, at, v);
    case _ =>
  }

  /** A step that leaves this request as it is: whatever others do to other objects, and reconciles of
      this one that read an old copy or whose write is lost. */
  ghost predicate Spares(s: State, a: Action, uid: Uid) {
    && Enabled(s, a)
    && uid in s.cluster.requests && uid in Apply(s, a).cluster.requests
    && Apply(s, a).cluster.requests[uid] == s.cluster.requests[uid]
  }

  /** A reconcile of this request from a fresh read, whose write is not lost. */
  ghost predicate Attends(s: State, a: Action, uid: Uid, q: Replies) {
    && uid in s.cluster.requests && a == ReconcileRequest(s.cluster.requests[uid], q)
    && Enabled(s, a) && !q.write.Dropped?
  }

  /** A run in which this request is attended to with these answers, and spared by every other step. */
  ghost predicate Undisturbed(s: State, uid: Uid, actions: seq<Action>, qs: seq<Replies>, t: State)
    decreases |actions|
  {
    if actions == [] then s == t && qs == []
    else
      || (qs != [] && Attends(s, actions[0], uid, qs[0]) && Undisturbed(Apply(s, actions[0]), uid, actions[1..], qs[1..], t))
      || (Spares(s, actions[0], uid) && Undisturbed(Apply(s, actions[0]), uid, actions[1..], qs, t))
  }

  lemma WorkingMoveStays(ns: string, r: Request, q: Replies)
    requires Works(r, q) && !Gone(r)
    ensures !Gone(Next(ns, r, q))
  {
    WorkingMove(ns, r, q);
    MovesKeepIdentity(r, MoveOf(ns, r, q));
    assert r.finalizers <= Next(ns, r, q).finalizers;
  }

  lemma OneUndisturbed(s: State, r: Request, q: Replies)
    requires Coherent(s) && r.uid in s.cluster.requests && s.cluster.requests[r.uid] == r && Works(r, q) && !q.write.Dropped?
    ensures var c := AfterEffects(s, r, q, Run(s.clusterNs, r, q)).cluster;
            r.uid in c.requests && SameContent(c.requests[r.uid], Next(s.clusterNs, r, q))
  {
    var e := Run(s.clusterNs, r, q);
    WriteKeepsIdentity(s.clusterNs, r, q);
    ReconcileMakesMove(s.clusterNs, r, q);
    MovesKeepIdentity(r, MoveOf(s.clusterNs, r, q));
    WorkingMoveStays(s.clusterNs, r, q);
    if TakesWrite(s.cluster, e.write, q.write) {
      TakenWriteIsCurrent(s, r, q);
    }
  }

  lemma CalmAlike(a: Request, b: Request, qs: seq<Replies>)
    requires SameContent(a, b) && Calm(b, qs)
    ensures Calm(a, qs)
  {
    forall i | 0 <= i < |qs|
      ensures Works(a, qs[i]) && NoFaults(qs[i])
    {
      assert Works(b, qs[i]);
    }
  }

  lemma AttendedNext(s: State, uid: Uid, a: Action, qs: seq<Replies>)
    requires Coherent(s) && qs != [] && Attends(s, a, uid, qs[0]) && Calm(s.cluster.requests[uid], qs)
    ensures var m, r := Apply(s, a), s.cluster.requests[uid];
            && Coherent(m) && m.clusterNs == s.clusterNs && uid in m.cluster.requests
            && SameContent(m.cluster.requests[uid], Next(s.clusterNs, r, qs[0]))
            && Calm(m.cluster.requests[uid], qs[1..])
            && SameContent(Settle(s.clusterNs, m.cluster.requests[uid], qs[1..]), Settle(s.clusterNs, r, qs))
  {
    var m, r := Apply(s, a), s.cluster.requests[uid];
    assert r.uid == uid;
    OneUndisturbed(s, r, qs[0]);
    StaysCoherent(s, a);
    NextIsCalm(s.clusterNs, r, qs);
    CalmAlike(m.cluster.requests[uid], Next(s.clusterNs, r, qs[0]), qs[1..]);
    SettleAlike(s.clusterNs, Next(s.clusterNs, r, qs[0]), qs[1..], m.cluster.requests[uid].version);
  }

  /** The stored object of an undisturbed run is the one the calculation above gives. */
  lemma {:induction false} UndisturbedSettles(s: State, uid: Uid, actions: seq<Action>, qs: seq<Replies>, t: State)
    requires Coherent(s) && uid in s.cluster.requests && Calm(s.cluster.requests[uid], qs) && Undisturbed(s, uid, actions, qs, t)
    ensures uid in t.cluster.requests && SameContent(t.cluster.requests[uid], Settle(s.clusterNs, s.cluster.requests[uid], qs))
    decreases |actions|
  {
    if actions != [] {
      var a := actions[0];
      if qs != [] && Attends(s, a, uid, qs[0]) && Undisturbed(Apply(s, a), uid, actions[1..], qs[1..], t) {
        AttendedNext(s, uid, a, qs);
        UndisturbedSettles(Apply(s, a), uid, actions[1..], qs[1..], t);
      } else {
        StaysCoherent(s, a);
        NamespaceStays(s, a);
        UndisturbedSettles(Apply(s, a), uid, actions[1..], qs, t);
      }
    }
  }

  lemma NamespaceStays(s: State, a: Action)
    requires Enabled(s, a)
    ensures Apply(s, a).clusterNs == s.clusterNs
  {
  }

  lemma {:induction false} SettleAlike(ns: string, r: Request, qs: seq<Replies>, v: nat)
    ensures Settle(ns, r.(version := v), qs) == Settle(ns, r, qs).(version := v)
    decreases |qs|
  {
    if qs != [] {
      VersionDoesNotMatter(ns, r, qs[0], v);
      SettleAlike(ns, Next(ns, r, qs[0]), qs[1..], v);
    }
  }

  /** No reconcile that reaches its body gets a request out of the dead end. */
  lemma {:induction false} StuckSettles(ns: string, r: Request, qs: seq<Replies>)
    requires Sound(r) && IsStuck(r) && Calm(r, qs)
    ensures Settle(ns, r, qs) == r && !IsTerminal(r)
  {
    if qs != [] {
      WorkingMove(ns, r, qs[0]);
      NextIsCalm(ns, r, qs);
      StuckSettles(ns, r, qs[1..]);
    }
  }

  /** Bounded convergence in the store: from any reachable state, three undisturbed reconciles with
      one final answer make a request terminal if and only if it is not in the dead end, and an open
      one ends as Horizon answered. */
  lemma ConvergesInStore(ns: string, actions: seq<Action>, uid: Uid, answer: PollReply, more: seq<Action>, qs: seq<Replies>, t: State)
    requires Exec(Initial(ns), actions).Some? && uid in Exec(Initial(ns), actions).value.cluster.requests
    requires var s := Exec(Initial(ns), actions).value;
             Calm(s.cluster.requests[uid], qs) && Undisturbed(s, uid, more, qs, t)
    requires |qs| >= 3 && Final(answer) && forall i :: 0 <= i < |qs| ==> qs[i].poll == answer
    ensures uid in t.cluster.requests
    ensures var r, r' := Exec(Initial(ns), actions).value.cluster.requests[uid], t.cluster.requests[uid];
            && (IsTerminal(r') <==> !IsStuck(r))
            && (IsOpen(r) && !IsStuck(r) ==> if answer.status.Completed? then IsReady(r') else IsMarkedDenied(r'))
  {
    var s := Exec(Initial(ns), actions).value;
    RunIsCoherent(ns, actions);
    EveryVersionIsSound(ns, actions, s.cluster.requests[uid]);
    UndisturbedSettles(s, uid, more, qs, t);
    if IsStuck(s.cluster.requests[uid]) {
      StuckSettles(s.clusterNs, s.cluster.requests[uid], qs);
    } else {
      TerminalAfterThree(s.clusterNs, s.cluster.requests[uid], answer, qs);
      if IsOpen(s.cluster.requests[uid]) {
        EndMatchesAnswer(s.clusterNs, s.cluster.requests[uid], answer, qs);
      }
    }
  }

  /** From any reachable state in which a request was submitted and Horizon has completed it: two
      undisturbed reconciles plus one for every time Horizon changes its answer make it Ready. */
  lemma ReadyInStore(ns: string, actions: seq<Action>, uid: Uid, more: seq<Action>, qs: seq<Replies>, t: State)
    requires Exec(Initial(ns), actions).Some? && uid in Exec(Initial(ns), actions).value.cluster.requests
    requires var s := Exec(Initial(ns), actions).value;
             var r := s.cluster.requests[uid];
             IsOpen(r) && IsSubmitted(r) && !IsStuck(r) && Calm(r, qs) && Undisturbed(s, uid, more, qs, t)
    requires AllCompleted(qs) && |qs| >= 2 + Changes(Answers(qs))
    ensures uid in t.cluster.requests && IsReady(t.cluster.requests[uid])
  {
    var s := Exec(Initial(ns), actions).value;
    StateIsSound(ns, actions);
    assert s.cluster.requests[uid] in s.seenRequests;
    UndisturbedSettles(s, uid, more, qs, t);
    ReadyAfterChanges(s.clusterNs, s.cluster.requests[uid], qs);
  }

  /** And in no run at all, however it goes on, does a request leave the dead end once it is in it. */
  lemma StuckForever(ns: string, actions: seq<Action>, k: nat, uid: Uid)
    requires k <= |actions| && Exec(Initial(ns), actions).Some? && Exec(Initial(ns), actions[..k]).Some?
    requires uid in Exec(Initial(ns), actions[..k]).value.cluster.requests && IsStuck(Exec(Initial(ns), actions[..k]).value.cluster.requests[uid])
    ensures var t := Exec(Initial(ns), actions).value;
            uid in t.cluster.requests ==> IsStuck(t.cluster.requests[uid]) && !IsTerminal(t.cluster.requests[uid])
  {
    HistoryIsMonotone(ns, actions, k, uid);
    StateIsSound(ns, actions);
  }

  // ----- Such runs exist -----

  function Repeat(q: Replies, n: nat): (qs: seq<Replies>)
    ensures |qs| == n && forall i :: 0 <= i < n ==> qs[i] == q
  {
    if n == 0 then [] else [q] + Repeat(q, n - 1)
  }

  lemma ReadableStays(s: State, r: Request, q: Replies)
    requires Coherent(s) && AllSound(s) && r.uid in s.cluster.requests && s.cluster.requests[r.uid] == r
    requires Readable(s, r, q) && Works(r, q) && !q.write.Dropped?
    ensures var t := Apply(s, ReconcileRequest(r, q));
            && r.uid in t.cluster.requests
            && t.cluster.requests[r.uid].uid == r.uid
            && SameContent(t.cluster.requests[r.uid], Next(s.clusterNs, r, q))
            && Readable(t, t.cluster.requests[r.uid], q)
            && Works(t.cluster.requests[r.uid], q)
  {
    var a := ReconcileRequest(r, q);
    OneUndisturbed(s, r, q);
    StepIsLater(s, a, r.uid);
    NextKeepsWorking(s.clusterNs, r, q, q);
    StaysCoherent(s, a);
    AfterEffectsForgets(s, r, q, Run(s.clusterNs, r, q));
  }

  lemma AfterEffectsForgets(s: State, r: Request, q: Replies, e: Effects)
    ensures s.seenCerts <= AfterEffects(s, r, q, e).seenCerts && s.seenIssuers <= AfterEffects(s, r, q, e).seenIssuers
  {
  }

  lemma ExecOneMore(ns: string, actions: seq<Action>, a: Action)
    requires Exec(Initial(ns), actions).Some? && Enabled(Exec(Initial(ns), actions).value, a)
    ensures Exec(Initial(ns), actions + [a]) == Some(Apply(Exec(Initial(ns), actions).value, a))
  {
    assert (actions + [a])[..|actions|] == actions;
  }

  /** Undisturbed steps go on from the run before them. */
  lemma {:induction false} UndisturbedIsRun(ns: string, actions: seq<Action>, s: State, uid: Uid, more: seq<Action>, qs: seq<Replies>, t: State)
    requires Exec(Initial(ns), actions) == Some(s) && Undisturbed(s, uid, more, qs, t)
    ensures Exec(Initial(ns), actions + more) == Some(t)
    decreases |more|
  {
    if more == [] {
      assert actions + more == actions;
    } else {
      var a := more[0];
      ExecOneMore(ns, actions, a);
      assert actions + more == actions + [a] + more[1..];
      if qs != [] && Attends(s, a, uid, qs[0]) && Undisturbed(Apply(s, a), uid, more[1..], qs[1..], t) {
        UndisturbedIsRun(ns, actions + [a], Apply(s, a), uid, more[1..], qs[1..], t);
      } else {
        UndisturbedIsRun(ns, actions + [a], Apply(s, a), uid, more[1..], qs, t);
      }
    }
  }

  lemma UndisturbedFirst(s: State, r: Request, q: Replies, more: seq<Action>, n: nat, t: State)
    requires r.uid in s.cluster.requests && s.cluster.requests[r.uid] == r && Readable(s, r, q) && !q.write.Dropped?
    requires Undisturbed(Apply(s, ReconcileRequest(r, q)), r.uid, more, Repeat(q, n), t)
    ensures Undisturbed(s, r.uid, [ReconcileRequest(r, q)] + more, Repeat(q, n + 1), t)
  {
    var all := [ReconcileRequest(r, q)] + more;
    assert Repeat(q, n + 1)[1..] == Repeat(q, n) && all[1..] == more && all[0] == ReconcileRequest(r, q);
  }

  ghost predicate CanGoOn(ns: string, actions: seq<Action>, s: State, r: Request, q: Replies) {
    && Exec(Initial(ns), actions) == Some(s)
    && r.uid in s.cluster.requests && s.cluster.requests[r.uid] == r && Readable(s, r, q)
    && Works(r, q) && !q.write.Dropped?
  }

  lemma GoesOnOnce(ns: string, actions: seq<Action>, s: State, r: Request, q: Replies) returns (t: State, r': Request)
    requires CanGoOn(ns, actions, s, r, q)
    ensures t == Apply(s, ReconcileRequest(r, q)) && r'.uid == r.uid && SameContent(r', Next(s.clusterNs, r, q))
    ensures CanGoOn(ns, actions + [ReconcileRequest(r, q)], t, r', q)
  {
    StateIsSound(ns, actions);
    ReadableStays(s, r, q);
    ExecOneMore(ns, actions, ReconcileRequest(r, q));
    t := Apply(s, ReconcileRequest(r, q));
    r' := t.cluster.requests[r.uid];
  }

  lemma {:induction false} GoesOn(ns: string, actions: seq<Action>, s: State, r: Request, q: Replies, n: nat) returns (more: seq<Action>, t: State)
    requires CanGoOn(ns, actions, s, r, q)
    ensures Exec(Initial(ns), actions + more) == Some(t) && Undisturbed(s, r.uid, more, Repeat(q, n), t)
    decreases n
  {
    if n == 0 {
      more, t := [], s;
      assert actions + [] == actions;
    } else {
      var a := ReconcileRequest(r, q);
      var s', r' := GoesOnOnce(ns, actions, s, r, q);
      more, t := GoesOn(ns, actions + [a], s', r', q, n - 1);
      UndisturbedFirst(s, r, q, more, n - 1, t);
      assert actions + ([a] + more) == actions + [a] + more;
      more := [a] + more;
    }
  }

  /** From every reachable state, a request that is not in the dead end can be brought to the end: some
      run goes on from there and makes it terminal. */
  lemma TerminalIsReachable(ns: string, actions: seq<Action>, r: Request, q: Replies) returns (more: seq<Action>)
    requires Exec(Initial(ns), actions).Some?
    requires var s := Exec(Initial(ns), actions).value;
             r.uid in s.cluster.requests && s.cluster.requests[r.uid] == r && Readable(s, r, q)
    requires Works(r, q) && NoFaults(q) && Final(q.poll) && !q.write.Dropped? && !IsStuck(r)
    ensures Exec(Initial(ns), actions + more).Some?
    ensures var t := Exec(Initial(ns), actions + more).value;
            && r.uid in t.cluster.requests && t.cluster.requests[r.uid] in t.seenRequests
            && SameContent(t.cluster.requests[r.uid], Settle(Exec(Initial(ns), actions).value.clusterNs, r, Repeat(q, 3)))
            && IsTerminal(t.cluster.requests[r.uid])
            && (IsOpen(r) && q.poll.status.Completed? ==> IsReady(t.cluster.requests[r.uid]))
  {
    var t;
    more, t := GoesOn(ns, actions, Exec(Initial(ns), actions).value, r, q, 3);
    ConvergesInStore(ns, actions, r.uid, q.poll, more, Repeat(q, 3), t);
    RunIsCoherent(ns, actions);
    UndisturbedSettles(Exec(Initial(ns), actions).value, r.uid, more, Repeat(q, 3), t);
    RunIsCoherent(ns, actions + more);
  }
}
