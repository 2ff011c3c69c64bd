/** `IssuerReconciler` of internal/controller/issuer_controller.go, as methods that mutate the Issuer
    they read and write its status in a deferred block, proved equal to module IssuerHealth. */
module IssuerController {
  import opened Options
  import opened Model
  import opened Objects
  import opened RequestStep
  import opened World
  import IssuerHealth
  import ConditionLists

  class IssuerReconciler {
    const server: ApiServer
    const clusterNs: string
    var secretRead: Option<SecretRef>   // the Secret that the last health check was built from

    constructor (server: ApiServer, clusterNs: string)
      ensures this.server == server && this.clusterNs == clusterNs
    {
      this.server, this.clusterNs, secretRead := server, clusterNs, None;
    }

    /** The body, up to the deferred block. */
    method Check(issuer: InMemoryIssuer, q: IssuerHealth.CheckReplies) returns (ending: Ending)
      requires issuer.Valid()
      modifies issuer, this`secretRead
      ensures issuer.Valid()
      ensures ending.Error? ==> issuer.Value() == old(issuer.Value()) && ending.text == q.text
      ensures !ending.Error? ==> issuer.Value() == old(issuer.Value()).(conditions := IssuerHealth.Assess(old(issuer.Value()), q))
      ensures ending.Error? <==> Ready in old(issuer.Value()).conditions && !(q.secretFound && q.checkerBuilt && q.checkPasses)
      ensures ending.Requeue? <==> Ready in old(issuer.Value()).conditions && q.secretFound && q.checkerBuilt && q.checkPasses
      ensures !ending.Panic?
      ensures secretRead == if Ready in old(issuer.Value()).conditions && q.secretFound
                            then Some(SecretRef(if issuer.key.Issuer? then issuer.key.ns else clusterNs, issuer.spec.authSecretName)) else None
    {
      secretRead := None;
      var ready := issuer.GetReadyCondition();
      if ready.None? {
        issuer.SetReadyCondition(Unknown, FirstSeen, FirstSeenMessage);
        return Done;
      }
      var ns := match issuer.key { case Issuer(ns, _) => ns case ClusterIssuer(_) => clusterNs };
      if !q.secretFound {
        return Error(q.text);
      }
      secretRead := Some(SecretRef(ns, issuer.spec.authSecretName));
      if !q.checkerBuilt || !q.checkPasses {
        return Error(q.text);
      }
      issuer.SetReadyCondition(Yes, Success, CheckSucceeded);
      ending := Requeue;
    }

    /** The whole reconcile of a copy that was read: the deferred block notes an error on the Issuer and
        always writes the status; a write that fails turns any result into an error. */
    method Reconcile(read: IssuerObject, q: IssuerHealth.CheckReplies) returns (result: Ending)
      modifies server, this`secretRead
      ensures server.cluster == CommitIssuer(old(server.cluster), read, IssuerHealth.Assess(read, q), q.write)
      ensures read.key in old(server.cluster.issuers) && old(server.cluster.issuers)[read.key].version == read.version && !q.write.Dropped?
              ==> read.key in server.cluster.issuers && server.cluster.issuers[read.key].conditions == IssuerHealth.Assess(read, q)
      ensures result.Error? <==>
                || (Ready in read.conditions && !(q.secretFound && q.checkerBuilt && q.checkPasses))
                || !q.write.Delivered?
                || read.key !in old(server.cluster.issuers) || old(server.cluster.issuers)[read.key].version != read.version
      ensures !result.Error? ==> (if Ready in read.conditions then result == Requeue else result == Done)
      ensures Ready in read.conditions && q.secretFound ==>
                secretRead == Some(SecretRef(if read.key.Issuer? then read.key.ns else clusterNs, read.spec.authSecretName))
      ensures !result.Error? ==>
                && read.key in server.cluster.issuers
                && Ready in server.cluster.issuers[read.key].conditions
                && server.cluster.issuers[read.key].conditions[Ready]
                   == if Ready in read.conditions then Condition(Yes, Success, CheckSucceeded) else Condition(Unknown, FirstSeen, FirstSeenMessage)
    {
      var es := ConditionLists.Decode(read.conditions);
      var issuer := new InMemoryIssuer.Load(read, es);
      result := Check(issuer, q);
      if result.Error? {
        issuer.SetReadyCondition(No, ErrorReason, Text(q.text));
      }
      var ok := server.UpdateIssuerStatus(issuer, q.write);
      if !ok {
        result := Error(q.text);
      }
    }
  }
}
