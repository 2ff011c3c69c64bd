/** One reconcile of an Issuer or ClusterIssuer: internal/controller/issuer_controller.go with the
    condition helpers of internal/issuer/util/util.go. */
module IssuerHealth {
  import opened Options
  import opened Model

  /** The answers one reconcile gets: each step may fail, and the status write has a fate. */
  datatype CheckReplies = CheckReplies(secretFound: bool, checkerBuilt: bool, checkPasses: bool, write: Fate, text: string)

  function SetReady(cs: Conditions, status: CondStatus, reason: Reason, message: Message): Conditions {
    cs[Ready := Condition(status, reason, message)]
  }

  predicate IsHealthy(i: IssuerObject) {
    Has(i.conditions, Ready, Yes)
  }

  /** Where this controller looks for the Secret. */
  function SecretOfIssuer(clusterNs: string, i: IssuerObject): SecretRef {
    SecretRef(if i.key.Issuer? then i.key.ns else clusterNs, i.spec.authSecretName)
  }

  /** The reconcile went all the way through a health check, and Horizon answered it. */
  predicate Passes(i: IssuerObject, q: CheckReplies) {
    Ready in i.conditions && q.secretFound && q.checkerBuilt && q.checkPasses
  }

  /** The conditions that the deferred block writes. */
  function Assess(i: IssuerObject, q: CheckReplies): Conditions {
    if Ready !in i.conditions then SetReady(i.conditions, Unknown, FirstSeen, FirstSeenMessage)
    else if !q.secretFound || !q.checkerBuilt || !q.checkPasses then SetReady(i.conditions, No, ErrorReason, Text(q.text))
    else SetReady(i.conditions, Yes, Success, CheckSucceeded)
  }
}
