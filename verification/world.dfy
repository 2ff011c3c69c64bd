/** The API server, the two controllers and their environment as one transition system.

    A state holds the live objects, every version of them that was ever stored (a read may return
    any of these: caches lag), and the log of what the controllers did. An action carries everything
    that is not determined by the state, so a run is a sequence of actions. */
module World {
  import opened Options
  import opened Keys
  import opened Model
  import opened RequestStep
  import opened Protocol
  import opened IssuerHealth

  // ----- The API server -----

  /** `clock` is the next resource version; versions are never used twice. */
  datatype Cluster = Cluster(
    requests: map<Uid, Request>,
    certs: map<CertKey, Certificate>,
    issuers: map<IssuerKey, IssuerObject>,
    clock: nat)

  /** A write that changes nothing does not make a new version. */
  function Stamp(live: Request, r: Request, version: nat): Request {
    if r == live then live else r.(version := version)
  }

  /** The API server takes a write only from the current version of an object that is still there. */
  predicate Takes(c: Cluster, uid: Uid, version: nat, fate: Fate) {
    uid in c.requests && c.requests[uid].version == version && !fate.Dropped?
  }

  predicate TakesWrite(c: Cluster, w: Write, fate: Fate) {
    !w.NoWrite? && Takes(c, w.request.uid, w.request.version, fate)
  }

  /** An object that is being deleted goes away with its last finalizer. */
  predicate Gone(r: Request) {
    r.deleting && r.finalizers == {}
  }

  function Put(c: Cluster, uid: Uid, r: Request): Cluster
    requires uid in c.requests
  {
    c.(requests := if Gone(r) then c.requests - {uid} else c.requests[uid := Stamp(c.requests[uid], r, c.clock)],
       clock := c.clock + 1)
  }

  function Commit(c: Cluster, w: Write, fate: Fate): Cluster {
    if TakesWrite(c, w, fate) then Put(c, w.request.uid, Merged(c.requests[w.request.uid], w)) else c
  }

  /** The copy of the parent that the deferred block updates; a failed read leaves an empty object,
      which no API server accepts. */
  predicate TakesParent(c: Cluster, read: Option<Certificate>, w: ParentWrite, fate: Fate) {
    && w.ParentWrite?
    && read.Some?
    && read.value.key in c.certs
    && c.certs[read.value.key].version == read.value.version
    && !fate.Dropped?
  }

  function WithLastId(c: Certificate, id: string, version: nat): Certificate {
    var c1 := c.(annotations := c.annotations[LastCertificateId := id]);
    if c1 == c then c else c1.(version := version)
  }

  function CommitParent(c: Cluster, read: Option<Certificate>, w: ParentWrite, fate: Fate): Cluster {
    if TakesParent(c, read, w, fate) then
      var key := read.value.key;
      c.(certs := c.certs[key := WithLastId(c.certs[key], w.id, c.clock)], clock := c.clock + 1)
    else c
  }

  // ----- States and actions -----

  datatype Event =
    | Reconciled(read: Request, q: Replies, effects: Effects, stored: bool, parentStored: bool)
    | Checked(issuer: IssuerObject, check: CheckReplies, secret: SecretRef, stored: bool)

  datatype State = State(
    clusterNs: string,
    cluster: Cluster,
    seenRequests: set<Request>,
    seenCerts: set<Certificate>,
    seenIssuers: set<IssuerObject>,
    log: seq<Event>)

  datatype Action =
    | CreateRequest(request: Request)
    | EditRequest(request: Request)
    | CreateCert(cert: Certificate)
    | EditCert(cert: Certificate)
    | RemoveCert(certKey: CertKey)
    | CreateIssuer(issuer: IssuerObject)
    | EditIssuer(issuer: IssuerObject)
    | RemoveIssuer(issuerKey: IssuerKey)
    | ReconcileRequest(read: Request, q: Replies)
    | ReconcileIssuer(readIssuer: IssuerObject, check: CheckReplies)

  function Initial(clusterNs: string): State {
    State(clusterNs, Cluster(map[], map[], map[], 0), {}, {}, {}, [])
  }

  // ----- The environment -----

  /** A new request: cert-manager may copy the Certificate's annotations to it, but it has not been
      submitted, and the API server drops any status given at creation. */
  predicate NewRequest(r: Request) {
    && RequestId !in r.annotations
    && CertificateId !in r.annotations
    && Ours !in r.finalizers
    && !r.deleting
    && r.status == Status(map[], "", "", None)
  }

  predicate IsMetadata(k: Key) {
    k.Owner? || k.Team? || k.ContactEmail? || k.Label?
  }

  /** The annotations of a request that only the controller changes. */
  predicate Reserved(r: Request, k: Key) {
    k.RequestId? || k.CertificateId? || k.CertificateName? || (IsMetadata(k) && CertificateId in r.annotations)
  }

  predicate SameConditions(before: Conditions, after: Conditions) {
    && At(after, Ready) == At(before, Ready)
    && At(after, Approved) == At(before, Approved)
    && At(after, InvalidRequest) == At(before, InvalidRequest)
  }

  /** Others may edit a request, start deleting it, or deny it while it is not approved. */
  ghost predicate OthersMayEdit(before: Request, after: Request) {
    && after.uid == before.uid
    && after.spec == before.spec
    && (forall k :: Reserved(before, k) ==> At(after.annotations, k) == At(before.annotations, k))
    && (Ours in after.finalizers <==> Ours in before.finalizers)
    && (before.deleting ==> after.deleting)
    && SameConditions(before.status.conditions, after.status.conditions)
    && (|| At(after.status.conditions, Denied) == At(before.status.conditions, Denied)
        || (IsDenied(after) && !IsApproved(before)))
    && after.status == before.status.(conditions := after.status.conditions)
  }

  // ----- Reads -----

  predicate CertReadable(s: State, c: Option<Certificate>) {
    c.Some? ==> c.value in s.seenCerts
  }

  predicate IssuerReadable(s: State, i: Option<IssuerObject>) {
    i.Some? ==> i.value in s.seenIssuers
  }

  /** What a reconcile reads was stored at some time, under the name it asks for. */
  predicate Readable(s: State, r: Request, q: Replies) {
    && r in s.seenRequests && Named(r, q)
    && IssuerReadable(s, q.issuer) && IssuerReadable(s, q.lookups.issuer)
    && CertReadable(s, q.parent) && CertReadable(s, q.parentAgain) && CertReadable(s, q.lookups.parent)
  }

  ghost predicate Enabled(s: State, a: Action) {
    match a
    case CreateRequest(r) => NewRequest(r) && forall r' :: r' in s.seenRequests ==> r'.uid != r.uid
    case EditRequest(r) => r.uid in s.cluster.requests && OthersMayEdit(s.cluster.requests[r.uid], r)
    case CreateCert(c) => c.key !in s.cluster.certs && c.key.name != "" && LastCertificateId !in c.annotations
    case EditCert(c) => c.key in s.cluster.certs && At(c.annotations, LastCertificateId) == At(s.cluster.certs[c.key].annotations, LastCertificateId)
    case RemoveCert(_) => true
    case CreateIssuer(i) => i.key !in s.cluster.issuers && i.conditions == map[]
    case EditIssuer(i) => i.key in s.cluster.issuers && i.conditions == s.cluster.issuers[i.key].conditions
    case RemoveIssuer(_) => true
    case ReconcileRequest(r, q) => Readable(s, r, q)
    case ReconcileIssuer(i, _) => i in s.seenIssuers
  }

  // ----- Steps -----

  function LiveRequests(c: Cluster, uid: Uid): set<Request> {
    if uid in c.requests then {c.requests[uid]} else {}
  }

  function AfterRequestEdit(s: State, r: Request): State
    requires r.uid in s.cluster.requests
  {
    var c := Put(s.cluster, r.uid, r.(version := s.cluster.requests[r.uid].version));
    s.(cluster := c, seenRequests := s.seenRequests + LiveRequests(c, r.uid))
  }

  function AddRequest(s: State, r: Request): State {
    var r1 := r.(version := s.cluster.clock);
    s.(cluster := s.cluster.(requests := s.cluster.requests[r.uid := r1], clock := s.cluster.clock + 1),
       seenRequests := s.seenRequests + {r1})
  }

  function PutCert(s: State, c: Certificate): State {
    var c1 := c.(version := s.cluster.clock);
    s.(cluster := s.cluster.(certs := s.cluster.certs[c.key := c1], clock := s.cluster.clock + 1),
       seenCerts := s.seenCerts + {c1})
  }

  function PutIssuer(s: State, i: IssuerObject): State {
    var i1 := if i.key in s.cluster.issuers && s.cluster.issuers[i.key] == i then i else i.(version := s.cluster.clock);
    s.(cluster := s.cluster.(issuers := s.cluster.issuers[i.key := i1], clock := s.cluster.clock + 1),
       seenIssuers := s.seenIssuers + {i1})
  }

  function AfterEffects(s: State, r: Request, q: Replies, e: Effects): State {
    var stored := TakesWrite(s.cluster, e.write, q.write);
    var c := Commit(s.cluster, e.write, q.write);
    var parentStored := TakesParent(c, q.parentAgain, e.parent, q.parentWrite);
    var d := CommitParent(c, q.parentAgain, e.parent, q.parentWrite);
    s.(cluster := d,
       seenRequests := s.seenRequests + (if stored then LiveRequests(c, r.uid) else {}),
       seenCerts := s.seenCerts + (if parentStored then {d.certs[q.parentAgain.value.key]} else {}),
       log := s.log + [Reconciled(r, q, e, stored, parentStored)])
  }

  predicate TakesIssuer(c: Cluster, i: IssuerObject, fate: Fate) {
    i.key in c.issuers && c.issuers[i.key].version == i.version && !fate.Dropped?
  }

  function CommitIssuer(c: Cluster, i: IssuerObject, conditions: Conditions, fate: Fate): Cluster {
    if TakesIssuer(c, i, fate) then
      var i1 := c.issuers[i.key].(conditions := conditions);
      c.(issuers := c.issuers[i.key := if i1 == c.issuers[i.key] then i1 else i1.(version := c.clock)], clock := c.clock + 1)
    else c
  }

  function AfterCheck(s: State, i: IssuerObject, q: CheckReplies): State {
    var stored := TakesIssuer(s.cluster, i, q.write);
    var c := CommitIssuer(s.cluster, i, Assess(i, q), q.write);
    s.(cluster := c,
       seenIssuers := s.seenIssuers + (if stored then {c.issuers[i.key]} else {}),
       log := s.log + [Checked(i, q, SecretOfIssuer(s.clusterNs, i), stored)])
  }

  ghost function Apply(s: State, a: Action): State
    requires Enabled(s, a)
  {
    match a
    case CreateRequest(r) => AddRequest(s, r)
    case EditRequest(r) => AfterRequestEdit(s, r)
    case CreateCert(c) => PutCert(s, c)
    case EditCert(c) => PutCert(s, c)
    case RemoveCert(key) => s.(cluster := s.cluster.(certs := s.cluster.certs - {key}))
    case CreateIssuer(i) => PutIssuer(s, i)
    case EditIssuer(i) => PutIssuer(s, i)
    case RemoveIssuer(key) => s.(cluster := s.cluster.(issuers := s.cluster.issuers - {key}))
    case ReconcileRequest(r, q) => AfterEffects(s, r, q, Run(s.clusterNs, r, q))
    case ReconcileIssuer(i, q) => AfterCheck(s, i, q)
  }

  // ----- Runs -----

  /** The state a run ends in, if every action of it is possible in its turn. */
  ghost function Exec(s: State, actions: seq<Action>): Option<State> {
    if actions == [] then Some(s)
    else
      var n := |actions| - 1;
      match Exec(s, actions[..n])
      case None => None
      case Some(m) => if Enabled(m, actions[n]) then Some(Apply(m, actions[n])) else None
  }
}
