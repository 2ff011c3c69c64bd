/** The in-memory objects that the controllers mutate, and the client of the API server. */
module Objects {
  import opened Options
  import opened Keys
  import opened Model
  import opened ConditionLists
  import opened RequestStep
  import opened Protocol
  import opened IssuerHealth
  import opened World

  /** A Go map: a mutable object that several variables can share. */
  class AnnotationMap {
    var entries: Annotations

    constructor (entries: Annotations)
      ensures this.entries == entries
    {
      this.entries := entries;
    }

    method Put(k: Key, value: string)
      modifies this
      ensures entries == old(entries)[k := value]
    {
      entries := entries[k := value];
    }
  }

  /** `reflect.DeepEqual` on two annotation maps; a nil map differs from every other one. */
  predicate DeepEqual(a: AnnotationMap?, b: AnnotationMap?)
    reads a, b
  {
    if a == null || b == null then a == b else a.entries == b.entries
  }

  /** A CertificateRequest in memory. Its annotation map may be nil, and then cannot be written. */
  class RequestObject {
    var uid: Uid
    var version: nat
    var spec: RequestSpec
    var annotations: AnnotationMap?
    var finalizers: set<Finalizer>
    var deleting: bool
    var conditions: seq<Entry>
    var certificate: string
    var ca: string
    var failureTime: Option<nat>

    ghost predicate Valid()
      reads this
    {
      Unique(conditions)
    }

    function Annotations(): Annotations
      reads this, annotations
    {
      if annotations == null then map[] else annotations.entries
    }

    function Value(): Request
      reads this, annotations
    {
      Request(uid, version, spec, Annotations(), finalizers, deleting, Status(ToMap(conditions), certificate, ca, failureTime))
    }

    /** A decoded object shares nothing with any other; an absent annotation map is nil. */
    constructor Load(r: Request, es: seq<Entry>)
      requires Unique(es) && ToMap(es) == r.status.conditions
      ensures Valid() && Value() == r && (annotations != null ==> fresh(annotations))
      ensures annotations == null <==> r.annotations == map[]
    {
      uid, version, spec := r.uid, r.version, r.spec;
      finalizers, deleting := r.finalizers, r.deleting;
      conditions, certificate, ca, failureTime := es, r.status.certificate, r.status.ca, r.status.failureTime;
      annotations := null;
      new;
      if r.annotations != map[] {
        annotations := new AnnotationMap(r.annotations);
      }
    }

    /** `DeepCopy`: the copy has a map of its own. */
    method DeepCopy() returns (copy: RequestObject)
      requires Valid()
      ensures fresh(copy) && copy.Valid() && copy.Value() == Value()
      ensures copy.annotations == null <==> annotations == null
      ensures copy.annotations != null ==> fresh(copy.annotations)
    {
      copy := new RequestObject.Load(Value(), conditions);
      if annotations != null && annotations.entries == map[] {
        copy.annotations := new AnnotationMap(map[]);
      }
    }

    method SetCondition(kind: CondKind, status: CondStatus, reason: Reason, message: Message)
      requires Valid()
      modifies this`conditions
      ensures Valid() && Value() == RequestStep.SetCondition(old(Value()), kind, status, reason, message)
    {
      var es := Set(conditions, kind, Condition(status, reason, message));
      conditions := es;
    }

    method Has(kind: CondKind, status: CondStatus, reason: Option<Reason>) returns (b: bool)
      requires Valid()
      ensures b <==> Model.Has(Value().status.conditions, kind, status)
                     && (reason.Some? ==> Value().status.conditions[kind].reason == reason.value)
    {
      b := HasCondition(conditions, kind, status, reason);
    }

    /** Writing an annotation needs the map to exist: the same write to a nil map would panic. */
    method Annotate(k: Key, value: string)
      requires annotations != null
      modifies annotations
      ensures Value() == old(Value()).(annotations := old(Value()).annotations[k := value])
    {
      annotations.Put(k, value);
    }
  }

  /** An Issuer or ClusterIssuer in memory. */
  class InMemoryIssuer {
    const key: IssuerKey
    const version: nat
    const spec: IssuerSpec
    var conditions: seq<Entry>

    ghost predicate Valid()
      reads this
    {
      Unique(conditions)
    }

    function Value(): IssuerObject
      reads this
    {
      IssuerObject(key, version, spec, ToMap(conditions))
    }

    constructor Load(i: IssuerObject, es: seq<Entry>)
      requires Unique(es) && ToMap(es) == i.conditions
      ensures Valid() && Value() == i
    {
      key, version, spec, conditions := i.key, i.version, i.spec, es;
    }

    method SetReadyCondition(status: CondStatus, reason: Reason, message: Message)
      requires Valid()
      modifies this
      ensures Valid()
      ensures Value() == old(Value()).(conditions := IssuerHealth.SetReady(old(Value()).conditions, status, reason, message))
    {
      var es := Set(conditions, Ready, Condition(status, reason, message));
      conditions := es;
    }

    method GetReadyCondition() returns (c: Option<Condition>)
      requires Valid()
      ensures c == At(Value().conditions, Ready)
    {
      c := Find(conditions, Ready);
    }
  }

  /** The API server, behind the client that the controllers use. */
  class ApiServer {
    var cluster: Cluster

    /** `Update`: on success the object becomes what the server stored, which has the old status. */
    method Update(obj: RequestObject, fate: Fate) returns (ok: bool)
      requires obj.Valid()
      modifies this, obj
      ensures cluster == Commit(old(cluster), MetaWrite(old(obj.Value())), fate)
      ensures ok <==> TakesWrite(old(cluster), MetaWrite(old(obj.Value())), fate) && fate.Delivered?
      ensures obj.Valid() && obj.Annotations() == old(obj.Annotations())
      ensures obj.spec == if ok then old(cluster.requests[obj.uid].spec) else old(obj.spec)
    {
      var w := MetaWrite(obj.Value());
      ok := TakesWrite(cluster, w, fate) && fate.Delivered?;
      ghost var before := cluster;
      if TakesWrite(cluster, w, fate) {
        var live := cluster.requests[obj.uid];
        var merged := Merged(live, w);
        if ok {
          Receive(obj, merged);
        }
        cluster := Put(cluster, w.request.uid, merged);
      }
    }

    /** `Status().Update`: on success the object becomes what the server stored, which has the old metadata. */
    method UpdateStatus(obj: RequestObject, fate: Fate) returns (ok: bool)
      requires obj.Valid()
      modifies this, obj
      ensures cluster == Commit(old(cluster), StatusWrite(old(obj.Value())), fate)
      ensures ok <==> TakesWrite(old(cluster), StatusWrite(old(obj.Value())), fate) && fate.Delivered?
      ensures obj.Valid()
      ensures obj.spec == if ok then old(cluster.requests[obj.uid].spec) else old(obj.spec)
      ensures obj.Annotations() == if ok then old(cluster.requests[obj.uid].annotations) else old(obj.Annotations())
    {
      var w := StatusWrite(obj.Value());
      ok := TakesWrite(cluster, w, fate) && fate.Delivered?;
      if TakesWrite(cluster, w, fate) {
        var merged := Merged(cluster.requests[obj.uid], w);
        if ok {
          Receive(obj, merged);
        }
        cluster := Put(cluster, w.request.uid, merged);
      }
    }

    /** The client decodes the server's answer into the caller's object. */
    method Receive(obj: RequestObject, r: Request)
      modifies obj
      ensures obj.Valid() && obj.Value() == r
      ensures obj.annotations != null ==> fresh(obj.annotations)
    {
      var es := Decode(r.status.conditions);
      obj.uid, obj.version, obj.spec := r.uid, r.version, r.spec;
      obj.finalizers, obj.deleting := r.finalizers, r.deleting;
      obj.conditions, obj.certificate, obj.ca, obj.failureTime := es, r.status.certificate, r.status.ca, r.status.failureTime;
      obj.annotations := null;
      if r.annotations != map[] {
        obj.annotations := new AnnotationMap(r.annotations);
      }
    }

    /** `Get`: the server answers with the object that was asked for, if at all. */
    method GetCertificate(key: CertKey, answer: Option<Certificate>) returns (c: Option<Certificate>)
      ensures c == if answer.Some? && answer.value.key == key then answer else None
    {
      c := if answer.Some? && answer.value.key == key then answer else None;
    }

    method GetIssuer(key: IssuerKey, answer: Option<IssuerObject>) returns (i: Option<IssuerObject>)
      ensures i == if answer.Some? && answer.value.key == key then answer else None
    {
      i := if answer.Some? && answer.value.key == key then answer else None;
    }

    method GetIngress(ns: string, name: string, answer: Option<Ingress>) returns (g: Option<Ingress>)
      ensures g == if answer.Some? && answer.value.ns == ns && answer.value.name == name then answer else None
    {
      g := if answer.Some? && answer.value.ns == ns && answer.value.name == name then answer else None;
    }

    /** `Update` of the parent Certificate with a new last-certificate-id; a copy that was not found
        is an empty object, which the server refuses. */
    method UpdateParent(read: Option<Certificate>, annotations: AnnotationMap, id: string, fate: Fate) returns (ok: bool)
      requires annotations.entries == (if read.Some? then read.value.annotations else map[])[LastCertificateId := id]
      requires read.Some? && read.value.key in cluster.certs && cluster.certs[read.value.key].version == read.value.version
               ==> cluster.certs[read.value.key] == read.value
      modifies this
      ensures cluster == CommitParent(old(cluster), read, ParentWrite(id), fate)
      ensures ok <==> TakesParent(old(cluster), read, ParentWrite(id), fate) && fate.Delivered?
    {
      ok := TakesParent(cluster, read, ParentWrite(id), fate) && fate.Delivered?;
      if TakesParent(cluster, read, ParentWrite(id), fate) {
        var key := read.value.key;
        var written := cluster.certs[key].(annotations := annotations.entries);
        var stored := if written == cluster.certs[key] then written else written.(version := cluster.clock);
        cluster := cluster.(certs := cluster.certs[key := stored], clock := cluster.clock + 1);
      }
    }

    /** `Status().Update` of an Issuer. */
    method UpdateIssuerStatus(issuer: InMemoryIssuer, fate: Fate) returns (ok: bool)
      requires issuer.Valid()
      modifies this
      ensures var i := issuer.Value();
              && ok == (TakesIssuer(old(cluster), i, fate) && fate.Delivered?)
              && cluster == CommitIssuer(old(cluster), i, i.conditions, fate)
    {
      var i := issuer.Value();
      ok := TakesIssuer(cluster, i, fate) && fate.Delivered?;
      if TakesIssuer(cluster, i, fate) {
        var live := cluster.issuers[i.key];
        var written := live.(conditions := i.conditions);
        if written != live {
          written := written.(version := cluster.clock);
        }
        cluster := cluster.(issuers := cluster.issuers[i.key := written], clock := cluster.clock + 1);
      }
    }
  }
}
