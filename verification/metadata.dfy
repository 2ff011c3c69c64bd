/** The layered metadata of an enrolment: `certificateMetadata` and `ingressFromCertificate` of
    internal/controller/certificaterequest_controller.go, and the annotations that issuance writes
    back (`handleCompletedRequest` of internal/issuer/horizon/issuer.go). */
module Metadata {
  import opened Options
  import opened Keys

  type Annotations = map<Key, string>

  datatype Template = Template(labels: map<string, string>, owner: Option<string>, team: Option<string>, contactEmail: Option<string>)

  const NO_TEMPLATE := Template(map[], None, None, None)

  /** The metadata of an enrolment, as it is passed to the handler, and as it is submitted. */
  datatype Meta = Meta(labels: map<string, string>, owner: Option<string>, team: Option<string>, contactEmail: Option<string>)

  /** What the merge starts from: the annotations of the Certificate and of its Ingress, and the
      templates of the Issuer. */
  datatype Layers = Layers(certificate: Annotations, ingress: Annotations, default: Template, override: Template)

  // ----- The specification: no order, only layers -----

  /** The first layer that has a value: override, Certificate, Ingress, default. */
  function Layered(override: Option<string>, certificate: Option<string>, ingress: Option<string>, default: Option<string>): Option<string> {
    override.Or(certificate).Or(ingress).Or(default)
  }

  function NonEmpty(value: Option<string>): Option<string> {
    if value == Some("") then None else value
  }

  /** The labels among some annotations. */
  function LabelsIn(a: Annotations): map<string, string> {
    map k | k in a && k.Label? :: k.name := a[k]
  }

  function Merge(certificate: Annotations, ingress: Annotations, default: Template, override: Template): (m: Meta)
  {
    Meta(
      default.labels + LabelsIn(ingress) + LabelsIn(certificate) + override.labels,
      NonEmpty(Layered(override.owner, At(certificate, Owner), At(ingress, Owner), default.owner)),
      NonEmpty(Layered(override.team, At(certificate, Team), At(ingress, Team), default.team)),
      NonEmpty(Layered(override.contactEmail, At(certificate, ContactEmail), At(ingress, ContactEmail), default.contactEmail)))
  }

  lemma LabelsInAt(a: Annotations, l: string)
    ensures At(LabelsIn(a), l) == At(a, Label(l))
  {
    if Label(l) in a {
      assert Label(l).name in LabelsIn(a);
    }
  }

  /** Owner, team and contact of the merge are the first value that is present, from the override down
      to the default; there is none exactly if that value is empty or no layer has one. */
  lemma FieldsAreLayered(certificate: Annotations, ingress: Annotations, default: Template, override: Template)
    ensures var v := if override.owner.Some? then override.owner.value
                    else if Owner in certificate then certificate[Owner]
                    else if Owner in ingress then ingress[Owner]
                    else if default.owner.Some? then default.owner.value
                    else "";
            Merge(certificate, ingress, default, override).owner == if v != "" then Some(v) else None
    ensures var v := if override.team.Some? then override.team.value
                    else if Team in certificate then certificate[Team]
                    else if Team in ingress then ingress[Team]
                    else if default.team.Some? then default.team.value
                    else "";
            Merge(certificate, ingress, default, override).team == if v != "" then Some(v) else None
    ensures var v := if override.contactEmail.Some? then override.contactEmail.value
                    else if ContactEmail in certificate then certificate[ContactEmail]
                    else if ContactEmail in ingress then ingress[ContactEmail]
                    else if default.contactEmail.Some? then default.contactEmail.value
                    else "";
            Merge(certificate, ingress, default, override).contactEmail == if v != "" then Some(v) else None
  {
  }

  /** Every label of the merge comes from the highest layer that sets it, and from nowhere else. */
  lemma LabelsAreLayered(certificate: Annotations, ingress: Annotations, default: Template, override: Template, l: string)
    ensures var labels := Merge(certificate, ingress, default, override).labels;
            && (l in override.labels ==> l in labels && labels[l] == override.labels[l])
            && (l !in override.labels && Label(l) in certificate ==> l in labels && labels[l] == certificate[Label(l)])
            && (l !in override.labels && Label(l) !in certificate && Label(l) in ingress ==> l in labels && labels[l] == ingress[Label(l)])
            && (l !in override.labels && Label(l) !in certificate && Label(l) !in ingress ==>
                  (l in labels <==> l in default.labels) && (l in labels ==> labels[l] == default.labels[l]))
  {
    LabelsInAt(certificate, l);
    LabelsInAt(ingress, l);
  }

  /** Every label of the merge comes from the highest layer that sets it, and from nowhere else. */
  lemma MergeIsLayered(certificate: Annotations, ingress: Annotations, default: Template, override: Template, l: string)
    ensures At(Merge(certificate, ingress, default, override).labels, l)
            == Layered(At(override.labels, l), At(certificate, Label(l)), At(ingress, Label(l)), At(default.labels, l))
  {
    LabelsInAt(certificate, l);
    LabelsInAt(ingress, l);
  }

  // ----- The loops of the controller -----

  /** An owner reference; `ingress` when its API version is networking.k8s.io/v1 and its kind Ingress. */
  datatype OwnerRef = OwnerRef(ingress: bool, name: string)

  function LastIngress(refs: seq<OwnerRef>): Option<string> {
    if refs == [] then None
    else if refs[|refs| - 1].ingress then Some(refs[|refs| - 1].name)
    else LastIngress(refs[..|refs| - 1])
  }

  /** The owning Ingress is the last one listed, and there is one unless none is listed. */
  lemma {:induction false} LastIngressIsLast(refs: seq<OwnerRef>)
    ensures LastIngress(refs).None? <==> forall i :: 0 <= i < |refs| ==> !refs[i].ingress
    ensures LastIngress(refs).Some? ==>
              exists i :: 0 <= i < |refs| && refs[i].ingress && LastIngress(refs) == Some(refs[i].name)
                          && forall j :: i < j < |refs| ==> !refs[j].ingress
  {
    if refs != [] && !refs[|refs| - 1].ingress {
      var front := refs[..|refs| - 1];
      LastIngressIsLast(front);
      if LastIngress(front).Some? {
        var i :| 0 <= i < |front| && front[i].ingress && LastIngress(front) == Some(front[i].name)
                 && forall j :: i < j < |front| ==> !front[j].ingress;
        assert refs[i] == front[i];
        assert forall j :: i < j < |refs| ==> j == |front| || refs[j] == front[j];
      } else {
        assert forall i :: 0 <= i < |refs| ==> i == |front| || refs[i] == front[i];
      }
    }
  }

  method IngressName(refs: seq<OwnerRef>) returns (name: Option<string>)
    ensures name == LastIngress(refs)
  {
    name := None;
    for i := 0 to |refs|
      invariant name == LastIngress(refs[..i])
    {
      if refs[i].ingress {
        name := Some(refs[i].name);
      }
      assert refs[..i + 1][..i] == refs[..i];
    }
    assert refs[..|refs|] == refs;
  }

  /** Writes the entries of one map over another's, in any order. */
  method Overwrite<K(==), V>(base: map<K, V>, over: map<K, V>) returns (m: map<K, V>)
    ensures m == base + over
  {
    m := base;
    var todo := over.Keys;
    while todo != {}
      invariant todo <= over.Keys
      invariant m == base + (map k | k in over && k !in todo :: over[k])
    {
      var k :| k in todo;
      m := m[k := over[k]];
      todo := todo - {k};
    }
    assert (map k | k in over && k !in todo :: over[k]) == over;
  }

  function Restrict(a: Annotations, keys: set<Key>): Annotations {
    map k | k in a && k in keys :: a[k]
  }

  lemma LabelsInStep(a: Annotations, done: set<Key>, k: Key)
    requires k in a && k !in done
    ensures LabelsIn(Restrict(a, done + {k}))
            == if k.Label? then LabelsIn(Restrict(a, done))[k.name := a[k]] else LabelsIn(Restrict(a, done))
  {
    var was, now := LabelsIn(Restrict(a, done)), LabelsIn(Restrict(a, done + {k}));
    forall l: string
      ensures At(now, l) == At(if k.Label? then was[k.name := a[k]] else was, l)
    {
      LabelsInAt(Restrict(a, done), l);
      LabelsInAt(Restrict(a, done + {k}), l);
    }
    SameMap(now, if k.Label? then was[k.name := a[k]] else was);
  }

  lemma SameMap(m: map<string, string>, n: map<string, string>)
    requires forall l :: At(m, l) == At(n, l)
    ensures m == n
  {
    forall l | l in m || l in n
      ensures l in m && l in n && m[l] == n[l]
    {
      assert At(m, l) == At(n, l);
    }
  }

  /** The controller's variables while it goes through the layers. */
  datatype Draft = Draft(labels: map<string, string>, owner: string, team: string, contactEmail: string)

  /** What a draft becomes when some annotations override it. */
  function Annotated(d: Draft, a: Annotations): Draft {
    Draft(d.labels + LabelsIn(a), At(a, Owner).GetOr(d.owner), At(a, Team).GetOr(d.team), At(a, ContactEmail).GetOr(d.contactEmail))
  }

  function Overridden(d: Draft, t: Template): Draft {
    Draft(d.labels + t.labels, t.owner.GetOr(d.owner), t.team.GetOr(d.team), t.contactEmail.GetOr(d.contactEmail))
  }

  function Pick(d: Draft, k: Key, value: string): Draft {
    match k
    case Owner => d.(owner := value)
    case Team => d.(team := value)
    case ContactEmail => d.(contactEmail := value)
    case Label(name) => d.(labels := d.labels[name := value])
    case _ => d
  }

  lemma RestrictStep(a: Annotations, done: set<Key>, k: Key, j: Key)
    requires k in a
    ensures At(Restrict(a, done + {k}), j) == if j == k then Some(a[k]) else At(Restrict(a, done), j)
  {
  }

  lemma FieldsStep(d: Draft, a: Annotations, done: set<Key>, k: Key)
    requires k in a
    ensures var before, after := Annotated(d, Restrict(a, done)), Annotated(d, Restrict(a, done + {k}));
            && after.owner == (if k.Owner? then a[k] else before.owner)
            && after.team == (if k.Team? then a[k] else before.team)
            && after.contactEmail == (if k.ContactEmail? then a[k] else before.contactEmail)
  {
    RestrictStep(a, done, k, Owner);
    RestrictStep(a, done, k, Team);
    RestrictStep(a, done, k, ContactEmail);
  }

  lemma LabelsStep(d: Draft, a: Annotations, done: set<Key>, k: Key)
    requires k in a && k !in done
    ensures var before, after := Annotated(d, Restrict(a, done)), Annotated(d, Restrict(a, done + {k}));
            after.labels == if k.Label? then before.labels[k.name := a[k]] else before.labels
  {
    LabelsInStep(a, done, k);
    if k.Label? {
      UnionUpdate(d.labels, LabelsIn(Restrict(a, done)), k.name, a[k]);
    }
  }

  lemma UnionUpdate(m: map<string, string>, n: map<string, string>, l: string, value: string)
    ensures m + n[l := value] == (m + n)[l := value]
  {
  }

  /** One annotation more changes exactly the field or the label it is for. */
  lemma AnnotatedStep(d: Draft, a: Annotations, done: set<Key>, k: Key)
    requires k in a && k !in done
    ensures Annotated(d, Restrict(a, done + {k})) == Pick(Annotated(d, Restrict(a, done)), k, a[k])
  {
    FieldsStep(d, a, done, k);
    LabelsStep(d, a, done, k);
    PickFields(Annotated(d, Restrict(a, done)), k, a[k]);
  }

  lemma PickFields(d: Draft, k: Key, value: string)
    ensures Pick(d, k, value)
            == Draft(if k.Label? then d.labels[k.name := value] else d.labels, if k.Owner? then value else d.owner,
                     if k.Team? then value else d.team, if k.ContactEmail? then value else d.contactEmail)
  {
  }

  /** One pass over the annotations, in any order, sorting them by their key. */
  method ReadAnnotations(a: Annotations, d: Draft) returns (r: Draft)
    ensures r == Annotated(d, a)
  {
    r := d;
    var todo, done := a.Keys, {};
    AnnotatedWithNothing(d, a);
    while todo != {}
      invariant todo + done == a.Keys && todo !! done
      invariant r == Annotated(d, Restrict(a, done))
      decreases todo
    {
      var k :| k in todo;
      AnnotatedStep(d, a, done, k);
      r := ReadAnnotation(r, k, a[k]);
      todo, done := todo - {k}, done + {k};
    }
    assert Restrict(a, done) == a;
  }

  lemma AnnotatedWithNothing(d: Draft, a: Annotations)
    ensures Annotated(d, Restrict(a, {})) == d
  {
    assert Restrict(a, {}) == map[];
    assert LabelsIn(map[]) == map[];
  }

  method ReadAnnotation(d: Draft, k: Key, value: string) returns (r: Draft)
    ensures r == Pick(d, k, value)
  {
    r := d;
    match k {
      case Owner => r := r.(owner := value);
      case Team => r := r.(team := value);
      case ContactEmail => r := r.(contactEmail := value);
      case Label(name) => r := r.(labels := r.labels[name := value]);
      case _ =>
    }
  }

  /** A list of label elements that holds each label of a map once, with its own value. */
  predicate Lists(elements: seq<(string, string)>, labels: map<string, string>) {
    && (forall i, j :: 0 <= i < j < |elements| ==> elements[i].0 != elements[j].0)
    && (forall i :: 0 <= i < |elements| ==> elements[i].0 in labels && labels[elements[i].0] == elements[i].1)
    && (forall l :: l in labels ==> (l, labels[l]) in elements)
  }

  method LabelElements(labels: map<string, string>) returns (elements: seq<(string, string)>)
    ensures Lists(elements, labels)
  {
    elements := [];
    var todo := labels.Keys;
    while todo != {}
      invariant todo <= labels.Keys
      invariant forall i :: 0 <= i < |elements| ==>
                  elements[i].0 in labels && elements[i].0 !in todo && labels[elements[i].0] == elements[i].1
      invariant forall i, j :: 0 <= i < j < |elements| ==> elements[i].0 != elements[j].0
      invariant forall l :: l in labels && l !in todo ==> (l, labels[l]) in elements
    {
      var l :| l in todo;
      elements := elements + [(l, labels[l])];
      todo := todo - {l};
    }
  }

  function OrDefault(t: Option<Template>): Template {
    t.GetOr(NO_TEMPLATE)
  }

  // ----- What reaches Horizon -----

  /** Label elements as Horizon reads them. */
  function LabelMap(elements: seq<(string, string)>): map<string, string> {
    if elements == [] then map[]
    else
      var last := elements[|elements| - 1];
      LabelMap(elements[..|elements| - 1])[last.0 := last.1]
  }

  lemma {:induction false} LabelMapKeys(elements: seq<(string, string)>, l: string)
    ensures l in LabelMap(elements) <==> exists i :: 0 <= i < |elements| && elements[i].0 == l
    ensures l in LabelMap(elements) ==> (l, LabelMap(elements)[l]) in elements
  {
    if elements != [] {
      LabelMapKeys(elements[..|elements| - 1], l);
    }
  }

  /** A list that holds each label once is read as those labels. */
  lemma LabelMapOfList(elements: seq<(string, string)>, labels: map<string, string>)
    requires Lists(elements, labels)
    ensures LabelMap(elements) == labels
  {
    forall l: string
      ensures At(LabelMap(elements), l) == At(labels, l)
    {
      LabelMapKeys(elements, l);
      if l in labels {
        assert (l, labels[l]) in elements;
      }
    }
    SameMap(LabelMap(elements), labels);
  }

  /** What is submitted: an absent owner, team or contact leaves the one that Horizon's template has,
      and the labels of the template are not merged. */
  function Sent(args: Meta, template: Meta): Meta {
    Meta(args.labels, args.owner.Or(template.owner), args.team.Or(template.team), args.contactEmail.Or(template.contactEmail))
  }

  const NOTHING := Meta(map[], None, None, None)

  /** The metadata of an enrolment; after a failed read there is none. */
  function MergeOf(layers: Option<Layers>): Meta {
    match layers
    case None => NOTHING
    case Some(l) => Merge(l.certificate, l.ingress, l.default, l.override)
  }

  const BLANK := Draft(map[], "", "", "")

  /** An empty value is sent as an absent one. */
  function Finish(d: Draft): Meta {
    Meta(d.labels, NonEmpty(Some(d.owner)), NonEmpty(Some(d.team)), NonEmpty(Some(d.contactEmail)))
  }

  /** The same for templates and an Ingress that may be absent. */
  lemma FieldsOfTemplates(certificate: Annotations, ingress: Option<Annotations>, default: Option<Template>, override: Option<Template>, m: Meta)
    requires m == Merge(certificate, ingress.GetOr(map[]), OrDefault(default), OrDefault(override))
    ensures var v := if override.Some? && override.value.owner.Some? then override.value.owner.value
                     else if Owner in certificate then certificate[Owner]
                     else if ingress.Some? && Owner in ingress.value then ingress.value[Owner]
                     else if default.Some? && default.value.owner.Some? then default.value.owner.value
                     else "";
            m.owner == if v != "" then Some(v) else None
    ensures var v := if override.Some? && override.value.team.Some? then override.value.team.value
                     else if Team in certificate then certificate[Team]
                     else if ingress.Some? && Team in ingress.value then ingress.value[Team]
                     else if default.Some? && default.value.team.Some? then default.value.team.value
                     else "";
            m.team == if v != "" then Some(v) else None
    ensures var v := if override.Some? && override.value.contactEmail.Some? then override.value.contactEmail.value
                     else if ContactEmail in certificate then certificate[ContactEmail]
                     else if ingress.Some? && ContactEmail in ingress.value then ingress.value[ContactEmail]
                     else if default.Some? && default.value.contactEmail.Some? then default.value.contactEmail.value
                     else "";
            m.contactEmail == if v != "" then Some(v) else None
  {
    FieldsAreLayered(certificate, ingress.GetOr(map[]), OrDefault(default), OrDefault(override));
  }

  /** The first half of `certificateMetadata`: the layers, from the lowest to the highest. */
  method CollectLayers(certificate: Annotations, ingress: Option<Annotations>, default: Option<Template>, override: Option<Template>) returns (d: Draft)
    ensures Finish(d) == Merge(certificate, ingress.GetOr(map[]), OrDefault(default), OrDefault(override))
  {
    d := BLANK;
    if default.Some? {
      d := ApplyTemplate(d, default.value);
    }
    NoTemplateChangesNothing(BLANK);
    var annotations := CollectAnnotations(certificate, ingress);
    d := ReadAnnotations(annotations, d);
    NoTemplateChangesNothing(d);
    if override.Some? {
      d := ApplyTemplate(d, override.value);
    }
    PipelineIsMerge(certificate, ingress.GetOr(map[]), OrDefault(default), OrDefault(override));
  }

  /** The second half: the label elements, and an absent value for an empty one. */
  method Convert(d: Draft) returns (elements: seq<(string, string)>, owner: Option<string>, team: Option<string>, contactEmail: Option<string>)
    ensures Lists(elements, d.labels)
    ensures forall i, j :: 0 <= i < j < |elements| ==> elements[i].0 != elements[j].0
    ensures Meta(d.labels, owner, team, contactEmail) == Finish(d)
  {
    elements := LabelElements(d.labels);
    owner := if d.owner != "" then Some(d.owner) else None;
    team := if d.team != "" then Some(d.team) else None;
    contactEmail := if d.contactEmail != "" then Some(d.contactEmail) else None;
  }

  method CertificateMetadata(certificate: Annotations, ingress: Option<Annotations>, default: Option<Template>, override: Option<Template>)
    returns (elements: seq<(string, string)>, owner: Option<string>, team: Option<string>, contactEmail: Option<string>)
    ensures var m := Merge(certificate, ingress.GetOr(map[]), OrDefault(default), OrDefault(override));
            Lists(elements, m.labels) && owner == m.owner && team == m.team && contactEmail == m.contactEmail
    ensures forall i, j :: 0 <= i < j < |elements| ==> elements[i].0 != elements[j].0
    ensures var v := if override.Some? && override.value.owner.Some? then override.value.owner.value
                     else if Owner in certificate then certificate[Owner]
                     else if ingress.Some? && Owner in ingress.value then ingress.value[Owner]
                     else if default.Some? && default.value.owner.Some? then default.value.owner.value
                     else "";
            owner == if v != "" then Some(v) else None
    ensures var v := if override.Some? && override.value.team.Some? then override.value.team.value
                     else if Team in certificate then certificate[Team]
                     else if ingress.Some? && Team in ingress.value then ingress.value[Team]
                     else if default.Some? && default.value.team.Some? then default.value.team.value
                     else "";
            team == if v != "" then Some(v) else None
    ensures var v := if override.Some? && override.value.contactEmail.Some? then override.value.contactEmail.value
                     else if ContactEmail in certificate then certificate[ContactEmail]
                     else if ingress.Some? && ContactEmail in ingress.value then ingress.value[ContactEmail]
                     else if default.Some? && default.value.contactEmail.Some? then default.value.contactEmail.value
                     else "";
            contactEmail == if v != "" then Some(v) else None
  {
    var d := CollectLayers(certificate, ingress, default, override);
    elements, owner, team, contactEmail := Convert(d);
    FieldsOfTemplates(certificate, ingress, default, override, Finish(d));
  }

  lemma NoTemplateChangesNothing(d: Draft)
    ensures Overridden(d, NO_TEMPLATE) == d
  {
    assert d.labels + map[] == d.labels;
  }

  /** The Ingress first, then the Certificate over it. */
  method CollectAnnotations(certificate: Annotations, ingress: Option<Annotations>) returns (a: Annotations)
    ensures a == ingress.GetOr(map[]) + certificate
  {
    a := map[];
    if ingress.Some? {
      a := Overwrite(a, ingress.value);
    }
    assert a == ingress.GetOr(map[]);
    a := Overwrite(a, certificate);
  }

  /** Both templates are applied in the same way, one below the annotations and one above them. */
  method ApplyTemplate(d: Draft, t: Template) returns (r: Draft)
    ensures r == Overridden(d, t)
  {
    r := d;
    if t.owner.Some? {
      r := r.(owner := t.owner.value);
    }
    if t.team.Some? {
      r := r.(team := t.team.value);
    }
    if t.contactEmail.Some? {
      r := r.(contactEmail := t.contactEmail.value);
    }
    var labels := Overwrite(r.labels, t.labels);
    r := r.(labels := labels);
  }

  /** Going through the layers in the controller's order gives the merge. */
  lemma PipelineIsMerge(certificate: Annotations, ingress: Annotations, default: Template, override: Template)
    ensures Merge(certificate, ingress, default, override)
            == Finish(Overridden(Annotated(Overridden(BLANK, default), ingress + certificate), override))
  {
    LabelsInOrder(certificate, ingress, default, override);
    AtUnion(ingress, certificate, Owner);
    AtUnion(ingress, certificate, Team);
    AtUnion(ingress, certificate, ContactEmail);
    LayersInOrder(override.owner, At(certificate, Owner), At(ingress, Owner), default.owner);
    LayersInOrder(override.team, At(certificate, Team), At(ingress, Team), default.team);
    LayersInOrder(override.contactEmail, At(certificate, ContactEmail), At(ingress, ContactEmail), default.contactEmail);
  }

  lemma AtUnion(a: Annotations, b: Annotations, k: Key)
    ensures At(a + b, k) == At(b, k).Or(At(a, k))
  {
  }

  lemma LabelsInOrder(certificate: Annotations, ingress: Annotations, default: Template, override: Template)
    ensures Merge(certificate, ingress, default, override).labels
            == Overridden(Annotated(Overridden(BLANK, default), ingress + certificate), override).labels
  {
    LabelsOfUnion(ingress, certificate);
    UnionIsAssociative(default.labels, LabelsIn(ingress), LabelsIn(certificate));
    OverBlank(default);
  }

  lemma OverBlank(t: Template)
    ensures Overridden(BLANK, t).labels == t.labels
  {
    assert map[] + t.labels == t.labels;
  }

  lemma UnionIsAssociative(a: map<string, string>, b: map<string, string>, c: map<string, string>)
    ensures a + (b + c) == a + b + c
  {
  }

  /** Overwriting from the lowest layer upwards ends with the highest layer that has a value. */
  lemma LayersInOrder(override: Option<string>, certificate: Option<string>, ingress: Option<string>, default: Option<string>)
    ensures var v := override.GetOr(certificate.Or(ingress).GetOr(default.GetOr("")));
            NonEmpty(Layered(override, certificate, ingress, default)) == if v != "" then Some(v) else None
  {
  }

  lemma LabelsOfUnion(a: Annotations, b: Annotations)
    ensures LabelsIn(a + b) == LabelsIn(a) + LabelsIn(b)
  {
    forall l: string
      ensures At(LabelsIn(a + b), l) == At(LabelsIn(a) + LabelsIn(b), l)
    {
      LabelsInAt(a + b, l);
      LabelsInAt(a, l);
      LabelsInAt(b, l);
    }
    SameMap(LabelsIn(a + b), LabelsIn(a) + LabelsIn(b));
  }
}
