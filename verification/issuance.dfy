/** The annotations that issuance writes on a request (`handleCompletedRequest` of
    internal/issuer/horizon/issuer.go), and their round trip with the submitted metadata. */
module Issuance {
  import opened Options
  import opened Keys
  import opened Metadata

  /** The metadata of a certificate as Horizon returns it, and the text that names it in a chain request. */
  datatype CertificateInfo = CertificateInfo(id: string, owner: string, team: string, contactEmail: string, labels: seq<(string, string)>, text: string)

  /** The label loop: the last element for a key wins. */
  function WithLabels(a: Annotations, labels: seq<(string, string)>): Annotations {
    if labels == [] then a
    else
      var last := labels[|labels| - 1];
      WithLabels(a, labels[..|labels| - 1])[Label(last.0) := last.1]
  }

  function WithFixed(a: Annotations, c: CertificateInfo): Annotations {
    a[CertificateId := c.id][Owner := c.owner][Team := c.team][ContactEmail := c.contactEmail]
  }

  function Issue(a: Annotations, c: CertificateInfo): Annotations {
    WithLabels(WithFixed(a, c), c.labels)
  }

  function LastValue(labels: seq<(string, string)>, l: string): Option<string> {
    if labels == [] then None
    else if labels[|labels| - 1].0 == l then Some(labels[|labels| - 1].1)
    else LastValue(labels[..|labels| - 1], l)
  }

  /** What Horizon returned for a key, if issuance writes that key at all. */
  function Returned(c: CertificateInfo, k: Key): Option<string> {
    match k
    case CertificateId => Some(c.id)
    case Owner => Some(c.owner)
    case Team => Some(c.team)
    case ContactEmail => Some(c.contactEmail)
    case Label(name) => LastValue(c.labels, name)
    case _ => None
  }

  lemma {:induction false} WithLabelsAt(a: Annotations, labels: seq<(string, string)>, k: Key)
    ensures At(WithLabels(a, labels), k) == (if k.Label? then LastValue(labels, k.name) else None).Or(At(a, k))
  {
    if labels != [] {
      WithLabelsAt(a, labels[..|labels| - 1], k);
    }
  }

  /** Issuance writes exactly what Horizon returned and leaves every other key alone. */
  lemma IssueAt(a: Annotations, c: CertificateInfo, k: Key)
    ensures At(Issue(a, c), k) == Returned(c, k).Or(At(a, k))
  {
    WithLabelsAt(WithFixed(a, c), c.labels, k);
  }

  lemma SameAnnotations(a: Annotations, b: Annotations)
    requires forall k :: At(a, k) == At(b, k)
    ensures a == b
  {
    forall k | k in a || k in b
      ensures k in a && k in b && a[k] == b[k]
    {
      assert At(a, k) == At(b, k);
    }
  }

  /** Issuing twice with the same answer changes nothing the second time. */
  lemma IssueTwice(a: Annotations, c: CertificateInfo)
    ensures Issue(Issue(a, c), c) == Issue(a, c)
  {
    forall k
      ensures At(Issue(Issue(a, c), c), k) == At(Issue(a, c), k)
    {
      IssueAt(Issue(a, c), c, k);
      IssueAt(a, c, k);
    }
    SameAnnotations(Issue(Issue(a, c), c), Issue(a, c));
  }

  /** Annotations that already say what Horizon returned are exactly those issuance does not change. */
  lemma IssueChangesNothing(a: Annotations, c: CertificateInfo)
    ensures Issue(a, c) == a <==> forall k :: Returned(c, k).Some? ==> At(a, k) == Returned(c, k)
  {
    if forall k :: Returned(c, k).Some? ==> At(a, k) == Returned(c, k) {
      forall k
        ensures At(Issue(a, c), k) == At(a, k)
      {
        IssueAt(a, c, k);
      }
      SameAnnotations(Issue(a, c), a);
    } else {
      var k :| Returned(c, k).Some? && At(a, k) != Returned(c, k);
      IssueAt(a, c, k);
    }
  }

  // ----- Round trip -----

  /** Horizon answers with the metadata that was submitted; what was absent it returns as empty. */
  predicate Echoes(c: CertificateInfo, m: Meta) {
    && Lists(c.labels, m.labels)
    && c.owner == m.owner.GetOr("")
    && c.team == m.team.GetOr("")
    && c.contactEmail == m.contactEmail.GetOr("")
  }

  lemma {:induction false} LastValueOf(labels: seq<(string, string)>, l: string)
    ensures LastValue(labels, l).None? <==> forall i :: 0 <= i < |labels| ==> labels[i].0 != l
    ensures LastValue(labels, l).Some? ==> (l, LastValue(labels, l).value) in labels
  {
    if labels != [] {
      LastValueOf(labels[..|labels| - 1], l);
    }
  }

  lemma LastValueOfList(labels: seq<(string, string)>, m: map<string, string>, l: string)
    requires Lists(labels, m)
    ensures LastValue(labels, l) == At(m, l)
  {
    LastValueOf(labels, l);
    if l in m {
      assert (l, m[l]) in labels;
    }
  }

  /** The labels written on the request are exactly the merged ones, unless the request already
      carried a label that the merge does not have: issuance never removes a label. */
  lemma LabelsRoundTrip(a: Annotations, c: CertificateInfo, m: Meta)
    requires Echoes(c, m)
    ensures LabelsIn(Issue(a, c)) == m.labels <==> LabelsIn(a).Keys <= m.labels.Keys
  {
    var after := LabelsIn(Issue(a, c));
    forall l: string
      ensures At(after, l) == At(m.labels, l).Or(At(LabelsIn(a), l))
    {
      LabelsInAt(Issue(a, c), l);
      LabelsInAt(a, l);
      IssueAt(a, c, Label(l));
      LastValueOfList(c.labels, m.labels, l);
    }
    if LabelsIn(a).Keys <= m.labels.Keys {
      SameMap(after, m.labels);
    } else {
      var l :| l in LabelsIn(a).Keys && l !in m.labels.Keys;
      assert At(after, l) != At(m.labels, l);
    }
  }

  /** Owner, team and contact of the request become the merged ones, and its request id stays. */
  lemma FixedRoundTrip(a: Annotations, c: CertificateInfo, m: Meta)
    requires Echoes(c, m)
    ensures At(Issue(a, c), Owner) == Some(m.owner.GetOr(""))
    ensures At(Issue(a, c), Team) == Some(m.team.GetOr(""))
    ensures At(Issue(a, c), ContactEmail) == Some(m.contactEmail.GetOr(""))
    ensures At(Issue(a, c), RequestId) == At(a, RequestId)
  {
    IssueAt(a, c, Owner);
    IssueAt(a, c, Team);
    IssueAt(a, c, ContactEmail);
    IssueAt(a, c, RequestId);
  }

  /** The other direction: an enrolment whose only layer is the annotations of an issued request
      submits again exactly the metadata that was submitted for it. */
  lemma EnrolAgain(a: Annotations, c: CertificateInfo, m: Meta)
    requires Echoes(c, m) && LabelsIn(a).Keys <= m.labels.Keys
    requires m.owner == NonEmpty(m.owner) && m.team == NonEmpty(m.team) && m.contactEmail == NonEmpty(m.contactEmail)
    ensures Merge(Issue(a, c), map[], NO_TEMPLATE, NO_TEMPLATE) == m
  {
    LabelsRoundTrip(a, c, m);
    FixedRoundTrip(a, c, m);
    OneLayer(Issue(a, c));
  }

  lemma OneLayer(a: Annotations)
    ensures Merge(a, map[], NO_TEMPLATE, NO_TEMPLATE)
            == Meta(LabelsIn(a), NonEmpty(At(a, Owner)), NonEmpty(At(a, Team)), NonEmpty(At(a, ContactEmail)))
  {
    forall l: string
      ensures At(Merge(a, map[], NO_TEMPLATE, NO_TEMPLATE).labels, l) == At(LabelsIn(a), l)
    {
      MergeIsLayered(a, map[], NO_TEMPLATE, NO_TEMPLATE, l);
      LabelsInAt(a, l);
    }
    SameMap(Merge(a, map[], NO_TEMPLATE, NO_TEMPLATE).labels, LabelsIn(a));
  }
}
