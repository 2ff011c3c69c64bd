/** Condition lists as they are held in memory, and the loops that cert-manager and apimachinery run
    over them; `ToMap` is the view of a list that the rest of the model works with. */
module ConditionLists {
  import opened Options
  import opened Model

  datatype Entry = Entry(kind: CondKind, condition: Condition)

  /** The API server keeps at most one condition of each kind. */
  predicate Unique(es: seq<Entry>) {
    forall i, j :: 0 <= i < j < |es| ==> es[i].kind != es[j].kind
  }

  function ToMap(es: seq<Entry>): Conditions {
    if es == [] then map[]
    else
      var n := |es| - 1;
      ToMap(es[..n])[es[n].kind := es[n].condition]
  }

  lemma {:induction false} ToMapKeys(es: seq<Entry>, kind: CondKind)
    ensures kind in ToMap(es) <==> exists i :: 0 <= i < |es| && es[i].kind == kind
  {
    if es != [] {
      ToMapKeys(es[..|es| - 1], kind);
    }
  }

  lemma {:induction false} ToMapAt(es: seq<Entry>, i: nat)
    requires Unique(es) && i < |es|
    ensures es[i].kind in ToMap(es) && ToMap(es)[es[i].kind] == es[i].condition
  {
    if i < |es| - 1 {
      ToMapAt(es[..|es| - 1], i);
    }
  }

  /** Replacing the entry of a kind replaces its value. */
  lemma {:induction false} ToMapReplace(es: seq<Entry>, i: nat, e: Entry)
    requires Unique(es) && i < |es| && e.kind == es[i].kind
    ensures Unique(es[i := e]) && ToMap(es[i := e]) == ToMap(es)[e.kind := e.condition]
  {
    var n := |es| - 1;
    if i < n {
      ToMapReplace(es[..n], i, e);
      assert es[i := e][..n] == es[..n][i := e];
    } else {
      assert es[i := e][..n] == es[..n];
    }
  }

  lemma ToMapAppend(es: seq<Entry>, e: Entry)
    requires Unique(es) && forall i :: 0 <= i < |es| ==> es[i].kind != e.kind
    ensures Unique(es + [e]) && ToMap(es + [e]) == ToMap(es)[e.kind := e.condition]
  {
    assert (es + [e])[..|es|] == es;
  }

  /** `SetCertificateRequestCondition` and `SetStatusCondition`: replace the one of that kind, or
      append. Either way the list keeps one condition of each kind. */
  method Set(es: seq<Entry>, kind: CondKind, condition: Condition) returns (r: seq<Entry>)
    requires Unique(es)
    ensures Unique(r) && ToMap(r) == ToMap(es)[kind := condition]
    ensures exists i :: 0 <= i < |r| && r[i] == Entry(kind, condition)
    ensures |r| == if kind in ToMap(es) then |es| else |es| + 1
  {
    ToMapKeys(es, kind);
    for i := 0 to |es|
      invariant forall j :: 0 <= j < i ==> es[j].kind != kind
    {
      if es[i].kind == kind {
        r := es[i := Entry(kind, condition)];
        ToMapReplace(es, i, Entry(kind, condition));
        assert r[i] == Entry(kind, condition);
        return;
      }
    }
    r := es + [Entry(kind, condition)];
    ToMapAppend(es, Entry(kind, condition));
    assert r[|es|] == Entry(kind, condition);
  }

  /** `CertificateRequestHasCondition`: an absent reason matches any. */
  method HasCondition(es: seq<Entry>, kind: CondKind, status: CondStatus, reason: Option<Reason>) returns (b: bool)
    requires Unique(es)
    ensures b <==> Has(ToMap(es), kind, status) && (reason.Some? ==> ToMap(es)[kind].reason == reason.value)
  {
    ToMapKeys(es, kind);
    for i := 0 to |es|
      invariant forall j :: 0 <= j < i && es[j].kind == kind ==>
                  es[j].condition.status != status || (reason.Some? && es[j].condition.reason != reason.value)
    {
      ToMapAt(es, i);
      if es[i].kind == kind && es[i].condition.status == status && (reason.None? || es[i].condition.reason == reason.value) {
        return true;
      }
    }
    if kind in ToMap(es) {
      var i :| 0 <= i < |es| && es[i].kind == kind;
      ToMapAt(es, i);
    }
    b := false;
  }

  /** `FindStatusCondition` */
  method Find(es: seq<Entry>, kind: CondKind) returns (c: Option<Condition>)
    requires Unique(es)
    ensures c == At(ToMap(es), kind)
  {
    ToMapKeys(es, kind);
    for i := 0 to |es|
      invariant forall j :: 0 <= j < i ==> es[j].kind != kind
    {
      if es[i].kind == kind {
        ToMapAt(es, i);
        return Some(es[i].condition);
      }
    }
    c := None;
  }

  /** Decoding a stored object: its conditions as a list, in some order. */
  method Decode(cs: Conditions) returns (es: seq<Entry>)
    ensures Unique(es) && ToMap(es) == cs
  {
    es := [];
    var todo := cs.Keys;
    while todo != {}
      invariant todo <= cs.Keys && Unique(es)
      invariant ToMap(es) == map k | k in cs && k !in todo :: cs[k]
    {
      var k :| k in todo;
      ToMapKeys(es, k);
      ToMapAppend(es, Entry(k, cs[k]));
      es := es + [Entry(k, cs[k])];
      todo := todo - {k};
    }
    assert (map k | k in cs && k !in todo :: cs[k]) == cs;
  }
}
