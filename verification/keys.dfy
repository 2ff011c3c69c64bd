/** The annotation keys of internal/issuer/horizon/issuer.go, as strings and as a datatype.

    The state machine indexes annotations by `Key`; this module shows that nothing is lost by
    doing so: `Parse` is exactly the controller's string tests, and it has `Text` as its inverse. */
module Keys {
  const CERTIFICATE_NAME := "cert-manager.io/certificate-name"
  const REQUEST_ID := "horizon.evertrust.io/request-id"
  const CERTIFICATE_ID := "horizon.evertrust.io/certificate-id"
  const LAST_CERTIFICATE_ID := "horizon.evertrust.io/last-certificate-id"
  const OWNER := "horizon.evertrust.io/owner"
  const TEAM := "horizon.evertrust.io/team"
  const CONTACT_EMAIL := "horizon.evertrust.io/contact-email"
  /** The label annotation followed by the dot that separates it from the label's own name. */
  const LABEL_PREFIX := "horizon.evertrust.io/labels."

  datatype Key =
    | CertificateName
    | RequestId
    | CertificateId
    | LastCertificateId
    | Owner
    | Team
    | ContactEmail
    | Label(name: string)
    | Foreign(text: string)

  predicate HasPrefix(s: string, prefix: string) {
    |prefix| <= |s| && s[..|prefix|] == prefix
  }

  function TrimPrefix(s: string, prefix: string): string {
    if HasPrefix(s, prefix) then s[|prefix|..] else s
  }

  function Text(k: Key): string {
    match k
    case CertificateName => CERTIFICATE_NAME
    case RequestId => REQUEST_ID
    case CertificateId => CERTIFICATE_ID
    case LastCertificateId => LAST_CERTIFICATE_ID
    case Owner => OWNER
    case Team => TEAM
    case ContactEmail => CONTACT_EMAIL
    case Label(name) => LABEL_PREFIX + name
    case Foreign(text) => text
  }

  function Parse(s: string): Key {
    if s == CERTIFICATE_NAME then CertificateName
    else if s == REQUEST_ID then RequestId
    else if s == CERTIFICATE_ID then CertificateId
    else if s == LAST_CERTIFICATE_ID then LastCertificateId
    else if s == OWNER then Owner
    else if s == TEAM then Team
    else if s == CONTACT_EMAIL then ContactEmail
    else if HasPrefix(s, LABEL_PREFIX) then Label(TrimPrefix(s, LABEL_PREFIX))
    else Foreign(s)
  }

  /** The texts that are written and read. */
  lemma KeyTexts(name: string)
    ensures Text(CertificateName) == "cert-manager.io/certificate-name"
    ensures Text(RequestId) == "horizon.evertrust.io/request-id"
    ensures Text(CertificateId) == "horizon.evertrust.io/certificate-id"
    ensures Text(LastCertificateId) == "horizon.evertrust.io/last-certificate-id"
    ensures Text(Owner) == "horizon.evertrust.io/owner"
    ensures Text(Team) == "horizon.evertrust.io/team"
    ensures Text(ContactEmail) == "horizon.evertrust.io/contact-email"
    ensures Text(Label(name)) == "horizon.evertrust.io/labels." + name
  {
  }

  /** A key that names an annotation: `Foreign` is reserved for texts that are nobody else's. */
  predicate Canonical(k: Key) {
    k.Foreign? ==> Parse(k.text) == k
  }

  /** No label, whatever its name, is stored under one of the fixed keys. */
  lemma LabelsAvoidFixedKeys(name: string)
    ensures LABEL_PREFIX + name !in
            {CERTIFICATE_NAME, REQUEST_ID, CERTIFICATE_ID, LAST_CERTIFICATE_ID, OWNER, TEAM, CONTACT_EMAIL}
  {
    var t := LABEL_PREFIX + name;
    assert t[0] == 'h' && CERTIFICATE_NAME[0] == 'c';
    assert t[21] == 'l' && REQUEST_ID[21] == 'r' && CERTIFICATE_ID[21] == 'c' && OWNER[21] == 'o'
           && TEAM[21] == 't' && CONTACT_EMAIL[21] == 'c';
    assert t[23] == 'b' && LAST_CERTIFICATE_ID[23] == 's';
  }

  lemma FixedKeysDiffer()
    ensures CERTIFICATE_NAME !in {REQUEST_ID, CERTIFICATE_ID, LAST_CERTIFICATE_ID, OWNER, TEAM, CONTACT_EMAIL}
    ensures REQUEST_ID !in {CERTIFICATE_ID, LAST_CERTIFICATE_ID, OWNER, TEAM, CONTACT_EMAIL}
    ensures CERTIFICATE_ID !in {LAST_CERTIFICATE_ID, OWNER, TEAM, CONTACT_EMAIL}
    ensures LAST_CERTIFICATE_ID !in {OWNER, TEAM, CONTACT_EMAIL}
    ensures OWNER !in {TEAM, CONTACT_EMAIL} && TEAM != CONTACT_EMAIL
  {
    assert |CERTIFICATE_NAME| == 32 && |REQUEST_ID| == 31 && |CERTIFICATE_ID| == 35;
    assert |LAST_CERTIFICATE_ID| == 40 && |OWNER| == 26 && |TEAM| == 25 && |CONTACT_EMAIL| == 34;
  }

  /** Stripping the prefix undoes adding it, and adding it undoes stripping it. */
  lemma PrefixRoundTrip(name: string, s: string)
    ensures TrimPrefix(LABEL_PREFIX + name, LABEL_PREFIX) == name
    ensures HasPrefix(s, LABEL_PREFIX) ==> LABEL_PREFIX + TrimPrefix(s, LABEL_PREFIX) == s
  {
    var t := LABEL_PREFIX + name;
    assert t[..|LABEL_PREFIX|] == LABEL_PREFIX && t[|LABEL_PREFIX|..] == name;
    if HasPrefix(s, LABEL_PREFIX) {
      assert s == s[..|LABEL_PREFIX|] + s[|LABEL_PREFIX|..];
    }
  }

  /** Every annotation key is read as a key that is written back as the same text. */
  lemma TextOfParse(s: string)
    ensures Text(Parse(s)) == s && Canonical(Parse(s))
  {
    PrefixRoundTrip("", s);
  }

  /** Every key is written as a text that is read back as the same key. */
  lemma ParseOfText(k: Key)
    requires Canonical(k)
    ensures Parse(Text(k)) == k
  {
    FixedKeysDiffer();
    if k.Label? {
      LabelsAvoidFixedKeys(k.name);
      PrefixRoundTrip(k.name, "");
      assert HasPrefix(LABEL_PREFIX + k.name, LABEL_PREFIX);
    }
  }
}
