/**
 * Typed extensions (src/certificate/extension.rs): the seven recognised
 * variants, the OID-keyed conversion from a raw extension, and the
 * first-match getters.
 */
module Extensions {
  import opened Wrappers
  import X509
  import opened Errors

  datatype Extension =
    | BasicConstraints(bc: X509.BasicConstraints)
    | KeyUsage(ku: X509.KeyUsage)
    | ExtendedKeyUsage(eku: X509.ExtendedKeyUsage)
    | SubjectAlternativeName(san: X509.SubjectAltName)
    | AuthorityKeyIdentifier(aki: X509.AuthorityKeyIdentifier)
    | SubjectKeyIdentifier(ski: X509.SubjectKeyIdentifier)
    | CertificatePolicies(cp: X509.CertificatePolicies)

  /** The variant of an extension, without its payload. */
  datatype Kind =
    | BasicConstraintsKind | KeyUsageKind | ExtendedKeyUsageKind | SubjectAltNameKind
    | AuthorityKeyIdentifierKind | SubjectKeyIdentifierKind | CertificatePoliciesKind

  function KindOf(e: Extension): Kind
  {
    match e
    case BasicConstraints(_) => BasicConstraintsKind
    case KeyUsage(_) => KeyUsageKind
    case ExtendedKeyUsage(_) => ExtendedKeyUsageKind
    case SubjectAlternativeName(_) => SubjectAltNameKind
    case AuthorityKeyIdentifier(_) => AuthorityKeyIdentifierKind
    case SubjectKeyIdentifier(_) => SubjectKeyIdentifierKind
    case CertificatePolicies(_) => CertificatePoliciesKind
  }

  // The associated OID of each payload type (id-ce arcs of RFC 5280, section 4.2.1)
  const BASIC_CONSTRAINTS_OID := X509.Oid([2, 5, 29, 19])
  const KEY_USAGE_OID := X509.Oid([2, 5, 29, 15])
  const EXTENDED_KEY_USAGE_OID := X509.Oid([2, 5, 29, 37])
  const SUBJECT_ALT_NAME_OID := X509.Oid([2, 5, 29, 17])
  const AUTHORITY_KEY_IDENTIFIER_OID := X509.Oid([2, 5, 29, 35])
  const SUBJECT_KEY_IDENTIFIER_OID := X509.Oid([2, 5, 29, 14])
  const CERTIFICATE_POLICIES_OID := X509.Oid([2, 5, 29, 32])

  /** The OID that selects each variant. */
  function OidOf(k: Kind): X509.Oid
  {
    match k
    case BasicConstraintsKind => BASIC_CONSTRAINTS_OID
    case KeyUsageKind => KEY_USAGE_OID
    case ExtendedKeyUsageKind => EXTENDED_KEY_USAGE_OID
    case SubjectAltNameKind => SUBJECT_ALT_NAME_OID
    case AuthorityKeyIdentifierKind => AUTHORITY_KEY_IDENTIFIER_OID
    case SubjectKeyIdentifierKind => SUBJECT_KEY_IDENTIFIER_OID
    case CertificatePoliciesKind => CERTIFICATE_POLICIES_OID
  }

  /** The `match oid` arms of the conversion: the variant an OID selects, if any. */
  function KindForOid(oid: X509.Oid): (r: Option<Kind>)
    ensures r.Some? ==> OidOf(r.value) == oid
    ensures r.Some? ==> forall k :: OidOf(k) == oid ==> k == r.value
    ensures r.None? <==> forall k :: OidOf(k) != oid
  {
    if oid == BASIC_CONSTRAINTS_OID then Some(BasicConstraintsKind)
    else if oid == KEY_USAGE_OID then Some(KeyUsageKind)
    else if oid == EXTENDED_KEY_USAGE_OID then Some(ExtendedKeyUsageKind)
    else if oid == SUBJECT_ALT_NAME_OID then Some(SubjectAltNameKind)
    else if oid == AUTHORITY_KEY_IDENTIFIER_OID then Some(AuthorityKeyIdentifierKind)
    else if oid == SUBJECT_KEY_IDENTIFIER_OID then Some(SubjectKeyIdentifierKind)
    else if oid == CERTIFICATE_POLICIES_OID then Some(CertificatePoliciesKind)
    else None
  }

  /** The payload of kind `k` decodes from `bytes`. */
  predicate Decodes(codec: X509.DerCodec, k: Kind, bytes: X509.Bytes)
  {
    match k
    case BasicConstraintsKind => codec.basicConstraints(bytes).Success?
    case KeyUsageKind => codec.keyUsage(bytes).Success?
    case ExtendedKeyUsageKind => codec.extendedKeyUsage(bytes).Success?
    case SubjectAltNameKind => codec.subjectAltName(bytes).Success?
    case AuthorityKeyIdentifierKind => codec.authorityKeyIdentifier(bytes).Success?
    case SubjectKeyIdentifierKind => codec.subjectKeyIdentifier(bytes).Success?
    case CertificatePoliciesKind => codec.certificatePolicies(bytes).Success?
  }

  /** `e` carries exactly the payload the codec decodes from `bytes`. */
  predicate DecodedFrom(codec: X509.DerCodec, e: Extension, bytes: X509.Bytes)
  {
    match e
    case BasicConstraints(v) => codec.basicConstraints(bytes) == Success(v)
    case KeyUsage(v) => codec.keyUsage(bytes) == Success(v)
    case ExtendedKeyUsage(v) => codec.extendedKeyUsage(bytes) == Success(v)
    case SubjectAlternativeName(v) => codec.subjectAltName(bytes) == Success(v)
    case AuthorityKeyIdentifier(v) => codec.authorityKeyIdentifier(bytes) == Success(v)
    case SubjectKeyIdentifier(v) => codec.subjectKeyIdentifier(bytes) == Success(v)
    case CertificatePolicies(v) => codec.certificatePolicies(bytes) == Success(v)
  }

  /** A decoder's result as a typed extension; a DER error becomes `Error::Asn1`. */
  function FromDer<T>(decoded: Result<T, X509.ForeignError>, variant: T -> Extension): Result<Extension, Error>
  {
    match decoded
    case Success(v) => Success(variant(v))
    case Failure(err) => Failure(Asn1Error(err))
  }

  /**
   * `TryFrom<&x509_cert::ext::Extension> for Extension`: the OID selects the
   * variant and its decoder; any other OID is `UnsupportedExtension(oid)`.
   */
  function ConvertExtension(codec: X509.DerCodec, raw: X509.RawExtension): (r: Result<Extension, Error>)
    // an OID outside the table is rejected, carrying exactly that OID
    ensures (forall k :: OidOf(k) != raw.extnId) ==>
              r == Failure(CertificateError(UnsupportedExtension(raw.extnId)))
    // a recognised OID converts exactly when its payload decodes ...
    ensures forall k :: OidOf(k) == raw.extnId ==> (r.Success? <==> Decodes(codec, k, raw.extnValue))
    // ... and a decode failure surfaces as the codec's error, never as a variant
    ensures forall k :: OidOf(k) == raw.extnId && r.Failure? ==> r.error.Asn1Error?
    // on success the variant is the one the OID selects, holding the decoded payload
    ensures r.Success? ==> OidOf(KindOf(r.value)) == raw.extnId && DecodedFrom(codec, r.value, raw.extnValue)
  {
    var bytes := raw.extnValue;
    match KindForOid(raw.extnId)
    case Some(BasicConstraintsKind) => FromDer(codec.basicConstraints(bytes), v => BasicConstraints(v))
    case Some(KeyUsageKind) => FromDer(codec.keyUsage(bytes), v => KeyUsage(v))
    case Some(ExtendedKeyUsageKind) => FromDer(codec.extendedKeyUsage(bytes), v => ExtendedKeyUsage(v))
    case Some(SubjectAltNameKind) => FromDer(codec.subjectAltName(bytes), v => SubjectAlternativeName(v))
    case Some(AuthorityKeyIdentifierKind) => FromDer(codec.authorityKeyIdentifier(bytes), v => AuthorityKeyIdentifier(v))
    case Some(SubjectKeyIdentifierKind) => FromDer(codec.subjectKeyIdentifier(bytes), v => SubjectKeyIdentifier(v))
    case Some(CertificatePoliciesKind) => FromDer(codec.certificatePolicies(bytes), v => CertificatePolicies(v))
    case None => Failure(CertificateError(UnsupportedExtension(raw.extnId)))
  }

  /** The critical flag plays no part in the conversion. */
  lemma ConvertIgnoresCritical(codec: X509.DerCodec, raw: X509.RawExtension, critical: bool)
    ensures ConvertExtension(codec, raw.(critical := critical)) == ConvertExtension(codec, raw)
  {
  }

  // First-match lookup

  /** `f(exts[i])` is the first `Some` among the images of `exts` under `f`. */
  ghost predicate FirstMatch<T>(exts: seq<Extension>, f: Extension -> Option<T>, i: int)
  {
    && 0 <= i < |exts|
    && f(exts[i]).Some?
    && forall j :: 0 <= j < i ==> f(exts[j]).None?
  }

  /** `Iterator::find_map` over the parsed extensions. */
  function FindMap<T>(exts: seq<Extension>, f: Extension -> Option<T>): (r: Option<T>)
    ensures r.None? <==> forall i :: 0 <= i < |exts| ==> f(exts[i]).None?
    ensures r.Some? ==> exists i :: FirstMatch(exts, f, i) && f(exts[i]) == r
  {
    if exts == [] then None
    else if f(exts[0]).Some? then
      assert FirstMatch(exts, f, 0);
      f(exts[0])
    else
      var r := FindMap(exts[1..], f);
      assert r.Some? ==> exists i :: FirstMatch(exts, f, i) && f(exts[i]) == r by {
        if r.Some? {
          var i :| FirstMatch(exts[1..], f, i) && f(exts[1..][i]) == r;
          assert FirstMatch(exts, f, i + 1);
        }
      }
      r
  }

  /** An element that `f` maps to `None` can be inserted anywhere without changing the match. */
  lemma {:induction false} FindMapSkipsOthers<T>(a: seq<Extension>, e: Extension, b: seq<Extension>, f: Extension -> Option<T>)
    requires f(e).None?
    ensures FindMap(a + [e] + b, f) == FindMap(a + b, f)
  {
    if a == [] {
      assert a + [e] + b == [e] + b;
      assert a + b == b;
      assert ([e] + b)[1..] == b;
    } else {
      assert (a + [e] + b)[1..] == a[1..] + [e] + b;
      assert (a + b)[1..] == a[1..] + b;
      assert (a + [e] + b)[0] == a[0] == (a + b)[0];
      FindMapSkipsOthers(a[1..], e, b, f);
    }
  }

  function AsBasicConstraints(e: Extension): Option<X509.BasicConstraints>
  {
    match e
    case BasicConstraints(v) => Some(v)
    case _ => None
  }

  function AsKeyUsage(e: Extension): Option<X509.KeyUsage>
  {
    match e
    case KeyUsage(v) => Some(v)
    case _ => None
  }

  function AsExtendedKeyUsage(e: Extension): Option<X509.ExtendedKeyUsage>
  {
    match e
    case ExtendedKeyUsage(v) => Some(v)
    case _ => None
  }

  function AsSubjectAltName(e: Extension): Option<X509.SubjectAltName>
  {
    match e
    case SubjectAlternativeName(v) => Some(v)
    case _ => None
  }

  function AsAuthorityKeyIdentifier(e: Extension): Option<X509.AuthorityKeyIdentifier>
  {
    match e
    case AuthorityKeyIdentifier(v) => Some(v)
    case _ => None
  }

  function AsSubjectKeyIdentifier(e: Extension): Option<X509.SubjectKeyIdentifier>
  {
    match e
    case SubjectKeyIdentifier(v) => Some(v)
    case _ => None
  }

  function AsCertificatePolicies(e: Extension): Option<X509.CertificatePolicies>
  {
    match e
    case CertificatePolicies(v) => Some(v)
    case _ => None
  }

  /** Index `i` holds the first extension of kind `k`. */
  ghost predicate FirstOfKind(exts: seq<Extension>, k: Kind, i: int)
  {
    && 0 <= i < |exts|
    && KindOf(exts[i]) == k
    && forall j :: 0 <= j < i ==> KindOf(exts[j]) != k
  }

  function GetBasicConstraints(exts: seq<Extension>): (r: Option<X509.BasicConstraints>)
    ensures r.None? <==> forall i :: 0 <= i < |exts| ==> KindOf(exts[i]) != BasicConstraintsKind
    ensures r.Some? ==> exists i :: FirstOfKind(exts, BasicConstraintsKind, i) && exts[i] == BasicConstraints(r.value)
  {
    var r := FindMap(exts, AsBasicConstraints);
    assert r.Some? ==> exists i :: FirstOfKind(exts, BasicConstraintsKind, i) && AsBasicConstraints(exts[i]) == r by {
      if r.Some? {
        var i :| FirstMatch(exts, AsBasicConstraints, i) && AsBasicConstraints(exts[i]) == r;
        assert FirstOfKind(exts, BasicConstraintsKind, i);
      }
    }
    r
  }

  function GetKeyUsage(exts: seq<Extension>): (r: Option<X509.KeyUsage>)
    ensures r.None? <==> forall i :: 0 <= i < |exts| ==> KindOf(exts[i]) != KeyUsageKind
    ensures r.Some? ==> exists i :: FirstOfKind(exts, KeyUsageKind, i) && exts[i] == KeyUsage(r.value)
  {
    var r := FindMap(exts, AsKeyUsage);
    assert r.Some? ==> exists i :: FirstOfKind(exts, KeyUsageKind, i) && AsKeyUsage(exts[i]) == r by {
      if r.Some? {
        var i :| FirstMatch(exts, AsKeyUsage, i) && AsKeyUsage(exts[i]) == r;
        assert FirstOfKind(exts, KeyUsageKind, i);
      }
    }
    r
  }

  function GetExtendedKeyUsage(exts: seq<Extension>): (r: Option<X509.ExtendedKeyUsage>)
    ensures r.None? <==> forall i :: 0 <= i < |exts| ==> KindOf(exts[i]) != ExtendedKeyUsageKind
    ensures r.Some? ==> exists i :: FirstOfKind(exts, ExtendedKeyUsageKind, i) && exts[i] == ExtendedKeyUsage(r.value)
  {
    var r := FindMap(exts, AsExtendedKeyUsage);
    assert r.Some? ==> exists i :: FirstOfKind(exts, ExtendedKeyUsageKind, i) && AsExtendedKeyUsage(exts[i]) == r by {
      if r.Some? {
        var i :| FirstMatch(exts, AsExtendedKeyUsage, i) && AsExtendedKeyUsage(exts[i]) == r;
        assert FirstOfKind(exts, ExtendedKeyUsageKind, i);
      }
    }
    r
  }

  function GetSubjectAltName(exts: seq<Extension>): (r: Option<X509.SubjectAltName>)
    ensures r.None? <==> forall i :: 0 <= i < |exts| ==> KindOf(exts[i]) != SubjectAltNameKind
    ensures r.Some? ==> exists i :: FirstOfKind(exts, SubjectAltNameKind, i) && exts[i] == SubjectAlternativeName(r.value)
  {
    var r := FindMap(exts, AsSubjectAltName);
    assert r.Some? ==> exists i :: FirstOfKind(exts, SubjectAltNameKind, i) && AsSubjectAltName(exts[i]) == r by {
      if r.Some? {
        var i :| FirstMatch(exts, AsSubjectAltName, i) && AsSubjectAltName(exts[i]) == r;
        assert FirstOfKind(exts, SubjectAltNameKind, i);
      }
    }
    r
  }

  function GetAuthorityKeyIdentifier(exts: seq<Extension>): (r: Option<X509.AuthorityKeyIdentifier>)
    ensures r.None? <==> forall i :: 0 <= i < |exts| ==> KindOf(exts[i]) != AuthorityKeyIdentifierKind
    ensures r.Some? ==>
      exists i :: FirstOfKind(exts, AuthorityKeyIdentifierKind, i) && exts[i] == AuthorityKeyIdentifier(r.value)
  {
    var r := FindMap(exts, AsAuthorityKeyIdentifier);
    assert r.Some? ==> exists i :: FirstOfKind(exts, AuthorityKeyIdentifierKind, i) && AsAuthorityKeyIdentifier(exts[i]) == r by {
      if r.Some? {
        var i :| FirstMatch(exts, AsAuthorityKeyIdentifier, i) && AsAuthorityKeyIdentifier(exts[i]) == r;
        assert FirstOfKind(exts, AuthorityKeyIdentifierKind, i);
      }
    }
    r
  }

  function GetSubjectKeyIdentifier(exts: seq<Extension>): (r: Option<X509.SubjectKeyIdentifier>)
    ensures r.None? <==> forall i :: 0 <= i < |exts| ==> KindOf(exts[i]) != SubjectKeyIdentifierKind
    ensures r.Some? ==>
      exists i :: FirstOfKind(exts, SubjectKeyIdentifierKind, i) && exts[i] == SubjectKeyIdentifier(r.value)
  {
    var r := FindMap(exts, AsSubjectKeyIdentifier);
    assert r.Some? ==> exists i :: FirstOfKind(exts, SubjectKeyIdentifierKind, i) && AsSubjectKeyIdentifier(exts[i]) == r by {
      if r.Some? {
        var i :| FirstMatch(exts, AsSubjectKeyIdentifier, i) && AsSubjectKeyIdentifier(exts[i]) == r;
        assert FirstOfKind(exts, SubjectKeyIdentifierKind, i);
      }
    }
    r
  }

  function GetCertificatePolicies(exts: seq<Extension>): (r: Option<X509.CertificatePolicies>)
    ensures r.None? <==> forall i :: 0 <= i < |exts| ==> KindOf(exts[i]) != CertificatePoliciesKind
    ensures r.Some? ==>
      exists i :: FirstOfKind(exts, CertificatePoliciesKind, i) && exts[i] == CertificatePolicies(r.value)
  {
    var r := FindMap(exts, AsCertificatePolicies);
    assert r.Some? ==> exists i :: FirstOfKind(exts, CertificatePoliciesKind, i) && AsCertificatePolicies(exts[i]) == r by {
      if r.Some? {
        var i :| FirstMatch(exts, AsCertificatePolicies, i) && AsCertificatePolicies(exts[i]) == r;
        assert FirstOfKind(exts, CertificatePoliciesKind, i);
      }
    }
    r
  }

  /**
   * A getter's result does not change when an extension of another variant
   * is inserted anywhere in the list (or, read right to left, removed).
   */
  lemma GettersIgnoreOtherKinds(a: seq<Extension>, e: Extension, b: seq<Extension>)
    ensures KindOf(e) != BasicConstraintsKind ==>
      GetBasicConstraints(a + [e] + b) == GetBasicConstraints(a + b)
    ensures KindOf(e) != KeyUsageKind ==> GetKeyUsage(a + [e] + b) == GetKeyUsage(a + b)
    ensures KindOf(e) != ExtendedKeyUsageKind ==>
      GetExtendedKeyUsage(a + [e] + b) == GetExtendedKeyUsage(a + b)
    ensures KindOf(e) != SubjectAltNameKind ==> GetSubjectAltName(a + [e] + b) == GetSubjectAltName(a + b)
    ensures KindOf(e) != AuthorityKeyIdentifierKind ==>
      GetAuthorityKeyIdentifier(a + [e] + b) == GetAuthorityKeyIdentifier(a + b)
    ensures KindOf(e) != SubjectKeyIdentifierKind ==>
      GetSubjectKeyIdentifier(a + [e] + b) == GetSubjectKeyIdentifier(a + b)
    ensures KindOf(e) != CertificatePoliciesKind ==>
      GetCertificatePolicies(a + [e] + b) == GetCertificatePolicies(a + b)
  {
    if KindOf(e) != BasicConstraintsKind { FindMapSkipsOthers(a, e, b, AsBasicConstraints); }
    if KindOf(e) != KeyUsageKind { FindMapSkipsOthers(a, e, b, AsKeyUsage); }
    if KindOf(e) != ExtendedKeyUsageKind { FindMapSkipsOthers(a, e, b, AsExtendedKeyUsage); }
    if KindOf(e) != SubjectAltNameKind { FindMapSkipsOthers(a, e, b, AsSubjectAltName); }
    if KindOf(e) != AuthorityKeyIdentifierKind { FindMapSkipsOthers(a, e, b, AsAuthorityKeyIdentifier); }
    if KindOf(e) != SubjectKeyIdentifierKind { FindMapSkipsOthers(a, e, b, AsSubjectKeyIdentifier); }
    if KindOf(e) != CertificatePoliciesKind { FindMapSkipsOthers(a, e, b, AsCertificatePolicies); }
  }
}
