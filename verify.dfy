/**
 * Signature-verification dispatch (src/certificate/verify.rs): an equality
 * gate on algorithm identifiers, then a switch on the algorithm OID to one
 * of the compiled-in adapters.  The adapters' cryptography is foreign and
 * is given as a record of total functions.
 */
module Verify {
  import opened Wrappers
  import X509
  import opened Errors
  import opened Certificates

  /** The signature schemes the library can be built with. */
  datatype Scheme = Ed25519 | EcdsaP256Sha256 | EcdsaP384Sha384

  /** id-Ed25519 (RFC 8410, section 3). */
  const ED25519_OID := X509.Oid([1, 3, 101, 112])
  /** ecdsa-with-SHA256 (RFC 5912). */
  const ECDSA_SHA256_OID := X509.Oid([1, 2, 840, 10045, 4, 3, 2])
  /** ecdsa-with-SHA384 (RFC 5912). */
  const ECDSA_SHA384_OID := X509.Oid([1, 2, 840, 10045, 4, 3, 3])

  function SchemeOid(s: Scheme): X509.Oid
  {
    match s
    case Ed25519 => ED25519_OID
    case EcdsaP256Sha256 => ECDSA_SHA256_OID
    case EcdsaP384Sha384 => ECDSA_SHA384_OID
  }

  /**
   * The cryptographic collaborators.  `enabled` is the set of schemes whose
   * cargo feature is on; a disabled scheme has no arm in the dispatch.
   */
  datatype Crypto = Crypto(
    enabled: set<Scheme>,
    // `VerifyingKey::try_from(issuer)`: the key from the issuer's SPKI
    verifyingKey: (Scheme, Certificate) -> Result<X509.Bytes, Error>,
    // `tbs_certificate.to_der()` of the subject
    encodeTbs: Certificate -> Result<X509.Bytes, Error>,
    // `Signature::try_from(subject)`: the subject's signature in native form
    signature: (Scheme, Certificate) -> Result<X509.Bytes, Error>,
    // `Verifier::verify(key, data, signature)`; the error does not say why
    verify: (Scheme, X509.Bytes, X509.Bytes, X509.Bytes) -> Outcome<X509.ForeignError>)

  /** The issuer's SPKI algorithm identifier, the one compared and dispatched on. */
  function IssuerAlgorithm(issuer: Certificate): X509.AlgorithmIdentifier
  {
    issuer.inner.tbsCertificate.subjectPublicKeyInfo.algorithm
  }

  /** The match arms of `verify_signature`, with the disabled ones removed. */
  function Dispatch(enabled: set<Scheme>, oid: X509.Oid): (r: Option<Scheme>)
    ensures r.Some? ==> r.value in enabled && SchemeOid(r.value) == oid
    ensures r.None? <==> forall s :: s in enabled ==> SchemeOid(s) != oid
  {
    if oid == ED25519_OID && Ed25519 in enabled then Some(Ed25519)
    else if oid == ECDSA_SHA256_OID && EcdsaP256Sha256 in enabled then Some(EcdsaP256Sha256)
    else if oid == ECDSA_SHA384_OID && EcdsaP384Sha384 in enabled then Some(EcdsaP384Sha384)
    else None
  }

  /** Key extraction, encoding and signature decoding all succeed. */
  predicate AdapterStepsSucceed(crypto: Crypto, s: Scheme, issuer: Certificate, subject: Certificate)
  {
    crypto.verifyingKey(s, issuer).Success? && crypto.encodeTbs(subject).Success? && crypto.signature(s, subject).Success?
  }

  /** Every step of the adapter for `s` succeeds. */
  predicate AdapterAccepts(crypto: Crypto, s: Scheme, issuer: Certificate, subject: Certificate)
  {
    && AdapterStepsSucceed(crypto, s, issuer, subject)
    && crypto.verify(s, crypto.verifyingKey(s, issuer).value, crypto.encodeTbs(subject).value,
                     crypto.signature(s, subject).value).Pass?
  }

  /**
   * One adapter arm: extract the key, encode the signed data, decode the
   * signature, verify; the first failing step's error is returned.
   */
  function RunAdapter(crypto: Crypto, s: Scheme, issuer: Certificate, subject: Certificate): (r: Outcome<Error>)
    ensures r.Pass? <==> AdapterAccepts(crypto, s, issuer, subject)
    ensures crypto.verifyingKey(s, issuer).Failure? ==> r == Fail(crypto.verifyingKey(s, issuer).error)
    ensures crypto.verifyingKey(s, issuer).Success? && crypto.encodeTbs(subject).Failure? ==>
      r == Fail(crypto.encodeTbs(subject).error)
    ensures (crypto.verifyingKey(s, issuer).Success? && crypto.encodeTbs(subject).Success? &&
             crypto.signature(s, subject).Failure?) ==> r == Fail(crypto.signature(s, subject).error)
    ensures r.Fail? && AdapterStepsSucceed(crypto, s, issuer, subject) ==> r.error.SignatureError?
  {
    match crypto.verifyingKey(s, issuer)
    case Failure(e) => Fail(e)
    case Success(key) =>
      match crypto.encodeTbs(subject)
      case Failure(e) => Fail(e)
      case Success(data) =>
        match crypto.signature(s, subject)
        case Failure(e) => Fail(e)
        case Success(sig) =>
          match crypto.verify(s, key, data, sig)
          case Pass => Pass
          case Fail(e) => Fail(SignatureError(e))
  }

  /** `Certificate::verify_signature`: does `issuer` sign `subject`? */
  function VerifySignature(crypto: Crypto, issuer: Certificate, subject: Certificate): (r: Outcome<Error>)
    // the equality gate comes first
    ensures IssuerAlgorithm(issuer) != subject.inner.signatureAlgorithm ==>
      r == Fail(CertificateError(AlgorithmMismatch))
    // matching identifiers whose OID no enabled scheme has
    ensures IssuerAlgorithm(issuer) == subject.inner.signatureAlgorithm &&
            (forall s :: s in crypto.enabled ==> SchemeOid(s) != IssuerAlgorithm(issuer).oid) ==>
      r == Fail(CertificateError(AlgorithmUnsupported))
    // acceptance: identifiers agree, the issuer's OID selects an enabled scheme, and its adapter accepts
    ensures r.Pass? <==>
      && IssuerAlgorithm(issuer) == subject.inner.signatureAlgorithm
      && exists s :: s in crypto.enabled && SchemeOid(s) == IssuerAlgorithm(issuer).oid
                     && AdapterAccepts(crypto, s, issuer, subject)
    // otherwise the adapter of the scheme selected by the OID decides, its first error propagating
    ensures forall s :: s in crypto.enabled && SchemeOid(s) == IssuerAlgorithm(issuer).oid &&
                        IssuerAlgorithm(issuer) == subject.inner.signatureAlgorithm ==>
      r == RunAdapter(crypto, s, issuer, subject)
  {
    var algo := IssuerAlgorithm(issuer);
    if algo != subject.inner.signatureAlgorithm then Fail(CertificateError(AlgorithmMismatch))
    else
      match Dispatch(crypto.enabled, algo.oid)
      case None => Fail(CertificateError(AlgorithmUnsupported))
      case Some(s) => RunAdapter(crypto, s, issuer, subject)
  }

  /**
   * No adapter is consulted on a mismatch or on an unsupported algorithm:
   * two suites with the same enabled schemes give the same result.
   */
  lemma RejectionSkipsAdapters(c1: Crypto, c2: Crypto, issuer: Certificate, subject: Certificate)
    requires c1.enabled == c2.enabled
    requires IssuerAlgorithm(issuer) != subject.inner.signatureAlgorithm
             || Dispatch(c1.enabled, IssuerAlgorithm(issuer).oid).None?
    ensures VerifySignature(c1, issuer, subject) == VerifySignature(c2, issuer, subject)
    ensures VerifySignature(c1, issuer, subject).Fail?
  {
  }

  /** A scheme whose feature is off falls through to `AlgorithmUnsupported`. */
  lemma DisabledSchemeUnsupported(crypto: Crypto, s: Scheme, issuer: Certificate, subject: Certificate)
    requires s !in crypto.enabled
    requires IssuerAlgorithm(issuer) == subject.inner.signatureAlgorithm
    requires IssuerAlgorithm(issuer).oid == SchemeOid(s)
    ensures VerifySignature(crypto, issuer, subject) == Fail(CertificateError(AlgorithmUnsupported))
  {
  }
}
