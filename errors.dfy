/**
 * The error taxonomy: `certificate::Error` (src/certificate/mod.rs) and the
 * crate-wide `Error` that wraps it together with the collaborators' errors
 * (src/error.rs).
 */
module Errors {
  import opened X509

  datatype CertError =
    | CertificateImmature
    | CertificateExpired
    | CertificateInvalid
    | AlgorithmUnsupported
    | AlgorithmMismatch
    | BasicConstraintsViolation
    | KeyUsageViolation
    | IssuerSubjectMismatch
    | AuthorityKeyIdentifierMismatch
    | UnsupportedExtension(oid: Oid)

  datatype Error =
    | CertificateError(cert: CertError)
    | SignatureError(signature: ForeignError)
    | SpkiError(spki: ForeignError)
    | Pkcs8Error(pkcs8: ForeignError)
    | Asn1Error(asn1: ForeignError)
}
