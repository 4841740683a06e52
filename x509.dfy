/**
 * The parts of the `x509_cert` / `der` crates that the certificate core
 * reads: object identifiers, names, algorithm identifiers, the decoded
 * payloads of the seven recognised extensions, the raw certificate
 * structure, and the DER decoders of extension payloads.  The decoders
 * are foreign code: they are given to the model as a record of total
 * functions, one per payload schema, about which nothing is assumed.
 */
module X509 {
  import opened Wrappers

  type Bytes = seq<bv8>

  /** An unsigned 8-bit integer (`u8`), the type of `pathLenConstraint`. */
  type U8 = x: int | 0 <= x < 256

  /** An object identifier, as its sequence of arcs. */
  datatype Oid = Oid(arcs: seq<nat>)

  /** An error reported by a foreign collaborator (DER codec, SPKI, PKCS#8, signature crates). */
  datatype ForeignError = ForeignError(code: nat)

  /** One attribute of a relative distinguished name. */
  datatype AttributeTypeAndValue = AttributeTypeAndValue(attrType: Oid, value: Bytes)

  /**
   * A distinguished name as its sequence of relative distinguished names;
   * names are compared structurally, as the decoded `Name` values are.
   */
  datatype Name = Name(rdns: seq<seq<AttributeTypeAndValue>>)

  /** `AlgorithmIdentifier`: an OID and optional parameters. */
  datatype AlgorithmIdentifier = AlgorithmIdentifier(oid: Oid, parameters: Option<Bytes>)

  datatype GeneralName = GeneralName(tag: nat, value: Bytes)

  // Decoded payloads of the seven recognised extensions

  datatype BasicConstraints = BasicConstraints(ca: bool, pathLenConstraint: Option<U8>)

  datatype KeyUsageBit =
    | DigitalSignature | NonRepudiation | KeyEncipherment | DataEncipherment
    | KeyAgreement | KeyCertSign | CrlSign | EncipherOnly | DecipherOnly

  datatype KeyUsage = KeyUsage(bits: set<KeyUsageBit>)

  datatype ExtendedKeyUsage = ExtendedKeyUsage(purposes: seq<Oid>)

  datatype SubjectAltName = SubjectAltName(names: seq<GeneralName>)

  datatype AuthorityKeyIdentifier = AuthorityKeyIdentifier(
    keyIdentifier: Option<Bytes>,
    authorityCertIssuer: Option<seq<GeneralName>>,
    authorityCertSerialNumber: Option<Bytes>)

  datatype SubjectKeyIdentifier = SubjectKeyIdentifier(keyIdentifier: Bytes)

  datatype CertificatePolicies = CertificatePolicies(policies: seq<Oid>)

  // The raw certificate structure

  /** An extension as it appears in the certificate: OID, critical flag, DER payload. */
  datatype RawExtension = RawExtension(extnId: Oid, critical: bool, extnValue: Bytes)

  /** Validity window; the two times are seconds on one common clock. */
  datatype Validity = Validity(notBefore: int, notAfter: int)

  datatype SubjectPublicKeyInfo = SubjectPublicKeyInfo(algorithm: AlgorithmIdentifier, subjectPublicKey: Bytes)

  datatype TbsCertificate = TbsCertificate(
    serialNumber: Bytes,
    issuer: Name,
    validity: Validity,
    subject: Name,
    subjectPublicKeyInfo: SubjectPublicKeyInfo,
    extensions: Option<seq<RawExtension>>)

  datatype RawCertificate = RawCertificate(
    tbsCertificate: TbsCertificate,
    signatureAlgorithm: AlgorithmIdentifier,
    signature: Bytes)

  /** The `from_der` decoder of each recognised payload schema. */
  datatype DerCodec = DerCodec(
    basicConstraints: Bytes -> Result<BasicConstraints, ForeignError>,
    keyUsage: Bytes -> Result<KeyUsage, ForeignError>,
    extendedKeyUsage: Bytes -> Result<ExtendedKeyUsage, ForeignError>,
    subjectAltName: Bytes -> Result<SubjectAltName, ForeignError>,
    authorityKeyIdentifier: Bytes -> Result<AuthorityKeyIdentifier, ForeignError>,
    subjectKeyIdentifier: Bytes -> Result<SubjectKeyIdentifier, ForeignError>,
    certificatePolicies: Bytes -> Result<CertificatePolicies, ForeignError>)
}
