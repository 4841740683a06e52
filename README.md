# pki-rs chain trust, in Dafny

This project models the certificate-chain trust logic of the Rust X.509 library
`pki-rs`. It covers four parts:

- typed extensions: OID dispatch and first-match getters;
- building a `Certificate` from a decoded `x509_cert::Certificate`, with the
  fail-closed rule for critical extensions of section 4.2 of RFC 5280;
- the `CertificateChain` container, its double-ended iterator and its staged
  builder;
- signature-verification dispatch, and period and path validation.

Certificates are records: names, serial, validity window, SPKI algorithm,
signature algorithm and an ordered extension list. The foreign pieces are
parameters:

- the DER decoders of the seven extension payloads (`X509.DerCodec`);
- the signature adapters and the set of schemes compiled in (`Verify.Crypto`);
- the current time, `now`, a plain integer.

Modules, one file each:

| module | file | models |
|---|---|---|
| `Wrappers` | wrappers.dfy | `Option`, `Result`, and `Outcome` for `Result<()>` |
| `X509` | x509.dfy | the decoded certificate structures of `x509_cert`; the DER codec as a parameter record |
| `Errors` | errors.dfy | `certificate::Error` and the crate-level `Error` |
| `Extensions` | extension.dfy | `Extension`, `TryFrom<&Extension>`, the seven `get_*` getters |
| `Certificates` | certificate.dfy | `TryFrom<x509_cert::Certificate>`, `CertificateChain`, `CertificateChainIter`, `CertificateChainBuilder` |
| `Verify` | verify.dfy | `Certificate::verify_signature` |
| `Validate` | validate.dfy | `validate_period` of a certificate and of a chain, `validate_path` |

The imperative parts keep their form:

- `CertificateChainIter` is a class. `Next` and `NextBack` take the leaf out of
  its `Option` field in place.
- The `Optional` builder stage is a class. `AddIntermediates` extends it.
- `ValidateChainPeriod` is a fail-fast loop.
- `ValidatePath` is a `while` loop. It drives the iterator with one node of
  lookahead, as `peekable` does, and pushes into the path-length vector. A final
  indexed loop follows (`CheckPathLength`).

The methods are proved against specifications:

- `CheckIssuer` is proved equal to the function `IssuerCheck`.
- `ValidatePath` is proved equal to the function `PathValidation` of the walk.
- `ValidateChainPeriod` is characterised directly. It passes iff every
  certificate of `PeriodOrder` (leaf, then intermediates) satisfies `InPeriod`.
  Otherwise it returns the `ValidatePeriod` error of the first one that does not.
- `CheckPathLength` is proved against the predicate `PathLenRespected`.

Lemmas then state the properties of `PathValidation`:

- first-error semantics;
- acceptance exactly when every period, issuer step and recorded path-length
  constraint holds;
- the individual rejection scenarios.

## Model

| member | source | states |
|---|---|---|
| Extensions.KindForOid | src/certificate/extension.rs:30-44 | the seven match arms: a recognised OID selects the one kind whose OID it is; None exactly when no kind has that OID |
| Extensions.ConvertExtension | src/certificate/extension.rs:26-48 | an unrecognised OID fails with `UnsupportedExtension` carrying exactly that OID; for a recognised OID it succeeds iff the payload decodes, and the variant then matches the OID and holds the decoded value; a decode failure is an ASN.1 error, never a variant |
| Extensions.ConvertIgnoresCritical | src/certificate/extension.rs:26-48 | conversion depends on the OID and payload only: flipping the critical flag does not change the result |
| Extensions.FindMap | src/certificate/extension.rs:53-56 | `find_map`: None iff the selector rejects every element, otherwise the selector's value at the first element it accepts |
| Extensions.FindMapSkipsOthers | src/certificate/extension.rs:53-56 | inserting an element the selector rejects anywhere in the list does not change `find_map`'s result |
| Extensions.GetBasicConstraints | src/certificate/extension.rs:52-57 | None iff no BasicConstraints extension; otherwise the payload of the first one in list order |
| Extensions.GetKeyUsage | src/certificate/extension.rs:59-64 | None iff no KeyUsage extension; otherwise the first one's payload |
| Extensions.GetExtendedKeyUsage | src/certificate/extension.rs:66-71 | None iff no ExtendedKeyUsage extension; otherwise the first one's payload |
| Extensions.GetSubjectAltName | src/certificate/extension.rs:73-78 | None iff no SubjectAlternativeName extension; otherwise the first one's payload |
| Extensions.GetAuthorityKeyIdentifier | src/certificate/extension.rs:80-85 | None iff no AuthorityKeyIdentifier extension; otherwise the first one's payload |
| Extensions.GetSubjectKeyIdentifier | src/certificate/extension.rs:87-92 | None iff no SubjectKeyIdentifier extension; otherwise the first one's payload |
| Extensions.GetCertificatePolicies | src/certificate/extension.rs:94-99 | None iff no CertificatePolicies extension; otherwise the first one's payload |
| Extensions.GettersIgnoreOtherKinds | src/certificate/extension.rs:52-99 | adding an extension of another variant anywhere in the list leaves each of the seven getters' results unchanged |
| Certificates.CollectExtensions | src/certificate/mod.rs:162-173 | the `filter_map`/`collect::<Result<_, _>>` pipeline: on success it keeps at most one extension per raw extension; its full behaviour (success iff nothing fatal, the kept list, the first fatal error) is stated by `CollectCharacterised` |
| Certificates.KeptAppend | src/certificate/mod.rs:162-172 | the `filter_map` keeps converted extensions piecewise: kept(a ++ b) = kept(a) ++ kept(b) |
| Certificates.CollectCharacterised | src/certificate/mod.rs:162-173 | collecting succeeds iff no critical extension fails to convert; on success it yields exactly the converted extensions in order; on failure the error is that of the first critical extension that fails |
| Certificates.FromRaw | src/certificate/mod.rs:158-179 | no extension list gives an empty `parsed_extensions`; success iff no critical extension fails to convert; on success `inner` is the input and `parsed_extensions` the converted extensions in order; on failure, the first fatal extension's error |
| Certificates.CollectAppend | src/certificate/mod.rs:168-173 | collecting a concatenation is collecting the first part and, if that succeeds, the second, first error winning |
| Certificates.DropNonCritical | src/certificate/mod.rs:170 | a non-critical extension that fails to convert (unknown OID or malformed payload alike) can be removed without changing the outcome |
| Certificates.CertificateChainIter.constructor | src/certificate/mod.rs:204-209 | `iter` starts with the intermediates followed by the leaf still to come |
| Certificates.CertificateChainIter.Next | src/certificate/mod.rs:220-222 | yields the front of what remains and removes it; None, with nothing left, once exhausted |
| Certificates.CertificateChainIter.NextBack | src/certificate/mod.rs:226-228 | yields the back of what remains (the leaf while it is there) and removes it; None once exhausted |
| Certificates.CollectForward | src/certificate/mod.rs:204-222 | draining forwards yields the intermediates in order and then the leaf exactly once: `len(intermediates) + 1` items |
| Certificates.CollectBackward | src/certificate/mod.rs:204-228 | draining backwards yields `len(intermediates) + 1` items: the leaf first, then the intermediates from last to first |
| Certificates.SetLeaf | src/certificate/mod.rs:243-248 | `set_leaf`: the next stage holds exactly the given leaf |
| Certificates.ChainBuilder.SetIntermediates | src/certificate/mod.rs:257-265 | `set_intermediates`: the new stage keeps the leaf of the previous stage and holds exactly the given certificates |
| Certificates.ChainBuilder.AddIntermediates | src/certificate/mod.rs:275-283 | appends the batch to the intermediates; the leaf is untouched |
| Certificates.ChainBuilder.Build | src/certificate/mod.rs:286-290 | never fails; the chain holds the builder's leaf and intermediates unchanged |
| Certificates.BuildChain | src/certificate/mod.rs:243-290 | through all stages: the chain's leaf is the one given to `set_leaf`, its intermediates the `set_intermediates` sequence followed by every `add_intermediates` batch in call order, and `build` succeeds |
| Verify.Dispatch | src/certificate/verify.rs:46-77 | the OID switch with disabled arms removed: the selected scheme is enabled and has that OID; none selected iff no enabled scheme has it |
| Verify.RunAdapter | src/certificate/verify.rs:51-71 | one match arm: `VerifyingKey::try_from`, then `verify_certificate` (src/signature/mod.rs:101-111); an adapter passes iff key extraction, TBS encoding, signature decoding and verification all succeed; the first failing step's error propagates; a failed verification is a signature error |
| Verify.VerifySignature | src/certificate/verify.rs:25-81 | differing SPKI and signature algorithm identifiers give `AlgorithmMismatch`; equal ones with no enabled scheme for the OID give `AlgorithmUnsupported`; otherwise the adapter chosen by the issuer's SPKI OID decides, and the result is Ok iff it accepts |
| Verify.RejectionSkipsAdapters | src/certificate/verify.rs:41-77 | on an algorithm mismatch or an unsupported OID the call fails without depending on the adapters: two suites with the same enabled schemes agree |
| Verify.DisabledSchemeUnsupported | src/certificate/verify.rs:48-77 | an OID whose scheme is compiled out falls through to `AlgorithmUnsupported` |
| Validate.ValidatePeriod | src/certificate/validate.rs:11-36 | Ok iff notBefore <= now <= notAfter (both bounds inclusive); `CertificateImmature` iff now < notBefore (taking precedence); `CertificateExpired` iff in force but notAfter < now |
| Validate.ValidateChainPeriod | src/certificate/validate.rs:40-50 | checks the leaf, then the intermediates in order: Ok iff every one is in period; otherwise the error of the first one that is not |
| Validate.IssuerCheck | src/certificate/validate.rs:84-142 | the issuer steps in source order: passes iff all five (basic constraints, key usage, name linkage, key identifiers, signature) accept; a non-CA BasicConstraints gives `BasicConstraintsViolation`; else a KeyUsage without keyCertSign gives `KeyUsageViolation`; else unlinked names give `IssuerSubjectMismatch`; else an AKI key-identifier or serial mismatch gives `AuthorityKeyIdentifierMismatch`; else the signature check's result is returned |
| Validate.CheckIssuer | src/certificate/validate.rs:84-142 | the early-return steps compute exactly `IssuerCheck` |
| Validate.Walk | src/certificate/validate.rs:56 | the walk is trust anchor, intermediates, leaf: `len(intermediates) + 2` nodes, anchor first and leaf last |
| Validate.NodeCheck | src/certificate/validate.rs:71-143 | one iteration passes iff the node is in period and, when it has a successor, all issuer steps accept against it |
| Validate.CheckPathLength | src/certificate/validate.rs:146-159 | the final pass with `len() - 1` taken without underflow: Ok iff each present constraint c_i bounds the number of entries after it (n - 1 - i <= c_i); otherwise `BasicConstraintsViolation` |
| Validate.CheckPathLengthAsWritten | src/certificate/validate.rs:150 | the final pass as written: panics (None) exactly when nothing was recorded; otherwise Ok iff the recorded constraints are respected, and a failure is `BasicConstraintsViolation` |
| Validate.ValidatePath | src/certificate/validate.rs:52-160 | the loop over the peekable walk, with the vector pushes and the final pass, computes exactly `PathValidation` of the walk; the final pass is the corrected `CheckPathLength`, so an empty vector is accepted, as in a release build where the subtraction wraps and the loop is empty, whereas a debug build panics there (only `CheckPathLengthAsWritten` models that panic) |
| Validate.WalkFromCharacterised | src/certificate/validate.rs:62-144 | the walk loop passes iff every node's iteration passes; otherwise its error is that of the first node that fails |
| Validate.WalkStopsAtFirstFailure | src/certificate/validate.rs:62-144 | when every earlier node passes, the first failing node's error is the loop's |
| Validate.PathValidationAccepts | src/certificate/validate.rs:52-160 | `validate_path` is Ok iff every node, leaf included, is in period, every adjacent pair passes all five issuer steps, and the recorded path-length constraints hold |
| Validate.PathValidationFirstError | src/certificate/validate.rs:52-160 | a rejection is the error of the first failing node, or `BasicConstraintsViolation` from the final pass when every node passes |
| Validate.PathValidationChecksEveryPeriod | src/certificate/validate.rs:62-72 | on success the trust anchor and every certificate of the chain (leaf, then the intermediates) are in period |
| Validate.NonCaIssuerNeverAccepted | src/certificate/validate.rs:86-94 | a path with an issuer-role node whose BasicConstraints has ca = false is never accepted |
| Validate.NonCaIssuerRejected | src/certificate/validate.rs:86-94 | ... and when nothing fails before it, and it is in period, the error is `BasicConstraintsViolation` |
| Validate.KeyUsageRejected | src/certificate/validate.rs:101-109 | an issuer whose KeyUsage lacks keyCertSign, with everything before passing, gives `KeyUsageViolation` |
| Validate.NameMismatchRejected | src/certificate/validate.rs:114-116 | an issuer whose subject differs from its successor's issuer, with everything before passing, gives `IssuerSubjectMismatch` |
| Validate.KeyIdentifierMismatchRejected | src/certificate/validate.rs:120-138 | an AKI key identifier that differs from the issuer's SKI, or an AKI serial that differs from the issuer's serial, with everything before passing, gives `AuthorityKeyIdentifierMismatch` |
| Validate.SignatureFailureRejected | src/certificate/validate.rs:140-142 | a signature that does not verify, with everything before passing, aborts with the signature check's own error |
| Validate.RecordedAppend | src/certificate/validate.rs:86-97 | the path-length vector of a concatenation of issuers is the concatenation of their vectors |
| Validate.RecordedSplit | src/certificate/validate.rs:86-97 | an issuer carrying BasicConstraints contributes exactly its pathLenConstraint at its place in the vector |
| Validate.ZeroPathLenViolated | src/certificate/validate.rs:150-157 | a constraint of 0 followed by another BasicConstraints-carrying issuer violates the final pass |
| Validate.ZeroFollowedViolates | src/certificate/validate.rs:150-157 | a recorded constraint of 0 with any entry after it fails the final pass |
| Validate.ZeroPathLenAt | src/certificate/validate.rs:150-157 | the same, with the two issuers given by their positions |
| Validate.PathLenZeroBelowCa | src/certificate/validate.rs:86-97 | a CA with pathLenConstraint 0 above another issuer carrying BasicConstraints makes `validate_path` fail with `BasicConstraintsViolation` even when every per-node check passes |
| Validate.NoBasicConstraintsRecordsNothing | src/certificate/validate.rs:86-97 | issuers without BasicConstraints record nothing |
| Validate.UnconstrainedWalkAccepted | src/certificate/validate.rs:150 | a concrete trust anchor with no BasicConstraints directly above a leaf: every node passes, nothing is recorded, and the corrected validation accepts, while the pass as written reaches the underflow |

## Left out

- DER and PEM decoding and encoding of whole certificates (`from_der`, `from_pem`, `to_der`, `to_pem`): these are the foreign `x509_cert` codec. The model starts from the decoded structure.
- Decoding of extension payloads: the seven `from_der` decoders are fields of the parameter `X509.DerCodec`, arbitrary functions that may fail.
- The signature adapters (`VerifyingKey::try_from`, `Signature::try_from`, `Verifier::verify`, TBS encoding): fields of the parameter `Verify.Crypto`, with no cryptography modelled. The cargo features are its `enabled` set. That set over-approximates them: the `ed25519` feature gates the Ed25519 arm, and the single `ecdsa` feature gates both ECDSA arms together, while `enabled` also admits the two ECDSA schemes separately.
- Verify.VerifySignature: the model does not claim that the ECDSA arms can be reached with real EC keys. Those keys carry `id-ecPublicKey` in the SPKI, which never equals an ECDSA signature algorithm.
- `SystemTime::now()`: `now` is a parameter. One `now` serves the whole path walk, although the source reads the clock once per certificate.
- Time is an integer. The conversion of `Time` values to `SystemTime` is not modelled.
- `fingerprint_base64`, `issuer()`, `subject()`, `serial_bytes()`, `serial_string()`, `public_key_bytes()`, `validity()`, `inner()`: accessors and string rendering. No logic of the chain depends on them.
- The `CertificateChain` accessors `new`, `intermediates` and `leaf` are the `CertificateChain` datatype's constructor and fields.
- `tracing` spans and `debug!` output: they have no effect on control flow.
- `Display` and `source` implementations of the error types: formatting only. The variants are mirrored in `Errors`.
- The signature crate's own `Error` (`SignatureMalformed`, `Signature`, `Pkcs8`, `Ans1`) is folded into the crate-level error produced by the adapters.
- Validate.ValidatePath: the constraint of an issuer is recorded after all of its steps pass, not between the BasicConstraints and KeyUsage steps. Every later failure returns before the vector is read, so the outcomes are identical.
- tests/validation.rs: its fixtures are PEM files that are not part of this model. src/lib.rs holds module declarations only.
- Rust's panics on allocation failure, and `usize` width: counts are unbounded integers. The `u8` path length is a subset type of `int`.

## Findings

| source | as written | input that shows it | evidently intended | confidence | as-written member | corrected member |
|---|---|---|---|---|---|---|
| src/certificate/validate.rs:150 | `path_len_constraints.len() - 1` on `usize`; underflows when no issuer carried BasicConstraints, which panics in debug builds and wraps in release builds | a trust anchor without BasicConstraints that signs the leaf directly, with no intermediates, where every period, name and signature check passes (`UnconstrainedWalkAccepted`) | no constraint was recorded, so nothing is violated and `validate_path` returns Ok | high; not executed | Validate.CheckPathLengthAsWritten | Validate.CheckPathLength |
