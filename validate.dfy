/**
 * Period and path validation (src/certificate/validate.rs).  The clock is
 * a parameter `now`, in the same unit as the validity times.
 */
module Validate {
  import opened Wrappers
  import X509
  import opened Errors
  import opened Extensions
  import opened Certificates
  import opened Verify

  // Validity period

  /** Inside the validity window; both ends inclusive. */
  predicate InPeriod(cert: Certificate, now: int)
  {
    cert.inner.tbsCertificate.validity.notBefore <= now <= cert.inner.tbsCertificate.validity.notAfter
  }

  /** `Certificate::validate_period`. */
  function ValidatePeriod(cert: Certificate, now: int): (r: Outcome<Error>)
    ensures r.Pass? <==> InPeriod(cert, now)
    ensures r == Fail(CertificateError(CertificateImmature)) <==> now < cert.inner.tbsCertificate.validity.notBefore
    ensures r == Fail(CertificateError(CertificateExpired)) <==>
      cert.inner.tbsCertificate.validity.notBefore <= now && cert.inner.tbsCertificate.validity.notAfter < now
  {
    var validity := cert.inner.tbsCertificate.validity;
    if validity.notBefore > now then Fail(CertificateError(CertificateImmature))
    else if validity.notAfter < now then Fail(CertificateError(CertificateExpired))
    else Pass
  }

  /** The order in which the chain's own period check visits certificates: leaf first. */
  function PeriodOrder(chain: CertificateChain): seq<Certificate>
  {
    [chain.leaf] + chain.intermediates
  }

  /**
   * `CertificateChain::validate_period`: the leaf, then each intermediate
   * in order; the first failure is returned.
   */
  method ValidateChainPeriod(chain: CertificateChain, now: int) returns (r: Outcome<Error>)
    ensures r.Pass? <==> forall i :: 0 <= i < |PeriodOrder(chain)| ==> InPeriod(PeriodOrder(chain)[i], now)
    ensures r.Fail? ==>
      exists i :: 0 <= i < |PeriodOrder(chain)| && ValidatePeriod(PeriodOrder(chain)[i], now) == r
                  && forall j :: 0 <= j < i ==> InPeriod(PeriodOrder(chain)[j], now)
  {
    var order := PeriodOrder(chain);
    r := ValidatePeriod(chain.leaf, now);
    if r.Fail? {
      assert order[0] == chain.leaf;
      return;
    }
    for i := 0 to |chain.intermediates|
      invariant r.Pass?
      invariant forall j :: 0 <= j < i + 1 ==> InPeriod(order[j], now)
    {
      assert order[i + 1] == chain.intermediates[i];
      r := ValidatePeriod(chain.intermediates[i], now);
      if r.Fail? {
        assert ValidatePeriod(order[i + 1], now) == r;
        return;
      }
    }
  }

  // The steps run for an issuer-role node against its successor

  /** Step 1: an issuer carrying BasicConstraints must be a CA; carrying none passes. */
  predicate BasicConstraintsOk(issuer: Certificate)
  {
    var bc := GetBasicConstraints(issuer.parsedExtensions);
    bc.None? || bc.value.ca
  }

  /** Step 2: an issuer carrying KeyUsage must assert keyCertSign; carrying none passes. */
  predicate KeyUsageOk(issuer: Certificate)
  {
    var ku := GetKeyUsage(issuer.parsedExtensions);
    ku.None? || X509.KeyCertSign in ku.value.bits
  }

  /** Step 3: the issuer's subject name is the subject's issuer name. */
  predicate NamesLinked(issuer: Certificate, subject: Certificate)
  {
    issuer.inner.tbsCertificate.subject == subject.inner.tbsCertificate.issuer
  }

  /**
   * Step 4: where the subject's AKI carries a key identifier and the issuer
   * an SKI, they agree; where the AKI carries an authority serial number,
   * it is the issuer's serial number.
   */
  predicate KeyIdentifiersLinked(issuer: Certificate, subject: Certificate)
  {
    var aki := GetAuthorityKeyIdentifier(subject.parsedExtensions);
    var ski := GetSubjectKeyIdentifier(issuer.parsedExtensions);
    aki.Some? ==>
      && (aki.value.keyIdentifier.Some? && ski.Some? ==> aki.value.keyIdentifier.value == ski.value.keyIdentifier)
      && (aki.value.authorityCertSerialNumber.Some? ==>
            aki.value.authorityCertSerialNumber.value == issuer.inner.tbsCertificate.serialNumber)
  }

  /** All five steps accept `issuer` as the signer of `subject`. */
  predicate IssuerAccepts(issuer: Certificate, subject: Certificate, crypto: Crypto)
  {
    && BasicConstraintsOk(issuer)
    && KeyUsageOk(issuer)
    && NamesLinked(issuer, subject)
    && KeyIdentifiersLinked(issuer, subject)
    && VerifySignature(crypto, issuer, subject).Pass?
  }

  /** The five steps in order; the first failing one gives the error. */
  function IssuerCheck(issuer: Certificate, subject: Certificate, crypto: Crypto): (r: Outcome<Error>)
    ensures r.Pass? <==> IssuerAccepts(issuer, subject, crypto)
    ensures !BasicConstraintsOk(issuer) ==> r == Fail(CertificateError(BasicConstraintsViolation))
    ensures BasicConstraintsOk(issuer) && !KeyUsageOk(issuer) ==> r == Fail(CertificateError(KeyUsageViolation))
    ensures (BasicConstraintsOk(issuer) && KeyUsageOk(issuer) && !NamesLinked(issuer, subject)) ==>
      r == Fail(CertificateError(IssuerSubjectMismatch))
    ensures (BasicConstraintsOk(issuer) && KeyUsageOk(issuer) && NamesLinked(issuer, subject) &&
             !KeyIdentifiersLinked(issuer, subject)) ==>
      r == Fail(CertificateError(AuthorityKeyIdentifierMismatch))
    ensures (BasicConstraintsOk(issuer) && KeyUsageOk(issuer) && NamesLinked(issuer, subject) &&
             KeyIdentifiersLinked(issuer, subject)) ==>
      r == VerifySignature(crypto, issuer, subject)
  {
    if !BasicConstraintsOk(issuer) then Fail(CertificateError(BasicConstraintsViolation))
    else if !KeyUsageOk(issuer) then Fail(CertificateError(KeyUsageViolation))
    else if !NamesLinked(issuer, subject) then Fail(CertificateError(IssuerSubjectMismatch))
    else if !KeyIdentifiersLinked(issuer, subject) then Fail(CertificateError(AuthorityKeyIdentifierMismatch))
    else VerifySignature(crypto, issuer, subject)
  }

  // The walk

  /** The walk of `validate_path`: trust anchor, intermediates in order, leaf. */
  function Walk(chain: CertificateChain, trustAnchor: Certificate): (nodes: seq<Certificate>)
    ensures |nodes| == |chain.intermediates| + 2
    ensures nodes[0] == trustAnchor && nodes[|nodes| - 1] == chain.leaf
  {
    [trustAnchor] + chain.intermediates + [chain.leaf]
  }

  /** Everything done for node `i`: its period, then, if it has a successor, the issuer steps. */
  function NodeCheck(nodes: seq<Certificate>, i: nat, now: int, crypto: Crypto): (r: Outcome<Error>)
    requires i < |nodes|
    ensures r.Pass? <==> InPeriod(nodes[i], now) && (i + 1 < |nodes| ==> IssuerAccepts(nodes[i], nodes[i + 1], crypto))
  {
    match ValidatePeriod(nodes[i], now)
    case Fail(e) => Fail(e)
    case Pass => if i + 1 < |nodes| then IssuerCheck(nodes[i], nodes[i + 1], crypto) else Pass
  }

  /** The nodes from `k` on, in order, stopping at the first failure. */
  function WalkFrom(nodes: seq<Certificate>, k: nat, now: int, crypto: Crypto): Outcome<Error>
    requires k <= |nodes|
    decreases |nodes| - k
  {
    if k == |nodes| then Pass
    else
      match NodeCheck(nodes, k, now, crypto)
      case Fail(e) => Fail(e)
      case Pass => WalkFrom(nodes, k + 1, now, crypto)
  }

  /** The nodes that play the issuer role: all but the last. */
  function IssuerRole(nodes: seq<Certificate>): seq<Certificate>
  {
    if nodes == [] then [] else nodes[..|nodes| - 1]
  }

  /**
   * The `path_len_constraints` vector: for each issuer carrying
   * BasicConstraints, in walk order, its pathLenConstraint.
   */
  function Recorded(issuers: seq<Certificate>): seq<Option<X509.U8>>
  {
    if issuers == [] then []
    else
      var last := GetBasicConstraints(issuers[|issuers| - 1].parsedExtensions);
      Recorded(issuers[..|issuers| - 1]) + (if last.Some? then [last.value.pathLenConstraint] else [])
  }

  /** Each recorded constraint bounds the number of recorded entries after it. */
  predicate PathLenRespected(constraints: seq<Option<X509.U8>>)
  {
    forall i :: 0 <= i < |constraints| && constraints[i].Some? ==> |constraints| - 1 - i <= constraints[i].value
  }

  /** What `validate_path` returns for the walk `nodes`. */
  function PathValidation(nodes: seq<Certificate>, now: int, crypto: Crypto): Outcome<Error>
  {
    match WalkFrom(nodes, 0, now, crypto)
    case Fail(e) => Fail(e)
    case Pass =>
      if PathLenRespected(Recorded(IssuerRole(nodes))) then Pass
      else Fail(CertificateError(BasicConstraintsViolation))
  }

  /**
   * The final pass of `validate_path` over the recorded constraints, with
   * `path_len` computed without the unsigned underflow (see
   * CheckPathLengthAsWritten).
   */
  method CheckPathLength(constraints: seq<Option<X509.U8>>) returns (r: Outcome<Error>)
    ensures r.Pass? <==> PathLenRespected(constraints)
    ensures r.Fail? ==> r == Fail(CertificateError(BasicConstraintsViolation))
  {
    var pathLen := |constraints| - 1;
    for i := 0 to |constraints|
      invariant forall j :: 0 <= j < i && constraints[j].Some? ==> pathLen - j <= constraints[j].value
    {
      if constraints[i].Some? && pathLen - i > constraints[i].value {
        return Fail(CertificateError(BasicConstraintsViolation));
      }
    }
    return Pass;
  }

  /**
   * The final pass as written: `len() - 1` on an unsigned length panics
   * (`None`) when no issuer carried BasicConstraints.
   */
  method CheckPathLengthAsWritten(constraints: seq<Option<X509.U8>>) returns (r: Option<Outcome<Error>>)
    ensures r.None? <==> constraints == []
    ensures r.Some? ==> (r.value.Pass? <==> PathLenRespected(constraints))
    ensures r.Some? && r.value.Fail? ==> r.value == Fail(CertificateError(BasicConstraintsViolation))
  {
    if |constraints| == 0 {
      return None;
    }
    var outcome := CheckPathLength(constraints);
    return Some(outcome);
  }

  /**
   * The body of the walk for an issuer-role node `issuer` whose successor
   * is `subject`: basic constraints, key usage, names, key identifiers,
   * signature, each returning early on failure.
   */
  method CheckIssuer(issuer: Certificate, subject: Certificate, crypto: Crypto) returns (r: Outcome<Error>)
    ensures r == IssuerCheck(issuer, subject, crypto)
  {
    var bc := GetBasicConstraints(issuer.parsedExtensions);
    if bc.Some? && !bc.value.ca {
      return Fail(CertificateError(BasicConstraintsViolation));
    }
    var ku := GetKeyUsage(issuer.parsedExtensions);
    if ku.Some? && X509.KeyCertSign !in ku.value.bits {
      return Fail(CertificateError(KeyUsageViolation));
    }
    if issuer.inner.tbsCertificate.subject != subject.inner.tbsCertificate.issuer {
      return Fail(CertificateError(IssuerSubjectMismatch));
    }
    var aki := GetAuthorityKeyIdentifier(subject.parsedExtensions);
    if aki.Some? {
      if aki.value.keyIdentifier.Some? {
        var ski := GetSubjectKeyIdentifier(issuer.parsedExtensions);
        if ski.Some? && aki.value.keyIdentifier.value != ski.value.keyIdentifier {
          return Fail(CertificateError(AuthorityKeyIdentifierMismatch));
        }
      }
      if aki.value.authorityCertSerialNumber.Some? &&
         aki.value.authorityCertSerialNumber.value != issuer.inner.tbsCertificate.serialNumber {
        return Fail(CertificateError(AuthorityKeyIdentifierMismatch));
      }
    }
    r := VerifySignature(crypto, issuer, subject);
  }

  /**
   * `CertificateChain::validate_path`: walks trust anchor, intermediates
   * and leaf through the chain's own iterator with one node of lookahead,
   * checks every node's period and every issuer against its successor,
   * records path-length constraints, and ends with the path-length pass.
   */
  method ValidatePath(chain: CertificateChain, trustAnchor: Certificate, now: int, crypto: Crypto)
    returns (r: Outcome<Error>)
    ensures r == PathValidation(Walk(chain, trustAnchor), now, crypto)
  {
    ghost var nodes := Walk(chain, trustAnchor);
    assert nodes[1..] == Order(chain);
    var it := new CertificateChainIter(chain);
    var current := trustAnchor;
    var next := it.Next();
    var constraints: seq<Option<X509.U8>> := [];
    ghost var k: nat := 0;
    while true
      invariant k < |nodes| && current == nodes[k]
      invariant next == if k + 1 < |nodes| then Some(nodes[k + 1]) else None
      invariant k + 2 <= |nodes| ==> it.Remaining() == nodes[k + 2..]
      invariant k + 2 > |nodes| ==> it.Remaining() == []
      invariant WalkFrom(nodes, 0, now, crypto) == WalkFrom(nodes, k, now, crypto)
      invariant constraints == Recorded(nodes[..k])
      decreases |nodes| - k
    {
      var period := ValidatePeriod(current, now);
      if period.Fail? {
        assert NodeCheck(nodes, k, now, crypto) == period;
        return period;
      }
      if next.None? {
        assert NodeCheck(nodes, k, now, crypto).Pass? && k + 1 == |nodes|;
        break;
      }
      var subject := next.value;
      var steps := CheckIssuer(current, subject, crypto);
      assert NodeCheck(nodes, k, now, crypto) == steps;
      if steps.Fail? {
        return steps;
      }
      var bc := GetBasicConstraints(current.parsedExtensions);
      if bc.Some? {
        constraints := constraints + [bc.value.pathLenConstraint];
      }
      RecordedSnoc(nodes, k);
      current := subject;
      next := it.Next();
      k := k + 1;
    }
    assert IssuerRole(nodes) == nodes[..k];
    r := CheckPathLength(constraints);
  }

  /** The recorded vector grows by the next issuer's contribution. */
  lemma RecordedSnoc(nodes: seq<Certificate>, k: nat)
    requires k < |nodes|
    ensures Recorded(nodes[..k + 1]) == Recorded(nodes[..k]) +
      (var bc := GetBasicConstraints(nodes[k].parsedExtensions); if bc.Some? then [bc.value.pathLenConstraint] else [])
  {
    assert nodes[..k + 1][..k] == nodes[..k];
  }

  // What the walk establishes

  /** The walk passes exactly when every node passes, and otherwise fails with the first failing node's error. */
  lemma {:induction false} WalkFromCharacterised(nodes: seq<Certificate>, k: nat, now: int, crypto: Crypto)
    requires k <= |nodes|
    ensures WalkFrom(nodes, k, now, crypto).Pass? <==>
      forall i :: k <= i < |nodes| ==> NodeCheck(nodes, i, now, crypto).Pass?
    ensures WalkFrom(nodes, k, now, crypto).Fail? ==>
      exists i :: && k <= i < |nodes|
                  && NodeCheck(nodes, i, now, crypto) == WalkFrom(nodes, k, now, crypto)
                  && forall j :: k <= j < i ==> NodeCheck(nodes, j, now, crypto).Pass?
    decreases |nodes| - k
  {
    if k < |nodes| {
      WalkFromCharacterised(nodes, k + 1, now, crypto);
      if NodeCheck(nodes, k, now, crypto).Pass? && WalkFrom(nodes, k + 1, now, crypto).Fail? {
        var i :| && k + 1 <= i < |nodes|
                 && NodeCheck(nodes, i, now, crypto) == WalkFrom(nodes, k + 1, now, crypto)
                 && forall j :: k + 1 <= j < i ==> NodeCheck(nodes, j, now, crypto).Pass?;
        assert forall j :: k <= j < i ==> NodeCheck(nodes, j, now, crypto).Pass?;
      }
    }
  }

  /** When every node before `i` passes and node `i` fails, node `i`'s error is the walk's. */
  lemma {:induction false} WalkStopsAtFirstFailure(nodes: seq<Certificate>, k: nat, i: nat, now: int, crypto: Crypto)
    requires k <= i < |nodes|
    requires forall j :: k <= j < i ==> NodeCheck(nodes, j, now, crypto).Pass?
    requires NodeCheck(nodes, i, now, crypto).Fail?
    ensures WalkFrom(nodes, k, now, crypto) == NodeCheck(nodes, i, now, crypto)
    decreases i - k
  {
    if k < i {
      WalkStopsAtFirstFailure(nodes, k + 1, i, now, crypto);
    }
  }

  /**
   * Acceptance, stated without the walk: every node is in its period, every
   * issuer-role node passes all five steps against its successor, and the
   * recorded path-length constraints are respected.
   */
  lemma PathValidationAccepts(nodes: seq<Certificate>, now: int, crypto: Crypto)
    ensures PathValidation(nodes, now, crypto).Pass? <==>
      && (forall i :: 0 <= i < |nodes| ==> InPeriod(nodes[i], now))
      && (forall i :: 0 <= i < |nodes| - 1 ==> IssuerAccepts(nodes[i], nodes[i + 1], crypto))
      && PathLenRespected(Recorded(IssuerRole(nodes)))
  {
    WalkFromCharacterised(nodes, 0, now, crypto);
    if (forall i :: 0 <= i < |nodes| ==> InPeriod(nodes[i], now))
       && (forall i :: 0 <= i < |nodes| - 1 ==> IssuerAccepts(nodes[i], nodes[i + 1], crypto)) {
      forall i | 0 <= i < |nodes| ensures NodeCheck(nodes, i, now, crypto).Pass? {
        if i + 1 < |nodes| {
          assert IssuerAccepts(nodes[i], nodes[i + 1], crypto);
        }
      }
    }
    if WalkFrom(nodes, 0, now, crypto).Pass? {
      forall i | 0 <= i < |nodes| - 1 ensures IssuerAccepts(nodes[i], nodes[i + 1], crypto) {
        assert NodeCheck(nodes, i, now, crypto).Pass?;
      }
      forall i | 0 <= i < |nodes| ensures InPeriod(nodes[i], now) {
        assert NodeCheck(nodes, i, now, crypto).Pass?;
      }
    }
  }

  /**
   * First-error semantics: a rejection is the error of the first node that
   * fails (its period, then its issuer steps), or, when every node passes,
   * the path-length violation.
   */
  lemma PathValidationFirstError(nodes: seq<Certificate>, now: int, crypto: Crypto)
    ensures PathValidation(nodes, now, crypto).Fail? ==>
      || (exists i :: && 0 <= i < |nodes|
                      && NodeCheck(nodes, i, now, crypto) == PathValidation(nodes, now, crypto)
                      && forall j :: 0 <= j < i ==> NodeCheck(nodes, j, now, crypto).Pass?)
      || (&& (forall i :: 0 <= i < |nodes| ==> NodeCheck(nodes, i, now, crypto).Pass?)
          && !PathLenRespected(Recorded(IssuerRole(nodes)))
          && PathValidation(nodes, now, crypto) == Fail(CertificateError(BasicConstraintsViolation)))
  {
    WalkFromCharacterised(nodes, 0, now, crypto);
  }

  /** Every certificate in the walk, the leaf included, has its period checked. */
  lemma PathValidationChecksEveryPeriod(chain: CertificateChain, trustAnchor: Certificate, now: int, crypto: Crypto)
    requires PathValidation(Walk(chain, trustAnchor), now, crypto).Pass?
    ensures InPeriod(trustAnchor, now)
    ensures forall i :: 0 <= i < |PeriodOrder(chain)| ==> InPeriod(PeriodOrder(chain)[i], now)
  {
    var nodes := Walk(chain, trustAnchor);
    PathValidationAccepts(nodes, now, crypto);
    forall i | 0 <= i < |PeriodOrder(chain)| ensures InPeriod(PeriodOrder(chain)[i], now) {
      if i == 0 {
        assert PeriodOrder(chain)[0] == nodes[|nodes| - 1];
      } else {
        assert PeriodOrder(chain)[i] == nodes[i];
      }
    }
  }

  /** An issuer-role node carrying BasicConstraints with ca = false is never accepted. */
  lemma NonCaIssuerNeverAccepted(nodes: seq<Certificate>, i: nat, now: int, crypto: Crypto)
    requires i + 1 < |nodes|
    requires GetBasicConstraints(nodes[i].parsedExtensions).Some?
    requires !GetBasicConstraints(nodes[i].parsedExtensions).value.ca
    ensures PathValidation(nodes, now, crypto).Fail?
  {
    PathValidationAccepts(nodes, now, crypto);
    assert !IssuerAccepts(nodes[i], nodes[i + 1], crypto);
  }

  /**
   * ... and when it is the first thing that goes wrong, the error is
   * BasicConstraintsViolation.
   */
  lemma NonCaIssuerRejected(nodes: seq<Certificate>, i: nat, now: int, crypto: Crypto)
    requires i + 1 < |nodes|
    requires forall j :: 0 <= j < i ==> NodeCheck(nodes, j, now, crypto).Pass?
    requires InPeriod(nodes[i], now)
    requires GetBasicConstraints(nodes[i].parsedExtensions).Some?
    requires !GetBasicConstraints(nodes[i].parsedExtensions).value.ca
    ensures PathValidation(nodes, now, crypto) == Fail(CertificateError(BasicConstraintsViolation))
  {
    WalkStopsAtFirstFailure(nodes, 0, i, now, crypto);
  }

  /**
   * An issuer carrying KeyUsage without keyCertSign, with nothing failing
   * before, gives KeyUsageViolation.
   */
  lemma KeyUsageRejected(nodes: seq<Certificate>, i: nat, now: int, crypto: Crypto)
    requires i + 1 < |nodes|
    requires forall j :: 0 <= j < i ==> NodeCheck(nodes, j, now, crypto).Pass?
    requires InPeriod(nodes[i], now) && BasicConstraintsOk(nodes[i])
    requires GetKeyUsage(nodes[i].parsedExtensions).Some?
    requires X509.KeyCertSign !in GetKeyUsage(nodes[i].parsedExtensions).value.bits
    ensures PathValidation(nodes, now, crypto) == Fail(CertificateError(KeyUsageViolation))
  {
    WalkStopsAtFirstFailure(nodes, 0, i, now, crypto);
  }

  /**
   * An issuer whose subject name is not its successor's issuer name, with
   * nothing failing before, gives IssuerSubjectMismatch.
   */
  lemma NameMismatchRejected(nodes: seq<Certificate>, i: nat, now: int, crypto: Crypto)
    requires i + 1 < |nodes|
    requires forall j :: 0 <= j < i ==> NodeCheck(nodes, j, now, crypto).Pass?
    requires InPeriod(nodes[i], now) && BasicConstraintsOk(nodes[i]) && KeyUsageOk(nodes[i])
    requires !NamesLinked(nodes[i], nodes[i + 1])
    ensures PathValidation(nodes, now, crypto) == Fail(CertificateError(IssuerSubjectMismatch))
  {
    WalkStopsAtFirstFailure(nodes, 0, i, now, crypto);
  }

  /**
   * A subject whose AKI key identifier differs from the issuer's SKI, or
   * whose AKI serial number differs from the issuer's serial number, with
   * nothing failing before, gives AuthorityKeyIdentifierMismatch.
   */
  lemma KeyIdentifierMismatchRejected(nodes: seq<Certificate>, i: nat, now: int, crypto: Crypto)
    requires i + 1 < |nodes|
    requires forall j :: 0 <= j < i ==> NodeCheck(nodes, j, now, crypto).Pass?
    requires InPeriod(nodes[i], now) && BasicConstraintsOk(nodes[i]) && KeyUsageOk(nodes[i])
    requires NamesLinked(nodes[i], nodes[i + 1])
    requires !KeyIdentifiersLinked(nodes[i], nodes[i + 1])
    ensures PathValidation(nodes, now, crypto) == Fail(CertificateError(AuthorityKeyIdentifierMismatch))
  {
    WalkStopsAtFirstFailure(nodes, 0, i, now, crypto);
  }

  /**
   * A signature that does not verify, with nothing failing before, aborts
   * the validation with the verifier's own error.
   */
  lemma SignatureFailureRejected(nodes: seq<Certificate>, i: nat, now: int, crypto: Crypto)
    requires i + 1 < |nodes|
    requires forall j :: 0 <= j < i ==> NodeCheck(nodes, j, now, crypto).Pass?
    requires InPeriod(nodes[i], now) && BasicConstraintsOk(nodes[i]) && KeyUsageOk(nodes[i])
    requires NamesLinked(nodes[i], nodes[i + 1]) && KeyIdentifiersLinked(nodes[i], nodes[i + 1])
    requires VerifySignature(crypto, nodes[i], nodes[i + 1]).Fail?
    ensures PathValidation(nodes, now, crypto) == VerifySignature(crypto, nodes[i], nodes[i + 1])
  {
    WalkStopsAtFirstFailure(nodes, 0, i, now, crypto);
  }

  // Path length

  /** The recorded vector of a concatenation is the concatenation of the recorded vectors. */
  lemma {:induction false} RecordedAppend(a: seq<Certificate>, b: seq<Certificate>)
    ensures Recorded(a + b) == Recorded(a) + Recorded(b)
    decreases |b|
  {
    if b == [] {
      assert a + b == a;
    } else {
      var b' := b[..|b| - 1];
      assert (a + b)[..|a + b| - 1] == a + b';
      assert (a + b)[|a + b| - 1] == b[|b| - 1];
      RecordedAppend(a, b');
    }
  }

  /** An issuer carrying BasicConstraints contributes exactly its pathLenConstraint, in place. */
  lemma RecordedSplit(a: seq<Certificate>, x: Certificate, b: seq<Certificate>)
    requires GetBasicConstraints(x.parsedExtensions).Some?
    ensures Recorded(a + [x] + b) ==
      Recorded(a) + [GetBasicConstraints(x.parsedExtensions).value.pathLenConstraint] + Recorded(b)
  {
    RecordedAppend(a + [x], b);
    RecordedAppend(a, [x]);
    assert [x][..0] == [];
  }

  /**
   * Among issuers, one with pathLenConstraint 0 followed by another carrying
   * BasicConstraints leaves the recorded constraints violated.
   */
  lemma ZeroPathLenViolated(a: seq<Certificate>, x: Certificate, b: seq<Certificate>, y: Certificate, c: seq<Certificate>)
    requires GetBasicConstraints(x.parsedExtensions).Some?
    requires GetBasicConstraints(x.parsedExtensions).value.pathLenConstraint == Some(0)
    requires GetBasicConstraints(y.parsedExtensions).Some?
    ensures !PathLenRespected(Recorded(a + [x] + (b + [y] + c)))
  {
    RecordedSplit(a, x, b + [y] + c);
    RecordedSplit(b, y, c);
    ZeroFollowedViolates(Recorded(a), Recorded(b + [y] + c));
  }

  /** A recorded constraint of 0 with any entry after it is violated. */
  lemma ZeroFollowedViolates(before: seq<Option<X509.U8>>, after: seq<Option<X509.U8>>)
    requires |after| >= 1
    ensures !PathLenRespected(before + [Some(0)] + after)
  {
    var cs := before + [Some(0)] + after;
    assert cs[|before|] == Some(0);
  }

  /**
   * A CA with pathLenConstraint 0 followed, further down the walk, by
   * another issuer carrying BasicConstraints is rejected with
   * BasicConstraintsViolation, even when every node passes its own checks.
   */
  lemma PathLenZeroBelowCa(nodes: seq<Certificate>, i: nat, j: nat, now: int, crypto: Crypto)
    requires i < j < |nodes| - 1
    requires WalkFrom(nodes, 0, now, crypto).Pass?
    requires GetBasicConstraints(nodes[i].parsedExtensions).Some?
    requires GetBasicConstraints(nodes[i].parsedExtensions).value.pathLenConstraint == Some(0)
    requires GetBasicConstraints(nodes[j].parsedExtensions).Some?
    ensures PathValidation(nodes, now, crypto) == Fail(CertificateError(BasicConstraintsViolation))
  {
    ZeroPathLenAt(IssuerRole(nodes), i, j);
  }

  /** ZeroPathLenViolated, with the two issuers given by their positions. */
  lemma ZeroPathLenAt(issuers: seq<Certificate>, i: nat, j: nat)
    requires i < j < |issuers|
    requires GetBasicConstraints(issuers[i].parsedExtensions).Some?
    requires GetBasicConstraints(issuers[i].parsedExtensions).value.pathLenConstraint == Some(0)
    requires GetBasicConstraints(issuers[j].parsedExtensions).Some?
    ensures !PathLenRespected(Recorded(issuers))
  {
    SplitAround(issuers, i, j);
    ZeroPathLenViolated(issuers[..i], issuers[i], issuers[i + 1..j], issuers[j], issuers[j + 1..]);
  }

  /** A sequence cut around two of its positions. */
  lemma SplitAround<T>(s: seq<T>, i: nat, j: nat)
    requires i < j < |s|
    ensures s == s[..i] + [s[i]] + (s[i + 1..j] + [s[j]] + s[j + 1..])
  {
  }

  /**
   * When no issuer-role node carries BasicConstraints nothing is recorded,
   * and the outcome is the walk's alone.
   */
  lemma {:induction false} NoBasicConstraintsRecordsNothing(issuers: seq<Certificate>)
    requires forall i :: 0 <= i < |issuers| ==> GetBasicConstraints(issuers[i].parsedExtensions).None?
    ensures Recorded(issuers) == []
  {
    if issuers != [] {
      NoBasicConstraintsRecordsNothing(issuers[..|issuers| - 1]);
    }
  }

  // A walk on which `len() - 1` underflows

  /** A certificate without extensions, named `name`, signed with Ed25519, valid from 0 to 10. */
  function PlainCertificate(name: X509.Name): Certificate
  {
    var ed25519 := X509.AlgorithmIdentifier(ED25519_OID, None);
    Certificate(
      X509.RawCertificate(
        X509.TbsCertificate([1], name, X509.Validity(0, 10), name, X509.SubjectPublicKeyInfo(ed25519, []), None),
        ed25519, []),
      [])
  }

  /** Collaborators under which every key, encoding and signature is accepted. */
  function AcceptingCrypto(): Crypto
  {
    Crypto({Ed25519}, (s, c) => Success([]), c => Success([]), (s, c) => Success([]), (s, k, d, g) => Pass)
  }

  /**
   * A self-named trust anchor without BasicConstraints directly above a
   * leaf: every check of the walk passes and no constraint is recorded, so
   * the final pass as written would panic, while the intended outcome is
   * acceptance.
   */
  lemma UnconstrainedWalkAccepted()
    ensures var anchor := PlainCertificate(X509.Name([]));
            var nodes := Walk(CertificateChain([], anchor), anchor);
            && WalkFrom(nodes, 0, 5, AcceptingCrypto()).Pass?
            && Recorded(IssuerRole(nodes)) == []
            && PathValidation(nodes, 5, AcceptingCrypto()) == Pass
  {
    var anchor := PlainCertificate(X509.Name([]));
    var nodes := Walk(CertificateChain([], anchor), anchor);
    var crypto := AcceptingCrypto();
    assert nodes == [anchor, anchor];
    assert AdapterAccepts(crypto, Ed25519, anchor, anchor);
    assert IssuerAccepts(anchor, anchor, crypto);
    WalkFromCharacterised(nodes, 0, 5, crypto);
    NoBasicConstraintsRecordsNothing(IssuerRole(nodes));
  }
}
