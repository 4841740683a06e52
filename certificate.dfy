/**
 * The certificate entity, its construction from a decoded raw certificate,
 * the chain container with its double-ended iterator, and the staged chain
 * builder (src/certificate/mod.rs).
 */
module Certificates {
  import opened Wrappers
  import X509
  import opened Errors
  import opened Extensions

  /** A decoded certificate together with its typed extensions. */
  datatype Certificate = Certificate(inner: X509.RawCertificate, parsedExtensions: seq<Extension>)

  // Construction: the extension filter

  /** A conversion failure on this extension aborts construction: it is critical. */
  predicate Fatal(codec: X509.DerCodec, raw: X509.RawExtension)
  {
    raw.critical && ConvertExtension(codec, raw).Failure?
  }

  /** Index `i` holds the first extension whose failure is fatal. */
  ghost predicate FirstFatal(codec: X509.DerCodec, raws: seq<X509.RawExtension>, i: int)
  {
    && 0 <= i < |raws|
    && Fatal(codec, raws[i])
    && forall j :: 0 <= j < i ==> !Fatal(codec, raws[j])
  }

  /** What one extension contributes when it is not fatal: itself converted, or nothing. */
  function Contribution(codec: X509.DerCodec, raw: X509.RawExtension): seq<Extension>
  {
    var c := ConvertExtension(codec, raw);
    if c.Success? then [c.value] else []
  }

  /** The successfully converted extensions, in their original order. */
  function Kept(codec: X509.DerCodec, raws: seq<X509.RawExtension>): seq<Extension>
  {
    if raws == [] then []
    else
      Contribution(codec, raws[0]) + Kept(codec, raws[1..])
  }

  /** `Kept` distributes over concatenation: it keeps order and looks at each entry alone. */
  lemma {:induction false} KeptAppend(codec: X509.DerCodec, a: seq<X509.RawExtension>, b: seq<X509.RawExtension>)
    ensures Kept(codec, a + b) == Kept(codec, a) + Kept(codec, b)
  {
    if a == [] {
      assert a + b == b;
    } else {
      assert (a + b)[0] == a[0];
      assert (a + b)[1..] == a[1..] + b;
      KeptAppend(codec, a[1..], b);
    }
  }

  /**
   * The `filter_map` / `collect::<Result<_, _>>` pipeline of
   * `TryFrom<x509_cert::Certificate>`: a converted extension is kept, a
   * failed non-critical one is dropped, and the first failed critical one
   * ends the collection with its error.
   */
  function CollectExtensions(codec: X509.DerCodec, raws: seq<X509.RawExtension>): (r: Result<seq<Extension>, Error>)
    ensures r.Success? ==> |r.value| <= |raws|
  {
    if raws == [] then Success([])
    else
      var head := ConvertExtension(codec, raws[0]);
      if head.Failure? && raws[0].critical then Failure(head.error)
      else
        match CollectExtensions(codec, raws[1..])
        case Failure(e) => Failure(e)
        case Success(rest) => Success(Contribution(codec, raws[0]) + rest)
  }

  /**
   * Collection succeeds exactly when no critical extension fails to
   * convert; it then yields exactly the converted extensions in order, and
   * otherwise the error of the first failing critical extension.
   */
  lemma {:induction false} CollectCharacterised(codec: X509.DerCodec, raws: seq<X509.RawExtension>)
    ensures CollectExtensions(codec, raws).Success? <==> forall i :: 0 <= i < |raws| ==> !Fatal(codec, raws[i])
    ensures CollectExtensions(codec, raws).Success? ==> CollectExtensions(codec, raws).value == Kept(codec, raws)
    ensures CollectExtensions(codec, raws).Failure? ==>
      exists i :: FirstFatal(codec, raws, i) && CollectExtensions(codec, raws).error == ConvertExtension(codec, raws[i]).error
  {
    if raws != [] {
      var head := ConvertExtension(codec, raws[0]);
      if head.Failure? && raws[0].critical {
        assert FirstFatal(codec, raws, 0);
      } else {
        CollectCharacterised(codec, raws[1..]);
        var tail := CollectExtensions(codec, raws[1..]);
        if tail.Failure? {
          var i :| FirstFatal(codec, raws[1..], i) && tail.error == ConvertExtension(codec, raws[1..][i]).error;
          assert FirstFatal(codec, raws, i + 1);
          assert Fatal(codec, raws[i + 1]);
        } else {
          forall i | 0 <= i < |raws| ensures !Fatal(codec, raws[i]) {
            if i > 0 { assert raws[i] == raws[1..][i - 1]; }
          }
        }
      }
    }
  }

  /** The extension list of a raw certificate; an absent list reads as empty. */
  function RawExtensionsOf(raw: X509.RawCertificate): seq<X509.RawExtension>
  {
    if raw.tbsCertificate.extensions.Some? then raw.tbsCertificate.extensions.value else []
  }

  /** `TryFrom<x509_cert::Certificate> for Certificate`. */
  function FromRaw(codec: X509.DerCodec, raw: X509.RawCertificate): (r: Result<Certificate, Error>)
    ensures raw.tbsCertificate.extensions.None? ==> r == Success(Certificate(raw, []))
    ensures r.Success? <==> forall i :: 0 <= i < |RawExtensionsOf(raw)| ==> !Fatal(codec, RawExtensionsOf(raw)[i])
    ensures r.Success? ==> r.value.inner == raw && r.value.parsedExtensions == Kept(codec, RawExtensionsOf(raw))
    ensures r.Failure? ==>
      exists i :: FirstFatal(codec, RawExtensionsOf(raw), i) && r.error == ConvertExtension(codec, RawExtensionsOf(raw)[i]).error
  {
    CollectCharacterised(codec, RawExtensionsOf(raw));
    match CollectExtensions(codec, RawExtensionsOf(raw))
    case Failure(e) => Failure(e)
    case Success(exts) => Success(Certificate(raw, exts))
  }

  /** Sequencing of two collections: the first error wins, otherwise the kept lists are joined. */
  function AndThen(first: Result<seq<Extension>, Error>, second: Result<seq<Extension>, Error>): Result<seq<Extension>, Error>
  {
    match first
    case Failure(e) => Failure(e)
    case Success(x) =>
      match second
      case Failure(e) => Failure(e)
      case Success(y) => Success(x + y)
  }

  /** One step of the collection, for a list that is not empty. */
  lemma CollectStep(codec: X509.DerCodec, raws: seq<X509.RawExtension>)
    requires raws != []
    ensures Fatal(codec, raws[0]) ==> CollectExtensions(codec, raws) == Failure(ConvertExtension(codec, raws[0]).error)
    ensures !Fatal(codec, raws[0]) ==>
      CollectExtensions(codec, raws) == AndThen(Success(Contribution(codec, raws[0])), CollectExtensions(codec, raws[1..]))
  {
  }

  /** Sequencing is associative when it starts with a success. */
  lemma AndThenAssociative(p: seq<Extension>, x: Result<seq<Extension>, Error>, y: Result<seq<Extension>, Error>)
    ensures AndThen(Success(p), AndThen(x, y)) == AndThen(AndThen(Success(p), x), y)
  {
    if x.Success? && y.Success? {
      assert p + (x.value + y.value) == (p + x.value) + y.value;
    }
  }

  /**
   * Collecting a concatenation is collecting each part in turn: the first
   * part's error wins, otherwise the second part's, otherwise the two kept
   * lists are joined.
   */
  lemma {:induction false} CollectAppend(codec: X509.DerCodec, a: seq<X509.RawExtension>, b: seq<X509.RawExtension>)
    ensures CollectExtensions(codec, a + b) == AndThen(CollectExtensions(codec, a), CollectExtensions(codec, b))
  {
    if a == [] {
      assert a + b == b;
      var rb := CollectExtensions(codec, b);
      if rb.Success? { assert [] + rb.value == rb.value; }
    } else {
      var ab := a + b;
      assert ab[0] == a[0] && ab[1..] == a[1..] + b;
      CollectStep(codec, a);
      CollectStep(codec, ab);
      if !Fatal(codec, a[0]) {
        CollectAppend(codec, a[1..], b);
        AndThenAssociative(Contribution(codec, a[0]), CollectExtensions(codec, a[1..]), CollectExtensions(codec, b));
      }
    }
  }

  /**
   * An extension that fails to convert but is not critical is silently
   * dropped: removing it changes nothing, whether its OID is unknown or its
   * payload malformed.
   */
  lemma DropNonCritical(codec: X509.DerCodec, a: seq<X509.RawExtension>, x: X509.RawExtension, b: seq<X509.RawExtension>)
    requires !x.critical && ConvertExtension(codec, x).Failure?
    ensures CollectExtensions(codec, a + [x] + b) == CollectExtensions(codec, a + b)
  {
    CollectAppend(codec, a + [x], b);
    CollectAppend(codec, a, [x]);
    CollectAppend(codec, a, b);
    assert [x][0] == x && [x][1..] == [];
    assert CollectExtensions(codec, [x][1..]) == Success([]);
    var none: seq<Extension> := [];
    assert none + none == none;
    assert CollectExtensions(codec, [x]) == Success(none);
    var ra := CollectExtensions(codec, a);
    if ra.Success? { assert ra.value + [] == ra.value; }
  }

  // The chain container

  /** Intermediates (issuer-most first) followed by exactly one leaf. */
  datatype CertificateChain = CertificateChain(intermediates: seq<Certificate>, leaf: Certificate)

  /** The order in which the chain is iterated front to back. */
  function Order(chain: CertificateChain): seq<Certificate>
  {
    chain.intermediates + [chain.leaf]
  }

  /**
   * `CertificateChainIter`: a slice iterator over the intermediates and the
   * leaf held in an `Option` that is taken on first use.
   */
  class CertificateChainIter {
    var rest: seq<Certificate>
    var leaf: Option<Certificate>

    /** The items not yet yielded, front to back. */
    ghost function Remaining(): seq<Certificate>
      reads this
    {
      rest + (if leaf.Some? then [leaf.value] else [])
    }

    /** `CertificateChain::iter`. */
    constructor (chain: CertificateChain)
      ensures Remaining() == Order(chain)
    {
      rest := chain.intermediates;
      leaf := Some(chain.leaf);
    }

    /** `Iterator::next`: the next intermediate, or else the leaf, taken. */
    method Next() returns (item: Option<Certificate>)
      modifies this
      ensures old(Remaining()) == [] ==> item.None? && Remaining() == []
      ensures old(Remaining()) != [] ==> item == Some(old(Remaining())[0]) && Remaining() == old(Remaining())[1..]
    {
      if rest != [] {
        item := Some(rest[0]);
        rest := rest[1..];
      } else {
        item := leaf;
        leaf := None;
      }
    }

    /** `DoubleEndedIterator::next_back`: the leaf, taken, or else the last intermediate. */
    method NextBack() returns (item: Option<Certificate>)
      modifies this
      ensures old(Remaining()) == [] ==> item.None? && Remaining() == []
      ensures old(Remaining()) != [] ==>
        item == Some(old(Remaining())[|old(Remaining())| - 1]) && Remaining() == old(Remaining())[..|old(Remaining())| - 1]
    {
      if leaf.Some? {
        item := leaf;
        leaf := None;
      } else if rest != [] {
        item := Some(rest[|rest| - 1]);
        rest := rest[..|rest| - 1];
      } else {
        item := None;
      }
    }
  }

  /**
   * Draining the iterator from the front yields every intermediate in
   * order and then the leaf, once: `|intermediates| + 1` items.
   */
  method CollectForward(chain: CertificateChain) returns (items: seq<Certificate>)
    ensures items == chain.intermediates + [chain.leaf]
    ensures |items| == |chain.intermediates| + 1
  {
    var it := new CertificateChainIter(chain);
    items := [];
    var item := it.Next();
    while item.Some?
      invariant item.Some? ==> items + [item.value] + it.Remaining() == Order(chain)
      invariant item.None? ==> items == Order(chain)
      decreases |it.Remaining()| + (if item.Some? then 1 else 0)
    {
      items := items + [item.value];
      item := it.Next();
    }
  }

  /**
   * Draining the iterator from the back yields the leaf first and then the
   * intermediates from the last to the first.
   */
  method CollectBackward(chain: CertificateChain) returns (items: seq<Certificate>)
    ensures |items| == |chain.intermediates| + 1
    ensures items[0] == chain.leaf
    ensures forall k :: 1 <= k < |items| ==> items[k] == chain.intermediates[|items| - 1 - k]
  {
    var order := Order(chain);
    var n := |order|;
    var it := new CertificateChainIter(chain);
    items := [];
    var item := it.NextBack();
    while item.Some?
      invariant |items| <= n && (item.Some? ==> |items| < n)
      invariant item.Some? ==> it.Remaining() + [item.value] == order[..n - |items|]
      invariant item.None? ==> |items| == n
      invariant forall k :: 0 <= k < |items| ==> items[k] == order[n - 1 - k]
      decreases |it.Remaining()| + (if item.Some? then 1 else 0)
    {
      assert order[..n - |items|][n - |items| - 1] == item.value;
      items := items + [item.value];
      item := it.NextBack();
    }
  }

  // The staged builder

  /** `CertificateChainBuilder<WantsLeaf>`, the stage `Default` starts in. */
  datatype WantsLeaf = WantsLeaf

  /** `CertificateChainBuilder<WantsIntermediates>`: the leaf is set. */
  datatype WantsIntermediates = WantsIntermediates(leaf: Certificate)

  /** `set_leaf`: the only way out of the first stage. */
  function SetLeaf(stage: WantsLeaf, cert: Certificate): (r: WantsIntermediates)
    ensures r.leaf == cert
  {
    WantsIntermediates(cert)
  }

  /** `CertificateChainBuilder<Optional>`: leaf and intermediates set, more intermediates may follow. */
  class ChainBuilder {
    var leaf: Certificate
    var intermediates: seq<Certificate>

    /** `set_intermediates`: the only way out of the second stage. */
    constructor SetIntermediates(stage: WantsIntermediates, certs: seq<Certificate>)
      ensures leaf == stage.leaf && intermediates == certs
    {
      leaf := stage.leaf;
      intermediates := certs;
    }

    /** `add_intermediates`: extends the intermediates with a further batch. */
    method AddIntermediates(certs: seq<Certificate>)
      modifies this
      ensures leaf == old(leaf)
      ensures intermediates == old(intermediates) + certs
    {
      intermediates := intermediates + certs;
    }

    /** `build`: never fails, and the chain holds the leaf and intermediates unchanged. */
    function Build(): (r: Result<CertificateChain, Error>)
      reads this
      ensures r.Success?
      ensures r.value.leaf == leaf && r.value.intermediates == intermediates
    {
      Success(CertificateChain(intermediates, leaf))
    }
  }

  /** The batches joined in order. */
  function Flatten(batches: seq<seq<Certificate>>): seq<Certificate>
  {
    if batches == [] then [] else Flatten(batches[..|batches| - 1]) + batches[|batches| - 1]
  }

  /**
   * Going through every stage: the built chain's leaf is the one given to
   * `set_leaf`, and its intermediates are the `set_intermediates` sequence
   * followed by each `add_intermediates` batch in call order.
   */
  method BuildChain(leaf: Certificate, first: seq<Certificate>, batches: seq<seq<Certificate>>)
    returns (r: Result<CertificateChain, Error>)
    ensures r.Success?
    ensures r.value.leaf == leaf
    ensures r.value.intermediates == first + Flatten(batches)
  {
    var stage := SetLeaf(WantsLeaf, leaf);
    var builder := new ChainBuilder.SetIntermediates(stage, first);
    for i := 0 to |batches|
      invariant builder.leaf == leaf
      invariant builder.intermediates == first + Flatten(batches[..i])
    {
      assert batches[..i + 1][..i] == batches[..i];
      builder.AddIntermediates(batches[i]);
    }
    assert batches[..|batches|] == batches;
    r := builder.Build();
  }
}
