/**
 * `get_cert_chain`: the AMD root of trust for one product. Only Genoa is
 * supported; its ARK (AMD Root Key) and ASK (AMD SEV Key) come from a PEM
 * bundle embedded at build time, whose first entry is the ASK and whose
 * second entry is the ARK.
 */
module CertChain {
  import opened Wrappers
  import opened Encoding
  import Kds

  /** An X.509 certificate, kept as its DER bytes; its fields are not interpreted here. */
  datatype Certificate = Certificate(der: seq<byte>)

  /** `ca::Chain`: the AMD Root Key and the AMD SEV Key. */
  datatype CaChain = CaChain(ark: Certificate, ask: Certificate)

  /** Why `get_cert_chain` panics. */
  datatype ChainError =
    | UnsupportedProduct   // the product name is not "Genoa"
    | MalformedBundle      // the embedded PEM bundle does not parse
    | MissingBundleEntry   // the bundle holds fewer than two certificates

  /**
   * `get_cert_chain(product)`. `bundle` is what parsing the embedded Genoa
   * PEM bytes yields (`None` when the parse fails). The product name is
   * checked before the bundle is looked at; entries past the second are ignored.
   */
  function GetCertChain(product: string, bundle: Option<seq<Certificate>>): (r: Result<CaChain, ChainError>)
    ensures r.Ok? <==> product == Kds.SevProdName && bundle.Some? && |bundle.value| >= 2
    ensures r.Ok? ==> r.value.ark == bundle.value[1] && r.value.ask == bundle.value[0]
    ensures product != Kds.SevProdName ==> r == Err(UnsupportedProduct)
  {
    if product != Kds.SevProdName then Err(UnsupportedProduct)
    else match bundle
      case None => Err(MalformedBundle)
      case Some(stack) =>
        if |stack| < 2 then Err(MissingBundleEntry)
        else Ok(CaChain(stack[1], stack[0]))
  }

  /** For any other product the outcome does not depend on the bundle at all: it is never read. */
  lemma ProductGateFirst(product: string, b1: Option<seq<Certificate>>, b2: Option<seq<Certificate>>)
    requires product != Kds.SevProdName
    ensures GetCertChain(product, b1) == GetCertChain(product, b2) == Err(UnsupportedProduct)
  {
  }

  /** Only the exact name "Genoa" passes the gate; a case variant or a prefix does not. */
  lemma OnlyGenoa(product: string, bundle: Option<seq<Certificate>>)
    requires GetCertChain(product, bundle).Ok?
    ensures product == "Genoa"
  {
  }

  /** The chain never swaps the two entries: the ASK is never taken from the second entry. */
  lemma NeverReversed(stack: seq<Certificate>)
    requires |stack| >= 2 && stack[0] != stack[1]
    ensures GetCertChain(Kds.SevProdName, Some(stack)) != Ok(CaChain(stack[0], stack[1]))
  {
  }
}
