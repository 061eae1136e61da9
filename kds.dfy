/**
 * The AMD Key Distribution Service (KDS) request that `request_vcek` makes:
 * the URL of the VCEK (Versioned Chip Endorsement Key) for one chip and one
 * TCB version. The model stops at the URL; the HTTP fetch is not modelled.
 * `ParseVcekUrl` is the partner of `VcekUrl`: it recovers the product, the
 * chip id and the four TCB components from a URL.
 */
module Kds {
  import opened Wrappers
  import opened Encoding

  /** The AMD SEV-SNP product name for Genoa. */
  const SevProdName: string := "Genoa"

  /** The KDS host. */
  const KdsCertSite: string := "https://kdsintf.amd.com"

  /** The KDS VCEK endpoint. */
  const KdsVcek: string := "/vcek/v1"

  /** The 64-byte chip identifier of an attestation report. */
  type ChipId = s: seq<byte> | |s| == 64 witness seq(64, _ => 0)

  /** The security patch levels of a reported TCB version that the KDS query carries. */
  datatype TcbVersion = TcbVersion(bootloader: byte, tee: byte, snp: byte, microcode: byte)

  /** What a VCEK URL asks the KDS for. */
  datatype VcekRequest = VcekRequest(product: string, chipId: ChipId, tcb: TcbVersion)

  /** The part of every VCEK URL before the product name. */
  function VcekPathPrefix(): string {
    KdsCertSite + KdsVcek + "/"
  }

  /**
   * The query string: the four patch levels in the fixed order bl, tee, snp,
   * ucode. It parses back to the same TCB version, each level from its own
   * parameter.
   */
  function TcbQuery(tcb: TcbVersion): (q: string)
    ensures q != [] && q[0] == '?'
    ensures ParseTcbQuery(q) == Some(tcb)
  {
    var bl, tee, snp, uc := Pad2(tcb.bootloader), Pad2(tcb.tee), Pad2(tcb.snp), Pad2(tcb.microcode);
    var q3 := "snpSPL=" + snp + "&" + ("ucodeSPL=" + uc);
    var q2 := "teeSPL=" + tee + "&" + q3;
    QueryShape(bl, tee, snp, uc);
    QueryStart(bl, tee, snp, uc);
    ParseFieldOf("?blSPL=", tcb.bootloader, q2);
    ParseFieldOf("teeSPL=", tcb.tee, q3);
    ParseFieldOf("snpSPL=", tcb.snp, "ucodeSPL=" + uc);
    StripPrefixOf("ucodeSPL=", uc);
    Pad2RoundTrip(tcb.microcode);
    "?blSPL=" + bl + "&teeSPL=" + tee + "&snpSPL=" + snp + "&ucodeSPL=" + uc
  }

  /**
   * The URL `request_vcek` requests for a chip, a reported TCB and a product
   * name: the KDS host and VCEK endpoint, the product, the chip id as 128
   * lower-case hex digits, then the query. For a product name without '/',
   * the URL determines the request: parsing it gives back all three inputs.
   */
  function VcekUrl(chipId: ChipId, tcb: TcbVersion, product: string): (url: string)
    ensures var k := 32 + |product| + 1;
      |url| > k + 128 &&
      url[..32] == "https://kdsintf.amd.com/vcek/v1/" &&
      url[32..k - 1] == product &&
      url[k - 1] == '/' &&
      url[k..k + 128] == HexEncode(chipId) &&
      url[k + 128..] == TcbQuery(tcb)
    ensures '/' !in product ==> ParseVcekUrl(url) == Some(VcekRequest(product, chipId, tcb))
  {
    var prefix, hex, query := VcekPathPrefix(), HexEncode(chipId), TcbQuery(tcb);
    PrefixText();
    LayoutOf(prefix, product, hex, query);
    assert '/' !in product ==> ParseVcekUrl(prefix + product + "/" + hex + query) == Some(VcekRequest(product, chipId, tcb)) by {
      if '/' !in product {
        var rest := hex + query;
        UrlShape(prefix, product, hex, query);
        StripPrefixOf(prefix, product + "/" + rest);
        SplitAtFirst(product, '/', rest);
        assert rest[..128] == hex && rest[128..] == query;
        HexRoundTrip(chipId);
      }
    }
    prefix + product + "/" + hex + query
  }

  // ---------------------------------------------------------------- parsing

  function StripPrefix(s: string, p: string): (r: Option<string>)
    ensures r.Some? <==> p <= s
    ensures r.Some? ==> s == p + r.value
  {
    if p <= s then Some(s[|p|..]) else None
  }

  /** Splits at the first occurrence of `c`, dropping it. */
  function SplitAt(s: string, c: char): (r: Option<(string, string)>)
    ensures r.Some? ==> c !in r.value.0 && s == r.value.0 + [c] + r.value.1
  {
    if s == [] then None
    else if s[0] == c then Some(([], s[1..]))
    else match SplitAt(s[1..], c)
      case Some((a, b)) => Some(([s[0]] + a, b))
      case None => None
  }

  lemma {:induction false} SplitAtFirst(x: string, c: char, y: string)
    requires c !in x
    ensures SplitAt(x + [c] + y, c) == Some((x, y))
  {
    if x != [] {
      assert (x + [c] + y)[1..] == x[1..] + [c] + y;
      SplitAtFirst(x[1..], c, y);
      assert [x[0]] + x[1..] == x;
    }
  }

  /** Reads one `NAME=<digits>` field that is followed by `&`. */
  function ParseField(s: string, name: string): Option<(byte, string)>
  {
    var value :- StripPrefix(s, name);
    var split :- SplitAt(value, '&');
    var b :- ParseByte(split.0);
    Some((b, split.1))
  }

  function ParseTcbQuery(q: string): Option<TcbVersion>
  {
    var bl :- ParseField(q, "?blSPL=");
    var tee :- ParseField(bl.1, "teeSPL=");
    var snp :- ParseField(tee.1, "snpSPL=");
    var ucode :- StripPrefix(snp.1, "ucodeSPL=");
    var microcode :- ParseByte(ucode);
    Some(TcbVersion(bl.0, tee.0, snp.0, microcode))
  }

  /** Recovers the request from a VCEK URL; `None` for anything `VcekUrl` cannot produce. */
  function ParseVcekUrl(url: string): Option<VcekRequest>
  {
    var path :- StripPrefix(url, VcekPathPrefix());
    var split :- SplitAt(path, '/');
    var rest := split.1;
    if |rest| < 128 then None
    else
      var chipId :- HexDecode(rest[..128]);
      var tcb :- ParseTcbQuery(rest[128..]);
      Some(VcekRequest(split.0, chipId, tcb))
  }

  // ---------------------------------------------------------------- properties

  lemma StripPrefixOf(p: string, x: string)
    ensures StripPrefix(p + x, p) == Some(x)
  {
    assert (p + x)[..|p|] == p;
    assert (p + x)[|p|..] == x;
  }

  lemma DigitsHaveNoAmpersand(s: string)
    requires AllDigits(s)
    ensures '&' !in s
  {
  }

  lemma ParseFieldOfDigits(name: string, digits: string, b: byte, rest: string)
    requires '&' !in digits && ParseByte(digits) == Some(b)
    ensures ParseField(name + digits + "&" + rest, name) == Some((b, rest))
  {
    var value := digits + "&" + rest;
    assert name + digits + "&" + rest == name + value;
    StripPrefixOf(name, value);
    SplitAtFirst(digits, '&', rest);
  }

  lemma ParseFieldOf(name: string, b: byte, rest: string)
    ensures ParseField(name + Pad2(b) + "&" + rest, name) == Some((b, rest))
  {
    Pad2RoundTrip(b);
    DigitsHaveNoAmpersand(Pad2(b));
    ParseFieldOfDigits(name, Pad2(b), b, rest);
  }

  lemma QueryShape(bl: string, tee: string, snp: string, uc: string)
    ensures "?blSPL=" + bl + "&teeSPL=" + tee + "&snpSPL=" + snp + "&ucodeSPL=" + uc
         == "?blSPL=" + bl + "&" + ("teeSPL=" + tee + "&" + ("snpSPL=" + snp + "&" + ("ucodeSPL=" + uc)))
  {
  }

  lemma UrlShape(prefix: string, product: string, hex: string, query: string)
    ensures prefix + product + "/" + hex + query == prefix + (product + "/" + (hex + query))
  {
  }

  /** Distinct requests never share a URL, so a URL names exactly one VCEK. */
  lemma VcekUrlInjective(c1: ChipId, t1: TcbVersion, p1: string, c2: ChipId, t2: TcbVersion, p2: string)
    requires '/' !in p1 && '/' !in p2
    requires VcekUrl(c1, t1, p1) == VcekUrl(c2, t2, p2)
    ensures c1 == c2 && t1 == t2 && p1 == p2
  {
  }

  lemma LayoutOf(prefix: string, product: string, hex: string, query: string)
    requires |hex| == 128 && query != []
    ensures var url := prefix + product + "/" + hex + query;
      var k := |prefix| + |product| + 1;
      |url| > k + 128 && url[..|prefix|] == prefix && url[|prefix|..k - 1] == product &&
      url[k - 1] == '/' && url[k..k + 128] == hex && url[k + 128..] == query
  {
    var url := prefix + product + "/" + hex + query;
    var k := |prefix| + |product| + 1;
    assert url[|prefix|..] == product + "/" + hex + query;
    assert url[k..] == hex + query;
  }

  lemma ProductNameHasNoSlash()
    ensures '/' !in SevProdName
  {
    assert SevProdName == ['G', 'e', 'n', 'o', 'a'];
  }

  lemma PrefixText()
    ensures VcekPathPrefix() == "https://kdsintf.amd.com/vcek/v1/"
  {
  }

  lemma QueryStart(bl: string, tee: string, snp: string, uc: string)
    ensures var q := "?blSPL=" + bl + "&teeSPL=" + tee + "&snpSPL=" + snp + "&ucodeSPL=" + uc;
      q != [] && q[0] == '?'
  {
  }
}
