/**
 * `verify_attestation_report_raw`: optionally perturb the report's
 * measurement in place, assemble the full chain (the Genoa CA chain and the
 * caller's VCEK) and hand chain and report to the `sev` library's
 * verification, which is a parameter here (`libVerify`). Also the choice
 * `verify_attestation_report_cli` makes between a VCEK file and a KDS fetch.
 */
module Attestation {
  import opened Wrappers
  import opened Encoding
  import opened Kds
  import opened CertChain

  /** The size of the launch measurement, in bytes. */
  const MeasurementSize: nat := 48

  /** `Chain`: the CA chain and the VCEK, the leaf the report must be signed by. */
  datatype Chain = Chain(ca: CaChain, vcek: Certificate)

  /**
   * The value of an attestation report. `otherFields` stands for every field
   * this code never reads or writes (policy, report data, signature, ...).
   */
  datatype ReportValue = ReportValue(measurement: seq<byte>, chipId: ChipId, reportedTcb: TcbVersion, otherFields: seq<byte>)

  /** The report `verify_attestation_report_raw` owns and may change. */
  class AttestationReport {
    var measurement: array<byte>
    var chipId: ChipId
    var reportedTcb: TcbVersion
    var otherFields: seq<byte>

    ghost predicate Valid()
      reads this
    {
      measurement.Length == MeasurementSize
    }

    function Value(): (v: ReportValue)
      reads this, measurement
      ensures |v.measurement| == measurement.Length
    {
      ReportValue(measurement[..], chipId, reportedTcb, otherFields)
    }

    constructor (v: ReportValue)
      requires |v.measurement| == MeasurementSize
      ensures Valid() && fresh(measurement)
      ensures Value() == v
    {
      measurement := new byte[MeasurementSize](i requires 0 <= i < MeasurementSize => v.measurement[i]);
      chipId := v.chipId;
      reportedTcb := v.reportedTcb;
      otherFields := v.otherFields;
    }

    /** `report.measurement[0] = report.measurement[0].wrapping_add(1)`. */
    method PerturbMeasurement()
      requires Valid()
      modifies measurement
      ensures Valid()
      ensures Value() == Tampered(old(Value()))
    {
      measurement[0] := WrappingInc(measurement[0]);
    }
  }

  // ---------------------------------------------------------------- the tamper step

  /** `u8::wrapping_add(1)`. */
  function WrappingInc(b: byte): (r: byte)
    ensures r != b
    ensures r == 0 <==> b == 255
    ensures r > b <==> b < 255
  {
    (b + 1) % 256
  }

  /** `u8::wrapping_sub(1)`, the inverse of `WrappingInc`. */
  function WrappingDec(b: byte): (r: byte)
  {
    (b + 255) % 256
  }

  lemma WrappingIncInverse(b: byte)
    ensures WrappingDec(WrappingInc(b)) == b && WrappingInc(WrappingDec(b)) == b
  {
  }

  /**
   * The report with its first measurement byte bumped: only `measurement[0]`
   * changes, to `(old + 1) mod 256`, so it always changes; every other byte
   * and every other field stays as it was.
   */
  function Tampered(r: ReportValue): (t: ReportValue)
    requires |r.measurement| > 0
    ensures |t.measurement| == |r.measurement|
    ensures t.measurement[0] == (r.measurement[0] as int + 1) % 256
    ensures t.measurement[0] != r.measurement[0] && t != r
    ensures forall i :: 1 <= i < |r.measurement| ==> t.measurement[i] == r.measurement[i]
    ensures t.chipId == r.chipId && t.reportedTcb == r.reportedTcb && t.otherFields == r.otherFields
  {
    r.(measurement := r.measurement[0 := WrappingInc(r.measurement[0])])
  }

  /** Undoes `Tampered`. */
  function Untampered(r: ReportValue): ReportValue
    requires |r.measurement| > 0
  {
    r.(measurement := r.measurement[0 := WrappingDec(r.measurement[0])])
  }

  /** The perturbation loses nothing: it can be undone, so distinct reports stay distinct. */
  lemma TamperedRoundTrip(r: ReportValue)
    requires |r.measurement| > 0
    ensures Untampered(Tampered(r)) == r
  {
    WrappingIncInverse(r.measurement[0]);
    assert Untampered(Tampered(r)).measurement == r.measurement;
  }

  // ---------------------------------------------------------------- verification

  /** What `verify_attestation_report_raw` ends in: it returns, or it panics with a reason. */
  datatype VerifyOutcome =
    | Verified
    | ChainUnavailable(error: ChainError)   // `get_cert_chain` panicked
    | VerificationFailed                    // the library's `verify` returned an error

  /**
   * The outcome for a report as handed to verification. It is `Verified`
   * exactly when the bundle yields a chain and the library accepts the chain
   * whose ARK is the bundle's second entry, whose ASK is its first and whose
   * leaf is the supplied VCEK, unsubstituted. The product gate never fires.
   */
  function VerifyComposition(
    bundle: Option<seq<Certificate>>, vcek: Certificate, report: ReportValue,
    libVerify: (Chain, ReportValue) -> bool): (outcome: VerifyOutcome)
    ensures outcome == Verified <==>
      bundle.Some? && |bundle.value| >= 2 &&
      libVerify(Chain(CaChain(bundle.value[1], bundle.value[0]), vcek), report)
    ensures outcome != ChainUnavailable(UnsupportedProduct)
  {
    match GetCertChain(SevProdName, bundle)
    case Err(e) => ChainUnavailable(e)
    case Ok(ca) => if libVerify(Chain(ca, vcek), report) then Verified else VerificationFailed
  }

  /**
   * `verify_attestation_report_raw(report, vcek, fail_on_purpose)`; `bundle`
   * is the parsed embedded Genoa PEM bundle.
   */
  method VerifyAttestationReportRaw(
    report: AttestationReport, vcek: Certificate, failOnPurpose: bool,
    bundle: Option<seq<Certificate>>, libVerify: (Chain, ReportValue) -> bool)
    returns (outcome: VerifyOutcome)
    requires report.Valid()
    modifies report.measurement
    ensures report.Valid()
    ensures report.Value() == if failOnPurpose then Tampered(old(report.Value())) else old(report.Value())
    ensures outcome == VerifyComposition(bundle, vcek, report.Value(), libVerify)
  {
    if failOnPurpose {
      report.PerturbMeasurement();
    }
    var caChain := GetCertChain(SevProdName, bundle);
    if caChain.Err? {
      return ChainUnavailable(caChain.error);
    }
    var fullChain := Chain(caChain.value, vcek);
    if libVerify(fullChain, report.Value()) {
      outcome := Verified;
    } else {
      outcome := VerificationFailed;
    }
  }

  /**
   * The library binds the measurement: for one chain and otherwise equal
   * reports, it accepts at most one measurement (the report signature covers it).
   */
  ghost predicate BindsMeasurement(libVerify: (Chain, ReportValue) -> bool) {
    forall c: Chain, x: ReportValue, y: ReportValue ::
      libVerify(c, x) && libVerify(c, y) &&
      x.chipId == y.chipId && x.reportedTcb == y.reportedTcb && x.otherFields == y.otherFields
      ==> x.measurement == y.measurement
  }

  /**
   * A report that verifies no longer verifies once tampered with, against the
   * same VCEK and CA chain, provided the library binds the measurement.
   */
  lemma TamperedReportRejected(bundle: Option<seq<Certificate>>, vcek: Certificate, report: ReportValue,
                               libVerify: (Chain, ReportValue) -> bool)
    requires |report.measurement| > 0
    requires BindsMeasurement(libVerify)
    requires VerifyComposition(bundle, vcek, report, libVerify) == Verified
    ensures VerifyComposition(bundle, vcek, Tampered(report), libVerify) == VerificationFailed
  {
    var t := Tampered(report);
    var c := Chain(GetCertChain(SevProdName, bundle).value, vcek);
    assert libVerify(c, report);
    assert libVerify(c, t) ==> t.measurement == report.measurement;
    assert t.measurement[0] != report.measurement[0];
  }

  /**
   * `verify_attestation_report_cli`: with no VCEK file, the VCEK is fetched
   * from the KDS URL for the report's own chip id and reported TCB, for Genoa.
   */
  function CliVcekUrl(report: ReportValue, vcekFileGiven: bool): (url: Option<string>)
    ensures url.None? <==> vcekFileGiven
    ensures url.Some? ==>
      ParseVcekUrl(url.value) == Some(VcekRequest(SevProdName, report.chipId, report.reportedTcb))
  {
    if vcekFileGiven then None
    else
      ProductNameHasNoSlash();
      Some(VcekUrl(report.chipId, report.reportedTcb, SevProdName))
  }
}
