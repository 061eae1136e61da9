# sev-attest-tool: a verified model of the attestation-verification core

`src/verify_attestation.rs` checks an AMD SEV-SNP attestation report. It
builds the AMD root of trust for the Genoa product (ARK and ASK from an
embedded PEM bundle). It builds the Key Distribution Service (KDS) URL from
which a chip's VCEK (Versioned Chip Endorsement Key) is fetched. It can
perturb the report's measurement on purpose. Finally it hands the full chain
(ARK, ASK, VCEK) and the report to the `sev` crate's verification.

The model is in five Dafny modules:

- `Wrappers`: `Option` and `Result`. The source's `unwrap` panics become failure values.
- `Encoding`: the lower-case hex encoding of `hex::encode` and the `{:02}` decimal
  rendering. Hex has a decoder with round trips in both directions (`HexRoundTrip`,
  `HexDecodeCanonical`). `{:02}` has a parser that reads every rendering back
  (`Pad2RoundTrip`) and distinct values never render alike (`Pad2Injective`). The
  parser also accepts unpadded text such as "7", so it is not an exact inverse.
- `Kds`: the constants `SEV_PROD_NAME`, `KDS_CERT_SITE` and `KDS_VCEK`, the TCB
  version, and the VCEK URL of `request_vcek`. `ParseVcekUrl` recovers the product,
  the chip id and the four patch levels from a URL.
- `CertChain`: `get_cert_chain`, that is, the product gate and the ARK/ASK selection
  from the bundle.
- `Attestation`: the report as a class whose `measurement` is an array updated in
  place, the tamper step, `verify_attestation_report_raw` as a method, and the
  CLI's choice between a VCEK file and a KDS fetch.

The library's chain and signature check is the parameter
`libVerify: (Chain, ReportValue) -> bool`, a predicate the model does not
interpret. The parsed Genoa PEM bundle is the parameter
`bundle: Option<seq<Certificate>>`, which is `None` when the parse fails.

Notes on the code:

- `request_vcek` does not check the product name. Only `get_cert_chain` rejects
  products other than Genoa. The CLI always passes `"Genoa"`.
- The tamper step changes the report in place. The report is the function's own
  by-value copy (`mut report`), and the model's method changes that object's array.
- Chain validation and report authentication happen in one library call,
  `(&chain, &report).verify()`. That call is abstract here.

## Model

| member | source | states |
|---|---|---|
| `Encoding.HexEncode` | src/verify_attestation.rs:61 | the chip id is encoded as 2 characters per byte (128 for 64 bytes), all from `0-9a-f` |
| `Encoding.HexRoundTrip` | src/verify_attestation.rs:61 | decoding the hex encoding gives back the original bytes |
| `Encoding.HexDecodeCanonical` | src/verify_attestation.rs:61 | any lower-case hex text that decodes is the encoding of what it decodes to, so the encoding is a bijection |
| `Encoding.HexEncodeInjective` | src/verify_attestation.rs:61 | different chip ids never share a hex encoding |
| `Encoding.Decimal` | src/verify_attestation.rs:63-67 | the decimal rendering is non-empty, all digits, has no leading zero except for 0, and has one digit exactly for values below 10 |
| `Encoding.DecimalValue` | src/verify_attestation.rs:63-67 | the decimal digits read back give the value |
| `Encoding.Pad2` | src/verify_attestation.rs:63-67 | reference definition of `{:02}` on a patch level: at least two characters, all digits, and exactly two for values below 100. `Pad2Small`, `Pad2Large` and `Pad2RoundTrip` characterise it |
| `Encoding.ZeroPad` | src/verify_attestation.rs:63 | padding reaches the width, keeps the whole string at its end (never truncates) and adds only '0' on the left |
| `Encoding.Pad2Small` | src/verify_attestation.rs:63-67 | `{:02}` renders 0-9 as '0' followed by the digit |
| `Encoding.Pad2Large` | src/verify_attestation.rs:63-67 | `{:02}` renders values of 10 or more in full, without padding or truncation |
| `Encoding.Pad2RoundTrip` | src/verify_attestation.rs:63-67 | a `u8` patch level renders as 2 or 3 digits that parse back to the value |
| `Encoding.Pad2Injective` | src/verify_attestation.rs:63-67 | different patch levels never render alike |
| `Kds.TcbQuery` | src/verify_attestation.rs:63-67 | reference definition of the query string. It starts with '?' and parses back to the same TCB version, with bootloader, tee, snp and microcode each read from its own parameter (`blSPL`, `teeSPL`, `snpSPL`, `ucodeSPL`, in that order) |
| `Kds.VcekUrl` | src/verify_attestation.rs:60-68 | reference definition of the `format!` URL. It is `https://kdsintf.amd.com/vcek/v1/`, then the product, then '/'. After that come the 128-character hex chip id and then the query string. For a product name without '/', parsing the URL gives back the product, the chip id and the TCB version |
| `Kds.VcekUrlInjective` | src/verify_attestation.rs:60-68 | for product names without '/', two different (chip id, TCB, product) requests never produce the same URL. Every call site passes `SEV_PROD_NAME` |
| `CertChain.GetCertChain` | src/verify_attestation.rs:32-48 | a chain is produced iff the product is "Genoa" and the bundle parses with at least two entries. The ARK is entry 1 and the ASK is entry 0. Any other product fails with `UnsupportedProduct` |
| `CertChain.ProductGateFirst` | src/verify_attestation.rs:37-39 | for a product other than Genoa the outcome is `UnsupportedProduct` whatever the bundle holds, so the bundle is never read |
| `CertChain.OnlyGenoa` | src/verify_attestation.rs:37-39 | only the exact name "Genoa" yields a chain |
| `CertChain.NeverReversed` | src/verify_attestation.rs:44-45 | with two distinct entries, the chain is never built in the reverse order (ARK from entry 0, ASK from entry 1) |
| `Attestation.AttestationReport.constructor` | src/verify_attestation.rs:110 | the report object holds exactly the given report value, with a fresh 48-byte measurement array |
| `Attestation.AttestationReport.PerturbMeasurement` | src/verify_attestation.rs:114-116 | the new report value is the old one with `measurement[0]` wrapping-incremented |
| `Attestation.WrappingInc` | src/verify_attestation.rs:115 | wrapping +1 never returns its input. It gives 0 exactly for 255 and a larger value otherwise |
| `Attestation.WrappingIncInverse` | src/verify_attestation.rs:115 | wrapping +1 and wrapping -1 undo each other |
| `Attestation.Tampered` | src/verify_attestation.rs:114-116 | reference definition of the tamper step. Only `measurement[0]` changes, to `(old + 1) mod 256`, which always differs from the old byte. Every other measurement byte and every other report field is unchanged |
| `Attestation.TamperedRoundTrip` | src/verify_attestation.rs:115 | tampering loses no information: it can be undone |
| `Attestation.VerifyAttestationReportRaw` | src/verify_attestation.rs:109-133 | the report is perturbed iff `fail_on_purpose`, and is passed unchanged otherwise. The outcome is the library's verdict on `Chain { ca: get_cert_chain("Genoa"), vcek }` and that report, or the chain failure |
| `Attestation.VerifyComposition` | src/verify_attestation.rs:119-132 | reference definition of the outcome. It is `Verified` iff the bundle has two entries and the library accepts the report with the chain (ARK = entry 1, ASK = entry 0, leaf = the supplied VCEK). The product gate never fires here |
| `Attestation.TamperedReportRejected` | src/verify_attestation.rs:153-167 | if a report verifies, its tampered copy fails against the same VCEK and CA chain, whenever the library binds the measurement |
| `Attestation.CliVcekUrl` | src/verify_attestation.rs:85-91 | a VCEK is fetched exactly when no VCEK file is given. Its URL parses back to "Genoa" and to the report's own chip id and reported TCB |

## Left out

- The HTTP GET of `request_vcek` (src/verify_attestation.rs:70-75) is I/O. The model stops at the URL.
- The file reads of `verify_attestation_report_cli` (src/verify_attestation.rs:84-86) are I/O. Whether a VCEK file is given is a boolean.
- JSON parsing of the report with `serde_json` (src/verify_attestation.rs:88, :100) is a foreign library, and so is DER parsing of the VCEK (:101). `verify_attestation_report` (:99-104) is these two parses followed by the raw verification, so only the raw verification is modelled. The report is a value with a 48-byte measurement, a 64-byte chip id, a TCB version and the remaining fields as opaque bytes.
- PEM parsing of the embedded bundle (src/verify_attestation.rs:41) is a foreign call, so the model takes its result as a parameter. The `to_pem`/`Chain::from_pem` conversions (:44-45) are assumed to succeed and to keep each certificate as it is. Their own failure paths are not modelled.
- The `sev` library's `verify` (src/verify_attestation.rs:129) is not visible. It is the uninterpreted parameter `libVerify`. ARK self-signature, ASK and VCEK signatures, report signature, TCB and chip-id cross-checks and validity windows are not modelled.
- `TcbVersion` keeps only the four patch levels that the URL carries. The crate's reserved bytes in it are not part of this model.
- The embedded data (`Genoa.pem`, the sample report and the sample VCEK; src/verify_attestation.rs:8, :22, :25), the unused `_KDS_CERT_CHAIN` constant (:19) and the commented-out chain URL (:33-35) are not modelled.
- The tests on the sample data (src/verify_attestation.rs:140-180) depend on that data and the library. Only their claim that a tampered report fails is stated, as `TamperedReportRejected`, under the stated hypothesis about the library.
- Panics are modelled as outcome values (`ChainError`, `VerifyOutcome`), not as process aborts.
