/**
 Result codes exchanged between the two halves of the Python runtime.

 - `PythonRuntimeResult.from_value` on the Rust side
   (`rust_interface/src/errors.rs`) turns a `u8` code into `Ok` or an
   execution error of runtime or service kind.
 - The Python side's code table (`exonum_runtime/runtime/types.py`) must
   agree with the Rust enum.
 - A `ServiceError` raised by a service clamps its code
   (`exonum_runtime/runtime/service_error.py`).

 The Rust classifier puts service codes at 65 and above, with an offset;
 the Python clamp keeps service codes in 16..128. These are two separate
 schemes and are modelled as two separate functions.
 */
module ResultCodes {
  import opened Common

  // ----------------------------------------------------------------------
  // The Rust enum and classifier

  /** The values of the Rust `PythonRuntimeResult` enum. */
  const RUST_OK: u8 := 0
  const RUST_RUNTIME_NOT_READY: u8 := 1
  const RUST_RUNTIME_DEAD: u8 := 2
  const RUST_WRONG_SPEC: u8 := 16
  const RUST_SERVICE_INSTALL_FAILED: u8 := 17
  const RUST_OTHER: u8 := 64
  const RUST_SERVICE: u8 := 65

  /** `ErrorKind`: an error of the runtime itself or of a service, each with a code. */
  datatype ErrorKind = Runtime(code: u8) | Service(code: u8)

  /** The description attached to each error. */
  datatype Description =
    | NotInitialized         // "Python runtime is not initialized"
    | ProcessTerminated      // "Python runtime process is terminated"
    | UnknownRustCode(code: u8)    // "Unknown error code {} on the Rust side of Python Runtime"
    | IncorrectSpec          // "Incorrect Python artifact spec"
    | InstallationFailed     // "Service installation failed"
    | UnknownPythonCode(code: u8)  // "Unkonwn error code {} on the Python side of Python runtime"
    | Unspecified            // "Unspecified runtime error"
    | ServiceExecution       // "Python Service execution error. ..."

  /** `Result<(), ExecutionError>`. */
  datatype Classified = Ok | Err(kind: ErrorKind, description: Description)

  /** The documented bands of a code: 0 success, 1-15 Rust side, 16-64 Python side, 65 and above services. */
  datatype Band = SuccessBand | RustBand | PythonBand | ServiceBand

  function BandOf(value: nat): Band {
    if value == 0 then SuccessBand
    else if value < 16 then RustBand
    else if value <= 64 then PythonBand
    else ServiceBand
  }

  /**
   `PythonRuntimeResult::from_value`, its match arms in their order. The
   result follows the bands: success exactly for 0; a runtime error carrying
   the code itself for the Rust and Python bands; a service error carrying
   the code less 65 for the service band, where the subtraction cannot
   underflow.
   */
  function FromValue(value: u8): (r: Classified)
    ensures r.Ok? <==> BandOf(value) == SuccessBand
    ensures r.Err? && r.kind.Runtime? <==> BandOf(value) in {RustBand, PythonBand}
    ensures r.Err? && r.kind.Runtime? ==> r.kind.code == value
    ensures r.Err? && r.kind.Service? <==> BandOf(value) == ServiceBand
    ensures BandOf(value) == ServiceBand ==> value >= 65 && r.kind == Service(value - 65)
  {
    if value == RUST_OK then Ok
    else if value == RUST_RUNTIME_NOT_READY then Err(Runtime(value), NotInitialized)
    else if value == RUST_RUNTIME_DEAD then Err(Runtime(value), ProcessTerminated)
    else if RUST_RUNTIME_DEAD + 1 <= value < RUST_WRONG_SPEC then Err(Runtime(value), UnknownRustCode(value))
    else if value == RUST_WRONG_SPEC then Err(Runtime(value), IncorrectSpec)
    else if value == RUST_SERVICE_INSTALL_FAILED then Err(Runtime(value), InstallationFailed)
    else if RUST_SERVICE_INSTALL_FAILED + 1 <= value < RUST_OTHER then Err(Runtime(value), UnknownPythonCode(value))
    else if value == RUST_OTHER then Err(Runtime(value), Unspecified)
    else Err(Service(value - RUST_SERVICE), ServiceExecution)
  }

  /** Codes the enum does not name are reported as unknown, on the side whose band they fall in. */
  lemma UnnamedCodesAreUnknown(value: u8)
    ensures 3 <= value <= 15 <==> FromValue(value).Err? && FromValue(value).description.UnknownRustCode?
    ensures 18 <= value <= 63 <==> FromValue(value).Err? && FromValue(value).description.UnknownPythonCode?
  {
  }

  /** A service code `c` sent as `c + 65` comes back as service error `c`. */
  lemma ServiceCodeRoundTrip(c: u8)
    requires c + 65 < 256
    ensures FromValue(c + 65) == Err(Service(c), ServiceExecution)
  {
  }

  // ----------------------------------------------------------------------
  // The Python code table

  /** The members of the Python `PythonRuntimeResult`. */
  datatype PythonResult = OK | RUNTIME_NOT_READY | RUNTIME_DEAD | WRONG_SPEC | SERVICE_INSTALL_FAILED

  function PythonValue(r: PythonResult): (v: u8) {
    match r
    case OK => 0
    case RUNTIME_NOT_READY => 1
    case RUNTIME_DEAD => 2
    case WRONG_SPEC => 16
    case SERVICE_INSTALL_FAILED => 17
  }

  /** The Rust enum member each Python member corresponds to. */
  function RustValue(r: PythonResult): u8 {
    match r
    case OK => RUST_OK
    case RUNTIME_NOT_READY => RUST_RUNTIME_NOT_READY
    case RUNTIME_DEAD => RUST_RUNTIME_DEAD
    case WRONG_SPEC => RUST_WRONG_SPEC
    case SERVICE_INSTALL_FAILED => RUST_SERVICE_INSTALL_FAILED
  }

  /**
   The two tables agree member by member, the Python values are distinct,
   each lies in its documented band (success, Rust side, Python side), and
   the Rust classifier reads each back as the error it names.
   */
  lemma CodeTablesAgree(r: PythonResult, s: PythonResult)
    ensures PythonValue(r) == RustValue(r)
    ensures PythonValue(r) == PythonValue(s) ==> r == s
    ensures r == OK <==> BandOf(PythonValue(r)) == SuccessBand
    ensures r in {RUNTIME_NOT_READY, RUNTIME_DEAD} <==> BandOf(PythonValue(r)) == RustBand
    ensures r in {WRONG_SPEC, SERVICE_INSTALL_FAILED} <==> BandOf(PythonValue(r)) == PythonBand
    ensures r == WRONG_SPEC ==> FromValue(PythonValue(r)) == Err(Runtime(16), IncorrectSpec)
    ensures r == SERVICE_INSTALL_FAILED ==> FromValue(PythonValue(r)) == Err(Runtime(17), InstallationFailed)
  {
  }

  // ----------------------------------------------------------------------
  // ServiceError

  /** `GenericServiceError`. */
  datatype GenericServiceError = WRONG_SERVICE_IMPLEMENTATION | MALFORMED_CONFIG | METHOD_NOT_FOUND | MALFORMED_PARAMETERS

  function GenericCode(e: GenericServiceError): int {
    match e
    case WRONG_SERVICE_IMPLEMENTATION => 0
    case MALFORMED_CONFIG => 1
    case METHOD_NOT_FOUND => 2
    case MALFORMED_PARAMETERS => 3
  }

  /**
   The code `ServiceError.__init__` stores. `exact` tells whether the error
   is a plain `ServiceError` rather than an instance of a subclass. Python's
   `and` binds tighter than `or`, so the condition is
   `(not exact and code < 16) or code > 128`. The stored code is the given
   one exactly when it is at most 128 and, for a subclass, at least 16;
   otherwise it is 128. So it never exceeds 128, is at least 16 for a
   subclass, and a plain `ServiceError` keeps a code below 16.
   */
  function StoredCode(exact: bool, code: int): (r: int)
    ensures r == code <==> code <= 128 && (exact || code >= 16)
    ensures r != code ==> r == 128
    ensures r <= 128
    ensures !exact ==> r >= 16
    ensures 16 <= code <= 128 ==> r == code
  {
    if (!exact && code < 16) || code > 128 then 128 else code
  }

  /** Storing is idempotent: a stored code is stored unchanged. */
  lemma StoredCodeIdempotent(exact: bool, code: int)
    ensures StoredCode(exact, StoredCode(exact, code)) == StoredCode(exact, code)
  {
  }

  /**
   The generic codes lie in the reserved band 0..15 and are distinct; a
   plain `ServiceError` carries them unchanged, while a subclass of it
   turns each into 128.
   */
  lemma GenericCodesReserved(e: GenericServiceError, f: GenericServiceError)
    ensures 0 <= GenericCode(e) < 16
    ensures GenericCode(e) == GenericCode(f) ==> e == f
    ensures StoredCode(true, GenericCode(e)) == GenericCode(e)
    ensures StoredCode(false, GenericCode(e)) == 128
  {
  }
}
