/** The construction of an RPC error from an OCPP error code (util.ts).

    The table holds the CallError codes of OCPP-J 1.6 (section 4.2.3, with
    that edition's own spellings "FormationViolation" and
    "OccurenceConstraintViolation") and the codes that OCPP 2.0.1's JSON
    binding added ("FormatViolation", "OccurrenceConstraintViolation",
    "MessageTypeNotSupported", "RpcFrameworkError"). Every code outside the
    table yields a generic error. */
module RpcErrors {
  import opened JsValues

  /** One kind per error class the table can select. */
  datatype ErrorKind =
    | GenericError
    | NotImplementedError
    | NotSupportedError
    | InternalError
    | ProtocolError
    | SecurityError
    | FormationViolationError
    | FormatViolationError
    | PropertyConstraintViolationError
    | OccurenceConstraintViolationError
    | OccurrenceConstraintViolationError
    | TypeConstraintViolationError
    | MessageTypeNotSupportedError
    | FrameworkError

  /** An error value as `createRPCError` returns it: the class that was
      instantiated, the message given to its constructor and the `details`
      field written afterwards. */
  datatype RpcError = RpcError(kind: ErrorKind, message: string, details: JsValue)

  /** The lookup table, with exactly its fourteen own keys. */
  const ErrorTable: map<string, ErrorKind> := map[
    "GenericError" := GenericError,
    "NotImplemented" := NotImplementedError,
    "NotSupported" := NotSupportedError,
    "InternalError" := InternalError,
    "ProtocolError" := ProtocolError,
    "SecurityError" := SecurityError,
    "FormationViolation" := FormationViolationError,
    "FormatViolation" := FormatViolationError,
    "PropertyConstraintViolation" := PropertyConstraintViolationError,
    "OccurenceConstraintViolation" := OccurenceConstraintViolationError,
    "OccurrenceConstraintViolation" := OccurrenceConstraintViolationError,
    "TypeConstraintViolation" := TypeConstraintViolationError,
    "MessageTypeNotSupported" := MessageTypeNotSupportedError,
    "RpcFrameworkError" := FrameworkError
  ]

  /** The ErrorCode values of OCPP-J 1.6, section 4.2.3. */
  const Ocpp16Codes: set<string> := {
    "NotImplemented", "NotSupported", "InternalError", "ProtocolError",
    "SecurityError", "FormationViolation", "PropertyConstraintViolation",
    "OccurenceConstraintViolation", "TypeConstraintViolation", "GenericError"
  }

  /** The ErrorCode values that OCPP 2.0.1's JSON binding adds. */
  const Ocpp201AddedCodes: set<string> := {
    "FormatViolation", "OccurrenceConstraintViolation",
    "MessageTypeNotSupported", "RpcFrameworkError"
  }

  /** The code under which the table lists a kind: the reference
      definition that the lookup is proved against. */
  function CodeOf(k: ErrorKind): (code: string) {
    match k
    case GenericError => "GenericError"
    case NotImplementedError => "NotImplemented"
    case NotSupportedError => "NotSupported"
    case InternalError => "InternalError"
    case ProtocolError => "ProtocolError"
    case SecurityError => "SecurityError"
    case FormationViolationError => "FormationViolation"
    case FormatViolationError => "FormatViolation"
    case PropertyConstraintViolationError => "PropertyConstraintViolation"
    case OccurenceConstraintViolationError => "OccurenceConstraintViolation"
    case OccurrenceConstraintViolationError => "OccurrenceConstraintViolation"
    case TypeConstraintViolationError => "TypeConstraintViolation"
    case MessageTypeNotSupportedError => "MessageTypeNotSupported"
    case FrameworkError => "RpcFrameworkError"
  }

  /** `rpcErrorLUT[type] ?? RPCGenericError`: a total lookup. The kind found
      is the one listed under `code`, or the generic kind when the table has
      no entry for it. */
  function LookupKind(code: string): (k: ErrorKind)
    ensures code in ErrorTable ==> CodeOf(k) == code
    ensures code !in ErrorTable ==> k == GenericError
  {
    if code in ErrorTable then ErrorTable[code] else GenericError
  }

  /** `createRPCError(type, message, details)`. An absent message (null or
      undefined) becomes the empty string; nullish details become `{}`, and
      every other value, falsy ones included, is kept. */
  function CreateRpcError(code: string, message: Option<string>, details: JsValue): (e: RpcError)
    ensures e.kind == LookupKind(code)
    ensures message.None? ==> e.message == ""
    ensures message.Some? ==> e.message == message.value
    ensures IsNullish(details) ==> e.details == EmptyObject
    ensures !IsNullish(details) ==> e.details == details
  {
    var msg := match message case Some(m) => m case None => "";
    RpcError(LookupKind(code), msg, Coalesce(details, EmptyObject))
  }

  /** The table's keys are exactly the codes of the fourteen kinds. */
  lemma TableKeysAreCodes()
    ensures ErrorTable.Keys == set k: ErrorKind :: CodeOf(k)
  {
    var codes := set k: ErrorKind :: CodeOf(k);
    forall c | c in ErrorTable.Keys ensures c in codes {
      assert CodeOf(ErrorTable[c]) == c;
    }
    forall c | c in codes ensures c in ErrorTable.Keys {
      var k :| CodeOf(k) == c;
      assert k.GenericError? || c in ErrorTable.Keys;
    }
  }

  /** Each of the fourteen codes selects exactly the kind listed under it. */
  lemma LookupCodeOf(k: ErrorKind)
    ensures CodeOf(k) in ErrorTable
    ensures LookupKind(CodeOf(k)) == k
  {
  }

  /** Distinct kinds are listed under distinct codes; in particular the two
      near-duplicate pairs of spellings are different keys. */
  lemma CodeOfInjective(k1: ErrorKind, k2: ErrorKind)
    ensures CodeOf(k1) == CodeOf(k2) <==> k1 == k2
  {
  }

  /** The lookup characterised in both directions: a code yields a kind
      other than the generic one exactly when it is that kind's code, and
      it yields the generic kind exactly when it is "GenericError" or not in
      the table at all. */
  lemma LookupKindIff(code: string, k: ErrorKind)
    ensures k != GenericError ==> (LookupKind(code) == k <==> code == CodeOf(k))
    ensures LookupKind(code) == GenericError <==> code == "GenericError" || code !in ErrorTable
  {
  }

  /** Any code outside the table behaves like "GenericError". */
  lemma UnknownCodeIsGeneric(code: string)
    requires code !in ErrorTable
    ensures LookupKind(code) == LookupKind("GenericError") == GenericError
  {
  }

  /** The table's keys are the codes of OCPP-J 1.6 together with those
      OCPP 2.0.1 adds; with TableKeysAreCodes and CodeOfInjective this makes
      fourteen distinct keys, one per kind. */
  lemma TableIsOcppCodeList()
    ensures ErrorTable.Keys == Ocpp16Codes + Ocpp201AddedCodes
  {
  }

  /** The kind depends on the code only, never on the message or details. */
  lemma KindIgnoresMessageAndDetails(code: string, m1: Option<string>, m2: Option<string>, d1: JsValue, d2: JsValue)
    ensures CreateRpcError(code, m1, d1).kind == CreateRpcError(code, m2, d2).kind
  {
  }

  /** Because the defaults are applied with `??`, falsy details that are not
      nullish (`0`, `""`, `false`) are kept, where `||` would have replaced
      them by `{}`. */
  lemma FalsyDetailsKept(code: string, message: Option<string>, details: JsValue)
    requires IsFalsy(details) && !IsNullish(details)
    ensures CreateRpcError(code, message, details).details == details
    ensures Or(details, EmptyObject) == EmptyObject != details
  {
  }
}
