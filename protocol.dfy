/** The JSON-RPC 2.0 messages the server answers with, the tool-call result
    wrapper, and the mapping from storage errors to error codes. Error objects
    follow section 5.1 ("Error object") of the JSON-RPC 2.0 Specification. */
module Protocol {
  import opened Wrappers
  import opened Text
  import Storage

  /** A JSON value (`serde_json::Value`). */
  datatype Json =
    | Null
    | Bool(b: bool)
    | Number(n: int)
    | Str(s: string)
    | Arr(items: seq<Json>)
    | Obj(fields: seq<(string, Json)>)

  type i32 = x: int | -0x8000_0000 <= x < 0x8000_0000

  /** The codes defined by the JSON-RPC 2.0 specification. */
  const ParseError: i32 := -32700
  const InvalidRequest: i32 := -32600
  const MethodNotFound: i32 := -32601
  const InvalidParams: i32 := -32602
  const InternalError: i32 := -32603

  /** The application codes, meant for the server-error range. */
  const HabitNotFound: i32 := -32001
  const DuplicateEntry: i32 := -32002
  const ValidationError: i32 := -32003
  const StorageFailure: i32 := -32004

  /** The range `-32099..=-32000` that section 5.1 reserves for
      implementation-defined server errors. */
  predicate IsServerErrorCode(code: int) {
    -32099 <= code <= -32000
  }

  /** The pre-defined codes of section 5.1. */
  predicate IsPredefinedCode(code: int) {
    code == ParseError || code == InvalidRequest || code == MethodNotFound
    || code == InvalidParams || code == InternalError
  }

  datatype JsonRpcError = JsonRpcError(code: i32, message: string, data: Option<Json>)

  datatype JsonRpcResponse = JsonRpcResponse(
    jsonrpc: string,
    id: Json,
    result: Option<Json>,
    error: Option<JsonRpcError>)

  /** A response object as section 5 requires: version "2.0", and exactly one of
      `result` and `error`. */
  predicate WellFormed(r: JsonRpcResponse) {
    r.jsonrpc == "2.0" && (r.result.Some? <==> r.error.None?)
  }

  /** `JsonRpcResponse::success`. */
  function SuccessResponse(id: Json, result: Json): (r: JsonRpcResponse)
    ensures WellFormed(r) && r.id == id && r.result == Some(result)
  {
    JsonRpcResponse("2.0", id, Some(result), None)
  }

  /** `JsonRpcResponse::error`. */
  function ErrorResponse(id: Json, code: i32, message: string, data: Option<Json>): (r: JsonRpcResponse)
    ensures WellFormed(r) && r.id == id && r.result.None?
    ensures r.error == Some(JsonRpcError(code, message, data))
  {
    JsonRpcResponse("2.0", id, None, Some(JsonRpcError(code, message, data)))
  }

  /** A success and an error response are never the same message. */
  lemma SuccessIsNotError(id: Json, result: Json, id': Json, code: i32, message: string, data: Option<Json>)
    ensures SuccessResponse(id, result) != ErrorResponse(id', code, message, data)
  {
  }

  datatype ToolContent = ToolContent(contentType: string, text: string)

  datatype ToolCallResult = ToolCallResult(content: seq<ToolContent>, isError: bool)

  /** `ToolCallResult::success`: one text item carrying the text. */
  function ToolSuccess(text: string): (r: ToolCallResult)
    ensures |r.content| == 1 && r.content[0].contentType == "text" && !r.isError
    ensures r.content[0].text == text
  {
    ToolCallResult([ToolContent("text", text)], false)
  }

  /** `ToolCallResult::error`: one text item, "Error: " and the message. */
  function ToolError(message: string): (r: ToolCallResult)
    ensures |r.content| == 1 && r.content[0].contentType == "text" && r.isError
    ensures StartsWith(r.content[0].text, "Error: ")
  {
    ToolCallResult([ToolContent("text", "Error: " + message)], true)
  }

  /** The message can be read back from an error result, so different messages
      give different results. */
  lemma ToolErrorMessage(message: string)
    ensures StripPrefix(ToolError(message).content[0].text, "Error: ") == message
  {
    var t := ToolError(message).content[0].text;
    assert "Error: " + StripPrefix(t, "Error: ") == t == "Error: " + message;
  }

  /** `storage_error_to_json_rpc_code`. */
  function StorageErrorCode(e: Storage.StorageError): (code: i32)
    ensures (e.HabitNotFound? || e.EntryNotFound?) <==> code == HabitNotFound
    ensures e.DuplicateEntry? <==> code == DuplicateEntry
    ensures e.Serialization? <==> code == InternalError
    ensures (e.Query? || e.Connection? || e.Migration?) <==> code == StorageFailure
  {
    match e
    case HabitNotFound(_) => HabitNotFound
    case EntryNotFound(_) => HabitNotFound
    case DuplicateEntry(_, _) => DuplicateEntry
    case Query(_) => StorageFailure
    case Connection(_) => StorageFailure
    case Serialization(_) => InternalError
    case Migration(_) => StorageFailure
  }

  /** Every storage error maps to a server-error code, except a serialization
      failure, which maps to the pre-defined internal error. The four application
      codes are distinct and none is pre-defined. */
  lemma StorageErrorCodeRange(e: Storage.StorageError)
    ensures !e.Serialization? ==> IsServerErrorCode(StorageErrorCode(e))
    ensures e.Serialization? ==> IsPredefinedCode(StorageErrorCode(e))
    ensures forall c :: c in {HabitNotFound, DuplicateEntry, ValidationError, StorageFailure} ==>
              IsServerErrorCode(c) && !IsPredefinedCode(c)
    ensures |{HabitNotFound, DuplicateEntry, ValidationError, StorageFailure}| == 4
  {
  }
}
