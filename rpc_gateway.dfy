/** The result branch of `callAPI`: the parsed JSON reply either carries a
    truthy `error`, which is thrown, or the call returns its `data` field. */
module RpcGateway {
  import opened Wrappers

  /** A JavaScript value produced by `response.json()` (JSON has no NaN). */
  datatype JsValue =
    | Undefined
    | Null
    | Bool(b: bool)
    | Number(n: real)
    | Str(s: string)
    | Array(items: seq<JsValue>)
    | Object(fields: map<string, JsValue>)

  /** JavaScript truthiness: false, 0, "", null and undefined are falsy. */
  predicate Truthy(v: JsValue)
  {
    match v
    case Undefined => false
    case Null => false
    case Bool(b) => b
    case Number(n) => n != 0.0
    case Str(s) => s != []
    case Array(_) => true
    case Object(_) => true
  }

  /** `v.key` for a value that is neither null nor undefined. */
  function Get(v: JsValue, key: string): JsValue
    requires !v.Null? && !v.Undefined?
  {
    match v
    case Object(m) => if key in m then m[key] else Undefined
    case _ => Undefined
  }

  datatype ApiError =
    | RemoteError(payload: JsValue)   // `throw new Error(result.error)`
    | NoResult                        // reading `.error` of null throws a TypeError

  /** A remote failure always carries a truthy `error`; a reply object without
      one always succeeds. */
  function CallApi(result: JsValue): (r: Result<JsValue, ApiError>)
    ensures r == Failure(NoResult) <==> result.Null? || result.Undefined?
    ensures r.Failure? && r.error.RemoteError? ==> Truthy(r.error.payload)
    ensures result.Object? && "error" !in result.fields ==> r.Success?
  {
    if result.Null? || result.Undefined? then Failure(NoResult)
    else if Truthy(Get(result, "error")) then Failure(RemoteError(Get(result, "error")))
    else Success(Get(result, "data"))
  }

  /** What the remote service means to send back: a payload or an error message. */
  datatype Reply = DataReply(data: JsValue) | ErrorReply(message: string)

  /** The reply as a JSON object with a `data` or an `error` field. */
  function EncodeReply(r: Reply): JsValue
  {
    match r
    case DataReply(d) => Object(map["data" := d])
    case ErrorReply(msg) => Object(map["error" := Str(msg)])
  }

  /** Every data reply is returned as sent, and every error reply with a
      non-empty message fails with exactly that message. */
  lemma ReplyRoundTrip(r: Reply)
    requires r.ErrorReply? ==> r.message != []
    ensures CallApi(EncodeReply(r)) ==
      match r
      case DataReply(d) => Success(d)
      case ErrorReply(msg) => Failure(RemoteError(Str(msg)))
  {
  }

  /** An error reply with an empty message is falsy, so the call succeeds with `undefined`. */
  lemma EmptyErrorMessageIsSuccess()
    ensures CallApi(EncodeReply(ErrorReply(""))) == Success(Undefined)
  {
  }

  /** The call succeeds exactly when the reply is an object-like value whose
      `error` is falsy, and then it returns the `data` field. */
  lemma SuccessIff(result: JsValue)
    ensures CallApi(result).Success? <==>
      !result.Null? && !result.Undefined? && !Truthy(Get(result, "error"))
    ensures CallApi(result).Success? ==> CallApi(result).value == Get(result, "data")
  {
  }

  /** A reply with a truthy `error` fails with that very value, whatever other
      fields it holds; with a falsy one it does not fail. */
  lemma RemoteErrorIsResultError(result: JsValue)
    requires !result.Null? && !result.Undefined?
    ensures CallApi(result).Failure? <==> Truthy(Get(result, "error"))
    ensures CallApi(result).Failure? ==> CallApi(result).error == RemoteError(Get(result, "error"))
  {
  }

  /** `{"error":"Invalid session"}` fails with the message "Invalid session". */
  lemma ExampleInvalidSession()
    ensures CallApi(Object(map["error" := Str("Invalid session")])) == Failure(RemoteError(Str("Invalid session")))
  {
  }
}
