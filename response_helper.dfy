/** The standard JSON envelope every HTTP handler answers with
    (src/utils/responseHelper.js). */
module ResponseHelper {
  import opened Common

  /** An HTTP reply: the status code and the JSON body
      `{success, message, data?, error?}`. An absent optional member is a key
      the body does not carry. */
  datatype Envelope<T> = Envelope(status: int, success: bool, message: string, data: Option<T>, error: Option<string>)
  {
    /** The keys of the JSON body. */
    function Keys(): set<string> {
      {"success", "message"}
      + (if data.Some? then {"data"} else {})
      + (if error.Some? then {"error"} else {})
    }
  }

  /** `success(res, message, data = null, statusCode = 200)`. A `data` of
      `None` stands for `null` (also what an omitted or `undefined` argument
      becomes); a `statusCode` of `None` is an omitted argument. */
  function Success<T>(message: string, data: Option<T> := None, statusCode: Option<int> := None): (r: Envelope<T>)
    ensures r.success && r.message == message
    ensures r.Keys() == {"success", "message"} + (if data.Some? then {"data"} else {})
    ensures data.Some? ==> r.data == data
    ensures r.status == if statusCode.Some? then statusCode.value else 200
  {
    Envelope(if statusCode.Some? then statusCode.value else 200, true, message, data, None)
  }

  /** `error(res, message, statusCode = 500, errorDetails = null)`: the
      details are attached only when truthy. */
  function Error<T>(message: string, statusCode: Option<int> := None, errorDetails: Option<string> := None): (r: Envelope<T>)
    ensures !r.success && r.message == message && r.data.None?
    ensures r.Keys() == {"success", "message"} + (if Truthy(errorDetails) then {"error"} else {})
    ensures Truthy(errorDetails) ==> r.error == errorDetails
    ensures r.status == if statusCode.Some? then statusCode.value else 500
  {
    Envelope(if statusCode.Some? then statusCode.value else 500, false, message, None,
             if Truthy(errorDetails) then errorDetails else None)
  }
}
