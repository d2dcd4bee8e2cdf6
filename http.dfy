/** Request bodies as handlers read them, and the one response a handler
    writes: a status code and a JSON body. */
module Http {
  import opened Wrappers
  import opened Documents

  /** The string at `key` of a JSON object body, if there is one. */
  function StrField(body: Json, key: string): (r: Option<string>)
    ensures r.Some? <==> body.Obj? && key in body.fields && body.fields[key].Str?
    ensures r.Some? ==> body.fields[key] == Str(r.value)
  {
    if body.Obj? && key in body.fields && body.fields[key].Str? then Some(body.fields[key].str) else None
  }

  /** The number at `key` of a JSON object body, if there is one. */
  function NumField(body: Json, key: string): (r: Option<real>)
    ensures r.Some? <==> body.Obj? && key in body.fields && body.fields[key].Num?
    ensures r.Some? ==> body.fields[key] == Num(r.value)
  {
    if body.Obj? && key in body.fields && body.fields[key].Num? then Some(body.fields[key].num) else None
  }

  datatype Reply = Reply(status: int, body: Json)

  /** `{[key]: text}` */
  function TextBody(key: string, text: string): Json {
    Obj(map[key := Str(text)])
  }

  /** `res.status(status).json({error: text})` */
  function ErrorReply(status: int, text: string): (r: Reply)
    ensures r.status == status && r.body == TextBody("error", text)
  {
    Reply(status, TextBody("error", text))
  }

  /** `res.status(400).json({error: 'Bad Request'})` */
  function BadRequest(): Reply {
    ErrorReply(400, "Bad Request")
  }

  /** `res.status(500).json({error: 'Internal Server Error'})` */
  function InternalError(): Reply {
    ErrorReply(500, "Internal Server Error")
  }
}
