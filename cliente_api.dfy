/**
 * The backend's REST contract as the record service consumes it: the
 * record shape on the wire, the requests the service can issue, and the
 * reply the transport layer hands back for each of them.
 */
module ClienteApi {
  import opened JsText

  /** A record as the backend returns it from `GET /Clientes`. */
  datatype Cliente = Cliente(
    id: int,
    nome: string,
    email: string,
    cpf: string,
    status: string,
    dataNascimento: string,
    dataInclusao: string)

  /** The JSON body of a create, update or status request. Fields that
      `createUsuario` or `updateUsuario` may leave `undefined` are optional. */
  datatype Payload = Payload(
    nome: Option<string>,
    email: Option<string>,
    cpf: Option<string>,
    status: string,
    dataNascimento: Option<string>)

  /** One HTTP request against the `/Clientes` resource. */
  datatype Request =
    | GetAll                          // GET /Clientes
    | GetById(id: int)                // GET /Clientes/{id}
    | Post(body: Payload)             // POST /Clientes
    | Put(id: int, body: Payload)     // PUT /Clientes/{id}
    | Delete(id: int)                 // DELETE /Clientes/{id}

  /** A JSON value as it can come back in `response.data`. */
  datatype Json =
    | JNull
    | JBool(b: bool)
    | JNumber(n: int)
    | JString(s: string)
    | JArray(items: seq<Json>)
    | JObject(members: map<string, Json>)

  /** JavaScript truthiness of a JSON value (`undefined` is read as `JNull`). */
  predicate JsonTruthy(j: Json) {
    match j
    case JNull => false
    case JBool(b) => b
    case JNumber(n) => n != 0
    case JString(s) => s != ""
    case _ => true
  }

  /** The error the transport layer re-throws: an HTTP status when the server
      answered, and the error's `message`. */
  datatype HttpFailure = HttpFailure(status: Option<int>, message: string)

  /** What the transport layer produced for one request. */
  datatype Reply<+T> = Ok(data: T) | Fail(failure: HttpFailure)

  /** An error as the service throws it: a local validation or lookup error
      (no request behind it), or a transport failure passed on unchanged. */
  datatype ServiceError = Local(message: string) | Remote(failure: HttpFailure) {
    /** `err.message` */
    function Message(): string {
      match this
      case Local(m) => m
      case Remote(f) => f.message
    }
  }

  datatype Result<+T> = Success(value: T) | Failure(error: ServiceError)

  /** One call of a service operation: the requests it issued, in order, and
      what it returned or threw. */
  datatype Call<+T> = Call(requests: seq<Request>, result: Result<T>)
}
