/** The JSON responses the route handlers return: a status code and a body. */
module Http {

  datatype Method = Get | Post | Put

  datatype Body<T> =
    | Document(doc: T)
    | Documents(docs: seq<T>)
    | ErrorMessage(error: string)   // `{ error: "..." }`
    | Message(message: string)      // `{ message: "..." }`
    | NoBody                        // the framework's own reply to an uncaught exception

  datatype Response<T> = Response(status: nat, body: Body<T>)

  /** A request a page sends: verb, URL and JSON body. */
  datatype Request<T> = Request(verb: Method, url: string, body: T)
}
