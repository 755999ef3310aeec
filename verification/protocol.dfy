/** How a request to the agent process can fail. The class of an error is taken as
    given; how it is read off the provider's message is not part of this model. */
module Protocol {
  // Error codes of section 5.1 of JSON-RPC 2.0, and the one ACP uses for a canceled request.
  const MethodNotFoundCode := -32601
  const InvalidRequestCode := -32600
  const InvalidParamsCode := -32602
  const RequestCanceledCode := -32800

  datatype Fault =
    | Transport(canceled: bool)
    | Request(code: int, notFound: bool, queryClosed: bool, alreadyExists: bool)
  {
    predicate MethodNotFound() {
      Request? && code == MethodNotFoundCode
    }

    predicate SessionNotFound() {
      Request? && notFound
    }

    predicate ResumeUnknownSession() {
      Request? && (notFound || queryClosed)
    }

    predicate SessionAlreadyExists() {
      Request? && alreadyExists
    }

    predicate DefinitiveModelRejection() {
      MethodNotFound() || (Request? && (code == InvalidRequestCode || code == InvalidParamsCode))
    }
  }
}
