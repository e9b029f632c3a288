/** The parts of the servlet API the filters and interceptors touch: the response they write and the
    chain they continue. */
module Servlet {

  const StatusOk: int := 200
  const StatusUnauthorized: int := 401

  /** HttpServletResponse: status, headers and what was written to the body. */
  class HttpResponse {
    var status: int
    var headers: map<string, string>
    var body: string

    constructor ()
      ensures status == StatusOk && headers == map[] && body == ""
    {
      status, headers, body := StatusOk, map[], "";
    }
  }

  /** FilterChain: only how often the request was passed on matters here. */
  class FilterChain {
    var invocations: nat

    constructor ()
      ensures invocations == 0
    {
      invocations := 0;
    }

    method DoFilter()
      modifies this
      ensures invocations == old(invocations) + 1
    {
      invocations := invocations + 1;
    }
  }
}
