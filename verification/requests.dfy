/** The request value object both connections build and hand to the transport.
    PHP passes objects by handle, so the pagination code and LinkedIn's
    request decoration change the caller's request in place: it is a class. */
module Requests {
  import opened Values

  /** What the transport sees of a request at the moment it is sent. */
  datatype Req = Req(verb: string, url: string, params: seq<Field>, queryParams: seq<Field>)
  {
    /** The same request with `params[$name]` set. */
    function WithParam(name: string, v: Value): (r: Req)
      ensures r.params == Put(params, name, v)
      ensures r.verb == verb && r.url == url && r.queryParams == queryParams
    {
      this.(params := Put(params, name, v))
    }
  }

  /** The base connection's transport (`parent::singleRequest`), which is not
      part of this model: any total function from the request sent to the
      decoded response. */
  type Transport = Req -> Value

  /** A request object: HTTP method (`verb`), URL, body/query parameters and the extra query
      parameters an OAuth2 connection attaches. */
  class Request {
    var verb: string
    var url: string
    var params: seq<Field>
    var queryParams: seq<Field>

    constructor (verb: string, url: string, params: seq<Field>)
      ensures Snapshot() == Req(verb, url, params, [])
    {
      this.verb := verb;
      this.url := url;
      this.params := params;
      this.queryParams := [];
    }

    /** The request's current state as a value. */
    function Snapshot(): Req
      reads this
    {
      Req(verb, url, params, queryParams)
    }
  }

  /** The current state of every request of a batch, index by index. */
  function Snapshots(rs: seq<Request>): (r: seq<Req>)
    reads rs
    ensures |r| == |rs|
    ensures forall i :: 0 <= i < |rs| ==> r[i] == rs[i].Snapshot()
  {
    if rs == [] then [] else [rs[0].Snapshot()] + Snapshots(rs[1..])
  }

  /** No request object occurs twice in a batch. */
  predicate Distinct(rs: seq<Request>) {
    forall i, j :: 0 <= i < j < |rs| ==> rs[i] != rs[j]
  }
}
