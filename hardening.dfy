/** `deny_frame` of app.py: the after-request hook that forbids framing every response. */
module Hardening {
  const FrameOptionsHeader: string := "X-Frame-Options"
  const Deny: string := "deny"

  /** The headers once `X-Frame-Options` is set to `deny`. */
  function WithFrameDenied(headers: map<string, string>): (r: map<string, string>)
    ensures FrameOptionsHeader in r && r[FrameOptionsHeader] == Deny
    ensures r.Keys == headers.Keys + {FrameOptionsHeader}
    ensures forall name :: name in headers && name != FrameOptionsHeader ==> r[name] == headers[name]
  {
    headers[FrameOptionsHeader := Deny]
  }

  /** Denying frames twice is the same as denying them once. */
  lemma WithFrameDeniedIdempotent(headers: map<string, string>)
    ensures WithFrameDenied(WithFrameDenied(headers)) == WithFrameDenied(headers)
  {
  }

  /** An outgoing response, of any route and status. */
  class HttpResponse {
    var status: int
    var headers: map<string, string>
    var body: string

    constructor (status: int, headers: map<string, string>, body: string)
      ensures this.status == status && this.headers == headers && this.body == body
    {
      this.status := status;
      this.headers := headers;
      this.body := body;
    }

    /** `deny_frame(response)`: sets the header in place and returns the same response. */
    method DenyFrame() returns (response: HttpResponse)
      modifies this
      ensures response == this
      ensures headers == WithFrameDenied(old(headers))
      ensures status == old(status) && body == old(body)
    {
      headers := headers[FrameOptionsHeader := Deny];
      response := this;
    }
  }
}
