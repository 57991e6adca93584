// Following HTTP redirects to pinned, validated endpoints. The Git and the registry service each
// carry a copy of the loop; validation, transport and URL resolution are parameters.
module Redirects {
  import opened Wrappers
  import LineScan

  // A URL, cut after its origin (scheme, host, port).
  datatype Url = Url(origin: string, rest: string)

  // `location` is trimmed and empty when the response has none.
  datatype Response = Response(status: int, location: string, payload: string)

  // What goes over the wire.
  datatype Request = Request(url: Url, verb: string, headers: map<string, string>, body: Option<string>)

  // validate: the accepted form of a URL of the same origin, or nothing when it is refused.
  // respond: the answer to the n-th request. resolve: a location against a base, if it is a URL.
  // contentLength: the byte length of a body, in decimal.
  datatype Env = Env(
    validate: Url -> Option<string>,
    respond: nat -> Response,
    resolve: (string, Url) -> Option<Url>,
    contentLength: string -> string)

  datatype Outcome = Got(response: Response) | RefusedEndpoint | BadLocation | TooManyRedirects | HandlingFailed

  const REDIRECT_CODES := {301, 302, 303, 307, 308}
  const SAFE_REDIRECT_CODES := {307, 308}
  const MAX_REDIRECTS := 5
  const NO_BODY_METHODS := {"GET", "HEAD"}
  const SENSITIVE_FORWARD_HEADERS := {"authorization", "proxy-authorization", "private-token", "x-auth-token", "cookie"}
  const BODY_HEADERS := {"content-type", "content-length"}

  function UpperChar(c: char): char {
    if 'a' <= c <= 'z' then (c as int - 32) as char else c
  }

  function Lower(s: string): (r: string)
    ensures |r| == |s| && forall k :: 0 <= k < |s| ==> r[k] == LineScan.Lower(s[k])
  {
    seq(|s|, k requires 0 <= k < |s| => LineScan.Lower(s[k]))
  }

  function Upper(s: string): (r: string)
    ensures |r| == |s| && forall k :: 0 <= k < |s| ==> r[k] == UpperChar(s[k])
  {
    seq(|s|, k requires 0 <= k < |s| => UpperChar(s[k]))
  }

  predicate IsLower(s: string) {
    forall k :: 0 <= k < |s| ==> LineScan.Lower(s[k]) == s[k]
  }

  // Header names in lower case; of two that coincide the later one wins.
  function NormalizeHeaders(entries: seq<(string, string)>): (r: map<string, string>)
    ensures forall name :: name in r ==> IsLower(name)
  {
    if entries == [] then map[]
    else NormalizeHeaders(entries[..|entries| - 1])[Lower(entries[|entries| - 1].0) := entries[|entries| - 1].1]
  }

  // The loop variables before a request.
  datatype State = State(current: Url, verb: string, headers: map<string, string>, body: Option<string>)

  // What the transport sends for a state: no body with GET or HEAD, and a length when there is a body.
  function Sent(env: Env, url: Url, st: State): Request {
    if st.body.None? || st.verb in NO_BODY_METHODS then Request(url, st.verb, st.headers, None)
    else
      var headers := if "content-length" in st.headers then st.headers
                     else st.headers["content-length" := env.contentLength(st.body.value)];
      Request(url, st.verb, headers, st.body)
  }

  function ToGet(st: State): State {
    st.(verb := "GET", body := None, headers := st.headers - BODY_HEADERS)
  }

  // The loop variables after a redirect to `next`.
  function Redirected(st: State, status: int, next: Url, original: string): State {
    var cross := next.origin != original;
    var moved := st.(current := next);
    var s1 := if cross then moved.(headers := moved.headers - SENSITIVE_FORWARD_HEADERS) else moved;
    var s2 := if cross && s1.verb !in NO_BODY_METHODS then ToGet(s1) else s1;
    if status !in SAFE_REDIRECT_CODES && s2.verb == "POST" then ToGet(s2) else s2
  }

  // The chain from request number i on: the outcome and the requests sent.
  function Follow(env: Env, limit: real, i: nat, st: State, original: Option<string>): (Outcome, seq<Request>)
    decreases limit.Floor + 1 - i
  {
    if i as real > limit then (HandlingFailed, [])
    else
      var accepted := env.validate(st.current);
      if accepted.None? then (RefusedEndpoint, [])
      else
        var url := Url(st.current.origin, accepted.value);
        var home := if original.None? then url.origin else original.value;
        var request := Sent(env, url, st);
        var res := env.respond(i);
        if res.status !in REDIRECT_CODES || res.location == "" then (Got(res), [request])
        else if i as real == limit then (TooManyRedirects, [request])
        else
          var target := env.resolve(res.location, url);
          if target.None? then (BadLocation, [request])
          else
            var rest := Follow(env, limit, i + 1, Redirected(st, res.status, target.value, home), Some(home));
            (rest.0, [request] + rest.1)
  }

  function Limit(redirectLimit: Option<real>): (r: real)
    ensures r >= 0.0
  {
    var wanted := if redirectLimit.Some? then redirectLimit.value else MAX_REDIRECTS as real;
    if wanted < 0.0 then 0.0 else wanted
  }

  function Start(url: Url, verb: Option<string>, headers: seq<(string, string)>, body: Option<string>): State {
    State(url, if verb.Some? then Upper(verb.value) else "GET", NormalizeHeaders(headers), body)
  }

  // One turn of the chain, behind what was sent before it.
  lemma FollowTurn(env: Env, limit: real, i: nat, st: State, original: Option<string>, before: seq<Request>)
    requires i as real <= limit
    ensures var r := Follow(env, limit, i, st, original);
            var accepted := env.validate(st.current);
            if accepted.None? then r.0 == RefusedEndpoint && before + r.1 == before
            else
              var url := Url(st.current.origin, accepted.value);
              var sent := before + [Sent(env, url, st)];
              var res := env.respond(i);
              if res.status !in REDIRECT_CODES || res.location == "" then r.0 == Got(res) && before + r.1 == sent
              else if i as real == limit then r.0 == TooManyRedirects && before + r.1 == sent
              else
                var target := env.resolve(res.location, url);
                if target.None? then r.0 == BadLocation && before + r.1 == sent
                else
                  var home := if original.None? then url.origin else original.value;
                  var rest := Follow(env, limit, i + 1, Redirected(st, res.status, target.value, home), Some(home));
                  r.0 == rest.0 && before + r.1 == sent + rest.1
  {
    hide Redirected, Sent;
  }

  lemma FollowStops(env: Env, limit: real, i: nat, st: State, original: Option<string>, before: seq<Request>)
    requires i as real > limit
    ensures var r := Follow(env, limit, i, st, original); r.0 == HandlingFailed && before + r.1 == before
  {
  }

  // ----- the two copies of the loop ------------------------------------------

  method FetchPinnedWithValidation(env: Env, rawUrl: Url, verb_: Option<string>, headers_: seq<(string, string)>,
                                   body_: Option<string>, redirectLimit: Option<real>)
    returns (outcome: Outcome, sent: seq<Request>)
    ensures (outcome, sent) == Follow(env, Limit(redirectLimit), 0, Start(rawUrl, verb_, headers_, body_), None)
  {
    hide Follow, NormalizeHeaders, Sent, Upper;
    var limit := Limit(redirectLimit);
    var currentUrl := rawUrl;
    var verb := if verb_.Some? then Upper(verb_.value) else "GET";
    var body := body_;
    var headers := NormalizeHeaders(headers_);
    var originalOrigin: Option<string> := None;
    sent := [];
    var i := 0;
    ghost var all := Follow(env, limit, 0, Start(rawUrl, verb_, headers_, body_), None);
    while i as real <= limit
      invariant 0 <= i
      invariant var rest := Follow(env, limit, i, State(currentUrl, verb, headers, body), originalOrigin);
                all.0 == rest.0 && all.1 == sent + rest.1
      decreases limit.Floor + 1 - i
    {
      ghost var st := State(currentUrl, verb, headers, body);
      FollowTurn(env, limit, i, st, originalOrigin, sent);
      var endpoint := env.validate(currentUrl);
      if endpoint.None? {
        return RefusedEndpoint, sent;
      }
      var url := Url(currentUrl.origin, endpoint.value);
      if originalOrigin.None? {
        originalOrigin := Some(url.origin);
      }
      sent := sent + [Sent(env, url, State(currentUrl, verb, headers, body))];
      var res := env.respond(i);
      if res.status !in REDIRECT_CODES {
        return Got(res), sent;
      }
      if res.location == "" {
        return Got(res), sent;
      }
      if i as real == limit {
        return TooManyRedirects, sent;
      }
      var redirected := env.resolve(res.location, url);
      if redirected.None? {
        return BadLocation, sent;
      }
      currentUrl := redirected.value;
      if currentUrl.origin != originalOrigin.value {
        headers := headers - SENSITIVE_FORWARD_HEADERS;
        if verb !in NO_BODY_METHODS {
          verb := "GET";
          body := None;
          headers := headers - BODY_HEADERS;
        }
      }
      if res.status !in SAFE_REDIRECT_CODES && verb == "POST" {
        verb := "GET";
        body := None;
        headers := headers - BODY_HEADERS;
      }
      assert State(currentUrl, verb, headers, body) == Redirected(st, res.status, redirected.value, originalOrigin.value);
      i := i + 1;
    }
    FollowStops(env, limit, i, State(currentUrl, verb, headers, body), originalOrigin, sent);
    return HandlingFailed, sent;
  }

  method RequestWithPinnedIp(env: Env, rawUrl: Url, verb_: Option<string>, headers_: seq<(string, string)>,
                             body_: Option<string>, redirectLimit: Option<real>)
    returns (outcome: Outcome, sent: seq<Request>)
    ensures (outcome, sent) == Follow(env, Limit(redirectLimit), 0, Start(rawUrl, verb_, headers_, body_), None)
  {
    hide Follow, NormalizeHeaders, Sent, Upper;
    var limit := Limit(redirectLimit);
    var currentUrl := rawUrl;
    var verb := if verb_.Some? then Upper(verb_.value) else "GET";
    var body := body_;
    var headers := NormalizeHeaders(headers_);
    var originalOrigin: Option<string> := None;
    sent := [];
    var i := 0;
    ghost var all := Follow(env, limit, 0, Start(rawUrl, verb_, headers_, body_), None);
    while i as real <= limit
      invariant 0 <= i
      invariant var rest := Follow(env, limit, i, State(currentUrl, verb, headers, body), originalOrigin);
                all.0 == rest.0 && all.1 == sent + rest.1
      decreases limit.Floor + 1 - i
    {
      ghost var st := State(currentUrl, verb, headers, body);
      FollowTurn(env, limit, i, st, originalOrigin, sent);
      var endpoint := env.validate(currentUrl);
      if endpoint.None? {
        return RefusedEndpoint, sent;
      }
      var url := Url(currentUrl.origin, endpoint.value);
      if originalOrigin.None? {
        originalOrigin := Some(url.origin);
      }
      sent := sent + [Sent(env, url, State(currentUrl, verb, headers, body))];
      var res := env.respond(i);
      if res.status !in REDIRECT_CODES {
        return Got(res), sent;
      }
      if res.location == "" {
        return Got(res), sent;
      }
      if i as real == limit {
        return TooManyRedirects, sent;
      }
      var redirected := env.resolve(res.location, url);
      if redirected.None? {
        return BadLocation, sent;
      }
      currentUrl := redirected.value;
      if currentUrl.origin != originalOrigin.value {
        headers := headers - SENSITIVE_FORWARD_HEADERS;
        if verb !in NO_BODY_METHODS {
          verb := "GET";
          body := None;
          headers := headers - BODY_HEADERS;
        }
      }
      if res.status !in SAFE_REDIRECT_CODES && verb == "POST" {
        verb := "GET";
        body := None;
        headers := headers - BODY_HEADERS;
      }
      assert State(currentUrl, verb, headers, body) == Redirected(st, res.status, redirected.value, originalOrigin.value);
      i := i + 1;
    }
    FollowStops(env, limit, i, State(currentUrl, verb, headers, body), originalOrigin, sent);
    return HandlingFailed, sent;
  }

  // ----- what every chain satisfies ------------------------------------------

  // At most one request more than the limit, each to an accepted endpoint.
  lemma {:induction false} ChainBounded(env: Env, limit: real, i: nat, st: State, original: Option<string>)
    requires limit >= 0.0
    ensures var sent := Follow(env, limit, i, st, original).1;
            && |sent| <= (if i <= limit.Floor + 1 then limit.Floor + 1 - i else 0)
            && forall k :: 0 <= k < |sent| ==>
                 exists u :: env.validate(u).Some? && sent[k].url == Url(u.origin, env.validate(u).value)
    decreases limit.Floor + 1 - i
  {
    var r := Follow(env, limit, i, st, original);
    if r.1 != [] {
      assert env.validate(st.current).Some? && r.1[0].url == Url(st.current.origin, env.validate(st.current).value);
      var n := Next(env, limit, i, st, original);
      if n.Some? {
        ChainBounded(env, limit, i + 1, n.value.0, Some(n.value.1));
      }
    }
  }

  // The state of the next turn and the first origin, when the chain goes on after request i.
  function Next(env: Env, limit: real, i: nat, st: State, original: Option<string>): Option<(State, string)> {
    var accepted := env.validate(st.current);
    if i as real > limit || accepted.None? then None
    else
      var url := Url(st.current.origin, accepted.value);
      var home := if original.None? then url.origin else original.value;
      var res := env.respond(i);
      if res.status !in REDIRECT_CODES || res.location == "" || i as real == limit then None
      else
        var target := env.resolve(res.location, url);
        if target.None? then None else Some((Redirected(st, res.status, target.value, home), home))
  }

  lemma FollowNext(env: Env, limit: real, i: nat, st: State, original: Option<string>)
    requires i as real <= limit && env.validate(st.current).Some?
    ensures var n := Next(env, limit, i, st, original);
            var r := Follow(env, limit, i, st, original);
            var first := Sent(env, Url(st.current.origin, env.validate(st.current).value), st);
            if n.None? then r.1 == [first]
            else r.1 == [first] + Follow(env, limit, i + 1, n.value.0, Some(n.value.1)).1
                 && r.0 == Follow(env, limit, i + 1, n.value.0, Some(n.value.1)).0
  {
  }

  // No sensitive header, and no body with a method that may carry one.
  predicate Stripped(st: State) {
    (forall h :: h in st.headers ==> h !in SENSITIVE_FORWARD_HEADERS)
    && (st.body.None? || st.verb in NO_BODY_METHODS)
  }

  predicate CleanRequest(r: Request) {
    (forall h :: h in r.headers ==> h !in SENSITIVE_FORWARD_HEADERS) && r.body.None?
  }

  lemma StrippedSendsClean(env: Env, url: Url, st: State)
    requires Stripped(st)
    ensures CleanRequest(Sent(env, url, st))
  {
  }

  lemma RedirectedStrips(st: State, status: int, next: Url, original: string)
    ensures Stripped(st) || next.origin != original ==> Stripped(Redirected(st, status, next, original))
    ensures forall h :: h in Redirected(st, status, next, original).headers ==> h in st.headers
  {
  }

  // Once stripped, the chain stays stripped, wherever it goes.
  lemma {:induction false} StrippedForGood(env: Env, limit: real, i: nat, st: State, original: Option<string>)
    requires Stripped(st)
    ensures var sent := Follow(env, limit, i, st, original).1; forall k :: 0 <= k < |sent| ==> CleanRequest(sent[k])
    decreases limit.Floor + 1 - i
  {
    hide Sent, Redirected, CleanRequest;
    var sent := Follow(env, limit, i, st, original).1;
    if i as real <= limit && env.validate(st.current).Some? {
      FollowNext(env, limit, i, st, original);
      StrippedSendsClean(env, Url(st.current.origin, env.validate(st.current).value), st);
      var n := Next(env, limit, i, st, original);
      if n.Some? {
        RedirectedStrips(st, env.respond(i).status, n.value.0.current, n.value.1);
        NextIsRedirected(env, limit, i, st, original);
        StrippedForGood(env, limit, i + 1, n.value.0, Some(n.value.1));
      }
    }
  }

  lemma NextIsRedirected(env: Env, limit: real, i: nat, st: State, original: Option<string>)
    requires Next(env, limit, i, st, original).Some?
    ensures var n := Next(env, limit, i, st, original).value;
            n.0.current == env.resolve(env.respond(i).location, Url(st.current.origin, env.validate(st.current).value)).value
            && n.0 == Redirected(st, env.respond(i).status, n.0.current, n.1)
            && n.1 == if original.None? then st.current.origin else original.value
  {
  }

  // From the first request to another origin on, every request is clean, also back home.
  lemma {:induction false} LeavingHomeStrips(env: Env, limit: real, i: nat, st: State, home: string)
    requires st.current.origin == home || Stripped(st)
    ensures var sent := Follow(env, limit, i, st, Some(home)).1;
            forall j, k :: 0 <= j <= k < |sent| && sent[j].url.origin != home ==> CleanRequest(sent[k])
    decreases limit.Floor + 1 - i
  {
    hide Sent, Redirected, CleanRequest, Stripped;
    var sent := Follow(env, limit, i, st, Some(home)).1;
    if Stripped(st) {
      StrippedForGood(env, limit, i, st, Some(home));
    } else if i as real <= limit && env.validate(st.current).Some? {
      FollowNext(env, limit, i, st, Some(home));
      var n := Next(env, limit, i, st, Some(home));
      SentUrl(env, Url(st.current.origin, env.validate(st.current).value), st);
      if n.Some? {
        NextIsRedirected(env, limit, i, st, Some(home));
        RedirectedStrips(st, env.respond(i).status, n.value.0.current, home);
        LeavingHomeStrips(env, limit, i + 1, n.value.0, home);
        var rest := Follow(env, limit, i + 1, n.value.0, Some(home)).1;
        forall j, k | 0 <= j <= k < |sent| && sent[j].url.origin != home ensures CleanRequest(sent[k]) {
          assert sent[j] == rest[j - 1] && sent[k] == rest[k - 1];
        }
      }
    }
  }

  lemma SentUrl(env: Env, url: Url, st: State)
    ensures Sent(env, url, st).url == url && Sent(env, url, st).verb == st.verb
  {
  }

  // The first origin is that of the first request.
  lemma FromStart(env: Env, limit: real, st: State)
    ensures Follow(env, limit, 0, st, None) == Follow(env, limit, 0, st, Some(st.current.origin))
    ensures var sent := Follow(env, limit, 0, st, None).1; sent != [] ==> sent[0].url.origin == st.current.origin
  {
    hide Sent, Redirected;
    if 0.0 <= limit && env.validate(st.current).Some? {
      SentUrl(env, Url(st.current.origin, env.validate(st.current).value), st);
    }
  }

  // The whole chain: from the first request that leaves the first origin on, no request carries a
  // sensitive header or a body.
  lemma CredentialsStayHome(env: Env, limit: real, st: State)
    ensures var sent := Follow(env, limit, 0, st, None).1;
            forall j, k :: 0 <= j <= k < |sent| && sent[j].url.origin != sent[0].url.origin ==> CleanRequest(sent[k])
  {
    hide Follow, CleanRequest;
    FromStart(env, limit, st);
    LeavingHomeStrips(env, limit, 0, st, st.current.origin);
  }

  // ----- how the method changes ----------------------------------------------

  // The method of a request, from the method before, the status and whether the target left home.
  function NextVerb(verb: string, status: int, cross: bool): string {
    if verb in NO_BODY_METHODS then verb
    else if cross then "GET"
    else if status !in SAFE_REDIRECT_CODES && verb == "POST" then "GET"
    else verb
  }

  lemma RedirectedVerb(st: State, status: int, next: Url, original: string)
    ensures Redirected(st, status, next, original).verb == NextVerb(st.verb, status, next.origin != original)
    ensures Redirected(st, status, next, original).verb != st.verb ==>
              Redirected(st, status, next, original).body.None?
              && forall h :: h in Redirected(st, status, next, original).headers ==> h !in BODY_HEADERS
  {
    hide IsLower;
    assert "GET" != "POST" && "HEAD" != "POST" by { assert "GET"[0] == 'G' && "HEAD"[0] == 'H' && "POST"[0] == 'P'; }
  }

  // Request `next` follows request `last`, which was answered with `status`.
  predicate VerbStep(last: Request, next: Request, status: int, home: string) {
    && next.verb == NextVerb(last.verb, status, next.url.origin != home)
    && (next.verb != last.verb ==> next.body.None?)
  }

  lemma {:induction false} VerbChainFrom(env: Env, limit: real, i: nat, st: State, home: string)
    ensures var sent := Follow(env, limit, i, st, Some(home)).1;
            forall k :: 0 <= k < |sent| - 1 ==> VerbStep(sent[k], sent[k + 1], env.respond(i + k).status, home)
    decreases limit.Floor + 1 - i
  {
    hide Redirected, NextVerb;
    var sent := Follow(env, limit, i, st, Some(home)).1;
    if i as real <= limit && env.validate(st.current).Some? {
      FollowNext(env, limit, i, st, Some(home));
      var n := Next(env, limit, i, st, Some(home));
      if n.Some? {
        NextIsRedirected(env, limit, i, st, Some(home));
        RedirectedVerb(st, env.respond(i).status, n.value.0.current, home);
        VerbChainFrom(env, limit, i + 1, n.value.0, home);
        var rest := Follow(env, limit, i + 1, n.value.0, Some(home)).1;
        forall k | 0 <= k < |sent| - 1 ensures VerbStep(sent[k], sent[k + 1], env.respond(i + k).status, home) {
          if k > 0 {
            assert sent[k] == rest[k - 1] && sent[k + 1] == rest[k];
          }
        }
      }
    }
  }

  // Over a whole chain every two requests in a row follow the table above, the target having left home
  // when its origin is not that of the first request, and a changed method sends no body.
  lemma VerbChain(env: Env, limit: real, st: State)
    ensures var sent := Follow(env, limit, 0, st, None).1;
            forall k :: 0 <= k < |sent| - 1 ==> VerbStep(sent[k], sent[k + 1], env.respond(k).status, sent[0].url.origin)
  {
    hide Follow, VerbStep;
    FromStart(env, limit, st);
    VerbChainFrom(env, limit, 0, st, st.current.origin);
    var sent := Follow(env, limit, 0, st, None).1;
    forall k | 0 <= k < |sent| - 1 ensures VerbStep(sent[k], sent[k + 1], env.respond(k).status, sent[0].url.origin) {
      assert 0 + k == k;
    }
  }

  lemma VerbsDiffer()
    ensures "GET" != "POST" && "HEAD" != "POST" && "POST" !in NO_BODY_METHODS && "DELETE" !in NO_BODY_METHODS && "DELETE" != "POST"
  {
    assert "GET"[0] == 'G' && "HEAD"[0] == 'H' && "POST"[0] == 'P' && "DELETE"[0] == 'D';
  }

  // A POST answered with 301, 302 or 303 is not sent again as POST.
  lemma PostBecomesGet(env: Env, limit: real, st: State, k: nat)
    requires var sent := Follow(env, limit, 0, st, None).1;
             k + 1 < |sent| && sent[k].verb == "POST" && env.respond(k).status in {301, 302, 303}
    ensures var sent := Follow(env, limit, 0, st, None).1;
            sent[k + 1].verb == "GET" && sent[k + 1].body.None?
  {
    hide Follow;
    VerbChain(env, limit, st);
    VerbsDiffer();
  }

  // Section 15.4.4 of RFC 9110 asks for GET or HEAD after a 303. The next request has such a method
  // exactly when the last one had, when it was a POST, or when the target left the first origin.
  lemma SeeOtherExact(env: Env, limit: real, st: State, k: nat)
    requires k + 1 < |Follow(env, limit, 0, st, None).1| && env.respond(k).status == 303
    ensures var sent := Follow(env, limit, 0, st, None).1;
            sent[k + 1].verb in NO_BODY_METHODS <==>
              sent[k].verb in NO_BODY_METHODS || sent[k].verb == "POST" || sent[k + 1].url.origin != sent[0].url.origin
  {
    hide Follow;
    VerbChain(env, limit, st);
    VerbsDiffer();
  }

  // One host that answers the first request with a 303 to another path of its own, then with 200.
  function SeeOtherEnv(there: Url): Env {
    Env((u: Url) => Some(u.rest), (n: nat) => if n == 0 then Response(303, there.rest, "") else Response(200, "", ""),
        (location: string, base: Url) => Some(there), (body: string) => "0")
  }

  // A webhook is removed with DELETE; answered with 303 on the same origin, the DELETE is sent again
  // to the other path.
  lemma DeleteStaysDelete(origin: string, path: string, other: string, headers: seq<(string, string)>)
    requires other != ""
    ensures var start := Start(Url(origin, path), Some("DELETE"), headers, None);
            var chain := Follow(SeeOtherEnv(Url(origin, other)), Limit(None), 0, start, None);
            && chain.0 == Got(Response(200, "", ""))
            && chain.1 == [Request(Url(origin, path), "DELETE", start.headers, None), Request(Url(origin, other), "DELETE", start.headers, None)]
  {
    hide NormalizeHeaders;
    VerbsDiffer();
    assert Upper("DELETE") == "DELETE";
    hide Upper;
    var start, there := Start(Url(origin, path), Some("DELETE"), headers, None), Url(origin, other);
    var env := SeeOtherEnv(there);
    var second := Redirected(start, 303, there, origin);
    assert second == start.(current := there);
    FollowNext(env, Limit(None), 0, start, None);
    FollowNext(env, Limit(None), 1, second, Some(origin));
  }

  // ----- the final throw -----------------------------------------------------

  predicate IsWhole(x: real) {
    x.Floor as real == x
  }

  // With a whole limit the loop always returns or throws inside.
  lemma {:induction false} WholeLimitEnds(env: Env, limit: real, i: nat, st: State, original: Option<string>)
    requires IsWhole(limit) && i as real <= limit
    ensures Follow(env, limit, i, st, original).0 != HandlingFailed
    decreases limit.Floor + 1 - i
  {
    hide Redirected, Sent;
    if env.validate(st.current).Some? {
      FollowNext(env, limit, i, st, original);
      var n := Next(env, limit, i, st, original);
      if n.Some? {
        WholeLimitEnds(env, limit, i + 1, n.value.0, Some(n.value.1));
      }
    }
  }

  // No caller sets a limit, so the limit is the default one and the throw behind the loop is never
  // reached; nor is it with any whole limit a caller could set.
  lemma FinalThrowUnreachable(env: Env, redirectLimit: Option<real>, st: State)
    requires redirectLimit.Some? ==> IsWhole(redirectLimit.value)
    ensures Follow(env, Limit(redirectLimit), 0, st, None).0 != HandlingFailed
  {
    WholeLimitEnds(env, Limit(redirectLimit), 0, st, None);
  }

  // With any other limit an endless chain of redirects to itself reaches it.
  function LoopEnv(there: Url): Env {
    Env((u: Url) => Some(u.rest), (n: nat) => Response(302, "/", ""), (location: string, base: Url) => Some(there), (body: string) => "0")
  }

  lemma {:induction false} FinalThrowReached(limit: real, i: nat, st: State, original: Option<string>, there: Url)
    requires limit >= 0.0 && !IsWhole(limit)
    ensures Follow(LoopEnv(there), limit, i, st, original).0 == HandlingFailed
    decreases limit.Floor + 1 - i
  {
    hide Redirected, Sent;
    if i as real <= limit {
      var env := LoopEnv(there);
      FollowNext(env, limit, i, st, original);
      var n := Next(env, limit, i, st, original);
      assert i as real != limit;
      FinalThrowReached(limit, i + 1, n.value.0, Some(n.value.1), there);
    }
  }

  // The final throw can be reached exactly when the limit is not a whole number.
  lemma FinalThrowExact(limit: real, st: State)
    requires limit >= 0.0
    ensures (exists env: Env :: Follow(env, limit, 0, st, None).0 == HandlingFailed) <==> !IsWhole(limit)
  {
    if IsWhole(limit) {
      forall env: Env ensures Follow(env, limit, 0, st, None).0 != HandlingFailed {
        WholeLimitEnds(env, limit, 0, st, None);
      }
    } else {
      FinalThrowReached(limit, 0, st, None, st.current);
      assert Follow(LoopEnv(st.current), limit, 0, st, None).0 == HandlingFailed;
    }
  }
}
