// What a redirect chain sends, request by request, and how it ends, in terms of the arguments of the
// call, the answers and the requests themselves.
module RedirectRequests {
  import opened Wrappers
  import opened Redirects

  // ----- the first request ---------------------------------------------------

  // The last header given under `name`, whatever its case, has this value.
  ghost predicate LastGiven(entries: seq<(string, string)>, name: string, value: string) {
    exists k: nat ::
      && k < |entries| && Lower(entries[k].0) == name && entries[k].1 == value
      && forall j: nat :: k < j < |entries| ==> Lower(entries[j].0) != name
  }

  lemma {:induction false} NormalizedExact(entries: seq<(string, string)>, name: string, value: string)
    ensures (name in NormalizeHeaders(entries) && NormalizeHeaders(entries)[name] == value) <==> LastGiven(entries, name, value)
  {
    hide Lower;
    if entries != [] {
      var n := |entries| - 1;
      var front := entries[..n];
      NormalizedExact(front, name, value);
      if Lower(entries[n].0) == name {
        assert LastGiven(entries, name, value) <==> entries[n].1 == value;
      } else {
        LastGivenBefore(entries, name, value);
      }
    }
  }

  lemma LastGivenBefore(entries: seq<(string, string)>, name: string, value: string)
    requires entries != [] && Lower(entries[|entries| - 1].0) != name
    ensures LastGiven(entries, name, value) <==> LastGiven(entries[..|entries| - 1], name, value)
  {
    hide Lower;
    var n := |entries| - 1;
    if LastGiven(entries, name, value) {
      var k: nat :| k < |entries| && Lower(entries[k].0) == name && entries[k].1 == value
                    && forall j: nat :: k < j < |entries| ==> Lower(entries[j].0) != name;
      assert entries[..n][k] == entries[k];
    }
    if LastGiven(entries[..n], name, value) {
      var k: nat :| k < n && Lower(entries[..n][k].0) == name && entries[..n][k].1 == value
                    && forall j: nat :: k < j < n ==> Lower(entries[..n][j].0) != name;
      forall j: nat | k < j < |entries| ensures Lower(entries[j].0) != name {
        if j < n {
          assert entries[..n][j] == entries[j];
        }
      }
    }
  }

  // A header goes out when it was given; a length is added when a body goes out and none was given.
  ghost predicate CarriesGiven(env: Env, r: Request, entries: seq<(string, string)>) {
    forall name: string, value: string :: CarriesOne(env, r, entries, name, value)
  }

  ghost predicate CarriesOne(env: Env, r: Request, entries: seq<(string, string)>, name: string, value: string) {
    (name in r.headers && r.headers[name] == value) <==>
      LastGiven(entries, name, value)
      || (name == "content-length" && r.body.Some? && value == env.contentLength(r.body.value)
          && !exists given: string :: LastGiven(entries, name, given))
  }

  // The first request: the URL as validated, the method given or GET, the headers given, and the
  // body given unless the method is GET or HEAD.
  lemma FirstRequest(env: Env, limit: real, url: Url, verb: Option<string>, entries: seq<(string, string)>, body: Option<string>)
    requires limit >= 0.0 && env.validate(url).Some?
    ensures var sent := Follow(env, limit, 0, Start(url, verb, entries, body), None).1;
            && sent != [] && sent[0].url == Url(url.origin, env.validate(url).value)
            && sent[0].verb == (if verb.Some? then Upper(verb.value) else "GET")
            && sent[0].body == (if sent[0].verb == "GET" || sent[0].verb == "HEAD" then None else body)
            && CarriesGiven(env, sent[0], entries)
  {
    hide Follow, NormalizeHeaders, Upper;
    var st := Start(url, verb, entries, body);
    FollowNext(env, limit, 0, st, None);
    FirstCarries(env, Url(url.origin, env.validate(url).value), st, entries);
  }

  lemma FirstCarries(env: Env, url: Url, st: State, entries: seq<(string, string)>)
    requires st.headers == NormalizeHeaders(entries)
    ensures CarriesGiven(env, Sent(env, url, st), entries)
  {
    SentHeaders(env, url, st);
    hide NormalizeHeaders, LastGiven, Sent;
    var r := Sent(env, url, st);
    forall name: string, value: string ensures CarriesOne(env, r, entries, name, value) {
      NormalizedExact(entries, name, value);
      GivenIsKept(entries, name);
    }
  }

  lemma SentHeaders(env: Env, url: Url, st: State)
    ensures var r := Sent(env, url, st);
            r.headers == if r.body.Some? && "content-length" !in st.headers then st.headers["content-length" := env.contentLength(r.body.value)]
                         else st.headers
  {
  }

  lemma GivenIsKept(entries: seq<(string, string)>, name: string)
    ensures name in NormalizeHeaders(entries) <==> exists given: string :: LastGiven(entries, name, given)
  {
    hide NormalizeHeaders, LastGiven;
    if name in NormalizeHeaders(entries) {
      NormalizedExact(entries, name, NormalizeHeaders(entries)[name]);
    }
    if given: string :| LastGiven(entries, name, given) {
      NormalizedExact(entries, name, given);
    }
  }

  // ----- every next request --------------------------------------------------

  // The request that follows `last`, answered with `status`; `home` is the origin of the first one.
  predicate Follows(last: Request, next: Request, status: int, home: string) {
    var away := next.url.origin != home;
    var secrets := if away then {"authorization", "proxy-authorization", "private-token", "x-auth-token", "cookie"} else {};
    if last.verb == "GET" || last.verb == "HEAD" then
      next.verb == last.verb && next.body.None? && next.headers == last.headers - secrets
    else if away || (last.verb == "POST" && status in {301, 302, 303}) then
      next.verb == "GET" && next.body.None? && next.headers == last.headers - secrets - {"content-type", "content-length"}
    else
      next.verb == last.verb && next.body == last.body && next.headers == last.headers
  }

  lemma StepFollows(env: Env, url: Url, st: State, status: int, target: Url, there: Url, home: string)
    requires status in REDIRECT_CODES && there.origin == target.origin
    ensures Follows(Sent(env, url, st), Sent(env, there, Redirected(st, status, target, home)), status, home)
  {
    VerbsDiffer();
    var away := target.origin != home;
    var last, next := Sent(env, url, st), Sent(env, there, Redirected(st, status, target, home));
    if st.verb in NO_BODY_METHODS {
      KeepsHeaders(st.headers);
    } else if away {
      DropsLength(last.headers, st.headers, env, st.body);
    } else if st.verb == "POST" && status !in SAFE_REDIRECT_CODES {
      DropsLength(last.headers, st.headers, env, st.body);
    }
  }

  lemma KeepsHeaders(headers: map<string, string>)
    ensures headers - {} == headers
  {
  }

  // A length that was added for the body goes with the body.
  lemma DropsLength(sent: map<string, string>, headers: map<string, string>, env: Env, body: Option<string>)
    requires sent == headers || (body.Some? && sent == headers["content-length" := env.contentLength(body.value)])
    ensures headers - BODY_HEADERS == sent - {} - {"content-type", "content-length"}
    ensures headers - SENSITIVE_FORWARD_HEADERS - BODY_HEADERS == sent - SENSITIVE_FORWARD_HEADERS - {"content-type", "content-length"}
  {
  }

  // Where `next` goes: the location of the answer, resolved against the last URL, as validated.
  predicate Targets(env: Env, last: Request, next: Request, answer: Response) {
    var target := env.resolve(answer.location, last.url);
    && target.Some? && env.validate(target.value).Some?
    && next.url == Url(target.value.origin, env.validate(target.value).value)
  }

  ghost predicate ChainFollows(env: Env, sent: seq<Request>, i: nat, home: string) {
    forall k: nat :: k + 1 < |sent| ==>
      Follows(sent[k], sent[k + 1], env.respond(i + k).status, home) && Targets(env, sent[k], sent[k + 1], env.respond(i + k))
  }

  lemma {:induction false} ChainFollowsFrom(env: Env, limit: real, i: nat, st: State, home: string)
    ensures ChainFollows(env, Follow(env, limit, i, st, Some(home)).1, i, home)
    decreases limit.Floor + 1 - i
  {
    hide Redirected, Sent, Follows, Targets;
    if i as real <= limit && env.validate(st.current).Some? {
      FollowNext(env, limit, i, st, Some(home));
      var n := Next(env, limit, i, st, Some(home));
      if n.Some? {
        var next := n.value.0;
        ChainFollowsFrom(env, limit, i + 1, next, home);
        FirstTwo(env, limit, i, st, home);
        ConsFollows(env, Follow(env, limit, i, st, Some(home)).1, Follow(env, limit, i + 1, next, Some(home)).1, i, home);
      }
    }
  }

  lemma FirstTwo(env: Env, limit: real, i: nat, st: State, home: string)
    requires Next(env, limit, i, st, Some(home)).Some?
    requires i as real <= limit
    ensures var sent := Follow(env, limit, i, st, Some(home)).1;
            |sent| >= 2 ==> Follows(sent[0], sent[1], env.respond(i).status, home) && Targets(env, sent[0], sent[1], env.respond(i))
  {
    hide Redirected, Sent, Follows;
    var next := Next(env, limit, i, st, Some(home)).value.0;
    var url := Url(st.current.origin, env.validate(st.current).value);
    FollowNext(env, limit, i, st, Some(home));
    NextIsRedirected(env, limit, i, st, Some(home));
    SentUrl(env, url, st);
    if (i + 1) as real <= limit && env.validate(next.current).Some? {
      var there := Url(next.current.origin, env.validate(next.current).value);
      FollowNext(env, limit, i + 1, next, Some(home));
      StepFollows(env, url, st, env.respond(i).status, next.current, there, home);
      SentUrl(env, there, next);
    }
  }

  lemma ConsFollows(env: Env, sent: seq<Request>, rest: seq<Request>, i: nat, home: string)
    requires sent != [] && sent[1..] == rest && ChainFollows(env, rest, i + 1, home)
    requires |sent| >= 2 ==> Follows(sent[0], sent[1], env.respond(i).status, home) && Targets(env, sent[0], sent[1], env.respond(i))
    ensures ChainFollows(env, sent, i, home)
  {
    hide Follows, Targets;
    forall k: nat | k + 1 < |sent|
      ensures Follows(sent[k], sent[k + 1], env.respond(i + k).status, home) && Targets(env, sent[k], sent[k + 1], env.respond(i + k))
    {
      if k > 0 {
        assert sent[k] == rest[k - 1] && sent[k + 1] == rest[k] && i + 1 + (k - 1) == i + k;
        assert k - 1 + 1 < |rest|;
      }
    }
  }

  // Over a whole chain every request is the one the last request and its answer ask for.
  lemma EveryNextRequest(env: Env, limit: real, st: State)
    ensures var sent := Follow(env, limit, 0, st, None).1;
            forall k: nat :: k + 1 < |sent| ==>
              Follows(sent[k], sent[k + 1], env.respond(k).status, sent[0].url.origin) && Targets(env, sent[k], sent[k + 1], env.respond(k))
  {
    hide Follow, Follows, Targets;
    FromStart(env, limit, st);
    ChainFollowsFrom(env, limit, 0, st, st.current.origin);
    var sent := Follow(env, limit, 0, st, None).1;
    forall k: nat | k + 1 < |sent|
      ensures Follows(sent[k], sent[k + 1], env.respond(k).status, sent[0].url.origin) && Targets(env, sent[k], sent[k + 1], env.respond(k))
    {
      assert 0 + k == k;
    }
  }

  // ----- how a chain ends ----------------------------------------------------

  predicate IsRedirect(answer: Response) {
    answer.status in {301, 302, 303, 307, 308} && answer.location != ""
  }

  // What the last answer and its target say about the end of a chain that sent something.
  ghost predicate EndsAs(env: Env, outcome: Outcome, last: Request, answer: Response, exhausted: bool) {
    var target := env.resolve(answer.location, last.url);
    match outcome
    case Got(response) => response == answer && !IsRedirect(answer)
    case TooManyRedirects => IsRedirect(answer) && exhausted
    case BadLocation => IsRedirect(answer) && !exhausted && target.None?
    case RefusedEndpoint => IsRedirect(answer) && !exhausted && target.Some? && env.validate(target.value).None?
    case HandlingFailed => false
  }

  ghost predicate Ends(env: Env, r: (Outcome, seq<Request>), limit: nat, i: nat) {
    var n := |r.1|;
    && i + n <= limit + 1
    && (forall k: nat :: i <= k < i + n - 1 ==> IsRedirect(env.respond(k)))
    && (n > 0 ==> EndsAs(env, r.0, r.1[n - 1], env.respond(i + n - 1), i + n == limit + 1))
  }

  lemma {:induction false} EndsFrom(env: Env, limit: nat, i: nat, st: State, home: string)
    requires i <= limit
    ensures var r := Follow(env, limit as real, i, st, Some(home));
            Ends(env, r, limit, i) && (if r.1 == [] then r.0 == RefusedEndpoint && env.validate(st.current).None? else env.validate(st.current).Some?)
    decreases limit - i
  {
    hide Redirected, Sent;
    if env.validate(st.current).Some? {
      var r := Follow(env, limit as real, i, st, Some(home));
      FollowNext(env, limit as real, i, st, Some(home));
      SentUrl(env, Url(st.current.origin, env.validate(st.current).value), st);
      var n := Next(env, limit as real, i, st, Some(home));
      if n.Some? {
        NextIsRedirected(env, limit as real, i, st, Some(home));
        EndsFrom(env, limit, i + 1, n.value.0, home);
        var rest := Follow(env, limit as real, i + 1, n.value.0, Some(home));
        ConsEnds(env, r, rest, limit, i);
      }
    }
  }

  lemma ConsEnds(env: Env, r: (Outcome, seq<Request>), rest: (Outcome, seq<Request>), limit: nat, i: nat)
    requires i < limit && r.1 != [] && r.1[1..] == rest.1 && r.0 == rest.0 && Ends(env, rest, limit, i + 1)
    requires IsRedirect(env.respond(i))
    requires rest.1 == [] ==> EndsAs(env, r.0, r.1[0], env.respond(i), false)
    ensures Ends(env, r, limit, i)
  {
    hide IsRedirect, EndsAs;
    var n := |r.1|;
    assert |rest.1| == n - 1;
    if n > 1 {
      assert r.1[n - 1] == rest.1[n - 2] && i + 1 + (n - 1) - 1 == i + n - 1;
      assert EndsAs(env, r.0, r.1[n - 1], env.respond(i + n - 1), i + n == limit + 1);
    }
  }

  // How a whole chain ends with a whole limit (5 when the caller gives none, 0 when it is negative):
  // nothing is sent exactly when the URL itself is refused, every answer but the last redirects, and
  // the outcome is what the last answer says; at most limit + 1 requests go out.
  lemma ChainEnds(env: Env, redirectLimit: Option<int>, st: State)
    ensures var limit := if redirectLimit.None? then 5 else if redirectLimit.value < 0 then 0 else redirectLimit.value;
            var r := Follow(env, Limit(if redirectLimit.None? then None else Some(redirectLimit.value as real)), 0, st, None);
            && Ends(env, r, limit, 0)
            && (r.1 == [] <==> env.validate(st.current).None?) && (r.1 == [] ==> r.0 == RefusedEndpoint)
  {
    hide Follow, Ends;
    var limit := if redirectLimit.None? then 5 else if redirectLimit.value < 0 then 0 else redirectLimit.value;
    FromStart(env, limit as real, st);
    EndsFrom(env, limit, 0, st, st.current.origin);
  }
}
