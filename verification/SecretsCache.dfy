// The list of Docker secrets of a remote host: a short-lived cache and one shared fetch per key.
// Every callback of the promise chain is a step of its own, so that any interleaving is a run.
module SecretsCache {
  import opened Wrappers

  // The cache key: a server and a user, or no user.
  datatype Key = Key(server: nat, user: Option<nat>)

  type Rows = seq<string>

  datatype Entry = Entry(expiresAt: int, rows: Rows)

  // A fetch: running, settled with its `then` callback due, stored with its `finally` callback due,
  // rejected with its `finally` callback due, or over.
  datatype Phase =
    | Running
    | Resolved(rows: Rows)
    | Stored(rows: Rows, at: int)
    | Rejected
    | Finished(rows: Rows, at: int)
    | Failed

  // `started` is the number of steps taken before the fetch began.
  datatype Fetch = Fetch(key: Key, phase: Phase, started: nat)

  // What a caller got: cached rows at a time, or the outcome of the fetch it joined.
  datatype Answer =
    | FromCache(key: Key, rows: Rows, now: int)
    | FromFetch(key: Key, rows: Rows, id: nat)
    | Refused(key: Key, id: nat)

  datatype State = State(
    cache: map<Key, Entry>,
    inflight: map<Key, nat>,
    fetches: map<nat, Fetch>,
    waiting: map<nat, nat>,       // caller -> fetch it awaits
    answers: seq<Answer>,
    nextId: nat,
    steps: nat)

  const TTL := 4000

  datatype Event =
    | Call(caller: nat, key: Key, now: int)
    | Settle(id: nat, outcome: Option<Rows>)   // the remote command ends
    | Then(id: nat, now: int)
    | Finally(id: nat)
    | Deliver(caller: nat)
    | Invalidate(key: Key)                     // a create, import or remove has run on the host

  const START := State(map[], map[], map[], map[], [], 0, 0)

  function HitRows(s: State, key: Key, now: int): Option<Rows> {
    if key in s.cache && s.cache[key].expiresAt > now then Some(s.cache[key].rows) else None
  }

  function StepCall(s: State, caller: nat, key: Key, now: int): State {
    var hit := HitRows(s, key, now);
    if hit.Some? then s.(answers := s.answers + [FromCache(key, hit.value, now)])
    else if key in s.inflight then s.(waiting := s.waiting[caller := s.inflight[key]])
    else
      s.(fetches := s.fetches[s.nextId := Fetch(key, Running, s.steps)],
         inflight := s.inflight[key := s.nextId],
         waiting := s.waiting[caller := s.nextId],
         nextId := s.nextId + 1)
  }

  function SetPhase(s: State, id: nat, phase: Phase): State
    requires id in s.fetches
  {
    s.(fetches := s.fetches[id := s.fetches[id].(phase := phase)])
  }

  function StepThen(s: State, id: nat, now: int): State {
    if id in s.fetches && s.fetches[id].phase.Resolved? then
      var rows := s.fetches[id].phase.rows;
      SetPhase(s, id, Stored(rows, now)).(cache := s.cache[s.fetches[id].key := Entry(now + TTL, rows)])
    else s
  }

  function StepFinally(s: State, id: nat): State {
    if id in s.fetches && (s.fetches[id].phase.Stored? || s.fetches[id].phase.Rejected?) then
      var f := s.fetches[id];
      SetPhase(s, id, if f.phase.Stored? then Finished(f.phase.rows, f.phase.at) else Failed).(inflight := s.inflight - {f.key})
    else s
  }

  function StepDeliver(s: State, caller: nat): State {
    if caller in s.waiting && s.waiting[caller] in s.fetches then
      var id := s.waiting[caller];
      var f := s.fetches[id];
      match f.phase
      case Finished(rows, at) => s.(answers := s.answers + [FromFetch(f.key, rows, id)], waiting := s.waiting - {caller})
      case Failed => s.(answers := s.answers + [Refused(f.key, id)], waiting := s.waiting - {caller})
      case _ => s
    else s
  }

  // One step; an event that is not due changes nothing but the step count.
  function Step(s: State, e: Event): State {
    var t :=
      match e
      case Call(caller, key, now) => StepCall(s, caller, key, now)
      case Settle(id, outcome) =>
        if id in s.fetches && s.fetches[id].phase.Running? then
          SetPhase(s, id, if outcome.Some? then Resolved(outcome.value) else Rejected)
        else s
      case Then(id, now) => StepThen(s, id, now)
      case Finally(id) => StepFinally(s, id)
      case Deliver(caller) => StepDeliver(s, caller)
      case Invalidate(key) => s.(cache := s.cache - {key});
    t.(steps := s.steps + 1)
  }

  function Run(s: State, events: seq<Event>): State
    decreases |events|
  {
    if events == [] then s else Run(Step(s, events[0]), events[1..])
  }

  // ----- the service as it runs ----------------------------------------------

  class DockerSecretsService {
    var remoteListCache: map<Key, Entry>
    var remoteListInflight: map<Key, nat>
    // the runtime's side: promise chains, awaiting callers, answers given
    var fetches: map<nat, Fetch>
    var waiting: map<nat, nat>
    var answers: seq<Answer>
    var nextId: nat
    var steps: nat

    ghost function Now(): State
      reads this
    {
      State(remoteListCache, remoteListInflight, fetches, waiting, answers, nextId, steps)
    }

    constructor ()
      ensures Now() == START
    {
      remoteListCache, remoteListInflight := map[], map[];
      fetches, waiting, answers, nextId := map[], map[], [], 0;
      steps := 0;
    }

    // Up to the await: a hit is answered at once, anyone else awaits the one fetch of the key.
    method FindAll(caller: nat, key: Key, now: int) returns (rows: Option<Rows>)
      modifies this
      ensures Now() == Step(old(Now()), Call(caller, key, now))
      ensures rows == HitRows(old(Now()), key, now)
    {
      steps := steps + 1;
      if key in remoteListCache && remoteListCache[key].expiresAt > now {
        answers := answers + [FromCache(key, remoteListCache[key].rows, now)];
        return Some(remoteListCache[key].rows);
      }
      if key !in remoteListInflight {
        fetches := fetches[nextId := Fetch(key, Running, steps - 1)];
        remoteListInflight := remoteListInflight[key := nextId];
        nextId := nextId + 1;
      }
      waiting := waiting[caller := remoteListInflight[key]];
      return None;
    }

    method OnFulfilled(id: nat, now: int)
      requires id in fetches && fetches[id].phase.Resolved?
      modifies this
      ensures Now() == Step(old(Now()), Then(id, now))
    {
      var f := fetches[id];
      remoteListCache := remoteListCache[f.key := Entry(now + TTL, f.phase.rows)];
      fetches := fetches[id := f.(phase := Stored(f.phase.rows, now))];
      steps := steps + 1;
    }

    method OnFinally(id: nat)
      requires id in fetches && (fetches[id].phase.Stored? || fetches[id].phase.Rejected?)
      modifies this
      ensures Now() == Step(old(Now()), Finally(id))
    {
      var f := fetches[id];
      remoteListInflight := remoteListInflight - {f.key};
      fetches := fetches[id := f.(phase := if f.phase.Stored? then Finished(f.phase.rows, f.phase.at) else Failed)];
      steps := steps + 1;
    }

    method InvalidateRemoteListCache(key: Key)
      modifies this
      ensures Now() == Step(old(Now()), Invalidate(key))
    {
      remoteListCache := remoteListCache - {key};
      steps := steps + 1;
    }
  }

  // ----- what every run keeps ------------------------------------------------

  predicate IsOver(p: Phase) {
    p.Finished? || p.Failed?
  }

  // The rows a fetch has delivered to the cache, and when.
  predicate HasStored(f: Fetch, rows: Rows, at: int) {
    f.phase == Stored(rows, at) || f.phase == Finished(rows, at)
  }

  // The registered fetch of a key is the one fetch of that key that is not over.
  ghost predicate OneInFlight(s: State) {
    && (forall id :: id in s.fetches ==> id < s.nextId)
    && (forall key :: key in s.inflight ==>
          s.inflight[key] in s.fetches && s.fetches[s.inflight[key]].key == key && !IsOver(s.fetches[s.inflight[key]].phase))
    && (forall id :: id in s.fetches && !IsOver(s.fetches[id].phase) ==>
          s.fetches[id].key in s.inflight && s.inflight[s.fetches[id].key] == id)
  }

  // The cache entry of the key was stored by fetch `id`, a TTL before it expires.
  predicate Stores(s: State, key: Key, id: nat) {
    && key in s.cache && id in s.fetches && s.fetches[id].key == key
    && HasStored(s.fetches[id], s.cache[key].rows, s.cache[key].expiresAt - TTL)
  }

  // Every cache entry comes from a successful fetch of its key.
  ghost predicate CacheFromFetches(s: State) {
    forall key :: key in s.cache ==> exists id :: Stores(s, key, id)
  }

  // A caller awaits a fetch of its own.
  ghost predicate WaitersJoined(s: State) {
    forall c :: c in s.waiting ==> s.waiting[c] in s.fetches
  }

  // An answer is what the joined fetch returned, or rows stored less than a TTL before.
  ghost predicate IsGoodAnswer(s: State, a: Answer) {
    match a
    case FromCache(key, rows, now) =>
      exists id, at :: id in s.fetches && s.fetches[id].key == key && HasStored(s.fetches[id], rows, at) && now - at < TTL
    case FromFetch(key, rows, id) =>
      id in s.fetches && s.fetches[id].key == key && s.fetches[id].phase.Finished? && s.fetches[id].phase.rows == rows
    case Refused(key, id) => id in s.fetches && s.fetches[id].key == key && s.fetches[id].phase.Failed?
  }

  ghost predicate GoodAnswers(s: State) {
    forall k :: 0 <= k < |s.answers| ==> IsGoodAnswer(s, s.answers[k])
  }

  // Every fetch began before now.
  ghost predicate StartedEarlier(s: State) {
    forall id :: id in s.fetches ==> s.fetches[id].started < s.steps
  }

  ghost predicate Inv(s: State) {
    StartedEarlier(s) && OneInFlight(s) && CacheFromFetches(s) && WaitersJoined(s) && GoodAnswers(s)
  }

  // A fetch never loses what it has stored, and what is over stays as it is.
  ghost predicate Grows(s: State, t: State) {
    forall id :: id in s.fetches ==>
      && id in t.fetches && t.fetches[id].key == s.fetches[id].key && t.fetches[id].started == s.fetches[id].started
      && (IsOver(s.fetches[id].phase) ==> t.fetches[id] == s.fetches[id])
      && (forall rows, at :: HasStored(s.fetches[id], rows, at) ==> HasStored(t.fetches[id], rows, at))
  }

  lemma SetPhaseGrows(s: State, id: nat, phase: Phase)
    requires id in s.fetches && !IsOver(s.fetches[id].phase)
    requires forall rows, at :: HasStored(s.fetches[id], rows, at) ==> phase == Stored(rows, at) || phase == Finished(rows, at)
    ensures Grows(s, SetPhase(s, id, phase))
  {
  }

  lemma StepGrows(s: State, e: Event)
    requires OneInFlight(s)
    ensures Grows(s, Step(s, e))
  {
    match e
    case Settle(id, outcome) =>
      if id in s.fetches && s.fetches[id].phase.Running? {
        SetPhaseGrows(s, id, if outcome.Some? then Resolved(outcome.value) else Rejected);
      }
    case Then(id, now) =>
      if id in s.fetches && s.fetches[id].phase.Resolved? {
        SetPhaseGrows(s, id, Stored(s.fetches[id].phase.rows, now));
      }
    case Finally(id) =>
      if id in s.fetches && (s.fetches[id].phase.Stored? || s.fetches[id].phase.Rejected?) {
        SetPhaseGrows(s, id, if s.fetches[id].phase.Stored? then Finished(s.fetches[id].phase.rows, s.fetches[id].phase.at) else Failed);
      }
    case _ =>
  }

  // A phase change that does not end a fetch keeps the registration.
  lemma SetPhaseOneInFlight(s: State, id: nat, phase: Phase)
    requires OneInFlight(s) && id in s.fetches && !IsOver(s.fetches[id].phase) && !IsOver(phase)
    ensures OneInFlight(SetPhase(s, id, phase))
  {
  }

  lemma CallOneInFlight(s: State, caller: nat, key: Key, now: int)
    requires OneInFlight(s)
    ensures OneInFlight(StepCall(s, caller, key, now))
  {
  }

  lemma FinallyOneInFlight(s: State, id: nat)
    requires OneInFlight(s)
    ensures OneInFlight(StepFinally(s, id))
  {
  }

  lemma SameFetches(s: State, t: State)
    requires OneInFlight(s) && s.fetches == t.fetches && s.inflight == t.inflight && s.nextId == t.nextId
    ensures OneInFlight(t)
  {
  }

  lemma StepOneInFlight(s: State, e: Event)
    requires OneInFlight(s)
    ensures OneInFlight(Step(s, e))
  {
    hide OneInFlight;
    var t := Step(s, e);
    match e
    case Call(caller, key, now) =>
      CallOneInFlight(s, caller, key, now);
      SameFetches(StepCall(s, caller, key, now), t);
    case Settle(id, outcome) =>
      if id in s.fetches && s.fetches[id].phase.Running? {
        var phase := if outcome.Some? then Resolved(outcome.value) else Rejected;
        SetPhaseOneInFlight(s, id, phase);
        SameFetches(SetPhase(s, id, phase), t);
      } else {
        SameFetches(s, t);
      }
    case Then(id, now) =>
      if id in s.fetches && s.fetches[id].phase.Resolved? {
        var phase := Stored(s.fetches[id].phase.rows, now);
        SetPhaseOneInFlight(s, id, phase);
        SameFetches(SetPhase(s, id, phase), t);
      } else {
        SameFetches(s, t);
      }
    case Finally(id) =>
      FinallyOneInFlight(s, id);
      SameFetches(StepFinally(s, id), t);
    case _ => SameFetches(s, t);
  }

  lemma GoodAnswersGrow(s: State, t: State)
    requires GoodAnswers(s) && Grows(s, t) && s.answers == t.answers
    ensures GoodAnswers(t)
  {
    forall k | 0 <= k < |t.answers| ensures IsGoodAnswer(t, t.answers[k]) {
      assert IsGoodAnswer(s, s.answers[k]);
    }
  }

  lemma GoodAnswersMore(s: State, t: State, a: Answer)
    requires GoodAnswers(s) && Grows(s, t) && t.answers == s.answers + [a] && IsGoodAnswer(t, a)
    ensures GoodAnswers(t)
  {
    forall k | 0 <= k < |t.answers| ensures IsGoodAnswer(t, t.answers[k]) {
      if k < |s.answers| {
        assert IsGoodAnswer(s, s.answers[k]);
      }
    }
  }

  // The event that stores the rows of a fetch of the key.
  predicate StoresNow(s: State, e: Event, key: Key) {
    e.Then? && e.id in s.fetches && s.fetches[e.id].phase.Resolved? && s.fetches[e.id].key == key
  }

  // A cache entry after a step is the one just stored or the one from before.
  lemma CacheStep(s: State, e: Event, key: Key)
    requires key in Step(s, e).cache
    ensures if StoresNow(s, e, key) then Stores(Step(s, e), key, e.id)
            else key in s.cache && Step(s, e).cache[key] == s.cache[key]
  {
  }

  lemma StoresGrow(s: State, t: State, key: Key, id: nat)
    requires Stores(s, key, id) && Grows(s, t) && key in t.cache && t.cache[key] == s.cache[key]
    ensures Stores(t, key, id)
  {
  }

  lemma CacheKept(s: State, e: Event)
    requires CacheFromFetches(s) && Grows(s, Step(s, e))
    ensures CacheFromFetches(Step(s, e))
  {
    hide Step, Stores, Grows;
    var t := Step(s, e);
    forall key | key in t.cache ensures exists id :: Stores(t, key, id) {
      CacheStep(s, e, key);
      if !StoresNow(s, e, key) {
        var id :| Stores(s, key, id);
        StoresGrow(s, t, key, id);
      }
    }
  }

  // A hit was stored less than a TTL ago.
  lemma HitIsGood(s: State, key: Key, now: int)
    requires CacheFromFetches(s) && HitRows(s, key, now).Some?
    ensures IsGoodAnswer(s, FromCache(key, HitRows(s, key, now).value, now))
  {
    var id :| Stores(s, key, id);
    assert now - (s.cache[key].expiresAt - TTL) < TTL;
  }

  lemma AnswersKept(s: State, e: Event)
    requires GoodAnswers(s) && CacheFromFetches(s) && Grows(s, Step(s, e))
    ensures GoodAnswers(Step(s, e))
  {
    hide Grows, GoodAnswers, CacheFromFetches, IsGoodAnswer;
    var t := Step(s, e);
    match e
    case Call(caller, key, now) =>
      if HitRows(s, key, now).Some? {
        var a := FromCache(key, HitRows(s, key, now).value, now);
        HitIsGood(s, key, now);
        AnswerKept(s, t, a);
        GoodAnswersMore(s, t, a);
      } else {
        GoodAnswersGrow(s, t);
      }
    case Deliver(caller) => DeliverAnswers(s, caller);
    case _ => GoodAnswersGrow(s, t);
  }

  lemma WaitersKept(s: State, e: Event)
    requires WaitersJoined(s) && OneInFlight(s)
    ensures WaitersJoined(Step(s, e))
  {
  }

  lemma StartedKept(s: State, e: Event)
    requires StartedEarlier(s)
    ensures StartedEarlier(Step(s, e))
  {
  }

  lemma StepKeepsInv(s: State, e: Event)
    requires Inv(s)
    ensures Inv(Step(s, e))
  {
    hide StartedEarlier, OneInFlight, Grows, GoodAnswers, CacheFromFetches, WaitersJoined, Step;
    StepOneInFlight(s, e);
    StepGrows(s, e);
    CacheKept(s, e);
    AnswersKept(s, e);
    WaitersKept(s, e);
    StartedKept(s, e);
  }

  lemma AnswerKept(s: State, t: State, a: Answer)
    requires IsGoodAnswer(s, a) && Grows(s, t)
    ensures IsGoodAnswer(t, a)
  {
  }

  lemma DeliverAnswers(s: State, caller: nat)
    requires GoodAnswers(s) && Grows(s, Step(s, Deliver(caller)))
    ensures GoodAnswers(Step(s, Deliver(caller)))
  {
    hide GoodAnswers, Grows;
    var t := Step(s, Deliver(caller));
    if t.answers == s.answers {
      GoodAnswersGrow(s, t);
    } else {
      GoodAnswersMore(s, t, t.answers[|s.answers|]);
    }
  }

  // In every run, whatever the interleaving.
  lemma {:induction false} RunKeepsInv(s: State, events: seq<Event>)
    requires Inv(s)
    ensures Inv(Run(s, events))
    decreases |events|
  {
    hide Inv, Step;
    if events != [] {
      StepKeepsInv(s, events[0]);
      RunKeepsInv(Step(s, events[0]), events[1..]);
    }
  }

  // From the start: at most one fetch per key is under way, and every list served is good.
  lemma EveryRun(events: seq<Event>)
    ensures var s := Run(START, events); AtMostOnePerKey(s) && GoodAnswers(s)
  {
    hide Run;
    RunKeepsInv(START, events);
  }

  predicate Underway(s: State, id: nat) {
    id in s.fetches && !IsOver(s.fetches[id].phase)
  }

  ghost predicate AtMostOnePerKey(s: State) {
    forall a, b :: Underway(s, a) && Underway(s, b) && s.fetches[a].key == s.fetches[b].key ==> a == b
  }

  // The cleanup of a finished fetch removes its own registration and nobody else's.
  lemma CleanupRemovesOwn(s: State, id: nat)
    requires Inv(s) && id in s.fetches && (s.fetches[id].phase.Stored? || s.fetches[id].phase.Rejected?)
    ensures s.fetches[id].key in s.inflight && s.inflight[s.fetches[id].key] == id
    ensures Step(s, Finally(id)).inflight == s.inflight - {s.fetches[id].key}
  {
    hide GoodAnswers, CacheFromFetches;
  }

  // ----- mutations -----------------------------------------------------------

  // Every list of the key that can still be served comes from a fetch begun at or after step n.
  ghost predicate FreshSince(s: State, key: Key, n: nat) {
    && (key in s.inflight ==> s.inflight[key] in s.fetches && s.fetches[s.inflight[key]].started >= n)
    && (key in s.cache ==> exists id :: Stores(s, key, id) && s.fetches[id].started >= n)
  }

  // After a mutation, lists are fresh exactly when no fetch of the key was under way.
  lemma MutationExact(s: State, key: Key)
    requires Inv(s)
    ensures FreshSince(Step(s, Invalidate(key)), key, s.steps) <==> key !in s.inflight
  {
    hide GoodAnswers, CacheFromFetches;
  }

  lemma FlightFresh(s: State, e: Event, key: Key, n: nat)
    requires OneInFlight(s) && n <= s.steps
    requires key in s.inflight ==> s.fetches[s.inflight[key]].started >= n
    ensures var t := Step(s, e); key in t.inflight ==> t.inflight[key] in t.fetches && t.fetches[t.inflight[key]].started >= n
  {
    StepOneInFlight(s, e);
    StepGrows(s, e);
    var t := Step(s, e);
    if key in t.inflight && key in s.inflight {
      assert t.inflight[key] == s.inflight[key];
    }
  }

  // Freshness lasts.
  lemma StepKeepsFresh(s: State, e: Event, key: Key, n: nat)
    requires Inv(s) && FreshSince(s, key, n) && n <= s.steps
    ensures FreshSince(Step(s, e), key, n)
  {
    FlightFresh(s, e, key, n);
    StepGrows(s, e);
    var t := Step(s, e);
    if key in t.cache {
      CacheStep(s, e, key);
      if StoresNow(s, e, key) { ResolvedInFlight(s, e, key); }
      hide GoodAnswers, CacheFromFetches, WaitersJoined, OneInFlight, Step, Stores;
      if StoresNow(s, e, key) {
        assert Stores(t, key, e.id) && t.fetches[e.id].started == s.fetches[e.id].started;
      } else {
        var id :| Stores(s, key, id) && s.fetches[id].started >= n;
        StoresIn(s, key, id);
        StoresGrow(s, t, key, id);
      }
    }
  }

  lemma StoresIn(s: State, key: Key, id: nat)
    requires Stores(s, key, id)
    ensures key in s.cache && id in s.fetches
  {
  }

  lemma ResolvedInFlight(s: State, e: Event, key: Key)
    requires OneInFlight(s) && StoresNow(s, e, key)
    ensures key in s.inflight && s.inflight[key] == e.id
  {
  }

  lemma {:induction false} RunKeepsFresh(s: State, events: seq<Event>, key: Key, n: nat)
    requires Inv(s) && FreshSince(s, key, n) && n <= s.steps
    ensures FreshSince(Run(s, events), key, n)
    decreases |events|
  {
    hide Inv, FreshSince;
    if events != [] {
      StepKeepsInv(s, events[0]);
      StepKeepsFresh(s, events[0], key, n);
      RunKeepsFresh(Step(s, events[0]), events[1..], key, n);
    }
  }

  lemma RunSix(s: State, a: Event, b: Event, c: Event, d: Event, e: Event, f: Event)
    ensures Run(s, [a, b, c, d, e, f]) == Step(Step(Step(Step(Step(Step(s, a), b), c), d), e), f)
  {
    hide Step;
    var s2 := Step(Step(s, a), b);
    var s4 := Step(Step(s2, c), d);
    assert [a, b, c, d, e, f][1..] == [b, c, d, e, f] && [b, c, d, e, f][1..] == [c, d, e, f];
    assert [c, d, e, f][1..] == [d, e, f] && [d, e, f][1..] == [e, f] && [e, f][1..] == [f] && [f][1..] == [];
    assert Run(s2, [c, d, e, f]) == Run(s4, [e, f]);
    assert Run(s4, [e, f]) == Run(Step(s4, e), [f]) == Run(Step(Step(s4, e), f), []);
    assert Run(s, [a, b, c, d, e, f]) == Run(Step(s, a), [b, c, d, e, f]) == Run(s2, [c, d, e, f]);
  }

  // A fetch under way during a mutation brings back the list from before it, and caches it: the
  // caller after the mutation is served from step 0.
  lemma StaleAfterMutation(key: Key, rows: Rows)
    ensures var s := Run(START, [Call(1, key, 0), Settle(0, Some(rows)), Invalidate(key), Then(0, 10), Finally(0), Call(2, key, 20)]);
            s.answers == [FromCache(key, rows, 20)]
  {
    RunSix(START, Call(1, key, 0), Settle(0, Some(rows)), Invalidate(key), Then(0, 10), Finally(0), Call(2, key, 20));
    hide Run;
    var s3 := Step(Step(Step(START, Call(1, key, 0)), Settle(0, Some(rows))), Invalidate(key));
    assert s3.fetches == map[0 := Fetch(key, Resolved(rows), 0)] && s3.answers == [];
    var s5 := Step(Step(s3, Then(0, 10)), Finally(0));
    assert s5.cache == map[key := Entry(10 + TTL, rows)] && s5.answers == [];
  }
}
