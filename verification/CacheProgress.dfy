// Callers of the secrets cache are served: what a call answers or joins, what a delivery hands over,
// and that no caller is stuck.
module CacheProgress {
  import opened Wrappers
  import opened SecretsCache

  // A call within the lifetime of an entry is answered from it at once; any other call ends up awaiting
  // the one unfinished fetch of its own key, which is started only when there is none.
  lemma CallExact(s: State, caller: nat, key: Key, now: int)
    requires Inv(s)
    ensures var t := Step(s, Call(caller, key, now));
            if key in s.cache && now < s.cache[key].expiresAt then
              && t.answers == s.answers + [FromCache(key, s.cache[key].rows, now)]
              && t.fetches == s.fetches && t.waiting == s.waiting && t.cache == s.cache
            else
              && t.answers == s.answers && t.cache == s.cache
              && caller in t.waiting && t.waiting[caller] in t.fetches
              && t.fetches[t.waiting[caller]].key == key && !IsOver(t.fetches[t.waiting[caller]].phase)
              && (if exists id :: id in s.fetches && s.fetches[id].key == key && !IsOver(s.fetches[id].phase) then t.fetches == s.fetches
                  else t.fetches.Keys == s.fetches.Keys + {t.waiting[caller]} && t.waiting[caller] !in s.fetches
                       && t.fetches[t.waiting[caller]].phase == Running)
              && forall c :: c in s.waiting && c != caller ==> c in t.waiting && t.waiting[c] == s.waiting[c]
  {
    hide CacheFromFetches, GoodAnswers, StartedEarlier;
  }

  // A caller whose fetch is over gets its rows or its failure, and waits no longer; before that a
  // delivery does nothing.
  lemma DeliveryExact(s: State, caller: nat)
    requires Inv(s) && caller in s.waiting
    ensures var t := Step(s, Deliver(caller));
            var f := s.fetches[s.waiting[caller]];
            && t.cache == s.cache && t.fetches == s.fetches
            && (match f.phase
                case Finished(rows, _) => t.answers == s.answers + [FromFetch(f.key, rows, s.waiting[caller])] && t.waiting == s.waiting - {caller}
                case Failed => t.answers == s.answers + [Refused(f.key, s.waiting[caller])] && t.waiting == s.waiting - {caller}
                case _ => t.answers == s.answers && t.waiting == s.waiting)
  {
    hide CacheFromFetches, GoodAnswers, StartedEarlier, OneInFlight;
  }

  // The events that end fetch `id`, whatever its phase, with the answers of the remote host.
  function Ending(id: nat, outcome: Option<Rows>, now: int): seq<Event> {
    [Settle(id, outcome), Then(id, now), Finally(id)]
  }

  lemma RunThree(s: State, a: Event, b: Event, c: Event)
    ensures Run(s, [a, b, c]) == Step(Step(Step(s, a), b), c)
  {
    hide Step;
    assert [a, b, c][1..] == [b, c] && [b, c][1..] == [c] && [c][1..] == [];
    assert Run(Step(Step(Step(s, a), b), c), []) == Step(Step(Step(s, a), b), c);
    assert Run(Step(Step(s, a), b), [c]) == Step(Step(Step(s, a), b), c);
    assert Run(Step(s, a), [b, c]) == Step(Step(Step(s, a), b), c);
  }

  // Nobody joins, leaves or is answered.
  predicate SameCallers(s: State, t: State, id: nat) {
    id in s.fetches && id in t.fetches && t.fetches[id].key == s.fetches[id].key && t.waiting == s.waiting && t.answers == s.answers
  }

  lemma SettleStep(s: State, id: nat, outcome: Option<Rows>)
    requires id in s.fetches
    ensures var t := Step(s, Settle(id, outcome));
            SameCallers(s, t, id)
            && t.fetches[id].phase == if s.fetches[id].phase.Running? then (if outcome.Some? then Resolved(outcome.value) else Rejected) else s.fetches[id].phase
  {
  }

  lemma ThenStep(s: State, id: nat, now: int)
    requires id in s.fetches
    ensures var t := Step(s, Then(id, now));
            SameCallers(s, t, id)
            && (if s.fetches[id].phase.Resolved? then
                  && t.fetches[id].phase == Stored(s.fetches[id].phase.rows, now)
                  && t.cache == s.cache[s.fetches[id].key := Entry(now + 4000, s.fetches[id].phase.rows)]
                else t.fetches[id].phase == s.fetches[id].phase && t.cache == s.cache)
  {
  }

  lemma FinallyStep(s: State, id: nat)
    requires id in s.fetches
    ensures var t := Step(s, Finally(id));
            SameCallers(s, t, id)
            && t.fetches[id].phase == match s.fetches[id].phase
                                      case Stored(rows, at) => Finished(rows, at)
                                      case Rejected => Failed
                                      case _ => s.fetches[id].phase
  {
  }

  // A running fetch ends as the remote command did; the callers stay with it.
  lemma FetchEnds(s: State, id: nat, outcome: Option<Rows>, now: int)
    requires id in s.fetches
    ensures var t := Run(s, Ending(id, outcome, now));
            && SameCallers(s, t, id) && IsOver(t.fetches[id].phase)
            && (s.fetches[id].phase == Running ==>
                  t.fetches[id].phase == if outcome.Some? then Finished(outcome.value, now) else Failed)
  {
    hide Run, Step;
    RunThree(s, Settle(id, outcome), Then(id, now), Finally(id));
    SettleStep(s, id, outcome);
    ThenStep(Step(s, Settle(id, outcome)), id, now);
    FinallyStep(Step(Step(s, Settle(id, outcome)), Then(id, now)), id);
  }

  // The last answer is what the fetch of that key ended with.
  ghost predicate Served(before: State, after: State, caller: nat) {
    && caller !in after.waiting && caller in before.waiting && before.waiting[caller] in before.fetches
    && |after.answers| == |before.answers| + 1 && after.answers[..|before.answers|] == before.answers
    && after.answers[|before.answers|].key == before.fetches[before.waiting[caller]].key
  }

  // No caller is stuck: from every state its own fetch can end, and then it gets its answer.
  lemma NobodyIsStuck(s: State, caller: nat, outcome: Option<Rows>, now: int)
    requires Inv(s) && caller in s.waiting
    ensures Served(s, Run(s, Ending(s.waiting[caller], outcome, now) + [Deliver(caller)]), caller)
  {
    assert s.waiting[caller] in s.fetches;
    hide Inv, Run, Ending, Step;
    var id := s.waiting[caller];
    FetchEnds(s, id, outcome, now);
    var t := Run(s, Ending(id, outcome, now));
    RunKeepsInv(s, Ending(id, outcome, now));
    RunOneMore(s, Ending(id, outcome, now), Deliver(caller));
    DeliveryExact(t, caller);
  }

  lemma {:induction false} RunOneMore(s: State, events: seq<Event>, e: Event)
    ensures Run(s, events + [e]) == Step(Run(s, events), e)
    decreases |events|
  {
    hide Step;
    if events == [] {
      assert events + [e] == [e] && [e][1..] == [];
      assert Run(Step(s, e), []) == Step(s, e);
    } else {
      assert (events + [e])[0] == events[0] && (events + [e])[1..] == events[1..] + [e];
      RunOneMore(Step(s, events[0]), events[1..], e);
    }
  }
}
