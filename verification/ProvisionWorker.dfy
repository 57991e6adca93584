// The provision worker: overlapping ticks of which one works, the states a job goes through, and
// its log. Every stretch between two awaits is a step of its own, so that any interleaving with
// enqueues, purges, deletions and late log writes is a run.
module ProvisionWorker {
  import opened Wrappers

  datatype Status = Pending | Running | Done | Error

  // `created` and `updated` are positions in the order of writes.
  datatype Job = Job(status: Status, created: nat, updated: nat, log: string)

  // Where a tick stands: about to look for a job, job found, job read back as pending, script
  // running, or at its `finally`. `stream` is all output so far, `buf` what the worker keeps of it.
  datatype Stage =
    | Finding
    | Found(id: nat)
    | Checked(id: nat)
    | Working(id: nat, buf: string, stream: string)
    | Ended

  // A log update on its way to the database; output callbacks do not wait for it.
  datatype Write = Write(id: nat, text: string)

  datatype State = State(jobs: map<nat, Job>, processing: bool, ticks: map<nat, Stage>, writes: seq<Write>, clock: nat, nextId: nat)

  datatype Event =
    | Enqueue
    | Tick(t: nat)
    | Find(t: nat)
    | Check(t: nat)
    | Start(t: nat)
    | Append(t: nat, chunk: string)
    | Finish(t: nat, ok: bool)
    | Fault(t: nat)              // an awaited database call throws
    | Release(t: nat)
    | Land(k: nat)
    | Purge(cutoff: nat)
    | Drop(ids: set<nat>)        // the organization or the user is deleted
    | Restart                    // the worker process starts anew

  const MAX_LOG_CHARS := 512000
  const DEFAULT_FINAL_LOG_MAX_CHARS := 32768
  const HEAD := "[… earlier provision log truncated …]\n"

  const START := State(map[], false, map[], [], 0, 0)

  // ----- the log -------------------------------------------------------------

  // s.slice(-n), n > 0
  function Last(s: string, n: nat): string {
    if |s| <= n then s else s[|s| - n..]
  }

  // The configured limit; blank, non-numeric and infinite settings read as None.
  function FinalLogMaxChars(setting: Option<real>): nat {
    if setting.Some? && setting.value >= 256.0 then setting.value.Floor else DEFAULT_FINAL_LOG_MAX_CHARS
  }

  function TrimLogForPersistence(log: string, max: nat): string {
    if |log| <= max then log
    else HEAD + if max > |HEAD| then Last(log, max - |HEAD|) else ""
  }

  // ----- the steps -----------------------------------------------------------

  function PendingJobs(s: State): (r: set<nat>)
    ensures forall id :: id in r <==> id in s.jobs && s.jobs[id].status == Pending
  {
    set id | id in s.jobs && s.jobs[id].status == Pending
  }

  ghost predicate IsOldest(s: State, among: set<nat>, id: nat) {
    && among <= s.jobs.Keys && id in among
    && forall x :: x in among ==> s.jobs[id].created <= s.jobs[x].created
  }

  lemma {:induction false} OldestExists(s: State, among: set<nat>)
    requires among <= s.jobs.Keys && among != {}
    ensures exists id :: IsOldest(s, among, id)
    decreases |among|
  {
    var x :| x in among;
    if among == {x} {
      assert IsOldest(s, among, x);
    } else {
      OldestExists(s, among - {x});
      var y :| IsOldest(s, among - {x}, y);
      assert IsOldest(s, among, if s.jobs[x].created < s.jobs[y].created then x else y);
    }
  }

  // ORDER BY created_at ASC, first row
  ghost function Oldest(s: State): (id: nat)
    requires PendingJobs(s) != {}
    ensures IsOldest(s, PendingJobs(s), id)
  {
    OldestExists(s, PendingJobs(s));
    var id :| IsOldest(s, PendingJobs(s), id);
    id
  }

  // UPDATE ... WHERE id = ...; no row, no effect.
  function Update(s: State, id: nat, status: Status, log: string): State {
    if id in s.jobs then
      s.(jobs := s.jobs[id := s.jobs[id].(status := status, log := log, updated := s.clock)], clock := s.clock + 1)
    else s
  }

  function AtStage(s: State, t: nat, stage: Stage): State {
    s.(ticks := s.ticks[t := stage])
  }

  function Finished(status: Status): bool {
    status == Done || status == Error
  }

  function StepAppend(s: State, t: nat, chunk: string): State {
    if t in s.ticks && s.ticks[t].Working? && chunk != "" then
      var w := s.ticks[t];
      var buf := Last(w.buf + chunk, MAX_LOG_CHARS);
      AtStage(s, t, Working(w.id, buf, w.stream + chunk)).(writes := s.writes + [Write(w.id, buf)])
    else s
  }

  function StepLand(s: State, k: nat): State {
    if k < |s.writes| then
      var w := s.writes[k];
      (if w.id in s.jobs then Update(s, w.id, s.jobs[w.id].status, w.text) else s).(writes := s.writes[..k] + s.writes[k + 1..])
    else s
  }

  // An event that is not due changes nothing. `max` is the configured log limit.
  ghost function Step(s: State, e: Event, max: nat): State {
    match e
    case Enqueue => s.(jobs := s.jobs[s.nextId := Job(Pending, s.clock, s.clock, "")], clock := s.clock + 1, nextId := s.nextId + 1)
    case Tick(t) => if s.processing then s else AtStage(s, t, Finding).(processing := true)
    case Find(t) =>
      if t in s.ticks && s.ticks[t].Finding? then
        AtStage(s, t, if PendingJobs(s) == {} then Ended else Found(Oldest(s)))
      else s
    case Check(t) =>
      if t in s.ticks && s.ticks[t].Found? then
        AtStage(s, t, if s.ticks[t].id in PendingJobs(s) then Checked(s.ticks[t].id) else Ended)
      else s
    case Start(t) =>
      if t in s.ticks && s.ticks[t].Checked? then
        AtStage(Update(s, s.ticks[t].id, Running, ""), t, Working(s.ticks[t].id, "", ""))
      else s
    case Append(t, chunk) => StepAppend(s, t, chunk)
    case Finish(t, ok) =>
      if t in s.ticks && s.ticks[t].Working? then
        AtStage(Update(s, s.ticks[t].id, if ok then Done else Error, TrimLogForPersistence(s.ticks[t].buf, max)), t, Ended)
      else s
    case Fault(t) => if t in s.ticks then AtStage(s, t, Ended) else s
    case Release(t) => if t in s.ticks && s.ticks[t].Ended? then s.(ticks := s.ticks - {t}, processing := false) else s
    case Land(k) => StepLand(s, k)
    case Purge(cutoff) =>
      s.(jobs := map id | id in s.jobs && !(Finished(s.jobs[id].status) && s.jobs[id].updated < cutoff) :: s.jobs[id])
    case Drop(ids) => s.(jobs := s.jobs - ids)
    case Restart => s.(ticks := map[], processing := false)
  }

  ghost function Run(s: State, events: seq<Event>, max: nat): State
    decreases |events|
  {
    if events == [] then s else Run(Step(s, events[0], max), events[1..], max)
  }

  // ----- what every state satisfies ------------------------------------------

  ghost predicate OneAtWork(s: State) {
    && (s.processing <==> s.ticks != map[])
    && forall t, u :: t in s.ticks && u in s.ticks ==> t == u
  }

  ghost predicate Stamped(s: State) {
    && (forall id :: id in s.jobs ==> id < s.nextId && s.jobs[id].created < s.clock)
    && forall i, j :: i in s.jobs && j in s.jobs && s.jobs[i].created == s.jobs[j].created ==> i == j
  }

  ghost predicate OldestPending(s: State, id: nat) {
    id in s.jobs ==> IsOldest(s, PendingJobs(s), id)
  }

  // `text` is what the worker kept at some point of the stream.
  ghost predicate Kept(text: string, stream: string) {
    exists k :: 0 <= k <= |stream| && text == Last(stream[..k], MAX_LOG_CHARS)
  }

  ghost predicate LogOf(s: State, id: nat, stream: string) {
    && (id in s.jobs ==> Kept(s.jobs[id].log, stream))
    && forall k :: 0 <= k < |s.writes| && s.writes[k].id == id ==> Kept(s.writes[k].text, stream)
  }

  ghost predicate StageOk(s: State, stage: Stage) {
    match stage
    case Found(id) => id < s.nextId && OldestPending(s, id) && NoWrites(s, id)
    case Checked(id) => id < s.nextId && OldestPending(s, id) && NoWrites(s, id)
    case Working(id, buf, stream) =>
      && id < s.nextId && (id in s.jobs ==> s.jobs[id].status == Running)
      && buf == Last(stream, MAX_LOG_CHARS) && LogOf(s, id, stream)
    case _ => true
  }

  ghost predicate NoWrites(s: State, id: nat) {
    forall k :: 0 <= k < |s.writes| ==> s.writes[k].id != id
  }

  // Log updates under way are about jobs that were started.
  ghost predicate WritesOk(s: State) {
    forall k :: 0 <= k < |s.writes| ==>
      var id := s.writes[k].id;
      id < s.nextId && (id in s.jobs ==> s.jobs[id].status != Pending)
  }

  ghost predicate Inv(s: State) {
    && OneAtWork(s) && Stamped(s) && WritesOk(s)
    && forall t :: t in s.ticks ==> StageOk(s, s.ticks[t])
  }

  // ----- the log buffer ------------------------------------------------------

  lemma LastConcat(stream: string, chunk: string, n: nat)
    ensures Last(Last(stream, n) + chunk, n) == Last(stream + chunk, n)
  {
    var a, b := Last(stream, n) + chunk, stream + chunk;
    if |stream| > n {
      assert a == b[|stream| - n..];
      if |chunk| > 0 {
        assert a[|chunk|..] == b[|b| - n..];
      }
    }
  }

  lemma KeptGrows(text: string, stream: string, chunk: string)
    requires Kept(text, stream)
    ensures Kept(text, stream + chunk)
  {
    var k :| 0 <= k <= |stream| && text == Last(stream[..k], MAX_LOG_CHARS);
    assert (stream + chunk)[..k] == stream[..k];
  }

  lemma KeptNow(stream: string)
    ensures Kept(Last(stream, MAX_LOG_CHARS), stream)
  {
    assert stream[..|stream|] == stream;
  }

  // The persisted log fits the limit, and is the log itself or a marked suffix that fills it.
  lemma TrimFits(log: string, max: nat)
    requires max >= 256
    ensures var r := TrimLogForPersistence(log, max);
            && |r| <= max
            && (r == log || (|log| > max && |r| == max && exists k :: 0 <= k <= |log| && r == HEAD + log[k..]))
  {
    assert |HEAD| < 256;
    if |log| > max {
      var k := |log| - (max - |HEAD|);
      assert TrimLogForPersistence(log, max) == HEAD + log[k..];
    }
  }

  lemma LimitAtLeast(setting: Option<real>)
    ensures FinalLogMaxChars(setting) >= 256
  {
  }

  // Trimming the buffer gives what trimming the whole stream would give, exactly when the limit is
  // below the buffer size or the buffer dropped nothing; at a limit equal to the buffer size a
  // longer stream loses its marker, unless its own text supplies it.
  lemma TrimSeesWholeStream(stream: string, max: nat)
    requires max >= 256
    ensures TrimLogForPersistence(Last(stream, MAX_LOG_CHARS), max) == TrimLogForPersistence(stream, max) <==>
            max < MAX_LOG_CHARS || |stream| <= MAX_LOG_CHARS || (max == MAX_LOG_CHARS && HEAD <= Last(stream, MAX_LOG_CHARS))
  {
    hide TrimLogForPersistence, Last;
    var buf := Last(stream, MAX_LOG_CHARS);
    LastLength(stream, MAX_LOG_CHARS);
    TrimFits(stream, max);
    if |stream| <= MAX_LOG_CHARS {
      TrimAll(stream);
    } else if max < MAX_LOG_CHARS {
      TrimLong(buf, stream, MAX_LOG_CHARS, max);
    } else {
      TrimShort(buf, max);
      if |stream| <= max {
        TrimShort(stream, max);
      } else if max == MAX_LOG_CHARS {
        TrimAtSize(stream, max);
      }
    }
  }

  // With the limit configured to the size of the buffer, a log one character longer is cut without
  // the marker.
  lemma MarkerLostExample()
    ensures var max, stream := FinalLogMaxChars(Some(512000.0)), seq(512001, _ => 'x');
            var log := TrimLogForPersistence(Last(stream, MAX_LOG_CHARS), max);
            max == MAX_LOG_CHARS && log == seq(512000, _ => 'x') && log != TrimLogForPersistence(stream, max)
  {
    var stream := seq(512001, _ => 'x');
    var buf := Last(stream, MAX_LOG_CHARS);
    assert |buf| == 512000 && forall k :: 0 <= k < |buf| ==> buf[k] == 'x';
    assert buf == seq(512000, _ => 'x');
    TrimShort(buf, MAX_LOG_CHARS);
    assert HEAD[0] == '[' && buf[0] == 'x';
    assert !(HEAD <= buf);
    hide TrimLogForPersistence, Last;
    TrimSeesWholeStream(stream, MAX_LOG_CHARS);
  }

  lemma TrimAtSize(stream: string, n: nat)
    requires 256 <= n < |stream|
    ensures Last(stream, n) == TrimLogForPersistence(stream, n) <==> HEAD <= Last(stream, n)
  {
    assert |HEAD| < 256;
    var buf := Last(stream, n);
    assert buf == buf[..|HEAD|] + buf[|HEAD|..];
    assert Last(stream, n - |HEAD|) == buf[|HEAD|..];
    assert TrimLogForPersistence(stream, n) == HEAD + buf[|HEAD|..];
    assert TrimLogForPersistence(stream, n)[..|HEAD|] == HEAD;
  }

  lemma TrimAll(stream: string)
    requires |stream| <= MAX_LOG_CHARS
    ensures Last(stream, MAX_LOG_CHARS) == stream
  {
  }

  lemma LastLength(s: string, n: nat)
    ensures |Last(s, n)| == if |s| <= n then |s| else n
  {
  }

  lemma TrimShort(log: string, max: nat)
    requires |log| <= max
    ensures TrimLogForPersistence(log, max) == log
  {
  }

  lemma TrimLong(buf: string, stream: string, n: nat, max: nat)
    requires 256 <= max < n < |stream| && buf == Last(stream, n)
    ensures TrimLogForPersistence(buf, max) == TrimLogForPersistence(stream, max)
  {
    assert |HEAD| < 256;
    assert Last(buf, max - |HEAD|) == Last(stream, max - |HEAD|);
  }

  // ----- what every step keeps -----------------------------------------------

  // Rows keep their status and their place in the order; new ones are pending and come last.
  ghost predicate Gentle(s: State, t: State) {
    && s.nextId <= t.nextId && s.clock <= t.clock
    && (forall id :: id in t.jobs && id in s.jobs ==> t.jobs[id].status == s.jobs[id].status && t.jobs[id].created == s.jobs[id].created)
    && (forall id :: id in t.jobs && id !in s.jobs ==> id == s.nextId && t.jobs[id].status == Pending && t.jobs[id].created == s.clock && id < t.nextId && s.clock < t.clock)
  }

  ghost predicate FewerWrites(s: State, t: State) {
    forall w :: w in t.writes ==> w in s.writes
  }

  lemma GentleStamps(s: State, t: State)
    requires Stamped(s) && Gentle(s, t)
    ensures Stamped(t)
  {
  }

  lemma GentleOldest(s: State, t: State, id: nat)
    requires Stamped(s) && Gentle(s, t) && id < s.nextId && OldestPending(s, id)
    ensures OldestPending(t, id)
  {
    if id in t.jobs {
      assert id in s.jobs;
      assert id in PendingJobs(s);
      assert forall x :: x in PendingJobs(t) && x in s.jobs ==> x in PendingJobs(s);
    }
  }

  lemma GentleWrites(s: State, t: State)
    requires Stamped(s) && WritesOk(s) && Gentle(s, t) && FewerWrites(s, t)
    ensures WritesOk(t)
    ensures forall id :: NoWrites(s, id) ==> NoWrites(t, id)
  {
    forall k | 0 <= k < |t.writes| ensures var id := t.writes[k].id; id < t.nextId && (id in t.jobs ==> t.jobs[id].status != Pending) {
      var w := t.writes[k];
      assert w in s.writes;
      var j :| 0 <= j < |s.writes| && s.writes[j] == w;
    }
    forall id | NoWrites(s, id) ensures NoWrites(t, id) {
      forall k | 0 <= k < |t.writes| ensures t.writes[k].id != id {
        assert t.writes[k] in s.writes;
      }
    }
  }

  // The logs of `t` are logs of `s` or texts that were on their way in `s`.
  ghost predicate LogsFrom(s: State, t: State) {
    forall id :: id in t.jobs && id in s.jobs ==>
      t.jobs[id].log == s.jobs[id].log || Write(id, t.jobs[id].log) in s.writes
  }

  lemma GentleLog(s: State, t: State, id: nat, stream: string)
    requires id < s.nextId && Gentle(s, t) && FewerWrites(s, t) && LogsFrom(s, t) && LogOf(s, id, stream)
    ensures LogOf(t, id, stream)
  {
    if id in t.jobs {
      assert id in s.jobs;
      if Write(id, t.jobs[id].log) in s.writes {
        var j :| 0 <= j < |s.writes| && s.writes[j] == Write(id, t.jobs[id].log);
      }
    }
    forall k | 0 <= k < |t.writes| && t.writes[k].id == id ensures Kept(t.writes[k].text, stream) {
      assert t.writes[k] in s.writes;
      var j :| 0 <= j < |s.writes| && s.writes[j] == t.writes[k];
    }
  }

  lemma GentleStage(s: State, t: State, stage: Stage)
    requires Stamped(s) && WritesOk(s) && Gentle(s, t) && FewerWrites(s, t) && LogsFrom(s, t) && StageOk(s, stage)
    ensures StageOk(t, stage)
  {
    hide Gentle, FewerWrites, LogsFrom, Stamped, WritesOk, OldestPending, NoWrites, LogOf;
    GentleWrites(s, t);
    match stage
    case Found(id) =>
      GentleOldest(s, t, id);
      GentleIds(s, t);
    case Checked(id) =>
      GentleOldest(s, t, id);
      GentleIds(s, t);
    case Working(id, buf, stream) =>
      GentleLog(s, t, id, stream);
      GentleIds(s, t);
      if id in t.jobs {
        GentleStatus(s, t, id);
      }
    case _ =>
  }

  lemma GentleIds(s: State, t: State)
    requires Gentle(s, t)
    ensures s.nextId <= t.nextId
  {
  }

  lemma GentleStatus(s: State, t: State, id: nat)
    requires Gentle(s, t) && id < s.nextId && id in t.jobs
    ensures id in s.jobs && t.jobs[id].status == s.jobs[id].status
  {
  }

  // A gentle step with the ticks left alone.
  lemma GentleKeeps(s: State, t: State)
    requires Inv(s) && Gentle(s, t) && FewerWrites(s, t) && LogsFrom(s, t)
    requires t.ticks == s.ticks && t.processing == s.processing
    ensures Inv(t)
  {
    hide Gentle, FewerWrites, LogsFrom, Stamped, WritesOk, StageOk;
    GentleStamps(s, t);
    GentleWrites(s, t);
    forall k | k in t.ticks ensures StageOk(t, t.ticks[k]) {
      GentleStage(s, t, t.ticks[k]);
    }
  }

  lemma LandIsGentle(s: State, k: nat)
    requires k < |s.writes|
    ensures var t := StepLand(s, k); Gentle(s, t) && FewerWrites(s, t) && LogsFrom(s, t) && t.ticks == s.ticks && t.processing == s.processing
  {
    var w := s.writes[k];
    assert w in s.writes && w == Write(w.id, w.text);
  }

  // The working tick moves on, the rest stays.
  lemma MoveKeeps(s: State, k: nat, stage: Stage)
    requires Inv(s) && k in s.ticks && StageOk(s, stage)
    ensures Inv(AtStage(s, k, stage))
  {
    var t := AtStage(s, k, stage);
    assert t.ticks == map[k := stage];
    StageElsewhere(s, t, stage);
    hide StageOk, Stamped, WritesOk;
  }

  lemma StageElsewhere(s: State, t: State, stage: Stage)
    requires t == s.(ticks := t.ticks, processing := t.processing) && StageOk(s, stage)
    ensures StageOk(t, stage)
  {
  }

  lemma FoundOk(s: State)
    requires Inv(s) && PendingJobs(s) != {}
    ensures StageOk(s, Found(Oldest(s)))
  {
  }

  // The tick at work starts, or ends, its job.
  lemma UpdateKeeps(s: State, k: nat, id: nat, status: Status, log: string, stage: Stage)
    requires Inv(s) && k in s.ticks && id < s.nextId && status != Pending
    requires var t := Update(s, id, status, log); StageOk(t, stage)
    ensures Inv(AtStage(Update(s, id, status, log), k, stage))
  {
    var t := Update(s, id, status, log);
    assert Stamped(t) && WritesOk(t);
    assert AtStage(t, k, stage).ticks == map[k := stage];
    StageElsewhere(t, AtStage(t, k, stage), stage);
    hide Stamped, WritesOk, StageOk;
  }

  lemma StartOk(s: State, id: nat)
    requires id < s.nextId && NoWrites(s, id)
    ensures StageOk(Update(s, id, Running, ""), Working(id, "", ""))
  {
    assert Kept("", "") by { assert ""[..0] == Last(""[..0], MAX_LOG_CHARS); }
  }

  lemma AppendKeeps(s: State, k: nat, chunk: string)
    requires Inv(s) && k in s.ticks && s.ticks[k].Working? && chunk != ""
    ensures Inv(StepAppend(s, k, chunk))
  {
    var w := s.ticks[k];
    var t := StepAppend(s, k, chunk);
    LastConcat(w.stream, chunk, MAX_LOG_CHARS);
    assert StageOk(s, w);
    assert t.ticks == map[k := t.ticks[k]];
    AppendLog(s, t, w.id, w.stream, chunk);
    assert WritesOk(t);
    hide Stamped, WritesOk, LogOf, Last;
  }

  lemma AppendLog(s: State, t: State, id: nat, stream: string, chunk: string)
    requires LogOf(s, id, stream) && t.jobs == s.jobs
    requires t.writes == s.writes + [Write(id, Last(stream + chunk, MAX_LOG_CHARS))]
    ensures LogOf(t, id, stream + chunk)
  {
    if id in s.jobs {
      KeptGrows(s.jobs[id].log, stream, chunk);
    }
    forall k | 0 <= k < |t.writes| && t.writes[k].id == id ensures Kept(t.writes[k].text, stream + chunk) {
      if k < |s.writes| {
        KeptGrows(s.writes[k].text, stream, chunk);
      } else {
        KeptNow(stream + chunk);
      }
    }
  }

  lemma OtherEvents(s: State, e: Event, max: nat)
    requires Inv(s) && (e.Enqueue? || e.Land? || e.Purge? || e.Drop?)
    ensures Inv(Step(s, e, max))
  {
    var t := Step(s, e, max);
    if e.Land? && e.k < |s.writes| {
      LandIsGentle(s, e.k);
    }
    assert Gentle(s, t) && FewerWrites(s, t) && LogsFrom(s, t) by { hide StageOk, WritesOk; }
    hide Gentle, FewerWrites, LogsFrom, Step, Inv;
    TicksStay(s, e, max);
    GentleKeeps(s, t);
  }

  lemma TicksStay(s: State, e: Event, max: nat)
    requires e.Enqueue? || e.Land? || e.Purge? || e.Drop?
    ensures Step(s, e, max).ticks == s.ticks && Step(s, e, max).processing == s.processing
  {
  }

  lemma StepKeepsInv(s: State, e: Event, max: nat)
    requires Inv(s)
    ensures Inv(Step(s, e, max))
  {
    if e.Enqueue? || e.Land? || e.Purge? || e.Drop? {
      OtherEvents(s, e, max);
    } else if e.Tick? || e.Release? || e.Restart? {
      GateKeeps(s, e, max);
    } else {
      TickKeeps(s, e, max);
    }
  }

  lemma GateKeeps(s: State, e: Event, max: nat)
    requires Inv(s) && (e.Tick? || e.Release? || e.Restart?)
    ensures Inv(Step(s, e, max))
  {
    hide Stamped, WritesOk, StageOk;
    var t := Step(s, e, max);
    assert Stamped(t) && WritesOk(t) by { SameStore(s, t); }
    if e.Tick? && !s.processing {
      assert t.ticks == map[e.t := Finding] && e.t in t.ticks && OneAtWork(t);
      assert StageOk(t, Finding) by { EasyStage(t); }
    } else if e.Release? && e.t in s.ticks && s.ticks[e.t].Ended? {
      assert forall k :: k in s.ticks ==> k == e.t;
      assert t.ticks == map[];
    } else if !e.Restart? {
      assert t == s;
    }
  }

  lemma SameStore(s: State, t: State)
    requires Stamped(s) && WritesOk(s) && t == s.(ticks := t.ticks, processing := t.processing)
    ensures Stamped(t) && WritesOk(t)
  {
  }

  lemma EasyStage(s: State)
    ensures StageOk(s, Finding) && StageOk(s, Ended)
  {
  }

  lemma TickKeeps(s: State, e: Event, max: nat)
    requires Inv(s)
    requires e.Find? || e.Check? || e.Start? || e.Append? || e.Finish? || e.Fault?
    ensures Inv(Step(s, e, max))
  {
    hide Stamped, WritesOk, OneAtWork, OldestPending, NoWrites, LogOf, Last, TrimLogForPersistence, Update, StepAppend;
    EasyStage(s);
    if e.t in s.ticks {
      var stage := s.ticks[e.t];
      assert StageOk(s, stage);
      match e {
        case Find(t) =>
          if stage.Finding? {
            if PendingJobs(s) != {} {
              FoundOk(s);
              MoveKeeps(s, t, Found(Oldest(s)));
            } else {
              MoveKeeps(s, t, Ended);
            }
          }
        case Check(t) =>
          if stage.Found? {
            MoveKeeps(s, t, if stage.id in PendingJobs(s) then Checked(stage.id) else Ended);
          }
        case Start(t) =>
          if stage.Checked? {
            StartOk(s, stage.id);
            UpdateKeeps(s, t, stage.id, Running, "", Working(stage.id, "", ""));
          }
        case Append(t, chunk) =>
          if stage.Working? && chunk != "" {
            AppendKeeps(s, t, chunk);
          } else {
            AppendIdle(s, t, chunk);
          }
        case Finish(t, ok) =>
          if stage.Working? {
            var log := TrimLogForPersistence(stage.buf, max);
            var status := if ok then Done else Error;
            EasyStage(Update(s, stage.id, status, log));
            UpdateKeeps(s, t, stage.id, status, log, Ended);
          }
        case Fault(t) => MoveKeeps(s, t, Ended);
        case _ =>
      }
    } else {
      NotDue(s, e, max);
    }
  }

  lemma AppendIdle(s: State, t: nat, chunk: string)
    requires t !in s.ticks || !s.ticks[t].Working? || chunk == ""
    ensures StepAppend(s, t, chunk) == s
  {
  }

  lemma NotDue(s: State, e: Event, max: nat)
    requires e.Find? || e.Check? || e.Start? || e.Append? || e.Finish? || e.Fault?
    requires e.t !in s.ticks
    ensures Step(s, e, max) == s
  {
  }

  lemma {:induction false} RunKeepsInv(s: State, events: seq<Event>, max: nat)
    requires Inv(s)
    ensures Inv(Run(s, events, max))
    decreases |events|
  {
    hide Inv, Step;
    if events != [] {
      StepKeepsInv(s, events[0], max);
      RunKeepsInv(Step(s, events[0], max), events[1..], max);
    }
  }

  // ----- the service, between awaits -----------------------------------------

  class RemoteServerProvisionService {
    var isProcessing: bool
    const finalLogSetting: Option<real>
    // the store and the runtime's side
    var jobs: map<nat, Job>
    var ticks: map<nat, Stage>
    var writes: seq<Write>
    var clock: nat
    var nextId: nat

    constructor (finalLogSetting: Option<real>)
      ensures Now() == START && this.finalLogSetting == finalLogSetting
    {
      isProcessing, jobs, ticks, writes, clock, nextId := false, map[], map[], [], 0, 0;
      this.finalLogSetting := finalLogSetting;
    }

    function Now(): State
      reads this
    {
      State(jobs, isProcessing, ticks, writes, clock, nextId)
    }

    function Max(): nat {
      FinalLogMaxChars(finalLogSetting)
    }

    method UpdateRow(id: nat, status: Status, log: string)
      modifies this`jobs, this`clock
      ensures Now() == Update(old(Now()), id, status, log)
    {
      if id in jobs {
        jobs := jobs[id := jobs[id].(status := status, log := log, updated := clock)];
        clock := clock + 1;
      }
    }

    // Up to the first await.
    method ProcessNextPendingJob(t: nat)
      modifies this
      ensures Now() == Step(old(Now()), Tick(t), Max())
    {
      if isProcessing {
        return;
      }
      isProcessing := true;
      ticks := ticks[t := Finding];
    }

    method FindOldestPending(t: nat)
      requires Stamped(Now()) && t in ticks && ticks[t].Finding?
      modifies this
      ensures Now() == Step(old(Now()), Find(t), Max())
    {
      var pending := PendingJobs(Now());
      if pending == {} {
        ticks := ticks[t := Ended];
        return;
      }
      var id :| id in pending;
      var rest := pending - {id};
      while rest != {}
        invariant id in pending && rest <= pending && Now() == old(Now())
        invariant forall x :: x in pending - rest ==> jobs[id].created <= jobs[x].created
        decreases rest
      {
        var x :| x in rest;
        if jobs[x].created < jobs[id].created {
          id := x;
        }
        rest := rest - {x};
      }
      OldestIs(Now(), id);
      ticks := ticks[t := Found(id)];
    }

    // runProvisionJob reads the job again before it starts it.
    method ReadJob(t: nat)
      requires t in ticks && ticks[t].Found?
      modifies this
      ensures Now() == Step(old(Now()), Check(t), Max())
    {
      var id := ticks[t].id;
      if id !in jobs || jobs[id].status != Pending {
        ticks := ticks[t := Ended];
        return;
      }
      ticks := ticks[t := Checked(id)];
    }

    method StartJob(t: nat)
      requires t in ticks && ticks[t].Checked?
      modifies this
      ensures Now() == Step(old(Now()), Start(t), Max())
    {
      var id := ticks[t].id;
      UpdateRow(id, Running, "");
      ticks := ticks[t := Working(id, "", "")];
    }

    method AppendLog(t: nat, chunk: string)
      requires t in ticks && ticks[t].Working?
      modifies this
      ensures Now() == Step(old(Now()), Append(t, chunk), Max())
    {
      if chunk == "" {
        return;
      }
      var w := ticks[t];
      var logBuf := Last(w.buf + chunk, MAX_LOG_CHARS);
      ticks := ticks[t := Working(w.id, logBuf, w.stream + chunk)];
      writes := writes + [Write(w.id, logBuf)];
    }

    method FinishJob(t: nat, ok: bool)
      requires t in ticks && ticks[t].Working?
      modifies this
      ensures Now() == Step(old(Now()), Finish(t, ok), Max())
    {
      var w := ticks[t];
      UpdateRow(w.id, if ok then Done else Error, TrimLogForPersistence(w.buf, Max()));
      ticks := ticks[t := Ended];
    }

    method Finally(t: nat)
      requires t in ticks && ticks[t].Ended?
      modifies this
      ensures Now() == Step(old(Now()), Release(t), Max())
    {
      isProcessing := false;
      ticks := ticks - {t};
    }

    method PurgeStaleCompletedJobs(cutoff: nat)
      modifies this
      ensures Now() == Step(old(Now()), Purge(cutoff), Max())
    {
      var rest := jobs.Keys;
      ghost var before := jobs;
      while rest != {}
        invariant rest <= before.Keys
        invariant jobs == map id | id in before && (id in rest || !(Finished(before[id].status) && before[id].updated < cutoff)) :: before[id]
        invariant Now() == old(Now()).(jobs := jobs)
        decreases rest
      {
        var id :| id in rest;
        if Finished(jobs[id].status) && jobs[id].updated < cutoff {
          jobs := jobs - {id};
        }
        rest := rest - {id};
      }
    }
  }

  lemma OldestIs(s: State, id: nat)
    requires Stamped(s) && IsOldest(s, PendingJobs(s), id)
    ensures Oldest(s) == id
  {
    var x := Oldest(s);
    assert s.jobs[x].created <= s.jobs[id].created && s.jobs[id].created <= s.jobs[x].created;
  }

  // ----- runs ----------------------------------------------------------------

  // In every reachable state at most one tick is past the guard; the job it works on is the running
  // one, its buffer the end of its output, and a job about to start is the oldest pending one.
  lemma EveryRun(events: seq<Event>, max: nat, t: nat, u: nat)
    ensures var s := Run(START, events, max);
            && (t in s.ticks && u in s.ticks ==> t == u)
            && (t in s.ticks && s.ticks[t].Checked? && s.ticks[t].id in s.jobs ==> IsOldest(s, PendingJobs(s), s.ticks[t].id))
            && (t in s.ticks && s.ticks[t].Working? ==> s.ticks[t].buf == Last(s.ticks[t].stream, MAX_LOG_CHARS))
            && (t in s.ticks && s.ticks[t].Working? && s.ticks[t].id in s.jobs ==>
                  s.jobs[s.ticks[t].id].status == Running && Kept(s.jobs[s.ticks[t].id].log, s.ticks[t].stream))
  {
    hide Run, Last, Kept, IsOldest, PendingJobs;
    assert Inv(START);
    RunKeepsInv(START, events, max);
  }

  predicate Follows(a: Status, b: Status) {
    a == b || (a == Pending && b == Running) || (a == Running && Finished(b))
  }

  // One step moves a status along its one path; ids are not used again.
  lemma StepAdvances(s: State, e: Event, max: nat, id: nat)
    requires Inv(s) && id < s.nextId
    ensures var t := Step(s, e, max);
            && id < t.nextId && (id in t.jobs ==> id in s.jobs)
            && (id in s.jobs && id in t.jobs ==> Follows(s.jobs[id].status, t.jobs[id].status) && t.jobs[id].created == s.jobs[id].created)
  {
    hide Stamped, WritesOk, OneAtWork, NoWrites, LogOf, Last, TrimLogForPersistence, Oldest;
    if (e.Start? || e.Finish?) && e.t in s.ticks {
      assert StageOk(s, s.ticks[e.t]);
    }
  }

  predicate Reaches(a: Status, b: Status) {
    match a
    case Pending => true
    case Running => b != Pending
    case _ => b == a
  }

  lemma {:induction false} RunAdvances(s: State, events: seq<Event>, max: nat, id: nat)
    requires Inv(s) && id < s.nextId
    ensures var t := Run(s, events, max);
            && (id in t.jobs ==> id in s.jobs)
            && (id in s.jobs && id in t.jobs ==> Reaches(s.jobs[id].status, t.jobs[id].status))
    decreases |events|
  {
    hide Inv, Step;
    if events != [] {
      StepKeepsInv(s, events[0], max);
      StepAdvances(s, events[0], max, id);
      RunAdvances(Step(s, events[0], max), events[1..], max, id);
    }
  }

  // A purge takes finished jobs only, so never the one being worked on.
  lemma PurgeSparesWork(s: State, cutoff: nat, max: nat, id: nat)
    requires Inv(s) && id in s.jobs
    ensures var t := Step(s, Purge(cutoff), max);
            && (id in t.jobs ==> t.jobs[id] == s.jobs[id])
            && (id !in t.jobs ==> s.jobs[id].status == Done || s.jobs[id].status == Error)
            && ((exists k :: k in s.ticks && s.ticks[k].Working? && s.ticks[k].id == id) ==> id in t.jobs)
  {
    hide Stamped, WritesOk, OneAtWork, LogOf;
    if k :| k in s.ticks && s.ticks[k].Working? && s.ticks[k].id == id {
      assert StageOk(s, s.ticks[k]);
    }
  }

  // The moment a job ends, its row holds its status and the trimmed end of everything it printed.
  lemma FinishPersists(s: State, t: nat, ok: bool, max: nat)
    requires Inv(s) && t in s.ticks && s.ticks[t].Working? && s.ticks[t].id in s.jobs && max >= 256
    ensures var job := Step(s, Finish(t, ok), max).jobs[s.ticks[t].id];
            && job.status == (if ok then Done else Error)
            && job.log == TrimLogForPersistence(Last(s.ticks[t].stream, MAX_LOG_CHARS), max)
            && |job.log| <= max
  {
    hide Stamped, WritesOk, OneAtWork, LogOf, Last, TrimLogForPersistence;
    assert StageOk(s, s.ticks[t]);
    TrimFits(s.ticks[t].buf, max);
  }

  // ----- late log writes -----------------------------------------------------

  // No update under way would replace the log of job `id`.
  ghost predicate LogFinal(s: State, id: nat)
    requires id in s.jobs
  {
    forall k :: 0 <= k < |s.writes| && s.writes[k].id == id ==> s.writes[k].text == s.jobs[id].log
  }

  lemma NobodyWorksOn(s: State, id: nat, t: nat)
    requires Inv(s) && id in s.jobs && Finished(s.jobs[id].status) && t in s.ticks
    ensures s.ticks[t].Working? || s.ticks[t].Checked? ==> s.ticks[t].id != id
  {
    assert StageOk(s, s.ticks[t]);
  }

  lemma StepKeepsLog(s: State, e: Event, max: nat, id: nat)
    requires Inv(s) && id in s.jobs && Finished(s.jobs[id].status) && LogFinal(s, id)
    ensures var t := Step(s, e, max); id in t.jobs ==> t.jobs[id].log == s.jobs[id].log && Finished(t.jobs[id].status) && LogFinal(t, id)
  {
    if (e.Start? || e.Finish? || e.Append?) && e.t in s.ticks {
      NobodyWorksOn(s, id, e.t);
    }
    assert id < s.nextId;
    hide Stamped, WritesOk, OneAtWork, StageOk, Last, TrimLogForPersistence, Oldest;
    if e.Land? && e.k < |s.writes| {
      LandKeepsLog(s, e.k, id);
    }
  }

  lemma LandKeepsLog(s: State, k: nat, id: nat)
    requires id in s.jobs && Finished(s.jobs[id].status) && LogFinal(s, id) && k < |s.writes|
    ensures var t := StepLand(s, k); id in t.jobs && t.jobs[id].log == s.jobs[id].log && Finished(t.jobs[id].status) && LogFinal(t, id)
  {
    var t := StepLand(s, k);
    forall j | 0 <= j < |t.writes| && t.writes[j].id == id ensures t.writes[j].text == s.jobs[id].log {
      assert t.writes[j] == s.writes[if j < k then j else j + 1];
    }
  }

  lemma {:induction false} RunKeepsLog(s: State, events: seq<Event>, max: nat, id: nat)
    requires Inv(s) && id in s.jobs && Finished(s.jobs[id].status) && LogFinal(s, id)
    ensures var t := Run(s, events, max); id in t.jobs ==> t.jobs[id].log == s.jobs[id].log
    decreases |events|
  {
    hide Inv, Step, LogFinal;
    if events != [] {
      StepKeepsInv(s, events[0], max);
      StepKeepsLog(s, events[0], max, id);
      StepKeepsId(s, events[0], max, id);
      if id in Step(s, events[0], max).jobs {
        RunKeepsLog(Step(s, events[0], max), events[1..], max, id);
      } else {
        RunAdvances(Step(s, events[0], max), events[1..], max, id);
      }
    }
  }

  lemma StepKeepsId(s: State, e: Event, max: nat, id: nat)
    requires Inv(s) && id in s.jobs
    ensures id < Step(s, e, max).nextId
  {
    assert id < s.nextId;
    StepAdvances(s, e, max, id);
  }

  // The log of a finished job is final exactly when no log update for it is still under way: output
  // callbacks are not awaited, and one that lands late puts the untrimmed buffer back.
  lemma FinalLogExact(s: State, max: nat, id: nat)
    requires Inv(s) && id in s.jobs && Finished(s.jobs[id].status)
    ensures LogFinal(s, id) <==>
            forall events: seq<Event> :: id in Run(s, events, max).jobs ==> Run(s, events, max).jobs[id].log == s.jobs[id].log
  {
    hide Inv;
    if LogFinal(s, id) {
      hide Run;
      forall events: seq<Event> | id in Run(s, events, max).jobs ensures Run(s, events, max).jobs[id].log == s.jobs[id].log {
        RunKeepsLog(s, events, max, id);
      }
    } else {
      var k :| 0 <= k < |s.writes| && s.writes[k].id == id && s.writes[k].text != s.jobs[id].log;
      var t := Step(s, Land(k), max);
      assert t.jobs[id].log == s.writes[k].text;
      OneStep(s, Land(k), max);
      assert Run(s, [Land(k)], max).jobs[id].log != s.jobs[id].log;
    }
  }

  lemma OneStep(s: State, e: Event, max: nat)
    ensures Run(s, [e], max) == Step(s, e, max)
  {
    hide Step;
    assert [e][1..] == [];
    assert Run(s, [e], max) == Run(Step(s, e, max), [], max);
  }

  lemma {:induction false} RunSnoc(s: State, events: seq<Event>, e: Event, max: nat)
    ensures Run(s, events + [e], max) == Step(Run(s, events, max), e, max)
    decreases |events|
  {
    if events == [] {
      assert events + [e] == [e];
      OneStep(s, e, max);
    } else {
      hide Step;
      assert (events + [e])[0] == events[0] && (events + [e])[1..] == events[1..] + [e];
      RunSnoc(Step(s, events[0], max), events[1..], e, max);
    }
  }

  lemma StartedFirst(max: nat)
    ensures Run(START, [Enqueue, Tick(0), Find(0), Check(0), Start(0)], max) ==
            State(map[0 := Job(Running, 0, 1, "")], true, map[0 := Working(0, "", "")], [], 2, 1)
  {
    var s1 := Step(START, Enqueue, max);
    var s2 := Step(s1, Tick(0), max);
    assert s2.jobs == map[0 := Job(Pending, 0, 0, "")] && PendingJobs(s2) == {0};
    var s3 := Step(s2, Find(0), max);
    var s4 := Step(s3, Check(0), max);
    var s5 := Step(s4, Start(0), max);
    assert s5.jobs == map[0 := Job(Running, 0, 1, "")] && s5.ticks == map[0 := Working(0, "", "")];
    OneStep(START, Enqueue, max);
    hide Step, Run;
    RunSnoc(START, [Enqueue], Tick(0), max);
    RunSnoc(START, [Enqueue, Tick(0)], Find(0), max);
    RunSnoc(START, [Enqueue, Tick(0), Find(0)], Check(0), max);
    RunSnoc(START, [Enqueue, Tick(0), Find(0), Check(0)], Start(0), max);
    assert [Enqueue] + [Tick(0)] == [Enqueue, Tick(0)] && [Enqueue, Tick(0)] + [Find(0)] == [Enqueue, Tick(0), Find(0)];
    assert [Enqueue, Tick(0), Find(0)] + [Check(0)] == [Enqueue, Tick(0), Find(0), Check(0)];
    assert [Enqueue, Tick(0), Find(0), Check(0)] + [Start(0)] == [Enqueue, Tick(0), Find(0), Check(0), Start(0)];
  }

  // So a finished job can keep a log over the limit.
  lemma LateLogOverLimit(chunk: string, max: nat)
    requires max < |chunk| <= MAX_LOG_CHARS
    ensures var events := [Enqueue, Tick(0), Find(0), Check(0), Start(0)] + [Append(0, chunk)] + [Finish(0, true)] + [Land(0)];
            var s := Run(START, events, max);
            0 in s.jobs && s.jobs[0].status == Done && s.jobs[0].log == chunk && |s.jobs[0].log| > max
  {
    var first := [Enqueue, Tick(0), Find(0), Check(0), Start(0)];
    StartedFirst(max);
    RunSnoc(START, first, Append(0, chunk), max);
    RunSnoc(START, first + [Append(0, chunk)], Finish(0, true), max);
    RunSnoc(START, first + [Append(0, chunk)] + [Finish(0, true)], Land(0), max);
    hide Run, TrimLogForPersistence;
    var s5 := Run(START, first, max);
    assert "" + chunk == chunk;
    var s6 := Step(s5, Append(0, chunk), max);
    assert s6.writes == [Write(0, chunk)];
  }
}
