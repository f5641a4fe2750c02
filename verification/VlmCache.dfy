/** The observation worker: a cache of successes, a history of attempts, and one model load per run. */
module VlmCache {
  import opened Lists
  import opened Texts
  import opened Wrappers

  /** Everything an observation depends on; the digest of it is the cache key. */
  datatype Key = Key(image: string, targetCrop: string, targetBox: string, kind: string,
                     prompt: string, config: string, source: string)

  datatype Request = Request(id: string, key: Key)

  datatype Status = Success | Failure

  datatype Observation = Observation(id: string, key: Key, status: Status, text: string, cacheHit: bool)

  /** The model answers `key` with something to say. */
  predicate Succeeds(infer: Key -> Option<string>, key: Key) {
    infer(key).Some? && Strip(infer(key).value) != ""
  }

  ghost predicate HaveUniqueIds(requests: seq<Request>) {
    forall i, j :: 0 <= i < j < |requests| ==> requests[i].id != requests[j].id
  }

  /** The cache, the last attempt for each request id, and the keys of all successful generations so far. */
  datatype State = State(cache: map<Key, Observation>, attempts: map<string, Observation>, generated: seq<Key>)

  const EMPTY := State(map[], map[], [])

  /** One run of the worker: `available` says whether the model is there or can be loaded. */
  datatype Job = Job(requests: seq<Request>, infer: Key -> Option<string>, available: bool, retry: bool)

  // ---------------------------------------------------------------- what a run does

  /** An earlier attempt at the same request is repeated unless retries are asked for. */
  predicate Replays(st: State, q: Request, retry: bool) {
    q.id in st.attempts && st.attempts[q.id].key == q.key && !retry
  }

  predicate NeedsModel(st: State, q: Request, retry: bool) {
    q.key !in st.cache && !Replays(st, q, retry)
  }

  function Generated(q: Request, job: Job): Observation {
    if job.available && job.infer(q.key).Some? then
      var body := job.infer(q.key).value;
      Observation(q.id, q.key, if Strip(body) == "" then Failure else Success, body, false)
    else Observation(q.id, q.key, Failure, "", false)
  }

  /** A generation is logged, and cached when it is a success. */
  function Record(st: State, q: Request, o: Observation): State {
    var attempts := st.attempts[q.id := o];
    if o.status == Success then State(st.cache[q.key := o], attempts, st.generated + [q.key])
    else st.(attempts := attempts)
  }

  function Served(st: State, q: Request, job: Job): Observation {
    if q.key in st.cache then st.cache[q.key].(id := q.id, cacheHit := true)
    else if Replays(st, q, job.retry) then st.attempts[q.id]
    else Generated(q, job)
  }

  function AfterServing(st: State, q: Request, job: Job): State {
    if NeedsModel(st, q, job.retry) then Record(st, q, Generated(q, job)) else st
  }

  datatype Progress = Progress(state: State, observations: seq<Observation>, stopped: bool)

  /** The run after its first `n` requests; it stops when the model cannot be loaded. */
  function RunUpTo(st: State, job: Job, n: nat): Progress
    requires n <= |job.requests|
  {
    if n == 0 then Progress(st, [], false)
    else
      var p, q := RunUpTo(st, job, n - 1), job.requests[n - 1];
      if p.stopped then p
      else Progress(AfterServing(p.state, q, job), p.observations + [Served(p.state, q, job)],
                    NeedsModel(p.state, q, job.retry) && !job.available)
  }

  function WholeRun(st: State, job: Job): Progress {
    RunUpTo(st, job, |job.requests|)
  }

  function AfterJobs(jobs: seq<Job>): State {
    if jobs == [] then EMPTY else WholeRun(AfterJobs(jobs[..|jobs| - 1]), jobs[|jobs| - 1]).state
  }

  // ---------------------------------------------------------------- truthfulness

  /** Whenever the model says something about a key, it says `truth` of it. */
  ghost predicate IsDeterministic(job: Job, truth: Key -> string) {
    forall k :: job.infer(k).Some? ==> job.infer(k).value == truth(k)
  }

  ghost predicate IsTruthful(o: Observation, truth: Key -> string) {
    o.status == Success ==> o.text == truth(o.key)
  }

  ghost predicate IsSound(st: State, truth: Key -> string) {
    && (forall k :: k in st.cache ==> st.cache[k].key == k && st.cache[k].status == Success && IsTruthful(st.cache[k], truth))
    && (forall id :: id in st.attempts ==>
          && st.attempts[id].id == id && IsTruthful(st.attempts[id], truth)
          && (st.attempts[id].status == Success ==> st.attempts[id].key in st.cache))
    && HasNoDuplicates(st.generated) && forall k :: k in st.generated <==> k in st.cache
  }

  /** The observation answers the request, and truthfully when it is a success. */
  ghost predicate Answers(o: Observation, q: Request, truth: Key -> string) {
    o.id == q.id && o.key == q.key && IsTruthful(o, truth)
  }

  lemma ServingIsSound(st: State, q: Request, job: Job, truth: Key -> string)
    requires IsSound(st, truth) && IsDeterministic(job, truth)
    ensures IsSound(AfterServing(st, q, job), truth) && Answers(Served(st, q, job), q, truth)
    ensures st.cache.Keys <= AfterServing(st, q, job).cache.Keys
    ensures Served(st, q, job).status == Success ==> q.key in AfterServing(st, q, job).cache
  {
  }

  lemma {:induction false} RunUpToIsSound(st: State, job: Job, n: nat, truth: Key -> string)
    requires n <= |job.requests| && IsSound(st, truth) && IsDeterministic(job, truth)
    ensures var p := RunUpTo(st, job, n);
            && IsSound(p.state, truth) && |p.observations| <= n && (!p.stopped ==> |p.observations| == n)
            && forall i :: 0 <= i < |p.observations| ==> Answers(p.observations[i], job.requests[i], truth)
  {
    if n > 0 {
      RunUpToIsSound(st, job, n - 1, truth);
      var p := RunUpTo(st, job, n - 1);
      if !p.stopped {
        ServingIsSound(p.state, job.requests[n - 1], job, truth);
      }
    }
  }

  /** Over any sequence of runs, whatever their packets and failures, the cache stays truthful
      and no key is generated successfully twice. */
  lemma {:induction false} JobsAreSound(jobs: seq<Job>, truth: Key -> string)
    requires forall j :: 0 <= j < |jobs| ==> IsDeterministic(jobs[j], truth)
    ensures IsSound(AfterJobs(jobs), truth) && HasNoDuplicates(AfterJobs(jobs).generated)
  {
    if jobs != [] {
      var last := jobs[|jobs| - 1];
      JobsAreSound(jobs[..|jobs| - 1], truth);
      RunUpToIsSound(AfterJobs(jobs[..|jobs| - 1]), last, |last.requests|, truth);
    }
  }

  /** Every answer of every run, fresh or not, is what the model itself says. */
  lemma CacheIsTransparent(jobs: seq<Job>, job: Job, truth: Key -> string, i: nat)
    requires forall j :: 0 <= j < |jobs| ==> IsDeterministic(jobs[j], truth)
    requires IsDeterministic(job, truth) && i < |WholeRun(AfterJobs(jobs), job).observations|
    ensures i < |job.requests| && Answers(WholeRun(AfterJobs(jobs), job).observations[i], job.requests[i], truth)
  {
    JobsAreSound(jobs, truth);
    RunUpToIsSound(AfterJobs(jobs), job, |job.requests|, truth);
  }

  // ---------------------------------------------------------------- which requests succeed

  ghost predicate HoldsSuccesses(st: State) {
    forall k :: k in st.cache ==> st.cache[k].status == Success
  }

  lemma RetriedRequestSucceedsExactly(st: State, q: Request, job: Job)
    requires HoldsSuccesses(st) && job.available && job.retry
    ensures HoldsSuccesses(AfterServing(st, q, job))
    ensures Served(st, q, job).status == Success <==> q.key in st.cache.Keys || Succeeds(job.infer, q.key)
    ensures AfterServing(st, q, job).cache.Keys == st.cache.Keys + if Succeeds(job.infer, q.key) then {q.key} else {}
  {
  }

  lemma {:induction false} RetriesFillCache(st: State, job: Job, n: nat)
    requires n <= |job.requests| && HoldsSuccesses(st) && job.available && job.retry
    ensures HoldsSuccesses(RunUpTo(st, job, n).state) && st.cache.Keys <= RunUpTo(st, job, n).state.cache.Keys
    ensures forall k :: k in RunUpTo(st, job, n).state.cache.Keys ==> k in st.cache.Keys || Succeeds(job.infer, k)
  {
    if n > 0 {
      RetriesFillCache(st, job, n - 1);
      NeverStopsWithModel(st, job, n - 1);
      RetriedRequestSucceedsExactly(RunUpTo(st, job, n - 1).state, job.requests[n - 1], job);
    }
  }

  /** With the model at hand and retries on, a request succeeds exactly when it was ever answered
      before or a run without any cache would answer it now. */
  lemma {:induction false} RetrySucceedsExactly(st: State, job: Job, n: nat, i: nat)
    requires i < n <= |job.requests| && HoldsSuccesses(st) && job.available && job.retry
    ensures |RunUpTo(st, job, n).observations| == n
    ensures RunUpTo(st, job, n).observations[i].status == Success
       <==> job.requests[i].key in st.cache.Keys || Succeeds(job.infer, job.requests[i].key)
  {
    var before := RunUpTo(st, job, n - 1);
    NeverStopsWithModel(st, job, n - 1);
    if i < n - 1 {
      RetrySucceedsExactly(st, job, n - 1, i);
    } else {
      RetriesFillCache(st, job, n - 1);
      RetriedRequestSucceedsExactly(before.state, job.requests[i], job);
    }
  }

  // ---------------------------------------------------------------- the model cannot be loaded

  /** Without a model nothing new is learnt, and the run stops at the first request that needs one. */
  lemma {:induction false} StopsAtFirstNeed(st: State, job: Job, n: nat)
    requires n <= |job.requests| && !job.available
    ensures var p := RunUpTo(st, job, n);
            && p.state.cache == st.cache && p.state.generated == st.generated && |p.observations| <= n
            && (p.stopped <==> exists i :: 0 <= i < n && NeedsModel(st, job.requests[i], job.retry))
            && (if p.stopped then
                  var k := |p.observations| - 1;
                  && k >= 0 && NeedsModel(st, job.requests[k], job.retry) && p.observations[k].status == Failure
                  && forall i :: 0 <= i < k ==> !NeedsModel(st, job.requests[i], job.retry)
                else p.state == st && |p.observations| == n)
  {
    if n > 0 {
      StopsAtFirstNeed(st, job, n - 1);
    }
  }

  lemma {:induction false} NeverStopsWithModel(st: State, job: Job, n: nat)
    requires n <= |job.requests| && job.available
    ensures !RunUpTo(st, job, n).stopped && |RunUpTo(st, job, n).observations| == n
  {
    if n > 0 {
      NeverStopsWithModel(st, job, n - 1);
    }
  }

  lemma {:induction false} ObservationsFollowRequests(st: State, job: Job, n: nat)
    requires n <= |job.requests| && forall k :: k in st.attempts ==> st.attempts[k].id == k
    ensures var p := RunUpTo(st, job, n);
            && |p.observations| <= n && (!p.stopped ==> |p.observations| == n)
            && (forall k :: k in p.state.attempts ==> p.state.attempts[k].id == k)
            && forall i :: 0 <= i < |p.observations| ==> p.observations[i].id == job.requests[i].id
  {
    if n > 0 {
      ObservationsFollowRequests(st, job, n - 1);
    }
  }

  // ---------------------------------------------------------------- the worker

  class VlmWorker {
    var cache: map<Key, Observation>
    var attempts: map<string, Observation>
    ghost var generated: seq<Key>

    ghost function Value(): State
      reads this
    {
      State(cache, attempts, generated)
    }

    constructor ()
      ensures Value() == EMPTY
    {
      cache, attempts, generated := map[], map[], [];
    }

    /** Serve one request: from the cache, by replay, or by generating. */
    method Serve(q: Request, job: Job) returns (o: Observation, stop: bool)
      modifies this
      ensures Value() == AfterServing(old(Value()), q, job) && o == Served(old(Value()), q, job)
      ensures stop == (NeedsModel(old(Value()), q, job.retry) && !job.available)
    {
      if q.key in cache {
        return cache[q.key].(id := q.id, cacheHit := true), false;
      }
      if q.id in attempts && attempts[q.id].key == q.key && !job.retry {
        return attempts[q.id], false;
      }
      o := Observation(q.id, q.key, Failure, "", false);
      if job.available {
        var body := job.infer(q.key);
        if body.Some? {
          o := Observation(q.id, q.key, if Strip(body.value) == "" then Failure else Success, body.value, false);
        }
      }
      attempts := attempts[q.id := o];
      if o.status == Success {
        cache := cache[q.key := o];
        generated := generated + [q.key];
      }
      stop := !job.available;
    }

    method Run(job: Job) returns (observations: seq<Observation>, notRun: seq<string>)
      requires forall id :: id in attempts ==> attempts[id].id == id
      modifies this
      ensures var p := WholeRun(old(Value()), job);
              Value() == p.state && observations == p.observations && |observations| <= |job.requests|
      ensures notRun == Unserved(job.requests, observations)
      ensures forall i :: 0 <= i < |observations| ==> observations[i].id == job.requests[i].id
    {
      observations := [];
      ghost var before := Value();
      var stopped := false;
      for i := 0 to |job.requests|
        invariant !stopped && RunUpTo(before, job, i) == Progress(Value(), observations, stopped)
      {
        var o;
        o, stopped := Serve(job.requests[i], job);
        observations := observations + [o];
        if stopped {
          StoppedStays(before, job, i + 1, |job.requests|);
          break;
        }
      }
      ObservationsFollowRequests(before, job, |job.requests|);
      notRun := NotRun(job.requests, observations);
    }
  }

  lemma {:induction false} StoppedStays(st: State, job: Job, n: nat, m: nat)
    requires n <= m <= |job.requests| && RunUpTo(st, job, n).stopped
    ensures RunUpTo(st, job, m) == RunUpTo(st, job, n)
    decreases m
  {
    if n < m {
      StoppedStays(st, job, n, m - 1);
    }
  }

  predicate IsServed(observations: seq<Observation>, id: string) {
    exists k :: 0 <= k < |observations| && observations[k].id == id
  }

  /** The ids of the requests that no observation carries. */
  function Unserved(requests: seq<Request>, observations: seq<Observation>): seq<string> {
    if requests == [] then []
    else
      var last := requests[|requests| - 1].id;
      Unserved(requests[..|requests| - 1], observations) + if IsServed(observations, last) then [] else [last]
  }

  method NotRun(requests: seq<Request>, observations: seq<Observation>) returns (ids: seq<string>)
    ensures ids == Unserved(requests, observations)
  {
    ids := [];
    for i := 0 to |requests|
      invariant ids == Unserved(requests[..i], observations)
    {
      assert requests[..i + 1][..i] == requests[..i];
      if !IsServed(observations, requests[i].id) {
        ids := ids + [requests[i].id];
      }
    }
    assert requests[..|requests|] == requests;
  }

  /** The ids of the requests after the first `n`. */
  function IdsFrom(requests: seq<Request>, n: nat): seq<string>
    requires n <= |requests|
  {
    seq(|requests| - n, i requires 0 <= i < |requests| - n => requests[n + i].id)
  }

  /** No request after the served ones repeats the id of one of them. */
  ghost predicate RepeatsNoServedId(requests: seq<Request>, observations: seq<Observation>) {
    forall i :: |observations| <= i < |requests| ==> !IsServed(observations, requests[i].id)
  }

  /** What is reported as not run is the suffix behind the served requests exactly when that suffix
      repeats no served id, as with unique ids; otherwise the repeated requests are missing from it. */
  lemma {:induction false} NotRunIsSuffixExactly(requests: seq<Request>, observations: seq<Observation>)
    requires |observations| <= |requests|
    requires forall i :: 0 <= i < |observations| ==> observations[i].id == requests[i].id
    ensures |Unserved(requests, observations)| <= |requests| - |observations|
    ensures Unserved(requests, observations) == IdsFrom(requests, |observations|) <==> RepeatsNoServedId(requests, observations)
  {
    var n := |requests| - 1;
    if |observations| == |requests| {
      ServedPrefixIsEmpty(requests, observations);
    } else {
      var front, last := requests[..n], requests[n].id;
      NotRunIsSuffixExactly(front, observations);
      assert IdsFrom(requests, |observations|) == IdsFrom(front, |observations|) + [last];
      assert RepeatsNoServedId(requests, observations) <==> RepeatsNoServedId(front, observations) && !IsServed(observations, last);
      SameFrontExactly(Unserved(front, observations), IdsFrom(front, |observations|), last);
    }
  }

  lemma SameFrontExactly(a: seq<string>, b: seq<string>, x: string)
    ensures a + [x] == b + [x] <==> a == b
  {
    assert (a + [x])[..|a|] == a && (b + [x])[..|b|] == b;
  }

  lemma {:induction false} ServedPrefixIsEmpty(requests: seq<Request>, observations: seq<Observation>)
    requires |requests| <= |observations| && forall i :: 0 <= i < |requests| ==> observations[i].id == requests[i].id
    ensures Unserved(requests, observations) == []
  {
    if requests != [] {
      ServedPrefixIsEmpty(requests[..|requests| - 1], observations);
    }
  }

  /** A second request under a served id is neither run nor reported when the run stops before it. */
  lemma RepeatedRequestIsLost(q: Request, o: Observation)
    requires o.id == q.id
    ensures Unserved([q, q], [o]) == [] && IdsFrom([q, q], 1) == [q.id]
  {
    var requests, served := [q, q], [o];
    assert served[0].id == q.id && IsServed(served, q.id);
    assert requests[..|requests| - 1] == [q];
    ServedPrefixIsEmpty([q], served);
  }

  lemma UniqueIdsRepeatNone(requests: seq<Request>, observations: seq<Observation>)
    requires HaveUniqueIds(requests) && |observations| <= |requests|
    requires forall i :: 0 <= i < |observations| ==> observations[i].id == requests[i].id
    ensures Unserved(requests, observations) == IdsFrom(requests, |observations|)
  {
    NotRunIsSuffixExactly(requests, observations);
  }
}
