module LiveService {
  // The persistent scan service (server/live/service.go).  Sections under the service's mutex and
  // receives from its channel are single steps; a save may fail at any of them, and the process may
  // end and be restarted from what is on disk at any time.

  import opened ScanTypes

  datatype Stage = Queued | Profiling | Analyzing | Completed | Failed

  /** A record: its repository, when it was made, how far it is, and the results so far. */
  datatype Record = Record(repository: string, created: int, stage: Stage, results: Option<string>) {
    predicate Terminal() {
      stage.Completed? || stage.Failed?
    }
  }

  type Records = map<string, Record>

  datatype State = State(
    capacity: nat,
    jobs: Records,
    repositories: map<string, string>,
    queue: seq<string>,
    workers: set<nat>,
    held: map<nat, string>,
    disk: Records,
    cancelled: bool,
    closed: bool,
    analyzer: bool)

  /** The saved flags say whether writing the record to disk succeeded. */
  datatype Event =
    | Submit(repository: string, refresh: bool, id: string, now: int, saved: bool)
    | Take(worker: nat)
    | Profile(worker: nat, saved: bool)
    | Checkpoint(worker: nat, results: string, saved: bool)
    | Finish(worker: nat, ok: bool, saved: bool)
    | Import(repository: string, id: string, now: int, complete: bool, results: string, saved: bool)
    | Quit(worker: nat)
    | Cancel
    | Close
    | Restart(count: nat)

  datatype Reply = Existing(id: string) | Started(id: string) | Unavailable | SaveFailed

  predicate Busy(s: State, repository: string) {
    && repository in s.repositories && s.repositories[repository] in s.jobs
    && !s.jobs[s.repositories[repository]].Terminal()
  }

  function SubmitReply(s: State, e: Event): Reply
    requires e.Submit?
  {
    if e.repository in s.repositories && (!e.refresh || Busy(s, e.repository)) then Existing(s.repositories[e.repository])
    else if s.closed || s.cancelled || !s.analyzer || |s.queue| == s.capacity then Unavailable
    else if !e.saved then SaveFailed
    else Started(e.id)
  }

  function ImportReply(s: State, e: Event): Reply
    requires e.Import?
  {
    if s.closed || Busy(s, e.repository) then Unavailable
    else if !e.saved then SaveFailed
    else Started(e.id)
  }

  /** A record as a restart leaves it: what was under way has failed. */
  function Recovered(r: Record): Record {
    if r.Terminal() then r else r.(stage := Failed)
  }

  function RecoveredAll(disk: Records): Records {
    map k | k in disk :: Recovered(disk[k])
  }

  /** Each repository's newest record. */
  ghost predicate PointsToNewest(jobs: Records, repositories: map<string, string>) {
    && (forall k :: k in jobs ==> jobs[k].repository in repositories)
    && forall r :: r in repositories ==> IsNewest(jobs, r, repositories[r])
  }

  ghost predicate IsNewest(jobs: Records, repository: string, id: string) {
    && id in jobs && jobs[id].repository == repository
    && forall k :: k in jobs && jobs[k].repository == repository ==> jobs[k].created <= jobs[id].created
  }

  function Put(s: State, id: string, r: Record, saved: bool): State {
    s.(jobs := s.jobs[id := r], disk := if saved then s.disk[id := r] else s.disk)
  }

  predicate Holding(s: State, w: nat) {
    w in s.held && s.held[w] in s.jobs
  }

  predicate Enabled(s: State, e: Event) {
    match e
    case Submit(_, _, id, _, _) => id !in s.jobs && id !in s.disk
    case Take(w) => w in s.workers && w !in s.held && s.queue != []
    case Profile(w, _) => Holding(s, w) && s.jobs[s.held[w]].stage.Queued?
    case Checkpoint(w, _, _) => Holding(s, w) && (s.jobs[s.held[w]].stage.Profiling? || s.jobs[s.held[w]].stage.Analyzing?)
    case Finish(w, _, _) => Holding(s, w) && !s.jobs[s.held[w]].stage.Queued?
    case Import(_, id, _, _, _, _) => id !in s.jobs && id !in s.disk
    case Quit(w) => s.cancelled && w in s.workers && w !in s.held
    case Cancel => true
    case Close => true
    case Restart(count) => 1 <= count <= s.capacity
  }

  ghost predicate Next(s: State, e: Event, t: State) {
    match e
    case Submit(repository, _, id, now, _) =>
      if SubmitReply(s, e).Started? then
        t == Put(s, id, Record(repository, now, Queued, None), true).(
               repositories := s.repositories[repository := id], queue := s.queue + [id])
      else t == s
    case Take(w) => s.queue != [] && t == s.(queue := s.queue[1..], held := s.held[w := s.queue[0]])
    case Profile(w, saved) => Holding(s, w) && t == Put(s, s.held[w], s.jobs[s.held[w]].(stage := Profiling), saved)
    case Checkpoint(w, results, saved) =>
      Holding(s, w) && t == Put(s, s.held[w], s.jobs[s.held[w]].(stage := Analyzing, results := Some(results)), saved)
    case Finish(w, ok, saved) =>
      && Holding(s, w)
      && t == Put(s, s.held[w], s.jobs[s.held[w]].(stage := if ok && saved then Completed else Failed), saved).(held := s.held - {w})
    case Import(repository, id, now, complete, results, _) =>
      if ImportReply(s, e).Started? then
        t == Put(s, id, Record(repository, now, if complete then Completed else Failed, Some(results)), true).(
               repositories := s.repositories[repository := id])
      else t == s
    case Quit(w) => t == s.(workers := s.workers - {w})
    case Cancel => t == s.(cancelled := true)
    case Close => t == s.(cancelled := true, closed := true)
    case Restart(count) => Reopened(s.capacity, s.disk, count, t)
  }

  /** A service opened on what is on disk. */
  ghost predicate Reopened(capacity: nat, disk: Records, count: nat, t: State) {
    && t == State(capacity, RecoveredAll(disk), t.repositories, [], t.workers, map[], RecoveredAll(disk), false, false, t.analyzer)
    && |t.workers| == count && PointsToNewest(t.jobs, t.repositories)
  }

  // ---------- what always holds ----------

  predicate Distinct(q: seq<string>) {
    forall i, j :: 0 <= i < j < |q| ==> q[i] != q[j]
  }

  /** A job under way is the one its repository points to; so there is at most one. */
  predicate Pointed(s: State, k: string)
    requires k in s.jobs
  {
    s.jobs[k].Terminal() || (s.jobs[k].repository in s.repositories && s.repositories[s.jobs[k].repository] == k)
  }

  /** What is on disk recovers to the same stage, once that is final; a completed record is on disk whole. */
  predicate Durable(s: State, k: string)
    requires k in s.jobs
  {
    && k in s.disk && s.disk[k].repository == s.jobs[k].repository && s.disk[k].created == s.jobs[k].created
    && (s.jobs[k].Terminal() ==> Recovered(s.disk[k]).stage == s.jobs[k].stage)
    && (!s.jobs[k].Terminal() ==> !s.disk[k].Terminal())
    && (s.jobs[k].stage.Completed? ==> s.disk[k] == s.jobs[k])
  }

  predicate HoldsOne(s: State, w: nat)
    requires w in s.held
  {
    s.held[w] in s.jobs && !s.jobs[s.held[w]].Terminal() && s.held[w] !in s.queue
  }

  ghost predicate Placed(s: State) {
    && |s.queue| <= s.capacity && Distinct(s.queue)
    && s.held.Keys <= s.workers
    && (forall k :: k in s.queue ==> k in s.jobs && s.jobs[k].stage.Queued?)
    && (forall v, w :: v in s.held && w in s.held && v != w ==> s.held[v] != s.held[w])
    && forall w {:trigger HoldsOne(s, w)} :: w in s.held ==> HoldsOne(s, w)
  }

  ghost predicate Inv(s: State) {
    && Placed(s)
    && (forall r :: r in s.repositories ==> s.repositories[r] in s.jobs && s.jobs[s.repositories[r]].repository == r)
    && (forall k {:trigger Pointed(s, k)} :: k in s.jobs ==> Pointed(s, k))
    && (forall k {:trigger Durable(s, k)} :: k in s.jobs ==> Durable(s, k))
    && s.disk.Keys == s.jobs.Keys
  }

  ghost predicate Init(s: State) {
    && s == State(s.capacity, map[], map[], [], s.workers, map[], map[], false, false, s.analyzer)
    && 1 <= |s.workers| <= s.capacity
  }

  // ---------- one step ----------

  /** Two jobs under way are never of one repository. */
  lemma OneActive(s: State, a: string, b: string)
    requires Inv(s) && a in s.jobs && b in s.jobs && !s.jobs[a].Terminal() && !s.jobs[b].Terminal()
    requires s.jobs[a].repository == s.jobs[b].repository
    ensures a == b && s.jobs[a].repository in s.repositories && s.repositories[s.jobs[a].repository] == a
  {
    assert Pointed(s, a) && Pointed(s, b);
  }

  /** One record written, in memory and perhaps on disk; everything else as it was. */
  lemma PutKeeps(s: State, id: string, r: Record, saved: bool, t: State)
    requires Inv(s) && id in s.jobs && !s.jobs[id].Terminal()
    requires r.repository == s.jobs[id].repository && r.created == s.jobs[id].created && !r.stage.Queued?
    requires r.stage.Completed? ==> saved
    requires id !in s.queue
    requires t == Put(s, id, r, saved).(held := t.held)
    requires t.held.Keys <= s.held.Keys && forall w :: w in t.held ==> t.held[w] == s.held[w] && (t.held[w] == id ==> !r.Terminal())
    ensures Inv(t)
  {
    hide Placed, Pointed, Durable;
    PutPlaces(s, id, r, t);
    assert Durable(s, id) && Pointed(s, id);
    forall k | k in t.jobs
      ensures Pointed(t, k) && Durable(t, k)
    {
      assert Pointed(s, k) && Durable(s, k);
      PutOne(s, id, r, saved, t, k);
    }
    assert t.disk.Keys == s.disk.Keys;
    assert t.jobs.Keys == s.jobs.Keys;
  }

  lemma PutOne(s: State, id: string, r: Record, saved: bool, t: State, k: string)
    requires id in s.jobs && !s.jobs[id].Terminal() && k in s.jobs && Pointed(s, id) && Pointed(s, k) && Durable(s, id) && Durable(s, k)
    requires r.repository == s.jobs[id].repository && r.created == s.jobs[id].created && (r.stage.Completed? ==> saved)
    requires t == Put(s, id, r, saved).(held := t.held)
    ensures Pointed(t, k) && Durable(t, k)
  {
  }

  lemma PutPlaces(s: State, id: string, r: Record, t: State)
    requires Placed(s) && id in s.jobs && id !in s.queue
    requires t.queue == s.queue && t.capacity == s.capacity && t.workers == s.workers && t.jobs == s.jobs[id := r]
    requires t.held.Keys <= s.held.Keys && forall w :: w in t.held ==> t.held[w] == s.held[w] && (t.held[w] == id ==> !r.Terminal())
    ensures Placed(t)
  {
    forall w | w in t.held
      ensures HoldsOne(t, w)
    {
      assert HoldsOne(s, w);
    }
  }

  lemma WorkKeeps(s: State, e: Event, t: State)
    requires Inv(s) && (e.Profile? || e.Checkpoint?) && Enabled(s, e) && Next(s, e, t)
    ensures Inv(t)
  {
    hide Inv;
    HeldFacts(s, e.worker);
    if e.Profile? {
      PutKeeps(s, s.held[e.worker], s.jobs[s.held[e.worker]].(stage := Profiling), e.saved, t);
    } else {
      PutKeeps(s, s.held[e.worker], s.jobs[s.held[e.worker]].(stage := Analyzing, results := Some(e.results)), e.saved, t);
    }
  }

  lemma FinishKeeps(s: State, e: Event, t: State)
    requires Inv(s) && e.Finish? && Enabled(s, e) && Next(s, e, t)
    ensures Inv(t)
  {
    hide Inv;
    HeldFacts(s, e.worker);
    PutKeeps(s, s.held[e.worker], s.jobs[s.held[e.worker]].(stage := if e.ok && e.saved then Completed else Failed), e.saved, t);
  }

  lemma HeldFacts(s: State, w: nat)
    requires Inv(s) && w in s.held
    ensures s.held[w] in s.jobs && !s.jobs[s.held[w]].Terminal() && s.held[w] !in s.queue
    ensures forall v :: v in s.held && v != w ==> s.held[v] != s.held[w]
  {
    assert HoldsOne(s, w);
  }

  lemma TakeKeeps(s: State, e: Event, t: State)
    requires Inv(s) && e.Take? && Enabled(s, e) && Next(s, e, t)
    ensures Inv(t)
  {
    var head := s.queue[0];
    assert forall k :: k in s.queue <==> k == head || k in t.queue;
    assert forall i :: 0 <= i < |t.queue| ==> t.queue[i] == s.queue[i + 1];
    assert head in s.queue && head !in t.queue;
    forall v | v in s.held
      ensures s.held[v] != head
    {
      assert HoldsOne(s, v);
    }
    forall w | w in t.held
      ensures HoldsOne(t, w)
    {
      if w != e.worker {
        assert HoldsOne(s, w);
      }
    }
    forall k | k in t.jobs
      ensures Pointed(t, k) && Durable(t, k)
    {
      assert Pointed(s, k) && Durable(s, k);
    }
  }

  /** A new record, on disk and in memory, that its repository now points to. */
  lemma AddKeeps(s: State, id: string, r: Record, t: State)
    requires Inv(s) && id !in s.jobs && !Busy(s, r.repository)
    requires t == Put(s, id, r, true).(repositories := s.repositories[r.repository := id], queue := t.queue)
    requires if r.stage.Queued? then t.queue == s.queue + [id] && |s.queue| < s.capacity else r.Terminal() && t.queue == s.queue
    ensures Inv(t)
  {
    AddPlaces(s, id, r, t);
    forall k | k in t.jobs
      ensures Pointed(t, k) && Durable(t, k)
    {
      if k != id {
        assert Pointed(s, k) && Durable(s, k);
      }
    }
    assert t.disk.Keys == s.disk.Keys + {id};
    assert t.jobs.Keys == s.jobs.Keys + {id};
  }

  lemma AddPlaces(s: State, id: string, r: Record, t: State)
    requires Placed(s) && id !in s.jobs && t.held == s.held && t.workers == s.workers && t.capacity == s.capacity
    requires t.jobs == s.jobs[id := r]
    requires if r.stage.Queued? then t.queue == s.queue + [id] && |s.queue| < s.capacity else t.queue == s.queue
    ensures Placed(t)
  {
    assert forall i :: 0 <= i < |s.queue| ==> s.queue[i] in s.queue;
    forall w | w in t.held
      ensures HoldsOne(t, w)
    {
      assert HoldsOne(s, w);
    }
  }

  lemma QueueFits(s: State)
    requires Inv(s)
    ensures |s.queue| <= s.capacity
  {
  }

  lemma SubmitKeeps(s: State, e: Event, t: State)
    requires Inv(s) && e.Submit? && Enabled(s, e) && Next(s, e, t)
    ensures Inv(t)
  {
    hide Inv;
    if SubmitReply(s, e).Started? {
      QueueFits(s);
      NotBusy(s, e.repository);
      AddKeeps(s, e.id, Record(e.repository, e.now, Queued, None), t);
    }
  }

  lemma NotBusy(s: State, repository: string)
    requires Inv(s)
    ensures repository !in s.repositories ==> !Busy(s, repository)
  {
  }

  lemma ImportKeeps(s: State, e: Event, t: State)
    requires Inv(s) && e.Import? && Enabled(s, e) && Next(s, e, t)
    ensures Inv(t)
  {
    hide Inv;
    if ImportReply(s, e).Started? {
      AddKeeps(s, e.id, Record(e.repository, e.now, if e.complete then Completed else Failed, Some(e.results)), t);
    }
  }

  lemma RestartKeeps(s: State, e: Event, t: State)
    requires Inv(s) && e.Restart? && Next(s, e, t)
    ensures Inv(t)
  {
    forall r | r in t.repositories
      ensures t.repositories[r] in t.jobs && t.jobs[t.repositories[r]].repository == r
    {
      assert IsNewest(t.jobs, r, t.repositories[r]);
    }
  }

  lemma QuietKeeps(s: State, e: Event, t: State)
    requires Inv(s) && (e.Quit? || e.Cancel? || e.Close?) && Enabled(s, e) && Next(s, e, t)
    ensures Inv(t)
  {
    forall k | k in t.jobs
      ensures Pointed(t, k) && Durable(t, k)
    {
      assert Pointed(s, k) && Durable(s, k);
    }
    forall w | w in t.held
      ensures HoldsOne(t, w)
    {
      assert HoldsOne(s, w);
    }
  }

  lemma StepKeeps(s: State, e: Event, t: State)
    requires Inv(s) && Enabled(s, e) && Next(s, e, t)
    ensures Inv(t)
  {
    hide Inv, Enabled, Next;
    match e {
      case Submit(_, _, _, _, _) => SubmitKeeps(s, e, t);
      case Take(_) => TakeKeeps(s, e, t);
      case Profile(_, _) => WorkKeeps(s, e, t);
      case Checkpoint(_, _, _) => WorkKeeps(s, e, t);
      case Finish(_, _, _) => FinishKeeps(s, e, t);
      case Import(_, _, _, _, _, _) => ImportKeeps(s, e, t);
      case Restart(_) => RestartKeeps(s, e, t);
      case _ => QuietKeeps(s, e, t);
    }
  }

  /** What a later state still knows of a job. */
  predicate Remembers(s: State, t: State, k: string)
    requires k in s.jobs
  {
    && k in t.jobs && t.jobs[k].repository == s.jobs[k].repository
    && (s.jobs[k].Terminal() ==> t.jobs[k].stage == s.jobs[k].stage)
    && (s.jobs[k].stage.Completed? ==> t.jobs[k] == s.jobs[k])
  }

  /** No step, restarts included, loses a job or moves one out of its final stage; a completed one
      keeps its results. */
  lemma StepRemembers(s: State, e: Event, t: State, k: string)
    requires Inv(s) && Enabled(s, e) && Next(s, e, t) && k in s.jobs
    ensures Remembers(s, t, k)
  {
    hide Placed;
    assert Durable(s, k);
    if e.Profile? || e.Checkpoint? || e.Finish? {
      HeldFacts(s, e.worker);
    }
  }

  // ---------- runs ----------

  ghost predicate IsStep(states: seq<State>, events: seq<Event>, i: nat)
    requires i < |events| && |states| == |events| + 1
  {
    Enabled(states[i], events[i]) && Next(states[i], events[i], states[i + 1])
  }

  ghost predicate IsRun(states: seq<State>, events: seq<Event>) {
    && |states| == |events| + 1
    && Init(states[0])
    && forall i :: 0 <= i < |events| ==> IsStep(states, events, i)
  }

  lemma {:induction false} RunKeeps(states: seq<State>, events: seq<Event>, i: nat)
    requires IsRun(states, events) && i < |states|
    ensures Inv(states[i])
  {
    hide Inv, Enabled, Next;
    if i == 0 {
      StartsWell(states[0]);
    } else {
      RunKeeps(states, events, i - 1);
      assert IsStep(states, events, i - 1);
      StepKeeps(states[i - 1], events[i - 1], states[i]);
    }
  }

  lemma StartsWell(s: State)
    requires Init(s)
    ensures Inv(s)
  {
  }

  /** In every reachable state a repository has at most one job under way, and points to it; and a
      submission that is accepted finds room in the channel. */
  lemma AlwaysOneActive(states: seq<State>, events: seq<Event>, i: nat, a: string, b: string)
    requires IsRun(states, events) && i < |states| && a in states[i].jobs && b in states[i].jobs
    requires !states[i].jobs[a].Terminal() && !states[i].jobs[b].Terminal()
    requires states[i].jobs[a].repository == states[i].jobs[b].repository
    ensures a == b
    ensures var r := states[i].jobs[a].repository; r in states[i].repositories && states[i].repositories[r] == a
  {
    RunKeeps(states, events, i);
    OneActive(states[i], a, b);
  }

  lemma NeverBlocks(states: seq<State>, events: seq<Event>, i: nat)
    requires IsRun(states, events) && i < |events| && events[i].Submit? && SubmitReply(states[i], events[i]).Started?
    ensures |states[i].queue| < states[i].capacity
  {
    RunKeeps(states, events, i);
    QueueFits(states[i]);
  }

  /** A job once known is known for ever; its final stage is final, and completed results stay. */
  lemma {:induction false} FinalStaysFinal(states: seq<State>, events: seq<Event>, i: nat, j: nat, k: string)
    requires IsRun(states, events) && i <= j < |states| && k in states[i].jobs
    ensures Remembers(states[i], states[j], k)
    ensures k in states[j].jobs && states[j].jobs[k].repository == states[i].jobs[k].repository
    ensures states[i].jobs[k].stage in {Completed, Failed} ==> states[j].jobs[k].stage == states[i].jobs[k].stage
    ensures states[i].jobs[k].stage == Completed ==> states[j].jobs[k].results == states[i].jobs[k].results
  {
    hide Enabled, Next, Inv;
    if i < j {
      FinalStaysFinal(states, events, i, j - 1, k);
      RunKeeps(states, events, j - 1);
      assert IsStep(states, events, j - 1);
      StepRemembers(states[j - 1], events[j - 1], states[j], k);
    }
  }

  // ---------- the service ----------

  class Service {
    const capacity: nat
    const analyzer: bool
    var jobs: Records
    var repositories: map<string, string>
    var queue: seq<string>
    var workers: set<nat>
    var held: map<nat, string>
    var disk: Records
    var cancelled: bool
    var closed: bool

    function View(): State
      reads this
    {
      State(capacity, jobs, repositories, queue, workers, held, disk, cancelled, closed, analyzer)
    }

    ghost predicate Valid()
      reads this
    {
      Inv(View())
    }

    /** Open: the records on disk, read in any order, those under way marked failed and saved. */
    constructor Open(capacity: nat, count: nat, analyzer: bool, stored: Records)
      requires 1 <= count <= capacity
      ensures Reopened(capacity, stored, count, View()) && Valid()
      ensures jobs.Keys == stored.Keys && disk == jobs && queue == [] && !closed && !cancelled
      ensures forall k :: k in stored ==>
        jobs[k] == Record(stored[k].repository, stored[k].created, if stored[k].stage == Completed then Completed else Failed, stored[k].results)
      ensures forall k :: k in jobs ==>
        && jobs[k].repository in repositories && repositories[jobs[k].repository] in jobs
        && jobs[k].created <= jobs[repositories[jobs[k].repository]].created
    {
      this.capacity, this.analyzer := capacity, analyzer;
      jobs, repositories, queue, held, disk := map[], map[], [], map[], stored;
      workers, cancelled, closed := {}, false, false;
      new;
      hide Inv, PointsToNewest, RecoveredAll;
      var found, newest := ReadRecords(stored);
      jobs, repositories, disk := found, newest, found;
      for i := 0 to count
        invariant |workers| == i && forall w :: w in workers ==> w < i
        invariant View() == State(capacity, found, newest, [], workers, map[], found, false, false, analyzer)
      {
        workers := workers + {i};
      }
      ReopenedIsValid(capacity, stored, count, View());
      RecoveredAre(stored);
      NewestIs(jobs, repositories);
    }

    /** Writing a record, which may fail. */
    method Save(id: string, saved: bool)
      requires id in jobs
      modifies this`disk
      ensures disk == if saved then old(disk)[id := jobs[id]] else old(disk)
    {
      if saved {
        disk := disk[id := jobs[id]];
      }
    }

    method Submit(repository: string, refresh: bool, id: string, now: int, saved: bool) returns (reply: Reply)
      requires Valid() && Enabled(View(), Event.Submit(repository, refresh, id, now, saved))
      modifies this
      ensures Valid() && Next(old(View()), Event.Submit(repository, refresh, id, now, saved), View())
      ensures reply == SubmitReply(old(View()), Event.Submit(repository, refresh, id, now, saved))
      ensures reply.Existing? <==>
        repository in old(repositories) && (!refresh || old(jobs[repositories[repository]]).stage !in {Completed, Failed})
      ensures reply.Existing? ==> reply.id == old(repositories)[repository]
      ensures reply == Unavailable <==>
        !reply.Existing? && (old(closed) || old(cancelled) || !analyzer || |old(queue)| == capacity)
      ensures reply == SaveFailed <==> !reply.Existing? && reply != Unavailable && !saved
      ensures reply.Started? ==>
        && reply.id == id && queue == old(queue) + [id] && repositories == old(repositories)[repository := id]
        && jobs == old(jobs)[id := Record(repository, now, Queued, None)] && disk == old(disk)[id := Record(repository, now, Queued, None)]
      ensures !reply.Started? ==> jobs == old(jobs) && disk == old(disk) && queue == old(queue) && repositories == old(repositories)
    {
      ghost var before := View();
      if repository in repositories {
        RepositoryResolves(before, repository);
        var current := jobs[repositories[repository]];
        if !refresh || (!current.stage.Completed? && !current.stage.Failed?) {
          return Existing(repositories[repository]);
        }
      }
      if closed || cancelled || !analyzer || |queue| == capacity {
        return Unavailable;
      }
      if !saved {
        return SaveFailed;
      }
      assert |queue| < capacity by {
        QueueFits(before);
      }
      var rec := Record(repository, now, Queued, None);
      disk := disk[id := rec];
      jobs := jobs[id := rec];
      repositories := repositories[repository := id];
      queue := queue + [id];
      reply := Started(id);
      StepKeeps(before, Event.Submit(repository, refresh, id, now, saved), View());
    }

    method Take(worker: nat)
      requires Valid() && Enabled(View(), Event.Take(worker))
      modifies this
      ensures Valid() && Next(old(View()), Event.Take(worker), View())
    {
      ghost var before := View();
      held := held[worker := queue[0]];
      queue := queue[1..];
      StepKeeps(before, Event.Take(worker), View());
    }

    /** stage(rec, "profiling"). */
    method Profile(worker: nat, saved: bool)
      requires Valid() && Enabled(View(), Event.Profile(worker, saved))
      modifies this
      ensures Valid() && Next(old(View()), Event.Profile(worker, saved), View())
      ensures var id := old(held)[worker]; id in jobs && jobs[id] == old(jobs)[id].(stage := Profiling) && held == old(held)
    {
      ghost var before := View();
      var id := held[worker];
      jobs := jobs[id := jobs[id].(stage := Profiling)];
      Save(id, saved);
      StepKeeps(before, Event.Profile(worker, saved), View());
    }

    /** The callback of the analysis run. */
    method Checkpoint(worker: nat, results: string, saved: bool)
      requires Valid() && Enabled(View(), Event.Checkpoint(worker, results, saved))
      modifies this
      ensures Valid() && Next(old(View()), Event.Checkpoint(worker, results, saved), View())
      ensures var id := old(held)[worker]; id in jobs && jobs[id] == old(jobs)[id].(stage := Analyzing, results := Some(results)) && held == old(held)
    {
      ghost var before := View();
      var id := held[worker];
      jobs := jobs[id := jobs[id].(stage := Analyzing, results := Some(results))];
      Save(id, saved);
      StepKeeps(before, Event.Checkpoint(worker, results, saved), View());
    }

    /** The end of run: completed unless something failed, and only if that can be saved. */
    method Finish(worker: nat, ok: bool, saved: bool)
      requires Valid() && Enabled(View(), Event.Finish(worker, ok, saved))
      modifies this
      ensures Valid() && Next(old(View()), Event.Finish(worker, ok, saved), View())
      ensures
        var id := old(held)[worker];
        && id in jobs && jobs[id] == old(jobs)[id].(stage := if ok && saved then Completed else Failed)
        && disk == (if saved then old(disk)[id := jobs[id]] else old(disk)) && worker !in held
    {
      ghost var before := View();
      var id := held[worker];
      var rec := jobs[id].(stage := Completed);
      if !ok {
        rec := rec.(stage := Failed);
      }
      if saved {
        disk := disk[id := rec];
      } else {
        rec := rec.(stage := Failed);
      }
      jobs := jobs[id := rec];
      held := held - {worker};
      StepKeeps(before, Event.Finish(worker, ok, saved), View());
    }

    method Import(repository: string, id: string, now: int, complete: bool, results: string, saved: bool) returns (reply: Reply)
      requires Valid() && Enabled(View(), Event.Import(repository, id, now, complete, results, saved))
      modifies this
      ensures Valid() && Next(old(View()), Event.Import(repository, id, now, complete, results, saved), View())
      ensures reply == ImportReply(old(View()), Event.Import(repository, id, now, complete, results, saved))
    {
      ghost var before := View();
      var rec := Record(repository, now, if complete then Completed else Failed, Some(results));
      if closed {
        return Unavailable;
      }
      if repository in repositories {
        RepositoryResolves(before, repository);
        var current := jobs[repositories[repository]];
        if !current.stage.Completed? && !current.stage.Failed? {
          return Unavailable;
        }
      }
      if !saved {
        return SaveFailed;
      }
      disk := disk[id := rec];
      jobs := jobs[id := rec];
      repositories := repositories[repository := id];
      reply := Started(id);
      StepKeeps(before, Event.Import(repository, id, now, complete, results, saved), View());
    }

    /** Close, before it waits for the workers. */
    method Shut()
      requires Valid()
      modifies this
      ensures Valid() && Next(old(View()), Event.Close, View())
    {
      ghost var before := View();
      closed, cancelled := true, true;
      StepKeeps(before, Event.Close, View());
    }
  }

  /** An import is turned away while the repository has a job under way or the service is closed, and
      comes to nothing if it cannot be saved; otherwise it is on record at once, finished, in memory and
      on disk, and its repository points to it. */
  lemma ImportClaims(s: State, e: Event, t: State)
    requires Inv(s) && e.Import? && Next(s, e, t)
    ensures
      var reply := ImportReply(s, e);
      && (reply == Unavailable <==>
            s.closed || (e.repository in s.repositories && s.jobs[s.repositories[e.repository]].stage !in {Completed, Failed}))
      && (reply == SaveFailed <==> reply != Unavailable && !e.saved)
      && (reply == Started(e.id) <==> reply != Unavailable && e.saved)
      && (reply != Started(e.id) ==> t == s)
      && (reply == Started(e.id) ==>
            && e.id in t.jobs && t.jobs == s.jobs[e.id := t.jobs[e.id]] && t.disk == s.disk[e.id := t.jobs[e.id]]
            && t.jobs[e.id] == Record(e.repository, e.now, if e.complete then Completed else Failed, Some(e.results))
            && t.repositories == s.repositories[e.repository := e.id] && t.queue == s.queue && t.held == s.held)
  {
    hide Placed, Pointed, Durable;
  }

  lemma RepositoryResolves(s: State, repository: string)
    requires Inv(s) && repository in s.repositories
    ensures s.repositories[repository] in s.jobs
  {
  }

  lemma ReopenedIsValid(capacity: nat, disk: Records, count: nat, t: State)
    requires Reopened(capacity, disk, count, t)
    ensures Inv(t)
  {
    forall r | r in t.repositories
      ensures t.repositories[r] in t.jobs && t.jobs[t.repositories[r]].repository == r
    {
      assert IsNewest(t.jobs, r, t.repositories[r]);
    }
  }

  lemma RecoveredAre(stored: Records)
    ensures RecoveredAll(stored).Keys == stored.Keys
    ensures forall k :: k in stored ==>
      RecoveredAll(stored)[k] == Record(stored[k].repository, stored[k].created, if stored[k].stage == Completed then Completed else Failed, stored[k].results)
  {
  }

  lemma NewestIs(jobs: Records, repositories: map<string, string>)
    requires PointsToNewest(jobs, repositories)
    ensures forall k :: k in jobs ==>
      && jobs[k].repository in repositories && repositories[jobs[k].repository] in jobs
      && jobs[k].created <= jobs[repositories[jobs[k].repository]].created
  {
    forall k | k in jobs
      ensures jobs[k].repository in repositories && IsNewest(jobs, jobs[k].repository, repositories[jobs[k].repository])
    {
    }
  }

  /** The records read back, and the newest of each repository. */
  method ReadRecords(stored: Records) returns (jobs: Records, repositories: map<string, string>)
    ensures jobs == RecoveredAll(stored) && PointsToNewest(jobs, repositories)
  {
    jobs, repositories := map[], map[];
    var left := stored.Keys;
    ghost var done: set<string> := {};
    while left != {}
      invariant left <= stored.Keys && done == stored.Keys - left
      invariant jobs == map k | k in done :: Recovered(stored[k])
      invariant PointsToNewest(jobs, repositories)
      decreases left
    {
      var id :| id in left;
      var rec := Recovered(stored[id]);
      NewestMore(jobs, repositories, id, rec);
      if rec.repository !in repositories || jobs[repositories[rec.repository]].created < rec.created {
        repositories := repositories[rec.repository := id];
      }
      jobs := jobs[id := rec];
      done := done + {id};
      left := left - {id};
    }
    assert done == stored.Keys;
  }

  lemma NewestMore(jobs: Records, repositories: map<string, string>, id: string, rec: Record)
    requires PointsToNewest(jobs, repositories) && id !in jobs
    ensures rec.repository in repositories ==> repositories[rec.repository] in jobs
    ensures
      if rec.repository !in repositories || jobs[repositories[rec.repository]].created < rec.created then
        PointsToNewest(jobs[id := rec], repositories[rec.repository := id])
      else PointsToNewest(jobs[id := rec], repositories)
  {
  }
}
