module ScanJobs {
  // The bounded scan job manager (src/scanjob/manager.go).  Each section that the manager's mutex
  // protects, and each receive from its channel, is one step; callers, workers and cancellation may
  // interleave in any order.  `Next` says what a step does, the class does it, and the lemmas say what
  // holds after any run of steps.

  import opened ScanTypes

  datatype Phase = Queued | Running | Failed | Canceled | Succeeded

  /** A retained job; finished is zero until it has ended. */
  datatype Entry = Entry(repositoryID: string, request: string, phase: Phase, error: string, summary: Option<string>, finished: nat) {
    predicate Ended() {
      finished != 0
    }
  }

  type Jobs = map<string, Entry>

  /** How the scan of a running job ends: with its own context expired or cancelled, with an error, or well. */
  datatype Ending = TimedOut | CanceledScan | ScanError | Scanned(summary: string)

  datatype State = State(
    capacity: nat,
    jobs: Jobs,
    queue: seq<string>,          // the channel, holding at most capacity jobs
    workers: set<nat>,           // those that have not returned
    held: map<nat, string>,      // the job each busy worker has taken
    sequence: nat,
    cancelled: bool,
    closed: bool)

  datatype Event =
    | Submit(id: string, repositoryID: string, request: string)
    | Take(worker: nat)
    | Begin(worker: nat)
    | Finish(worker: nat, ending: Ending)
    | Quit(worker: nat)
    | Cancel
    | Close

  datatype Reply = Accepted | ErrFull | ErrClosed

  // ---------- what a step does ----------

  predicate IsOldest(jobs: Jobs, id: string) {
    && id in jobs && jobs[id].Ended()
    && forall k :: k in jobs && jobs[k].Ended() ==> jobs[id].finished <= jobs[k].finished
  }

  predicate AnyEnded(jobs: Jobs) {
    exists k :: k in jobs && jobs[k].Ended()
  }

  /** The jobs with room for one more, if there can be. */
  ghost function MakeRoom(capacity: nat, jobs: Jobs): Option<Jobs> {
    if |jobs| < capacity then Some(jobs)
    else if exists id :: IsOldest(jobs, id) then
      var id :| IsOldest(jobs, id);
      Some(jobs - {id})
    else None
  }

  ghost function SubmitReply(s: State): Reply {
    if s.cancelled then ErrClosed else if MakeRoom(s.capacity, s.jobs).None? then ErrFull else Accepted
  }

  function Ended(e: Entry, ending: Ending, sequence: nat): Entry {
    match ending
    case TimedOut => e.(phase := Failed, error := "scan timed out", finished := sequence)
    case CanceledScan => e.(phase := Canceled, error := "scan canceled", finished := sequence)
    case ScanError => e.(phase := Failed, error := "scan failed", finished := sequence)
    case Scanned(summary) => e.(phase := Succeeded, summary := Some(summary), finished := sequence)
  }

  /** Which steps are possible.  Identifiers are random, so a new one is not in use; a job's context
      is done when the manager's is. */
  predicate Enabled(s: State, e: Event) {
    match e
    case Submit(id, _, _) => id !in s.jobs
    case Take(w) => w in s.workers && w !in s.held && s.queue != []
    case Begin(w) => w in s.held && s.held[w] in s.jobs && s.jobs[s.held[w]].phase.Queued?
    case Finish(w, ending) =>
      && w in s.held && s.held[w] in s.jobs && s.jobs[s.held[w]].phase.Running?
      && (s.cancelled ==> ending.TimedOut? || ending.CanceledScan?)
    case Quit(w) => s.cancelled && w in s.workers && w !in s.held
    case Cancel => true
    case Close => s.cancelled && s.workers == {}
  }

  ghost function Unended(jobs: Jobs): set<string> {
    set k | k in jobs && !jobs[k].Ended()
  }

  /** Closing ends what is left, each job with a number of its own. */
  ghost predicate ClosedJobs(s: State, jobs: Jobs, sequence: nat) {
    && jobs.Keys == s.jobs.Keys
    && sequence == s.sequence + |Unended(s.jobs)|
    && (forall k :: k in jobs && s.jobs[k].Ended() ==> jobs[k] == s.jobs[k])
    && (forall k :: k in jobs && !s.jobs[k].Ended() ==>
          s.sequence < jobs[k].finished <= sequence && jobs[k] == Ended(s.jobs[k], CanceledScan, jobs[k].finished))
    && (forall j, k :: j in jobs && k in jobs && j != k && !s.jobs[j].Ended() && !s.jobs[k].Ended() ==> jobs[j].finished != jobs[k].finished)
  }

  /** What a step leads to.  The order in which Close numbers the jobs is that of a map, so any is allowed. */
  ghost predicate Next(s: State, e: Event, t: State) {
    match e
    case Submit(id, repositoryID, request) =>
      if SubmitReply(s).Accepted? then
        t == s.(jobs := MakeRoom(s.capacity, s.jobs).value[id := Entry(repositoryID, request, Queued, "", None, 0)],
                queue := s.queue + [id])
      else t == s
    case Take(w) => s.queue != [] && t == s.(queue := s.queue[1..], held := s.held[w := s.queue[0]])
    case Begin(w) =>
      && w in s.held && s.held[w] in s.jobs
      && t == s.(jobs := s.jobs[s.held[w] := s.jobs[s.held[w]].(phase := Running)])
    case Finish(w, ending) =>
      && w in s.held && s.held[w] in s.jobs
      && t == s.(sequence := s.sequence + 1, held := s.held - {w},
                 jobs := s.jobs[s.held[w] := Ended(s.jobs[s.held[w]], ending, s.sequence + 1)])
    case Quit(w) => t == s.(workers := s.workers - {w})
    case Cancel => t == s.(cancelled := true)
    case Close => t == s.(jobs := t.jobs, sequence := t.sequence, closed := true) && ClosedJobs(s, t.jobs, t.sequence)
  }

  // ---------- what always holds ----------

  predicate Distinct(q: seq<string>) {
    forall i, j :: 0 <= i < j < |q| ==> q[i] != q[j]
  }

  /** Ended jobs are the ones with a final phase, under different numbers already given out. */
  ghost predicate Numbered(s: State) {
    && (forall k :: k in s.jobs ==> (s.jobs[k].Ended() <==> !s.jobs[k].phase.Queued? && !s.jobs[k].phase.Running?))
    && (forall k :: k in s.jobs ==> s.jobs[k].finished <= s.sequence)
    && forall j, k :: j in s.jobs && k in s.jobs && j != k && s.jobs[j].Ended() ==> s.jobs[j].finished != s.jobs[k].finished
  }

  ghost predicate IsHeld(s: State, k: string) {
    exists w :: w in s.held && s.held[w] == k
  }

  /** Where an unended job is: in the channel, or with a worker. */
  ghost predicate Accounted(s: State, k: string)
    requires k in s.jobs
  {
    s.jobs[k].Ended() || IsHeld(s, k) || (s.jobs[k].phase.Queued? && k in s.queue)
  }

  ghost predicate Holds(s: State, w: nat)
    requires w in s.held
  {
    s.held[w] in s.jobs && !s.jobs[s.held[w]].Ended() && s.held[w] !in s.queue
  }

  /** Every unended job is in exactly one place. */
  ghost predicate Placed(s: State) {
    && Distinct(s.queue)
    && s.held.Keys <= s.workers
    && (forall v, w :: v in s.held && w in s.held && v != w ==> s.held[v] != s.held[w])
    && (forall w {:trigger Holds(s, w)} :: w in s.held ==> Holds(s, w))
    && (!s.closed ==> forall k :: k in s.queue ==> k in s.jobs && s.jobs[k].phase.Queued? && !s.jobs[k].Ended())
    && (forall k {:trigger Accounted(s, k)} :: k in s.jobs ==> Accounted(s, k))
  }

  ghost predicate Inv(s: State) {
    && 0 < s.capacity && |s.jobs| <= s.capacity
    && Numbered(s) && Placed(s)
    && (s.closed ==> s.cancelled && s.workers == {} && forall k :: k in s.jobs ==> s.jobs[k].Ended())
  }

  ghost predicate Init(s: State) {
    && 0 < |s.workers| <= s.capacity
    && s == State(s.capacity, map[], [], s.workers, map[], 0, false, false)
  }

  // ---------- one step ----------

  lemma RoomLeaves(s: State)
    requires Inv(s) && MakeRoom(s.capacity, s.jobs).Some?
    ensures
      var jobs := MakeRoom(s.capacity, s.jobs).value;
      && |jobs| < s.capacity
      && (forall k :: k in jobs ==> k in s.jobs && jobs[k] == s.jobs[k])
      && (forall k :: k in s.jobs && k !in jobs ==> |s.jobs| == s.capacity && IsOldest(s.jobs, k))
  {
  }

  lemma {:induction false} DistinctFit(q: seq<string>, keys: set<string>)
    requires Distinct(q) && forall k :: k in q ==> k in keys
    ensures |q| <= |keys|
  {
    if q != [] {
      var rest := q[1..];
      forall k | k in rest
        ensures k in keys - {q[0]}
      {
        var i :| 0 <= i < |rest| && rest[i] == k;
        assert q[i + 1] == k;
      }
      DistinctFit(rest, keys - {q[0]});
    }
  }

  /** The send to the channel, made while the mutex is held, always finds room. */
  lemma SendNeverBlocks(s: State)
    requires Inv(s) && SubmitReply(s).Accepted?
    ensures |s.queue| < s.capacity
  {
    RoomLeaves(s);
    var jobs := MakeRoom(s.capacity, s.jobs).value;
    forall k | k in s.queue
      ensures k in jobs.Keys
    {
    }
    DistinctFit(s.queue, jobs.Keys);
  }

  /** A held job stays held, and one that was accounted for stays so. */
  lemma HeldStays(s: State, t: State, k: string)
    requires IsHeld(s, k) && forall w :: w in s.held && s.held[w] == k ==> w in t.held && t.held[w] == k
    ensures IsHeld(t, k)
  {
  }

  /** What making room for a new job leaves. */
  ghost predicate Leaves(s: State, jobs: Jobs) {
    && (forall k :: k in jobs ==> k in s.jobs && jobs[k] == s.jobs[k])
    && forall k :: k in s.jobs && k !in jobs ==> s.jobs[k].Ended()
  }

  lemma SubmitNumbers(s: State, jobs: Jobs, id: string, job: Entry, t: State)
    requires Numbered(s) && Leaves(s, jobs) && id !in jobs && job.phase.Queued? && job.finished == 0
    requires t.jobs == jobs[id := job] && t.sequence == s.sequence
    ensures Numbered(t)
  {
  }

  lemma SubmitPlaces(s: State, jobs: Jobs, id: string, job: Entry, t: State)
    requires Placed(s) && Leaves(s, jobs) && id !in s.jobs && job.phase.Queued? && job.finished == 0
    requires !s.closed && t == s.(jobs := jobs[id := job], queue := s.queue + [id])
    ensures Placed(t)
  {
    hide IsHeld;
    assert forall i :: 0 <= i < |s.queue| ==> s.queue[i] in s.queue;
    forall w | w in t.held
      ensures Holds(t, w)
    {
      assert Holds(s, w);
    }
    forall k | k in t.jobs
      ensures Accounted(t, k)
    {
      if k == id {
        assert t.queue[|s.queue|] == id;
      } else {
        assert Accounted(s, k);
        if IsHeld(s, k) {
          HeldStays(s, t, k);
        }
      }
    }
  }

  /** An accepted submission adds one job to what making room has left. */
  lemma SubmitOpens(s: State, e: Event, t: State) returns (jobs: Jobs, job: Entry)
    requires Inv(s) && e.Submit? && Enabled(s, e) && Next(s, e, t)
    ensures t == s || (&& !s.closed && e.id !in s.jobs && |jobs| < s.capacity && Leaves(s, jobs)
                       && job.phase.Queued? && job.finished == 0
                       && t == s.(jobs := jobs[e.id := job], queue := s.queue + [e.id]))
  {
    hide MakeRoom, Numbered, Placed;
    jobs, job := map[], Entry("", "", Queued, "", None, 0);
    if SubmitReply(s).Accepted? {
      RoomLeaves(s);
      jobs := MakeRoom(s.capacity, s.jobs).value;
      job := t.jobs[e.id];
    }
  }

  lemma SubmitKeeps(s: State, e: Event, t: State)
    requires Inv(s) && e.Submit? && Enabled(s, e) && Next(s, e, t)
    ensures Inv(t)
  {
    hide Next, Enabled, Numbered, Placed, Leaves;
    var jobs, job := SubmitOpens(s, e, t);
    if t != s {
      SubKeys(s, jobs, e.id);
      SubmitNumbers(s, jobs, e.id, job, t);
      SubmitPlaces(s, jobs, e.id, job, t);
      assert t.jobs.Keys == jobs.Keys + {e.id};
    }
  }

  lemma SubKeys(s: State, jobs: Jobs, id: string)
    requires Leaves(s, jobs) && id !in s.jobs
    ensures id !in jobs
  {
  }

  lemma TakePlaces(s: State, e: Event, t: State)
    requires Placed(s) && !s.closed && e.Take? && Enabled(s, e) && Next(s, e, t)
    ensures Placed(t)
  {
    var head := s.queue[0];
    assert forall k :: k in s.queue <==> k == head || k in t.queue;
    assert forall i :: 0 <= i < |t.queue| ==> t.queue[i] == s.queue[i + 1];
    assert head in s.queue && head !in t.queue;
    assert t.held[e.worker] == head;
    forall v | v in s.held
      ensures s.held[v] != head
    {
      assert Holds(s, v);
    }
    forall w | w in t.held
      ensures Holds(t, w)
    {
      if w != e.worker {
        assert Holds(s, w);
      }
    }
    forall k | k in t.jobs
      ensures Accounted(t, k)
    {
      assert Accounted(s, k);
      if IsHeld(s, k) {
        HeldStays(s, t, k);
      }
    }
  }

  lemma TakeKeeps(s: State, e: Event, t: State)
    requires Inv(s) && e.Take? && Enabled(s, e) && Next(s, e, t)
    ensures Inv(t)
  {
    hide Numbered, Placed;
    SameNumbers(s, t);
    TakePlaces(s, e, t);
  }

  /** Numbers matter only as far as jobs have them. */
  lemma SameNumbers(s: State, t: State)
    requires Numbered(s) && t.jobs == s.jobs && t.sequence == s.sequence
    ensures Numbered(t)
  {
  }

  lemma BeginNumbers(s: State, e: Event, t: State)
    requires Numbered(s) && e.Begin? && Enabled(s, e) && Next(s, e, t)
    ensures Numbered(t)
  {
  }

  lemma WorkerPlaces(s: State, e: Event, t: State)
    requires Placed(s) && (e.Begin? || e.Quit? || e.Cancel?) && Enabled(s, e) && Next(s, e, t)
    ensures Placed(t)
  {
    if e.Begin? {
      assert Holds(s, e.worker);
    }
    forall w | w in t.held
      ensures Holds(t, w)
    {
      assert Holds(s, w);
    }
    forall k | k in t.jobs
      ensures Accounted(t, k)
    {
      assert Accounted(s, k);
      if IsHeld(s, k) {
        HeldStays(s, t, k);
      }
    }
  }

  lemma WorkerKeeps(s: State, e: Event, t: State)
    requires Inv(s) && (e.Begin? || e.Quit? || e.Cancel?) && Enabled(s, e) && Next(s, e, t)
    ensures Inv(t)
  {
    hide Numbered, Placed;
    assert t.jobs.Keys == s.jobs.Keys;
    if e.Begin? {
      BeginNumbers(s, e, t);
    } else {
      SameNumbers(s, t);
    }
    WorkerPlaces(s, e, t);
  }

  lemma FinishNumbers(s: State, e: Event, t: State)
    requires Numbered(s) && e.Finish? && Enabled(s, e) && Next(s, e, t)
    ensures Numbered(t)
  {
    hide Numbered;
    EndedNumbers(s, s.held[e.worker], Ended(s.jobs[s.held[e.worker]], e.ending, s.sequence + 1), t);
  }

  lemma EndedNumbers(s: State, id: string, job: Entry, t: State)
    requires Numbered(s) && id in s.jobs && job.finished == s.sequence + 1 && !job.phase.Queued? && !job.phase.Running?
    requires t.jobs == s.jobs[id := job] && t.sequence == s.sequence + 1
    ensures Numbered(t)
  {
  }

  lemma FinishPlaces(s: State, e: Event, t: State)
    requires Placed(s) && !s.closed && e.Finish? && Enabled(s, e) && Next(s, e, t)
    ensures Placed(t)
  {
    var done := s.held[e.worker];
    assert Holds(s, e.worker);
    forall w | w in t.held
      ensures Holds(t, w)
    {
      assert Holds(s, w);
    }
    forall k | k in t.jobs
      ensures Accounted(t, k)
    {
      assert Accounted(s, k);
      if k != done && IsHeld(s, k) {
        HeldStays(s, t, k);
      }
    }
  }

  lemma FinishKeeps(s: State, e: Event, t: State)
    requires Inv(s) && e.Finish? && Enabled(s, e) && Next(s, e, t)
    ensures Inv(t)
  {
    hide Numbered;
    assert e.worker in s.workers;
    FinishNumbers(s, e, t);
    FinishPlaces(s, e, t);
    assert t.jobs.Keys == s.jobs.Keys;
  }

  lemma CloseNumbers(s: State, e: Event, t: State)
    requires Numbered(s) && e.Close? && Next(s, e, t)
    ensures Numbered(t)
  {
  }

  lemma CloseKeeps(s: State, e: Event, t: State)
    requires Inv(s) && e.Close? && Enabled(s, e) && Next(s, e, t)
    ensures Inv(t)
  {
    hide Numbered;
    CloseNumbers(s, e, t);
    assert s.held == map[];
    assert t.jobs.Keys == s.jobs.Keys;
  }

  lemma StepKeeps(s: State, e: Event, t: State)
    requires Inv(s) && Enabled(s, e) && Next(s, e, t)
    ensures Inv(t)
  {
    hide Inv, Enabled, Next;
    match e {
      case Submit(_, _, _) => SubmitKeeps(s, e, t);
      case Take(_) => TakeKeeps(s, e, t);
      case Finish(_, _) => FinishKeeps(s, e, t);
      case Close => CloseKeeps(s, e, t);
      case _ => WorkerKeeps(s, e, t);
    }
  }

  /** A step loses no job but, when there is no room, the one that ended first; and it never changes
      one that has ended. */
  lemma StepLosesOnlyTheOldest(s: State, e: Event, t: State, k: string)
    requires Inv(s) && Enabled(s, e) && Next(s, e, t) && k in s.jobs
    ensures k !in t.jobs ==> e.Submit? && |s.jobs| == s.capacity && IsOldest(s.jobs, k)
    ensures k in t.jobs && s.jobs[k].Ended() ==> t.jobs[k] == s.jobs[k]
  {
  }

  // ---------- runs ----------

  ghost predicate IsRun(states: seq<State>, events: seq<Event>) {
    && |states| == |events| + 1
    && Init(states[0])
    && forall i :: 0 <= i < |events| ==> IsStep(states, events, i)
  }

  ghost predicate IsStep(states: seq<State>, events: seq<Event>, i: nat)
    requires i < |events| && |states| == |events| + 1
  {
    Enabled(states[i], events[i]) && Next(states[i], events[i], states[i + 1])
  }

  lemma {:induction false} RunKeeps(states: seq<State>, events: seq<Event>, i: nat)
    requires IsRun(states, events) && i < |states|
    ensures Inv(states[i])
  {
    if i > 0 {
      RunKeeps(states, events, i - 1);
      assert IsStep(states, events, i - 1);
      StepKeeps(states[i - 1], events[i - 1], states[i]);
    }
  }

  /** In no reachable state can an accepted submission find the channel full. */
  lemma NeverBlocks(states: seq<State>, events: seq<Event>, i: nat)
    requires IsRun(states, events) && i < |states| && SubmitReply(states[i]).Accepted?
    ensures |states[i].queue| < states[i].capacity
  {
    RunKeeps(states, events, i);
    SendNeverBlocks(states[i]);
  }

  /** After Close every job has ended, and no step changes anything any more. */
  lemma {:induction false} ClosedStays(states: seq<State>, events: seq<Event>, i: nat, j: nat)
    requires IsRun(states, events) && i <= j < |states| && states[i].closed
    ensures states[j].closed && states[j].jobs == states[i].jobs
    ensures forall k :: k in states[j].jobs ==> states[j].jobs[k].Ended()
  {
    if i == j {
      RunKeeps(states, events, i);
    } else {
      ClosedStays(states, events, i, j - 1);
      RunKeeps(states, events, j - 1);
      assert IsStep(states, events, j - 1);
      ClosedStep(states[j - 1], events[j - 1], states[j]);
    }
  }

  lemma ClosedStep(s: State, e: Event, t: State)
    requires Inv(s) && s.closed && Enabled(s, e) && Next(s, e, t)
    ensures t.closed && t.jobs == s.jobs
  {
  }

  /** Everything that has ended did so after the f-th ending. */
  ghost predicate Above(s: State, f: nat) {
    f <= s.sequence && forall k :: k in s.jobs && s.jobs[k].Ended() ==> f < s.jobs[k].finished
  }

  lemma AboveStays(s: State, e: Event, t: State, f: nat)
    requires Inv(s) && Enabled(s, e) && Next(s, e, t) && Above(s, f)
    ensures Above(t, f)
  {
    hide MakeRoom, Numbered, Placed;
    if e.Submit? {
      if SubmitReply(s).Accepted? {
        RoomLeaves(s);
      }
    } else {
      assert t.jobs.Keys == s.jobs.Keys;
    }
  }

  /** The i-th step evicts job k. */
  predicate Evicts(states: seq<State>, events: seq<Event>, i: nat, k: string)
    requires i < |events| && |states| == |events| + 1
  {
    k in states[i].jobs && k !in states[i + 1].jobs
  }

  lemma EvictionAbove(states: seq<State>, events: seq<Event>, i: nat, k: string)
    requires IsRun(states, events) && i < |events| && Evicts(states, events, i, k)
    ensures states[i].jobs[k].Ended() && Above(states[i + 1], states[i].jobs[k].finished)
  {
    hide MakeRoom;
    RunKeeps(states, events, i);
    assert IsStep(states, events, i);
    StepLosesOnlyTheOldest(states[i], events[i], states[i + 1], k);
    RoomLeaves(states[i]);
  }

  lemma {:induction false} StaysAbove(states: seq<State>, events: seq<Event>, i: nat, j: nat, f: nat)
    requires IsRun(states, events) && i <= j < |states| && Above(states[i], f)
    ensures Above(states[j], f)
  {
    if i < j {
      StaysAbove(states, events, i, j - 1, f);
      RunKeeps(states, events, j - 1);
      assert IsStep(states, events, j - 1);
      AboveStays(states[j - 1], events[j - 1], states[j], f);
    }
  }

  /** Over a whole run, jobs are evicted in the order in which they ended. */
  lemma EvictedInOrder(states: seq<State>, events: seq<Event>, i: nat, j: nat, a: string, b: string)
    requires IsRun(states, events) && i < j < |events|
    requires Evicts(states, events, i, a) && Evicts(states, events, j, b)
    ensures states[i].jobs[a].Ended() && states[j].jobs[b].Ended()
    ensures states[i].jobs[a].finished < states[j].jobs[b].finished
  {
    EvictionAbove(states, events, i, a);
    StaysAbove(states, events, i + 1, j, states[i].jobs[a].finished);
    EvictionAbove(states, events, j, b);
  }

  // ---------- first come, first served ----------

  /** a waits in the channel, and b behind it. */
  ghost predicate Behind(q: seq<string>, a: string, b: string) {
    exists x, y :: 0 <= x < y < |q| && q[x] == a && q[y] == b
  }

  /** A step takes a, or leaves b behind it. */
  lemma BehindStays(s: State, e: Event, t: State, a: string, b: string)
    requires Inv(s) && Enabled(s, e) && Next(s, e, t) && Behind(s.queue, a, b)
    ensures (e.Take? && s.queue[0] == a) || Behind(t.queue, a, b)
  {
    hide MakeRoom, Numbered, Placed;
    var x, y :| 0 <= x < y < |s.queue| && s.queue[x] == a && s.queue[y] == b;
    if e.Take? {
      if x > 0 {
        assert t.queue[x - 1] == a && t.queue[y - 1] == b;
      }
    } else {
      assert t.queue == s.queue || (e.Submit? && t.queue == s.queue + [e.id]);
      assert t.queue[x] == a && t.queue[y] == b;
    }
  }

  lemma {:induction false} BehindUntilTaken(states: seq<State>, events: seq<Event>, i: nat, j: nat, a: string, b: string)
    requires IsRun(states, events) && i <= j < |states| && Behind(states[i].queue, a, b)
    ensures Behind(states[j].queue, a, b) || exists k :: i <= k < j && TakesAt(states, events, k, a)
  {
    if i < j {
      BehindUntilTaken(states, events, i, j - 1, a, b);
      if Behind(states[j - 1].queue, a, b) {
        RunKeeps(states, events, j - 1);
        assert IsStep(states, events, j - 1);
        BehindStays(states[j - 1], events[j - 1], states[j], a, b);
        if !Behind(states[j].queue, a, b) {
          assert TakesAt(states, events, j - 1, a);
        }
      }
    }
  }

  /** The k-th step hands job id to a worker. */
  ghost predicate TakesAt(states: seq<State>, events: seq<Event>, k: nat, id: string)
    requires k < |events| && |states| == |events| + 1
  {
    events[k].Take? && states[k].queue != [] && states[k].queue[0] == id
  }

  /** Jobs are handed to workers in the order in which they were accepted: a job that was waiting when
      another one was accepted is handed out before it. */
  lemma FirstComeFirstServed(states: seq<State>, events: seq<Event>, i: nat, j: nat, a: string)
    requires IsRun(states, events) && i < j < |events|
    requires events[i].Submit? && SubmitReply(states[i]).Accepted? && a in states[i].queue
    requires TakesAt(states, events, j, events[i].id)
    ensures exists k :: i < k < j && TakesAt(states, events, k, a)
  {
    RunKeeps(states, events, i);
    assert IsStep(states, events, i);
    var b, q := events[i].id, states[i + 1].queue;
    AcceptedIsLast(states[i], events[i], states[i + 1]);
    var x :| 0 <= x < |states[i].queue| && states[i].queue[x] == a;
    assert q[x] == a && q[|states[i].queue|] == b;
    assert Behind(q, a, b);
    BehindUntilTaken(states, events, i + 1, j, a, b);
    if Behind(states[j].queue, a, b) {
      RunKeeps(states, events, j);
      HeadIsNotBehind(states[j].queue, a, b);
    }
  }

  lemma AcceptedIsLast(s: State, e: Event, t: State)
    requires e.Submit? && SubmitReply(s).Accepted? && Next(s, e, t)
    ensures t.queue == s.queue + [e.id]
  {
  }

  lemma HeadIsNotBehind(q: seq<string>, a: string, b: string)
    requires Distinct(q) && Behind(q, a, b)
    ensures q[0] != b
  {
  }

  // ---------- the manager ----------

  /** Why a job's own context is done, if it is. */
  datatype ContextError = NotDone | DeadlineExceeded | ContextCanceled

  /** The switch at the end of a scan: the context goes before the scanner's own error. */
  function EndingOf(ctx: ContextError, scan: Option<string>): Ending {
    if ctx.DeadlineExceeded? then TimedOut
    else if ctx.ContextCanceled? then CanceledScan
    else if scan.None? then ScanError
    else Scanned(scan.value)
  }

  class Manager {
    const capacity: nat
    var jobs: Jobs
    var queue: seq<string>
    var workers: set<nat>
    var held: map<nat, string>
    var sequence: nat
    var cancelled: bool
    var closed: bool

    function View(): State
      reads this
    {
      State(capacity, jobs, queue, workers, held, sequence, cancelled, closed)
    }

    ghost predicate Valid()
      reads this
    {
      Inv(View())
    }

    /** As many workers as configured, each waiting for the channel. */
    constructor (count: nat, capacity: nat)
      requires 1 <= count <= capacity
      ensures Valid() && Init(View()) && |workers| == count
    {
      this.capacity := capacity;
      jobs, queue, held, sequence, cancelled, closed := map[], [], map[], 0, false, false;
      workers := {};
      new;
      for i := 0 to count
        invariant |workers| == i && forall w :: w in workers ==> w < i
        invariant View() == State(capacity, map[], [], workers, map[], 0, false, false)
      {
        workers := workers + {i};
      }
    }

    /** The finished job with the smallest number, looked for in the order of a map. */
    method FindOldest() returns (oldest: Option<string>)
      ensures oldest.None? ==> !AnyEnded(jobs)
      ensures oldest.Some? ==> IsOldest(jobs, oldest.value)
    {
      oldest := None;
      var left := jobs.Keys;
      while left != {}
        invariant left <= jobs.Keys
        invariant oldest.None? ==> forall k :: k in jobs && k !in left ==> !jobs[k].Ended()
        invariant oldest.Some? ==> oldest.value in jobs && jobs[oldest.value].Ended()
        invariant oldest.Some? ==> forall k :: k in jobs && k !in left && jobs[k].Ended() ==> jobs[oldest.value].finished <= jobs[k].finished
        decreases left
      {
        var k :| k in left;
        if jobs[k].finished != 0 && (oldest.None? || jobs[k].finished < jobs[oldest.value].finished) {
          oldest := Some(k);
        }
        left := left - {k};
      }
    }

    method Submit(id: string, repositoryID: string, request: string) returns (reply: Reply)
      requires Valid() && id !in jobs
      modifies this
      ensures Valid() && Next(old(View()), Event.Submit(id, repositoryID, request), View()) && reply == SubmitReply(old(View()))
      ensures reply == ErrClosed <==> old(cancelled)
      ensures reply == ErrFull <==> !old(cancelled) && |old(jobs)| == capacity && forall k :: k in old(jobs) ==> old(jobs)[k].finished == 0
      ensures reply == Accepted ==>
        id in jobs && jobs[id] == Entry(repositoryID, request, Queued, "", None, 0) && queue == old(queue) + [id]
      ensures reply != Accepted ==> jobs == old(jobs) && queue == old(queue)
    {
      ghost var before := View();
      hide Inv, Numbered, Placed;
      if cancelled {
        return ErrClosed;
      }
      if |jobs| >= capacity {
        var oldest := FindOldest();
        FoundMakesRoom(before, oldest);
        if oldest.None? {
          return ErrFull;
        }
        jobs := jobs - {oldest.value};
      }
      assert |queue| < capacity by {
        SendNeverBlocks(before);
      }
      jobs := jobs[id := Entry(repositoryID, request, Queued, "", None, 0)];
      queue := queue + [id];
      reply := Accepted;
      StepKeeps(before, Event.Submit(id, repositoryID, request), View());
    }

    /** A worker receives from the channel. */
    method Take(worker: nat)
      requires Valid() && Enabled(View(), Event.Take(worker))
      modifies this
      ensures Valid() && Next(old(View()), Event.Take(worker), View())
    {
      ghost var before := View();
      held := held[worker := queue[0]];
      queue := queue[1..];
      StepKeeps(before, Event.Take(worker), View());
    }

    method Begin(worker: nat)
      requires Valid() && Enabled(View(), Event.Begin(worker))
      modifies this
      ensures Valid() && Next(old(View()), Event.Begin(worker), View())
      ensures held == old(held) && held[worker] in jobs && jobs[held[worker]].phase == Running
    {
      ghost var before := View();
      var id := held[worker];
      jobs := jobs[id := jobs[id].(phase := Running)];
      StepKeeps(before, Event.Begin(worker), View());
    }

    method Finish(worker: nat, ctx: ContextError, scan: Option<string>)
      requires Valid() && Enabled(View(), Event.Finish(worker, EndingOf(ctx, scan)))
      modifies this
      ensures Valid() && Next(old(View()), Event.Finish(worker, EndingOf(ctx, scan)), View())
      ensures
        var id := old(held[worker]);
        && id in jobs && jobs[id].finished == old(sequence) + 1 == sequence && worker !in held
        && (ctx == DeadlineExceeded ==> jobs[id].phase == Failed && jobs[id].error == "scan timed out")
        && (ctx == ContextCanceled ==> jobs[id].phase == Canceled && jobs[id].error == "scan canceled")
        && (ctx == NotDone && scan == None ==> jobs[id].phase == Failed && jobs[id].error == "scan failed")
        && (ctx == NotDone && scan != None ==> jobs[id].phase == Succeeded && jobs[id].summary == scan)
    {
      ghost var before := View();
      var id := held[worker];
      var e := jobs[id];
      if ctx.DeadlineExceeded? {
        e := e.(phase := Failed, error := "scan timed out");
      } else if !ctx.NotDone? {
        e := e.(phase := Canceled, error := "scan canceled");
      } else if scan.None? {
        e := e.(phase := Failed, error := "scan failed");
      } else {
        e := e.(phase := Succeeded, summary := scan);
      }
      sequence := sequence + 1;
      e := e.(finished := sequence);
      jobs := jobs[id := e];
      held := held - {worker};
      StepKeeps(before, Event.Finish(worker, EndingOf(ctx, scan)), View());
    }

    /** The manager's context is cancelled, by Close or from outside. */
    method CancelAll()
      requires Valid()
      modifies this
      ensures Valid() && Next(old(View()), Event.Cancel, View())
    {
      ghost var before := View();
      cancelled := true;
      StepKeeps(before, Event.Cancel, View());
    }

    /** An idle worker sees that the context is done and returns. */
    method Quit(worker: nat)
      requires Valid() && Enabled(View(), Event.Quit(worker))
      modifies this
      ensures Valid() && Next(old(View()), Event.Quit(worker), View())
    {
      ghost var before := View();
      workers := workers - {worker};
      StepKeeps(before, Event.Quit(worker), View());
    }

    /** Close, after the workers have returned: what is left is cancelled. */
    method CloseJobs()
      requires Valid() && Enabled(View(), Event.Close)
      modifies this
      ensures Valid() && Next(old(View()), Event.Close, View())
      ensures jobs.Keys == old(jobs).Keys
      ensures forall k :: k in jobs && old(jobs)[k].finished == 0 ==>
        jobs[k].phase == Canceled && jobs[k].error == "scan canceled" && jobs[k].finished > old(sequence)
    {
      ghost var before := View();
      hide Inv, ClosedJobs;
      jobs, sequence := EndAll(before, jobs, sequence);
      ClosedAreCanceled(before, jobs, sequence);
      closed := true;
      StepKeeps(before, Event.Close, View());
    }
  }

  lemma ClosedAreCanceled(s: State, jobs: Jobs, sequence: nat)
    requires ClosedJobs(s, jobs, sequence)
    ensures jobs.Keys == s.jobs.Keys
    ensures forall k :: k in jobs && s.jobs[k].finished == 0 ==>
      jobs[k].phase == Canceled && jobs[k].error == "scan canceled" && jobs[k].finished > s.sequence
  {
  }

  /** The jobs, walked in any order, each unended one cancelled under the next number. */
  method EndAll(ghost s: State, start: Jobs, from: nat) returns (jobs: Jobs, sequence: nat)
    requires start == s.jobs && from == s.sequence
    ensures ClosedJobs(s, jobs, sequence)
  {
    hide Closing, ClosedJobs;
    jobs, sequence := start, from;
    var left := start.Keys;
    ghost var visited: set<string> := {};
    ClosingStarts(s);
    while left != {}
      invariant visited + left == start.Keys && visited !! left
      invariant jobs.Keys == start.Keys && Closing(s, jobs, sequence, visited)
      decreases left
    {
      var k :| k in left;
      if jobs[k].finished == 0 {
        ClosingEnds(s, jobs, sequence, visited, k);
        sequence := sequence + 1;
        jobs := jobs[k := jobs[k].(phase := Canceled, error := "scan canceled", finished := sequence)];
      } else {
        ClosingSkips(s, jobs, sequence, visited, k);
      }
      KeysSame(s, jobs, sequence, visited + {k});
      visited := visited + {k};
      left := left - {k};
    }
    ClosingDone(s, jobs, sequence);
  }

  lemma FoundMakesRoom(s: State, oldest: Option<string>)
    requires Inv(s) && |s.jobs| >= s.capacity
    requires oldest.None? ==> !AnyEnded(s.jobs)
    requires oldest.Some? ==> IsOldest(s.jobs, oldest.value)
    ensures MakeRoom(s.capacity, s.jobs) == if oldest.None? then None else Some(s.jobs - {oldest.value})
    ensures |s.jobs| == s.capacity
  {
  }

  /** A job that closing has cancelled, under a number after all earlier ones. */
  ghost predicate ClosedAs(s: State, jobs: Jobs, sequence: nat, k: string)
    requires k in s.jobs && k in jobs
  {
    s.sequence < jobs[k].finished <= sequence && jobs[k] == Ended(s.jobs[k], CanceledScan, jobs[k].finished)
  }

  /** How far closing is: the visited unended jobs are cancelled, the others are as they were. */
  ghost predicate Closing(s: State, jobs: Jobs, sequence: nat, visited: set<string>) {
    && jobs.Keys == s.jobs.Keys && visited <= jobs.Keys
    && sequence == s.sequence + |Unended(s.jobs) * visited|
    && (forall k :: k in jobs && (k !in visited || s.jobs[k].Ended()) ==> jobs[k] == s.jobs[k])
    && (forall k :: k in jobs && k in visited && !s.jobs[k].Ended() ==> ClosedAs(s, jobs, sequence, k))
    && Apart(jobs, Unended(s.jobs) * visited)
  }

  ghost predicate Apart(jobs: Jobs, keys: set<string>) {
    forall j, k :: j in jobs && k in jobs && j in keys && k in keys && j != k ==> jobs[j].finished != jobs[k].finished
  }

  lemma ClosingStarts(s: State)
    ensures Closing(s, s.jobs, s.sequence, {})
  {
  }

  lemma KeysSame(s: State, jobs: Jobs, sequence: nat, visited: set<string>)
    requires Closing(s, jobs, sequence, visited)
    ensures jobs.Keys == s.jobs.Keys
  {
  }

  lemma ClosingSkips(s: State, jobs: Jobs, sequence: nat, visited: set<string>, k: string)
    requires Closing(s, jobs, sequence, visited) && k in jobs && k !in visited && jobs[k].finished != 0
    ensures Closing(s, jobs, sequence, visited + {k})
  {
    assert Unended(s.jobs) * (visited + {k}) == Unended(s.jobs) * visited;
  }

  lemma ClosingEnds(s: State, jobs: Jobs, sequence: nat, visited: set<string>, k: string)
    requires Closing(s, jobs, sequence, visited) && k in jobs && k !in visited && jobs[k].finished == 0
    ensures Closing(s, jobs[k := Ended(jobs[k], CanceledScan, sequence + 1)], sequence + 1, visited + {k})
  {
    hide Unended, Apart, ClosedAs;
    var e := Ended(jobs[k], CanceledScan, sequence + 1);
    var before := Unended(s.jobs) * visited;
    UnendedMore(s, visited, k);
    NumbersSoFar(s, jobs, sequence, visited);
    StaysApart(jobs, before, k, e);
    StaysClosed(s, jobs, sequence, visited, k);
    assert jobs[k := e].Keys == jobs.Keys;
  }

  lemma UnendedMore(s: State, visited: set<string>, k: string)
    requires k in s.jobs && !s.jobs[k].Ended() && k !in visited
    ensures Unended(s.jobs) * (visited + {k}) == Unended(s.jobs) * visited + {k}
    ensures |Unended(s.jobs) * (visited + {k})| == |Unended(s.jobs) * visited| + 1
  {
  }

  lemma NumbersSoFar(s: State, jobs: Jobs, sequence: nat, visited: set<string>)
    requires Closing(s, jobs, sequence, visited)
    ensures forall j :: j in jobs && j in Unended(s.jobs) * visited ==> jobs[j].finished <= sequence
  {
  }

  lemma StaysClosed(s: State, jobs: Jobs, sequence: nat, visited: set<string>, k: string)
    requires Closing(s, jobs, sequence, visited) && k in jobs && k !in visited && jobs[k].finished == 0
    ensures
      var next := jobs[k := Ended(jobs[k], CanceledScan, sequence + 1)];
      forall j :: j in next && j in visited + {k} && !s.jobs[j].Ended() ==> ClosedAs(s, next, sequence + 1, j)
  {
  }

  lemma StaysApart(jobs: Jobs, before: set<string>, k: string, e: Entry)
    requires Apart(jobs, before) && k in jobs && k !in before
    requires forall j :: j in jobs && j in before ==> jobs[j].finished < e.finished
    ensures Apart(jobs[k := e], before + {k})
  {
  }

  lemma ClosingDone(s: State, jobs: Jobs, sequence: nat)
    requires Closing(s, jobs, sequence, s.jobs.Keys)
    ensures ClosedJobs(s, jobs, sequence)
  {
    assert Unended(s.jobs) * s.jobs.Keys == Unended(s.jobs);
    assert forall k :: k in jobs && !s.jobs[k].Ended() ==> ClosedAs(s, jobs, sequence, k);
  }
}
