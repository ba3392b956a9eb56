module OsvCache {
  // The single-flight cache of OSV queries: `cachedResponse` (src/osv/client.go).  Every section under
  // the client's mutex is one step; callers may come, wait, be cancelled and fetch in any order.

  import opened ScanTypes

  const MAX_ENTRIES := 100
  const MAX_BYTES := 8 * 1024 * 1024

  datatype Error = ContextEnded | Limit | OtherError(text: string)

  /** What a fetch comes back with; a context's end may also come back from the transport. */
  datatype Fetched = Body(data: string) | FetchEnded | FetchLimit | FetchFailed(text: string)

  /** One cachedQuery: all callers that found it hold on to it, even after it has left the map. */
  datatype Cell = Cell(key: string, ready: bool, data: Option<string>, error: Option<Error>)

  /** The cells ever made, the map, the counter, which callers are out fetching for which cell, and
      every closing of a cell's channel so far. */
  datatype State = State(cells: seq<Cell>, cache: map<string, nat>, bytes: nat, fetching: map<nat, nat>, closes: seq<nat>)

  /** The two locked sections.  A call is named by its caller; nothing in the second one looks at
      whether the cell is closed already. */
  datatype Event =
    | Ask(caller: nat, key: string, done: bool)
    | Land(caller: nat, fetched: Fetched, done: bool)

  datatype Answer = Failed(error: Error) | Wait(cell: nat) | Fetch(cell: nat)

  function AskAnswer(s: State, e: Event): Answer
    requires e.Ask?
  {
    if e.done then Failed(ContextEnded)
    else if e.key in s.cache then Wait(s.cache[e.key])
    else if |s.cache| >= MAX_ENTRIES then Failed(Limit)
    else Fetch(|s.cells|)
  }

  /** The error a landing fetch is stored under, if any. */
  function LandError(s: State, fetched: Fetched, done: bool): Option<Error> {
    if done then Some(ContextEnded)
    else
      match fetched
      case FetchEnded => Some(ContextEnded)
      case FetchLimit => Some(Limit)
      case FetchFailed(text) => Some(OtherError(text))
      case Body(data) => if |data| > MAX_BYTES - s.bytes then Some(Limit) else None
  }

  function LandCell(c: Cell, fetched: Fetched, error: Option<Error>): Cell {
    c.(ready := true, error := error, data := if error.None? && fetched.Body? then Some(fetched.data) else None)
  }

  /** A caller asks when it is not fetching, and lands when it is. */
  predicate Enabled(s: State, e: Event) {
    match e
    case Ask(caller, _, _) => caller !in s.fetching
    case Land(caller, _, _) => caller in s.fetching
  }

  ghost predicate Next(s: State, e: Event, t: State) {
    match e
    case Ask(caller, key, _) =>
      if AskAnswer(s, e).Fetch? then
        t == s.(cells := s.cells + [Cell(key, false, None, None)], cache := s.cache[key := |s.cells|],
                fetching := s.fetching[caller := |s.cells|])
      else t == s
    case Land(caller, fetched, done) =>
      && caller in s.fetching && s.fetching[caller] < |s.cells|
      && var i := s.fetching[caller];
         var error := LandError(s, fetched, done);
         var cell := LandCell(s.cells[i], fetched, error);
         t == State(s.cells[i := cell],
                    if error == Some(ContextEnded) then s.cache - {cell.key} else s.cache,
                    s.bytes + if cell.data.Some? then |cell.data.value| else 0,
                    s.fetching - {caller}, s.closes + [i])
  }

  // ---------- what always holds ----------

  function SizeOf(c: Cell): nat {
    if c.data.Some? then |c.data.value| else 0
  }

  function Total(cells: seq<Cell>): nat {
    if cells == [] then 0 else Total(cells[..|cells| - 1]) + SizeOf(cells[|cells| - 1])
  }

  /** A cell in flight or with a body is the one its key leads to. */
  predicate Current(s: State, i: nat)
    requires i < |s.cells|
  {
    var c := s.cells[i];
    && (!c.ready ==> c.data.None?)
    && (!c.ready || c.data.Some? ==> c.key in s.cache && s.cache[c.key] == i)
    && (i in s.closes <==> c.ready)
  }

  /** Whoever fetches does so for an open cell, alone; and somebody fetches for every open cell. */
  ghost predicate Staffed(s: State) {
    && (forall c :: c in s.fetching ==> s.fetching[c] < |s.cells| && !s.cells[s.fetching[c]].ready)
    && (forall c, d :: c in s.fetching && d in s.fetching && s.fetching[c] == s.fetching[d] ==> c == d)
    && forall i {:trigger Attended(s, i)} :: 0 <= i < |s.cells| && !s.cells[i].ready ==> Attended(s, i)
  }

  ghost predicate Attended(s: State, i: nat) {
    exists c :: c in s.fetching && s.fetching[c] == i
  }

  ghost predicate Inv(s: State) {
    Staffed(s) && Stored(s)
  }

  ghost predicate Stored(s: State) {
    && |s.cache| <= MAX_ENTRIES
    && s.bytes == Total(s.cells) && s.bytes <= MAX_BYTES
    && (forall k :: k in s.cache ==> s.cache[k] < |s.cells| && s.cells[s.cache[k]].key == k)
    && (forall i {:trigger Current(s, i)} :: 0 <= i < |s.cells| ==> Current(s, i))
    && (forall i :: i in s.closes ==> i < |s.cells|)
    && forall i, j :: 0 <= i < j < |s.closes| ==> s.closes[i] != s.closes[j]
  }

  const EMPTY := State([], map[], 0, map[], [])

  lemma {:induction false} TotalPut(cells: seq<Cell>, i: nat, c: Cell)
    requires i < |cells|
    ensures Total(cells[i := c]) == Total(cells) - SizeOf(cells[i]) + SizeOf(c)
  {
    var n := |cells| - 1;
    if i == n {
      assert cells[i := c][..n] == cells[..n];
    } else {
      assert cells[i := c][..n] == cells[..n][i := c];
      TotalPut(cells[..n], i, c);
    }
  }

  lemma StaffStays(s: State, e: Event, t: State)
    requires Staffed(s) && Enabled(s, e) && Next(s, e, t)
    ensures Staffed(t)
  {
    forall i | 0 <= i < |t.cells| && !t.cells[i].ready
      ensures Attended(t, i)
    {
      AttendedStays(s, e, t, i);
    }
  }

  lemma AttendedStays(s: State, e: Event, t: State, i: nat)
    requires Staffed(s) && Enabled(s, e) && Next(s, e, t) && i < |t.cells| && !t.cells[i].ready
    ensures Attended(t, i)
  {
    if i < |s.cells| {
      assert Attended(s, i);
      var c :| c in s.fetching && s.fetching[c] == i;
      assert c in t.fetching && t.fetching[c] == i;
    } else {
      assert t.fetching[e.caller] == i;
    }
  }

  lemma AskStores(s: State, e: Event, t: State)
    requires Stored(s) && e.Ask? && Next(s, e, t)
    ensures Stored(t)
  {
    if AskAnswer(s, e).Fetch? {
      assert t.cells[..|s.cells|] == s.cells;
      assert t.cache.Keys == s.cache.Keys + {e.key};
      forall i | 0 <= i < |t.cells|
        ensures Current(t, i)
      {
        if i < |s.cells| {
          assert Current(s, i);
        }
      }
    }
  }

  lemma LandStores(s: State, e: Event, t: State)
    requires Stored(s) && e.Land? && Next(s, e, t) && !s.cells[s.fetching[e.caller]].ready
    ensures Stored(t)
  {
    hide Total;
    var landing := s.fetching[e.caller];
    var cell := LandCell(s.cells[landing], e.fetched, LandError(s, e.fetched, e.done));
    assert Current(s, landing);
    TotalPut(s.cells, landing, cell);
    LandCounts(s, e, t);
    forall i | 0 <= i < |t.cells|
      ensures Current(t, i)
    {
      LandStaysCurrent(s, e, t, i);
    }
  }

  lemma LandStaysCurrent(s: State, e: Event, t: State, i: nat)
    requires e.Land? && Next(s, e, t) && i < |s.cells| && Current(s, i) && Current(s, s.fetching[e.caller])
    requires !s.cells[s.fetching[e.caller]].ready
    requires forall k :: k in s.cache ==> s.cache[k] < |s.cells| && s.cells[s.cache[k]].key == k
    ensures Current(t, i)
  {
    assert i in t.closes <==> i == s.fetching[e.caller] || i in s.closes;
  }

  lemma LandCounts(s: State, e: Event, t: State)
    requires |s.cache| <= MAX_ENTRIES && e.Land? && Next(s, e, t)
    ensures |t.cache| <= MAX_ENTRIES
  {
  }

  lemma StepKeeps(s: State, e: Event, t: State)
    requires Inv(s) && Enabled(s, e) && Next(s, e, t)
    ensures Inv(t)
  {
    StaffStays(s, e, t);
    if e.Ask? {
      AskStores(s, e, t);
    } else {
      LandStores(s, e, t);
    }
  }

  // ---------- runs ----------

  ghost predicate IsStep(states: seq<State>, events: seq<Event>, i: nat)
    requires i < |events| && |states| == |events| + 1
  {
    Enabled(states[i], events[i]) && Next(states[i], events[i], states[i + 1])
  }

  ghost predicate IsRun(states: seq<State>, events: seq<Event>) {
    && |states| == |events| + 1 && states[0] == EMPTY
    && forall i :: 0 <= i < |events| ==> IsStep(states, events, i)
  }

  lemma {:induction false} RunKeeps(states: seq<State>, events: seq<Event>, i: nat)
    requires IsRun(states, events) && i < |states|
    ensures Inv(states[i])
  {
    hide Inv, Enabled, Next;
    if i == 0 {
      EmptyIsFine();
    } else {
      RunKeeps(states, events, i - 1);
      assert IsStep(states, events, i - 1);
      StepKeeps(states[i - 1], events[i - 1], states[i]);
    }
  }

  lemma EmptyIsFine()
    ensures Inv(EMPTY)
  {
  }

  /** The cache never holds more than 100 keys, nor bodies of more than 8 MiB in all, and its counter is
      what the bodies add up to. */
  lemma WithinLimits(states: seq<State>, events: seq<Event>, n: nat)
    requires IsRun(states, events) && n < |states|
    ensures |states[n].cache| <= 100 && states[n].bytes <= 8388608 && states[n].bytes == Total(states[n].cells)
  {
    RunKeeps(states, events, n);
  }

  /** At most one caller is out fetching for a key. */
  lemma OneFlight(states: seq<State>, events: seq<Event>, n: nat, c: nat, d: nat)
    requires IsRun(states, events) && n < |states| && c in states[n].fetching && d in states[n].fetching
    ensures states[n].fetching[c] < |states[n].cells| && states[n].fetching[d] < |states[n].cells|
    ensures states[n].cells[states[n].fetching[c]].key == states[n].cells[states[n].fetching[d]].key ==> c == d
  {
    RunKeeps(states, events, n);
    if states[n].cells[states[n].fetching[c]].key == states[n].cells[states[n].fetching[d]].key {
      OneCell(states, events, n, states[n].fetching[c], states[n].fetching[d]);
    }
  }

  /** Nobody waits in vain: while a cell is not closed, a caller is out that will close it. */
  lemma NeverStranded(states: seq<State>, events: seq<Event>, n: nat, i: nat)
    requires IsRun(states, events) && n < |states| && i < |states[n].cells|
    ensures !states[n].cells[i].ready <==> exists c :: c in states[n].fetching && states[n].fetching[c] == i
  {
    RunKeeps(states, events, n);
    assert !states[n].cells[i].ready ==> Attended(states[n], i);
  }

  /** A key has at most one cell that is open or has a body. */
  lemma OneCell(states: seq<State>, events: seq<Event>, n: nat, i: nat, j: nat)
    requires IsRun(states, events) && n < |states| && i < |states[n].cells| && j < |states[n].cells|
    requires states[n].cells[i].key == states[n].cells[j].key
    requires !states[n].cells[i].ready || states[n].cells[i].data.Some?
    requires !states[n].cells[j].ready || states[n].cells[j].data.Some?
    ensures i == j
  {
    RunKeeps(states, events, n);
    assert Current(states[n], i) && Current(states[n], j);
  }

  /** A cell's channel is closed once it is ready and never twice, although the closing section does
      not look: the one caller that fetches for it is gone afterwards. */
  lemma ClosedOnce(states: seq<State>, events: seq<Event>, n: nat, i: nat)
    requires IsRun(states, events) && n < |states| && i < |states[n].cells|
    ensures multiset(states[n].closes)[i] <= 1
    ensures multiset(states[n].closes)[i] == 1 <==> states[n].cells[i].ready
  {
    RunKeeps(states, events, n);
    assert Current(states[n], i);
    CountDistinct(states[n].closes, i);
  }

  lemma {:induction false} CountDistinct(s: seq<nat>, x: nat)
    requires forall i, j :: 0 <= i < j < |s| ==> s[i] != s[j]
    ensures multiset(s)[x] == if x in s then 1 else 0
  {
    if s != [] {
      var n := |s| - 1;
      assert s == s[..n] + [s[n]];
      CountDistinct(s[..n], x);
    }
  }

  /** Cells are never changed once ready, nor forgotten. */
  ghost predicate Later(s: State, t: State) {
    && |s.cells| <= |t.cells|
    && forall i :: 0 <= i < |s.cells| ==> t.cells[i].key == s.cells[i].key && (s.cells[i].ready ==> t.cells[i] == s.cells[i])
  }

  lemma StepIsLater(s: State, e: Event, t: State)
    requires Staffed(s) && Next(s, e, t)
    ensures Later(s, t)
  {
  }

  lemma {:induction false} RunsOn(states: seq<State>, events: seq<Event>, m: nat, n: nat)
    requires IsRun(states, events) && m <= n < |states|
    ensures Later(states[m], states[n])
  {
    hide Enabled, Next, Staffed, Stored;
    if m < n {
      RunsOn(states, events, m, n - 1);
      RunKeeps(states, events, n - 1);
      assert IsStep(states, events, n - 1);
      StepIsLater(states[n - 1], events[n - 1], states[n]);
    }
  }

  /** Once a body has been returned for a key, every later success for it returns the same bytes. */
  lemma SameBytesLater(states: seq<State>, events: seq<Event>, m: nat, n: nat, i: nat, j: nat)
    requires IsRun(states, events) && m <= n < |states| && i < |states[m].cells| && j < |states[n].cells|
    requires states[m].cells[i].ready && states[m].cells[i].data.Some?
    requires states[n].cells[j].ready && states[n].cells[j].data.Some?
    requires states[m].cells[i].key == states[n].cells[j].key
    ensures states[n].cells[j].data == states[m].cells[i].data
  {
    hide Enabled, Next, Inv;
    RunsOn(states, events, m, n);
    OneCell(states, events, n, i, j);
  }

  /** A key that has a body keeps it: asking for it again never fetches and never finds the cache full. */
  lemma BodyStays(states: seq<State>, events: seq<Event>, m: nat, n: nat, i: nat, caller: nat, done: bool)
    requires IsRun(states, events) && m <= n < |states| && i < |states[m].cells|
    requires states[m].cells[i].ready && states[m].cells[i].data.Some?
    ensures AskAnswer(states[n], Ask(caller, states[m].cells[i].key, done)) == if done then Failed(ContextEnded) else Wait(i)
  {
    RunsOn(states, events, m, n);
    RunKeeps(states, events, n);
    assert Current(states[n], i);
  }

  /** What a landing fetch leaves in its cell: the body, if nothing ended or failed and there is room for
      it within 8 MiB; otherwise the one error that goes with it.  Only the end of the context frees the
      key for another try, and only a stored body is counted. */
  lemma LandClaims(s: State, e: Event, t: State)
    requires Inv(s) && e.Land? && Enabled(s, e) && Next(s, e, t)
    ensures
      var i := s.fetching[e.caller];
      && i < |s.cells| && |t.cells| == |s.cells| && t.cells == s.cells[i := t.cells[i]]
      && t.cells[i].ready && t.cells[i].key == s.cells[i].key
      && (t.cells[i].error == Some(ContextEnded) <==> e.done || e.fetched == FetchEnded)
      && (t.cells[i].data != None <==> !e.done && e.fetched.Body? && s.bytes + |e.fetched.data| <= 8388608)
      && (t.cells[i].data != None ==> t.cells[i].data == Some(e.fetched.data) && t.cells[i].error == None)
      && (!e.done && e.fetched.FetchFailed? ==> t.cells[i].error == Some(OtherError(e.fetched.text)))
      && (!e.done && (e.fetched == FetchLimit || (e.fetched.Body? && t.cells[i].data == None)) ==> t.cells[i].error == Some(Limit))
      && t.bytes == s.bytes + (if t.cells[i].data != None then |t.cells[i].data.value| else 0)
      && t.cache == (if e.done || e.fetched == FetchEnded then s.cache - {s.cells[i].key} else s.cache)
      && t.fetching == s.fetching - {e.caller}
  {
    hide Inv;
    FetchingFor(s, e.caller);
  }

  /** The cell a caller is out for. */
  lemma FetchingFor(s: State, caller: nat)
    requires Inv(s) && caller in s.fetching
    ensures s.fetching[caller] < |s.cells| && !s.cells[s.fetching[caller]].ready && s.cells[s.fetching[caller]].data.None?
  {
    assert Current(s, s.fetching[caller]);
  }

  /** Storing a result, or the error that stands in its place, is the landing step. */
  lemma Landed(s: State, caller: nat, fetched: Fetched, done: bool, data: Option<string>, error: Option<Error>, t: State)
    requires Inv(s) && caller in s.fetching && s.fetching[caller] < |s.cells|
    requires error == LandError(s, fetched, done)
    requires data == if error.None? && fetched.Body? then Some(fetched.data) else None
    requires
      var i := s.fetching[caller];
      t == State(s.cells[i := s.cells[i].(ready := true, data := data, error := error)],
                 if error == Some(ContextEnded) then s.cache - {s.cells[i].key} else s.cache,
                 s.bytes + if data.Some? then |data.value| else 0, s.fetching - {caller}, s.closes + [i])
    ensures Next(s, Event.Land(caller, fetched, done), t) && Inv(t)
  {
    hide Inv;
    StepKeeps(s, Event.Land(caller, fetched, done), t);
  }

  // ---------- the client ----------

  class Client {
    var cells: seq<Cell>
    var cache: map<string, nat>
    var cacheBytes: nat
    var fetching: map<nat, nat>
    ghost var closes: seq<nat>

    ghost function View(): State
      reads this
    {
      State(cells, cache, cacheBytes, fetching, closes)
    }

    ghost predicate Valid()
      reads this
    {
      Inv(View())
    }

    constructor ()
      ensures Valid() && View() == EMPTY
    {
      cells, cache, cacheBytes, fetching, closes := [], map[], 0, map[], [];
    }

    /** The part of cachedResponse before the fetch or the wait. */
    method Ask(caller: nat, key: string, done: bool) returns (answer: Answer)
      requires Valid() && caller !in fetching
      modifies this
      ensures Valid() && Next(old(View()), Event.Ask(caller, key, done), View())
      ensures answer == AskAnswer(old(View()), Event.Ask(caller, key, done))
      ensures answer == Failed(ContextEnded) <==> done
      ensures answer == Failed(Limit) <==> !done && key !in old(cache) && |old(cache)| == 100
      ensures answer.Wait? <==> !done && key in old(cache)
      ensures answer.Wait? ==> answer.cell == old(cache)[key]
      ensures answer.Fetch? ==>
        && answer.cell == |old(cells)| && cells == old(cells) + [Cell(key, false, None, None)]
        && cache == old(cache)[key := answer.cell] && fetching == old(fetching)[caller := answer.cell]
      ensures !answer.Fetch? ==> cells == old(cells) && cache == old(cache) && fetching == old(fetching)
      ensures cacheBytes == old(cacheBytes)
    {
      ghost var before := View();
      if done {
        return Failed(ContextEnded);
      }
      if key in cache {
        return Wait(cache[key]);
      }
      if |cache| >= MAX_ENTRIES {
        return Failed(Limit);
      }
      answer := Fetch(|cells|);
      cache := cache[key := |cells|];
      cells := cells + [Cell(key, false, None, None)];
      fetching := fetching[caller := |cells| - 1];
      StepKeeps(before, Event.Ask(caller, key, done), View());
    }

    /** The part after the fetch: the body is stored if nothing is wrong and there is room. */
    method Land(caller: nat, fetched: Fetched, done: bool) returns (data: Option<string>, error: Option<Error>)
      requires Valid() && caller in fetching
      modifies this
      ensures Valid() && Next(old(View()), Event.Land(caller, fetched, done), View())
      ensures
        var i := old(fetching[caller]);
        i < |cells| && data == cells[i].data && error == cells[i].error
      ensures data.Some? <==> error.None?
    {
      hide Inv, Next;
      ghost var before := View();
      FetchingFor(before, caller);
      var i := fetching[caller];
      error := match fetched
               case Body(_) => None
               case FetchEnded => Some(ContextEnded)
               case FetchLimit => Some(Limit)
               case FetchFailed(text) => Some(OtherError(text));
      if done {
        error := Some(ContextEnded);
      }
      if error.None? && |fetched.data| > MAX_BYTES - cacheBytes {
        error := Some(Limit);
      }
      var cell := cells[i];
      data := None;
      if error.None? {
        data := Some(fetched.data);
        cacheBytes := cacheBytes + |fetched.data|;
      }
      cells := cells[i := cell.(ready := true, data := data, error := error)];
      if error == Some(ContextEnded) {
        cache := cache - {cell.key};
      }
      fetching := fetching - {caller};
      closes := closes + [i];
      Landed(before, caller, fetched, done, data, error, View());
    }

    /** A waiting caller: nothing while the cell is not ready, its own cancellation, or the cell's result. */
    method Collect(i: nat, done: bool) returns (data: Option<string>, error: Option<Error>)
      requires Valid() && i < |cells| && (cells[i].ready || done)
      ensures done ==> data.None? && error == Some(ContextEnded)
      ensures !done ==> data == cells[i].data && error == cells[i].error
    {
      if done {
        return None, Some(ContextEnded);
      }
      data, error := cells[i].data, cells[i].error;
    }
  }
}
