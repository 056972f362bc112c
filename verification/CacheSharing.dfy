/** Calls on one connection that interleave at its lock: each call looks its statement up in one
    locked section, executes, and settles its cache entry in another. */
module CacheSharing {
  import opened Bytes
  import opened RecencyList
  import opened Statements
  import opened Wrappers

  datatype Call = QueryCall | ExecuteCall | DmlCall

  /** A call between its two locked sections. */
  datatype Task = Task(call: Call, sql: string, statement: Statement, fromCache: bool)

  /** What the execution of a statement came to. A successful query has been drained and a DML
      answer has no rows, so neither reports more rows. */
  datatype Outcome = Failed | Answered(cursorId: u16, hasMoreRows: bool, columns: seq<string>)

  datatype World = World(cache: seq<Slot>, max: nat, tasks: map<nat, Task>)

  datatype Step =
    | Begin(id: nat, call: Call, sql: string, kind: StatementType)
    | Finish(id: nat, outcome: Outcome)
    | ClearCache

  predicate Initial(w: World) {
    w.cache == [] && w.tasks == map[]
  }

  predicate Enabled(w: World, s: Step) {
    match s
    case Begin(id, _, _, _) => id !in w.tasks
    case Finish(id, outcome) => id in w.tasks && (outcome.Answered? ==> !outcome.hasMoreRows)
    case ClearCache => true
  }

  /** The first locked section: take the cached statement, or make one from the text. */
  function Opened(l: seq<Slot>, max: nat, call: Call, sql: string, kind: StatementType): (seq<Slot>, Task) {
    var (cache, cached) := Get(l, max, sql);
    (cache, match cached
            case Some(s) => Task(call, sql, s, true)
            case None => Task(call, sql, NewStatement(sql, kind), false))
  }

  function Started(w: World, id: nat, call: Call, sql: string, kind: StatementType): World {
    var (cache, task) := Opened(w.cache, w.max, call, sql, kind);
    w.(cache := cache, tasks := w.tasks[id := task])
  }

  /** Whether the finished call closes the cursor of its entry. */
  predicate ClosesCursor(t: Task, hasMoreRows: bool) {
    match t.call
    case QueryCall => !hasMoreRows
    case ExecuteCall => if t.statement.kind == Query then !hasMoreRows else true
    case DmlCall => true
  }

  /** What a call puts into the cache after its first execution. */
  function Prepared(t: Task, cursorId: u16, columns: seq<string>): Statement {
    var s := t.statement.(cursorId := cursorId, executed := true);
    if t.call == QueryCall then s.(columns := columns) else s
  }

  /** The second locked section. */
  function Settled(l: seq<Slot>, max: nat, t: Task, outcome: Outcome): seq<Slot> {
    match outcome
    case Failed => if t.fromCache then CloseCursor(Return(l, t.sql), t.sql) else l
    case Answered(cursorId, hasMoreRows, columns) =>
      if t.fromCache then
        var returned := Return(l, t.sql);
        if ClosesCursor(t, hasMoreRows) then CloseCursor(returned, t.sql) else returned
      else if cursorId > 0 && t.statement.kind != Ddl then
        var stored := Put(l, max, t.sql, Prepared(t, cursorId, columns));
        if ClosesCursor(t, hasMoreRows) then CloseCursor(stored, t.sql) else stored
      else l
  }

  function After(w: World, s: Step): World
    requires Enabled(w, s)
  {
    match s
    case Begin(id, call, sql, kind) => Started(w, id, call, sql, kind)
    case Finish(id, outcome) => w.(cache := Settled(w.cache, w.max, w.tasks[id], outcome), tasks := w.tasks - {id})
    case ClearCache => w.(cache := [])
  }

  /** A run: the worlds between the steps, in order. */
  ghost predicate Run(ws: seq<World>, steps: seq<Step>) {
    && |ws| == |steps| + 1 && Initial(ws[0])
    && forall i | 0 <= i < |steps| :: Enabled(ws[i], steps[i]) && ws[i + 1] == After(ws[i], steps[i])
  }

  // ---- Cached statements never name a cursor -------------------------------------------

  ghost predicate CacheClosed(l: seq<Slot>) {
    forall s | s in l :: s.statement.Closed()
  }

  ghost predicate Sound(w: World) {
    && DistinctKeys(w.cache)
    && CacheClosed(w.cache)
    && forall id | id in w.tasks :: w.tasks[id].statement.Closed()
  }

  lemma GetKeepsClosed(l: seq<Slot>, max: nat, key: string)
    requires DistinctKeys(l) && CacheClosed(l)
    ensures var (after, s) := Get(l, max, key);
      DistinctKeys(after) && CacheClosed(after) && (s.Some? ==> s.value.Closed())
  {
    DistinctAfterGet(l, max, key);
    WithoutKeys(l, Find(l, key));
    if Find(l, key) < |l| {
      assert l[Find(l, key)] in l;
    }
  }

  lemma ReturnKeepsClosed(l: seq<Slot>, key: string)
    requires DistinctKeys(l) && CacheClosed(l)
    ensures DistinctKeys(Return(l, key)) && CacheClosed(Return(l, key))
  {
    if Find(l, key) < |l| {
      assert l[Find(l, key)] in l;
    }
  }

  /** Only the slot of `key` may have an open cursor; closing that one closes them all. */
  lemma ClosingRestores(l: seq<Slot>, key: string)
    requires DistinctKeys(l) && forall s | s in l && s.key != key :: s.statement.Closed()
    requires forall s | s in l :: s.statement.cursorId == 0 ==> s.statement.Closed()
    ensures DistinctKeys(CloseCursor(l, key)) && CacheClosed(CloseCursor(l, key))
  {
    var i, after := Find(l, key), CloseCursor(l, key);
    forall j | 0 <= j < |after|
      ensures after[j].statement.Closed()
    {
      assert l[j] in l;
      FindOnly(l, j, key);
    }
  }

  lemma PutOpensOnly(l: seq<Slot>, max: nat, key: string, s: Statement)
    requires DistinctKeys(l) && CacheClosed(l) && s.cursorId != 0
    ensures var after := Put(l, max, key, s);
      DistinctKeys(after) && (forall t | t in after && t.key != key :: t.statement.Closed())
      && forall t | t in after :: t.statement.cursorId == 0 ==> t.statement.Closed()
  {
    DistinctAfterPut(l, max, key, s);
    WithoutKeys(l, Find(l, key));
    WithoutKeys(l, FirstIdle(l));
  }

  lemma SettledKeepsClosed(l: seq<Slot>, max: nat, t: Task, outcome: Outcome)
    requires DistinctKeys(l) && CacheClosed(l) && (outcome.Answered? ==> !outcome.hasMoreRows)
    ensures DistinctKeys(Settled(l, max, t, outcome)) && CacheClosed(Settled(l, max, t, outcome))
  {
    hide Return, Put, CloseCursor, DistinctKeys;
    ReturnKeepsClosed(l, t.sql);
    ClosingRestores(Return(l, t.sql), t.sql);
    if outcome.Answered? && outcome.cursorId > 0 {
      var s := Prepared(t, outcome.cursorId, outcome.columns);
      PutOpensOnly(l, max, t.sql, s);
      ClosingRestores(Put(l, max, t.sql, s), t.sql);
    }
  }

  lemma StartKeepsSound(w: World, id: nat, call: Call, sql: string, kind: StatementType)
    requires Sound(w)
    ensures Sound(Started(w, id, call, sql, kind))
  {
    hide Get, DistinctKeys, CacheClosed;
    GetKeepsClosed(w.cache, w.max, sql);
    var (cache, cached) := Get(w.cache, w.max, sql);
    assert Started(w, id, call, sql, kind).cache == cache;
  }

  lemma StepKeepsSound(w: World, s: Step)
    requires Sound(w) && Enabled(w, s)
    ensures Sound(After(w, s))
  {
    hide Get, DistinctKeys, CacheClosed, Settled, Started;
    match s {
      case Begin(id, call, sql, kind) =>
        StartKeepsSound(w, id, call, sql, kind);
      case Finish(id, outcome) =>
        SettledKeepsClosed(w.cache, w.max, w.tasks[id], outcome);
      case ClearCache =>
        NothingCached();
    }
  }

  lemma NothingCached()
    ensures DistinctKeys([]) && CacheClosed([])
  {
  }

  /** In every interleaving, whenever the lock is free, no cached entry and no statement that a
      call holds has a server cursor. */
  lemma {:induction false} AlwaysSound(ws: seq<World>, steps: seq<Step>, i: nat)
    requires Run(ws, steps) && i < |ws|
    ensures Sound(ws[i])
  {
    if i > 0 {
      AlwaysSound(ws, steps, i - 1);
      hide Sound, After;
      StepKeepsSound(ws[i - 1], steps[i - 1]);
    }
  }

  /** Hence every statement that a call executes, from the cache or not, is sent as a full
      request: text and parse, no cursor. The cache never saves a parse. */
  lemma EveryRequestIsFromScratch(ws: seq<World>, steps: seq<Step>, i: nat, id: nat, o: ExecuteOptions)
    requires Run(ws, steps) && i < |ws| && id in ws[i].tasks
    ensures var s := ws[i].tasks[id].statement; FromScratch(RequestFor(s, o), s.sql)
  {
    hide Run, FromScratch, RequestFor;
    AlwaysSound(ws, steps, i);
    FromScratchExactly(ws[i].tasks[id].statement, o);
  }

  // ---- How large the cache gets --------------------------------------------------------

  /** Every slot in use is held by a call that got its statement from the cache. */
  ghost predicate Held(w: World) {
    forall s | s in w.cache && s.inUse :: exists id ::
      id in w.tasks && w.tasks[id].fromCache && w.tasks[id].sql == s.key
  }

  ghost predicate Tracked(w: World) {
    DistinctKeys(w.cache) && Held(w)
  }

  function KeysInUse(l: seq<Slot>): set<string> {
    set s | s in l && s.inUse :: s.key
  }

  function Holders(tasks: map<nat, Task>): set<nat> {
    set id | id in tasks && tasks[id].fromCache
  }

  function SqlOf(tasks: map<nat, Task>, ids: set<nat>): set<string>
    requires ids <= tasks.Keys
  {
    set id | id in ids :: tasks[id].sql
  }

  lemma {:induction false} ImageIsNoLarger(tasks: map<nat, Task>, ids: set<nat>)
    requires ids <= tasks.Keys
    ensures |SqlOf(tasks, ids)| <= |ids|
  {
    if ids != {} {
      var id :| id in ids;
      ImageIsNoLarger(tasks, ids - {id});
      assert SqlOf(tasks, ids) == SqlOf(tasks, ids - {id}) + {tasks[id].sql};
    }
  }

  lemma SubsetIsNoLarger<T>(a: set<T>, b: set<T>)
    requires a <= b
    ensures |a| <= |b|
  {
    assert b == a + (b - a);
  }

  /** A list with distinct keys, all in use, is as long as its set of keys. */
  lemma {:induction false} AllInUseCount(l: seq<Slot>)
    requires DistinctKeys(l) && forall s | s in l :: s.inUse
    ensures |KeysInUse(l)| == |l|
  {
    if l != [] {
      AllInUseCount(l[1..]);
      assert l == [l[0]] + l[1..];
      assert KeysInUse(l) == {l[0].key} + KeysInUse(l[1..]);
    }
  }

  /** A fully used cache is no larger than the number of calls that hold its slots. */
  lemma FullyUsedIsHeld(w: World)
    requires Tracked(w) && forall s | s in w.cache :: s.inUse
    ensures |w.cache| <= |Holders(w.tasks)|
  {
    AllInUseCount(w.cache);
    SubsetIsNoLarger(KeysInUse(w.cache), SqlOf(w.tasks, Holders(w.tasks)));
    ImageIsNoLarger(w.tasks, Holders(w.tasks));
  }

  lemma GetKeepsHeld(w: World, id: nat, call: Call, sql: string, kind: StatementType)
    requires Tracked(w) && id !in w.tasks
    ensures Tracked(Started(w, id, call, sql, kind)) && |Started(w, id, call, sql, kind).cache| == |w.cache|
  {
    var v := Started(w, id, call, sql, kind);
    var i := Find(w.cache, sql);
    DistinctAfterGet(w.cache, w.max, sql);
    WithoutKeys(w.cache, i);
    forall s | s in v.cache && s.inUse
      ensures exists h :: h in v.tasks && v.tasks[h].fromCache && v.tasks[h].sql == s.key
    {
      if s in w.cache && s.inUse {
        var h :| h in w.tasks && w.tasks[h].fromCache && w.tasks[h].sql == s.key;
        assert v.tasks[h] == w.tasks[h];
      } else {
        assert i < |w.cache| && s == w.cache[i].(inUse := true) && !w.cache[i].inUse;
        assert v.tasks[id].fromCache;
      }
    }
  }

  /** After its second section a call holds nothing: its key is idle or gone, and every other
      slot in use was in use before. */
  lemma SettledInUse(l: seq<Slot>, max: nat, t: Task, outcome: Outcome)
    requires DistinctKeys(l)
    ensures DistinctKeys(Settled(l, max, t, outcome))
    ensures forall s | s in Settled(l, max, t, outcome) && s.inUse ::
      (t.fromCache ==> s.key != t.sql) && exists s' :: s' in l && s'.inUse && s'.key == s.key
  {
    hide Return, Put, CloseCursor, DistinctKeys;
    var s := if outcome.Answered? then Prepared(t, outcome.cursorId, outcome.columns) else t.statement;
    ReturnInUse(l, t.sql);
    CloseInUse(Return(l, t.sql), t.sql);
    PutInUse(l, max, t.sql, s);
    CloseInUse(Put(l, max, t.sql, s), t.sql);
  }

  ghost predicate InUseWithin(after: seq<Slot>, before: seq<Slot>) {
    forall s | s in after && s.inUse :: exists s' :: s' in before && s'.inUse && s'.key == s.key
  }

  lemma ReturnInUse(l: seq<Slot>, key: string)
    requires DistinctKeys(l)
    ensures DistinctKeys(Return(l, key)) && InUseWithin(Return(l, key), l) && |Return(l, key)| == |l|
    ensures forall s | s in Return(l, key) && s.inUse :: s.key != key
  {
    var i, after := Find(l, key), Return(l, key);
    forall s | s in after && s.inUse
      ensures s.key != key && s in l
    {
      var j :| 0 <= j < |after| && after[j] == s;
      FindOnly(l, j, key);
    }
  }

  lemma CloseInUse(l: seq<Slot>, key: string)
    requires DistinctKeys(l)
    ensures DistinctKeys(CloseCursor(l, key)) && InUseWithin(CloseCursor(l, key), l)
    ensures |CloseCursor(l, key)| == |l|
  {
    var after := CloseCursor(l, key);
    forall s | s in after && s.inUse
      ensures exists s' :: s' in l && s'.inUse && s'.key == s.key
    {
      var j :| 0 <= j < |after| && after[j] == s;
      assert l[j] in l && l[j].inUse && l[j].key == s.key;
    }
  }

  lemma PutInUse(l: seq<Slot>, max: nat, key: string, st: Statement)
    requires DistinctKeys(l)
    ensures DistinctKeys(Put(l, max, key, st)) && InUseWithin(Put(l, max, key, st), l)
    ensures |Put(l, max, key, st)| <= |l| || |l| < max || forall s | s in l :: s.inUse
    ensures |Put(l, max, key, st)| <= |l| + 1
  {
    DistinctAfterPut(l, max, key, st);
    WithoutKeys(l, Find(l, key));
    WithoutKeys(l, FirstIdle(l));
  }

  /** A settling call makes the cache larger only if there is room, or if it was not served
      from the cache and every slot is in use. */
  lemma SettledGrowth(l: seq<Slot>, max: nat, t: Task, outcome: Outcome)
    requires DistinctKeys(l)
    ensures var after := Settled(l, max, t, outcome);
      |after| <= |l| || (|after| <= |l| + 1
                         && (|l| < max || (!t.fromCache && forall s | s in l :: s.inUse)))
  {
    hide Return, Put, CloseCursor, DistinctKeys;
    var s := if outcome.Answered? then Prepared(t, outcome.cursorId, outcome.columns) else t.statement;
    ReturnInUse(l, t.sql);
    CloseInUse(Return(l, t.sql), t.sql);
    PutInUse(l, max, t.sql, s);
    CloseInUse(Put(l, max, t.sql, s), t.sql);
  }

  lemma FinishKeepsTracked(w: World, id: nat, outcome: Outcome)
    requires Tracked(w) && Enabled(w, Finish(id, outcome))
    ensures Tracked(After(w, Finish(id, outcome)))
  {
    hide Settled, DistinctKeys;
    var v, t := After(w, Finish(id, outcome)), w.tasks[id];
    SettledInUse(w.cache, w.max, t, outcome);
    forall s | s in v.cache && s.inUse
      ensures exists h :: h in v.tasks && v.tasks[h].fromCache && v.tasks[h].sql == s.key
    {
      var s' :| s' in w.cache && s'.inUse && s'.key == s.key;
      var h :| h in w.tasks && w.tasks[h].fromCache && w.tasks[h].sql == s'.key;
      assert h in v.tasks && v.tasks[h] == w.tasks[h];
    }
  }

  lemma FinishSize(w: World, id: nat, outcome: Outcome)
    requires Tracked(w) && Enabled(w, Finish(id, outcome))
    ensures |After(w, Finish(id, outcome)).cache| <= Max(|w.cache|, Max(w.max, |w.tasks|))
  {
    hide Settled, DistinctKeys, Held;
    var t := w.tasks[id];
    SettledGrowth(w.cache, w.max, t, outcome);
    if !t.fromCache && forall s | s in w.cache :: s.inUse {
      FullyUsedIsHeld(w);
      SubsetIsNoLarger(Holders(w.tasks), w.tasks.Keys - {id});
      assert |w.tasks.Keys - {id}| == |w.tasks| - 1;
    }
  }

  lemma StepKeepsTracked(w: World, s: Step)
    requires Tracked(w) && Enabled(w, s)
    ensures Tracked(After(w, s)) && After(w, s).max == w.max
    ensures |After(w, s).cache| <= Max(|w.cache|, Max(w.max, |w.tasks|))
  {
    hide Tracked, Settled, Get;
    match s {
      case Begin(id, call, sql, kind) => GetKeepsHeld(w, id, call, sql, kind);
      case Finish(id, outcome) =>
        FinishKeepsTracked(w, id, outcome);
        FinishSize(w, id, outcome);
      case ClearCache => EmptyIsTracked(w.(cache := []));
    }
  }

  lemma EmptyIsTracked(w: World)
    requires w.cache == []
    ensures Tracked(w)
  {
  }

  /** The largest number of calls in progress at once. */
  function Peak(ws: seq<World>): nat {
    if ws == [] then 0 else Max(Peak(ws[..|ws| - 1]), |ws[|ws| - 1].tasks|)
  }

  /** Over every run the cache holds no more statements than its size or the largest number
      of calls that were in progress at once, whichever is more. */
  lemma {:induction false} CacheSizeBound(ws: seq<World>, steps: seq<Step>, i: nat)
    requires Run(ws, steps) && i < |ws|
    ensures ws[i].max == ws[0].max && Tracked(ws[i])
    ensures |ws[i].cache| <= Max(ws[0].max, Peak(ws[..i]))
  {
    hide Tracked, After;
    if i == 0 {
      EmptyIsTracked(ws[0]);
    } else {
      CacheSizeBound(ws, steps, i - 1);
      StepKeepsTracked(ws[i - 1], steps[i - 1]);
      assert ws[..i][..i - 1] == ws[..i - 1];
    }
  }

  /** The largest number of entries in use at once. */
  function PeakInUse(ws: seq<World>): nat {
    if ws == [] then 0 else Max(PeakInUse(ws[..|ws| - 1]), |KeysInUse(ws[|ws| - 1].cache)|)
  }

  lemma FinishSizeInUse(w: World, id: nat, outcome: Outcome)
    requires DistinctKeys(w.cache) && Enabled(w, Finish(id, outcome))
    ensures |After(w, Finish(id, outcome)).cache| <= Max(|w.cache|, Max(w.max, |KeysInUse(w.cache)| + 1))
  {
    hide Settled, DistinctKeys, KeysInUse;
    SettledGrowth(w.cache, w.max, w.tasks[id], outcome);
    if forall s | s in w.cache :: s.inUse {
      AllInUseCount(w.cache);
    }
  }

  lemma StepSizeInUse(w: World, s: Step)
    requires Tracked(w) && Enabled(w, s)
    ensures |After(w, s).cache| <= Max(|w.cache|, Max(w.max, |KeysInUse(w.cache)| + 1))
  {
    hide Settled, Get, KeysInUse;
    match s {
      case Begin(id, call, sql, kind) => GetKeepsHeld(w, id, call, sql, kind);
      case Finish(id, outcome) => FinishSizeInUse(w, id, outcome);
      case ClearCache =>
    }
  }

  /** The sharper bound: over every run the cache holds no more statements than its size, or one
      more than the largest number of entries that were in use at once. */
  lemma {:induction false} CacheSizeBoundInUse(ws: seq<World>, steps: seq<Step>, i: nat)
    requires Run(ws, steps) && i < |ws|
    ensures |ws[i].cache| <= Max(ws[0].max, 1 + PeakInUse(ws[..i]))
  {
    hide Tracked, After, KeysInUse;
    if i > 0 {
      CacheSizeBoundInUse(ws, steps, i - 1);
      CacheSizeBound(ws, steps, i - 1);
      StepSizeInUse(ws[i - 1], steps[i - 1]);
      assert ws[..i][..i - 1] == ws[..i - 1];
    }
  }

  /** Calls made one after the other keep the cache within its size. */
  lemma SequentialCallsStayWithinSize(ws: seq<World>, steps: seq<Step>, i: nat)
    requires Run(ws, steps) && i < |ws| && ws[0].max > 0
    requires forall j | 0 <= j < |ws| :: |ws[j].tasks| <= 1
    ensures |ws[i].cache| <= ws[0].max
  {
    hide Run;
    CacheSizeBound(ws, steps, i);
    PeakBelow(ws[..i], 1);
  }

  lemma {:induction false} PeakBelow(ws: seq<World>, n: nat)
    requires forall w | w in ws :: |w.tasks| <= n
    ensures Peak(ws) <= n
  {
    if ws != [] {
      PeakBelow(ws[..|ws| - 1], n);
      assert ws[|ws| - 1] in ws;
    }
  }

  // ---- What concurrent calls can do to the cache ---------------------------------------

  const A := NewStatement("a", Query)
  const B := NewStatement("b", Query)
  const DONE := Answered(7, false, [])

  function Running(s: Statement, fromCache: bool): Task {
    Task(QueryCall, s.sql, s, fromCache)
  }

  const EMPTY := World([], 1, map[])
  const FIRST_CALL := World([], 1, map[0 := Running(A, false)])
  const CACHED := World([Slot("a", A, false)], 1, map[])
  const TAKEN := World([Slot("a", A, true)], 1, map[1 := Running(A, true)])
  const TAKEN_AND_B := World([Slot("a", A, true)], 1, map[1 := Running(A, true), 2 := Running(B, false)])
  const TOO_LARGE := World([Slot("a", A, true), Slot("b", B, false)], 1, map[1 := Running(A, true)])
  const TAKEN_AND_A := World([Slot("a", A, true)], 1, map[1 := Running(A, true), 2 := Running(A, false)])
  const FREED := World([Slot("a", A, false)], 1, map[1 := Running(A, true)])
  const SHARED := World([Slot("a", A, true)], 1, map[1 := Running(A, true), 3 := Running(A, true)])

  lemma FirstSteps()
    ensures After(EMPTY, Begin(0, QueryCall, "a", Query)) == FIRST_CALL
    ensures After(FIRST_CALL, Finish(0, DONE)) == CACHED
  {
  }

  lemma TakeStep()
    ensures After(CACHED, Begin(1, QueryCall, "a", Query)) == TAKEN
  {
  }

  lemma StepsOfB()
    ensures After(TAKEN, Begin(2, QueryCall, "b", Query)) == TAKEN_AND_B
    ensures After(TAKEN_AND_B, Finish(2, DONE)) == TOO_LARGE
  {
    assert TAKEN.cache[1..] == [];
  }

  lemma StepsOfA()
    ensures After(TAKEN, Begin(2, QueryCall, "a", Query)) == TAKEN_AND_A
    ensures After(TAKEN_AND_A, Finish(2, DONE)) == FREED
    ensures After(FREED, Begin(3, QueryCall, "a", Query)) == SHARED
  {
  }

  /** Two calls at once can push a cache of size one to two entries. */
  lemma CacheCanExceedItsSize() returns (ws: seq<World>, steps: seq<Step>)
    ensures Run(ws, steps) && ws[0].max == 1
    ensures |ws[|steps|].cache| == 2 && |ws[|steps| - 1].tasks| == 2
  {
    hide After;
    FirstSteps();
    TakeStep();
    StepsOfB();
    ws := [EMPTY, FIRST_CALL, CACHED, TAKEN, TAKEN_AND_B, TOO_LARGE];
    steps := [Begin(0, QueryCall, "a", Query), Finish(0, DONE), Begin(1, QueryCall, "a", Query),
              Begin(2, QueryCall, "b", Query), Finish(2, DONE)];
  }

  /** Two calls hold the same cached statement. */
  predicate Shares(w: World, i: nat, j: nat) {
    i != j && i in w.tasks && j in w.tasks && w.tasks[i].fromCache && w.tasks[i] == w.tasks[j]
  }

  /** A call that was refused the entry frees it when it settles, and a third call is then
      served the statement that the first still holds. */
  lemma EntryCanBeShared() returns (ws: seq<World>, steps: seq<Step>)
    ensures Run(ws, steps) && Shares(ws[|steps|], 1, 3)
  {
    hide After;
    FirstSteps();
    TakeStep();
    StepsOfA();
    ws := [EMPTY, FIRST_CALL, CACHED, TAKEN, TAKEN_AND_A, FREED, SHARED];
    steps := [Begin(0, QueryCall, "a", Query), Finish(0, DONE), Begin(1, QueryCall, "a", Query),
              Begin(2, QueryCall, "a", Query), Finish(2, DONE), Begin(3, QueryCall, "a", Query)];
  }
}

/** The locked sections of the three kinds of call as they are written, on the stored cache. */
module CachedCalls {
  import opened CacheSharing
  import Draining
  import QueryResponses
  import RecencyList
  import opened StatementCaches
  import opened Statements
  import opened Wrappers

  method BeginCall(cache: StatementCache, call: Call, sql: string, kind: StatementType) returns (task: Task)
    requires cache.Valid()
    modifies cache
    ensures cache.Valid()
    ensures (cache.Contents(), task) == Opened(old(cache.Contents()), cache.maxSize, call, sql, kind)
  {
    var cached := cache.Get(sql);
    if cached.Some? {
      task := Task(call, sql, cached.value, true);
    } else {
      task := Task(call, sql, NewStatement(sql, kind), false);
    }
  }

  /** The end of `query`. */
  method SettleQuery(cache: StatementCache, task: Task, outcome: Outcome)
    requires cache.Valid() && task.call == QueryCall
    modifies cache
    ensures cache.Valid()
    ensures cache.Contents() == Settled(old(cache.Contents()), cache.maxSize, task, outcome)
  {
    hide RecencyList.Return, RecencyList.CloseCursor, RecencyList.Put;
    match outcome {
      case Answered(cursorId, hasMoreRows, columns) =>
        if task.fromCache {
          cache.ReturnStatement(task.sql);
          if !hasMoreRows {
            cache.MarkCursorClosed(task.sql);
          }
        } else if cursorId > 0 && task.statement.kind != Ddl {
          var stored := task.statement;
          stored := stored.(cursorId := cursorId);
          stored := stored.(executed := true);
          stored := stored.(columns := columns);
          cache.Put(task.sql, stored);
          if !hasMoreRows {
            cache.MarkCursorClosed(task.sql);
          }
        }
      case Failed =>
        if task.fromCache {
          cache.ReturnStatement(task.sql);
          cache.MarkCursorClosed(task.sql);
        }
    }
  }

  /** The end of `execute`. */
  method SettleExecute(cache: StatementCache, task: Task, outcome: Outcome)
    requires cache.Valid() && task.call == ExecuteCall
    modifies cache
    ensures cache.Valid()
    ensures cache.Contents() == Settled(old(cache.Contents()), cache.maxSize, task, outcome)
  {
    hide RecencyList.Return, RecencyList.CloseCursor, RecencyList.Put;
    match outcome {
      case Answered(cursorId, hasMoreRows, _) =>
        var shouldClose := if task.statement.kind == Query then !hasMoreRows else true;
        if task.fromCache {
          cache.ReturnStatement(task.sql);
          if shouldClose {
            cache.MarkCursorClosed(task.sql);
          }
        } else if cursorId > 0 && task.statement.kind != Ddl {
          cache.Put(task.sql, task.statement.(cursorId := cursorId, executed := true));
          if shouldClose {
            cache.MarkCursorClosed(task.sql);
          }
        }
      case Failed =>
        if task.fromCache {
          cache.ReturnStatement(task.sql);
          cache.MarkCursorClosed(task.sql);
        }
    }
  }

  /** The end of `execute_dml_sql`. */
  method SettleDml(cache: StatementCache, task: Task, outcome: Outcome)
    requires cache.Valid() && task.call == DmlCall
    modifies cache
    ensures cache.Valid()
    ensures cache.Contents() == Settled(old(cache.Contents()), cache.maxSize, task, outcome)
  {
    hide RecencyList.Return, RecencyList.CloseCursor, RecencyList.Put;
    match outcome {
      case Answered(cursorId, _, _) =>
        if task.fromCache {
          cache.ReturnStatement(task.sql);
          cache.MarkCursorClosed(task.sql);
        } else if cursorId > 0 && task.statement.kind != Ddl {
          cache.Put(task.sql, task.statement.(cursorId := cursorId, executed := true));
          cache.MarkCursorClosed(task.sql);
        }
      case Failed =>
        if task.fromCache {
          cache.ReturnStatement(task.sql);
          cache.MarkCursorClosed(task.sql);
        }
    }
  }

  /** The cache holds one entry for each text and none of them has a cursor. */
  ghost predicate NoCursors(cache: StatementCache)
    reads cache
  {
    RecencyList.DistinctKeys(cache.Contents()) && CacheClosed(cache.Contents())
  }

  /** `query` from its answer on: the rest of the rows is fetched and the cache settled. Whatever
      the answer and the fetches come to, the outcome is one that the interleaving model admits,
      and no cached statement is left with a cursor. */
  method FinishQuery<V(!new)>(cache: StatementCache, task: Task, cursor: Draining.ServerCursor<V>, fetchSize: nat,
                              reply: Result<QueryResponses.QueryAnswer<string, V>, Draining.FetchError>)
    returns (r: Result<QueryResponses.QueryAnswer<string, V>, Draining.FetchError>, outcome: Outcome)
    requires cache.Valid() && task.call == QueryCall && cursor.Valid() && fetchSize > 0
    modifies cache, cursor
    ensures cache.Valid()
    ensures cache.Contents() == Settled(old(cache.Contents()), cache.maxSize, task, outcome)
    ensures outcome.Answered? ==> !outcome.hasMoreRows
    ensures r.Success? <==> outcome.Answered?
    ensures r.Success? ==> reply.Success? && outcome.columns == r.value.columns
    ensures r.Success? ==>
      r.value.columns == if task.fromCache && reply.value.columns == [] then task.statement.columns else reply.value.columns
    ensures r.Success? ==>
      (r.value.rows == reply.value.rows + old(cursor.rows) <==>
        Draining.MustFetch(reply.value, fetchSize) || old(cursor.rows) == [])
    ensures old(NoCursors(cache)) ==> NoCursors(cache)
  {
    hide Settled, CacheClosed, RecencyList.DistinctKeys, Draining.Faithful;
    r := reply;
    if reply.Success? {
      r := Draining.FetchRemaining(reply.value, cursor, fetchSize);
    }
    if r.Success? {
      var columns := r.value.columns;
      if task.fromCache && columns == [] && task.statement.columns != [] {
        columns := task.statement.columns;
        r := Success(r.value.(columns := columns));
      }
      outcome := Answered(r.value.cursorId, r.value.hasMoreRows, columns);
    } else {
      outcome := Failed;
    }
    ghost var before := cache.Contents();
    SettleQuery(cache, task, outcome);
    if RecencyList.DistinctKeys(before) && CacheClosed(before) {
      SettledKeepsClosed(before, cache.maxSize, task, outcome);
    }
  }
}
