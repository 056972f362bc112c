/** Whether a cached statement is checked out to one call at a time: when that holds in a run of
    interleaved calls, and the one step that ends it. */
module CheckOut {
  import opened CacheSharing
  import opened RecencyList
  import opened Statements

  /** The call took its statement from the cache and has not settled yet. */
  predicate Holds(w: World, id: nat, sql: string) {
    id in w.tasks && w.tasks[id].fromCache && w.tasks[id].sql == sql
  }

  predicate IsHeld(w: World, sql: string) {
    exists id :: id in w.tasks && Holds(w, id, sql)
  }

  /** No two calls hold one text, and whatever is held is marked as in use. */
  ghost predicate Guarded(w: World) {
    && DistinctKeys(w.cache)
    && (forall i, j | i in w.tasks && j in w.tasks && Holds(w, i, w.tasks[j].sql) && w.tasks[j].fromCache :: i == j)
    && forall s | s in w.cache && IsHeld(w, s.key) :: s.inUse
  }

  /** A call that was not served from the cache stores its statement: the put goes through. */
  predicate Stores(t: Task, max: nat, outcome: Outcome) {
    !t.fromCache && outcome.Answered? && outcome.cursorId > 0 && t.statement.kind != Ddl && max > 0
  }

  /** It does so under a text that another call holds. The put finds the entry in use and writes
      an idle one over it. */
  predicate StoresHeld(w: World, s: Step)
    requires Enabled(w, s)
  {
    s.Finish? && Stores(w.tasks[s.id], w.max, s.outcome) && IsHeld(w, w.tasks[s.id].sql)
  }

  // ---- What settling does to the slots -------------------------------------------------

  ghost predicate Kept(s: Slot, before: seq<Slot>) {
    exists s' :: s' in before && s'.key == s.key && s'.inUse == s.inUse
  }

  ghost predicate OthersKept(after: seq<Slot>, before: seq<Slot>, key: string) {
    forall s | s in after && s.key != key :: Kept(s, before)
  }

  ghost predicate AllKept(after: seq<Slot>, before: seq<Slot>) {
    forall s | s in after :: Kept(s, before)
  }

  ghost predicate HasIdle(l: seq<Slot>, key: string) {
    exists s :: s in l && s.key == key && !s.inUse
  }

  lemma ReturnKeepsOthers(l: seq<Slot>, key: string)
    requires DistinctKeys(l)
    ensures DistinctKeys(Return(l, key)) && OthersKept(Return(l, key), l, key)
  {
    ReturnInUse(l, key);
    var after := Return(l, key);
    forall s | s in after && s.key != key
      ensures Kept(s, l)
    {
      var j :| 0 <= j < |after| && after[j] == s;
      assert l[j] == s;
    }
  }

  lemma ClosingKeepsAll(l: seq<Slot>, key: string)
    ensures AllKept(CloseCursor(l, key), l)
    ensures HasIdle(l, key) ==> HasIdle(CloseCursor(l, key), key)
  {
    var after := CloseCursor(l, key);
    forall s | s in after
      ensures Kept(s, l)
    {
      var j :| 0 <= j < |after| && after[j] == s;
      assert l[j] in l;
    }
    if HasIdle(l, key) {
      var j :| 0 <= j < |l| && l[j].key == key && !l[j].inUse;
      assert after[j] in after;
    }
  }

  lemma PutKeepsOthers(l: seq<Slot>, max: nat, key: string, st: Statement)
    requires DistinctKeys(l)
    ensures DistinctKeys(Put(l, max, key, st)) && OthersKept(Put(l, max, key, st), l, key)
    ensures max > 0 && Cacheable(st) ==> HasIdle(Put(l, max, key, st), key)
    ensures max == 0 ==> Put(l, max, key, st) == l
  {
    DistinctAfterPut(l, max, key, st);
    WithoutKeys(l, Find(l, key));
    WithoutKeys(l, FirstIdle(l));
  }

  /** A settling call leaves every slot of another text as it was. If it stores its statement
      there is an idle slot of its text afterwards; if it came with nothing from the cache and
      stores nothing, its own slot is left alone too. */
  lemma SettledSlots(l: seq<Slot>, max: nat, t: Task, outcome: Outcome)
    requires DistinctKeys(l)
    ensures OthersKept(Settled(l, max, t, outcome), l, t.sql)
    ensures Stores(t, max, outcome) ==> HasIdle(Settled(l, max, t, outcome), t.sql)
    ensures !t.fromCache && !Stores(t, max, outcome) ==> AllKept(Settled(l, max, t, outcome), l)
  {
    hide Return, Put, CloseCursor, DistinctKeys;
    var s := if outcome.Answered? then Prepared(t, outcome.cursorId, outcome.columns) else t.statement;
    ReturnKeepsOthers(l, t.sql);
    ClosingKeepsAll(Return(l, t.sql), t.sql);
    PutKeepsOthers(l, max, t.sql, s);
    ClosingKeepsAll(Put(l, max, t.sql, s), t.sql);
  }

  // ---- One step ------------------------------------------------------------------------

  lemma BeginKeepsGuarded(w: World, id: nat, call: Call, sql: string, kind: StatementType)
    requires Guarded(w) && id !in w.tasks
    ensures Guarded(Started(w, id, call, sql, kind))
  {
    var v := Started(w, id, call, sql, kind);
    var i := Find(w.cache, sql);
    DistinctAfterGet(w.cache, w.max, sql);
    WithoutKeys(w.cache, i);
    OthersHoldAsBefore(w, id, call, sql, kind);
    if v.tasks[id].fromCache {
      assert w.cache[i] in w.cache;
      assert !IsHeld(w, sql);
    }
  }

  lemma OthersHoldAsBefore(w: World, id: nat, call: Call, sql: string, kind: StatementType)
    requires id !in w.tasks
    ensures var v := Started(w, id, call, sql, kind);
      && (forall j, text | j != id :: Holds(v, j, text) <==> Holds(w, j, text))
      && (forall text | IsHeld(v, text) :: IsHeld(w, text) || (v.tasks[id].fromCache && text == sql))
  {
  }

  lemma FinishKeepsGuarded(w: World, id: nat, outcome: Outcome)
    requires Guarded(w) && Enabled(w, Finish(id, outcome)) && !StoresHeld(w, Finish(id, outcome))
    ensures Guarded(After(w, Finish(id, outcome)))
  {
    hide Settled, DistinctKeys;
    var v, t := After(w, Finish(id, outcome)), w.tasks[id];
    SettledInUse(w.cache, w.max, t, outcome);
    SettledSlots(w.cache, w.max, t, outcome);
    forall s | s in v.cache && IsHeld(v, s.key)
      ensures s.inUse
    {
      var h :| h in v.tasks && Holds(v, h, s.key);
      assert Holds(w, h, s.key) && IsHeld(w, s.key);
      assert Kept(s, w.cache);
    }
  }

  lemma StoringEndsGuard(w: World, s: Step)
    requires Guarded(w) && Enabled(w, s) && StoresHeld(w, s)
    ensures var v, sql := After(w, s), w.tasks[s.id].sql;
      IsHeld(v, sql) && HasIdle(v.cache, sql) && DistinctKeys(v.cache) && !Guarded(v)
  {
    hide Settled, DistinctKeys;
    var v, t := After(w, s), w.tasks[s.id];
    SettledInUse(w.cache, w.max, t, s.outcome);
    SettledSlots(w.cache, w.max, t, s.outcome);
    var h :| h in w.tasks && Holds(w, h, t.sql);
    assert h in v.tasks && Holds(v, h, t.sql);
  }

  /** A step from a guarded world leads to a guarded world exactly if it does not store a
      statement under a text that another call holds. */
  lemma StepKeepsGuarded(w: World, s: Step)
    requires Guarded(w) && Enabled(w, s)
    ensures Guarded(After(w, s)) <==> !StoresHeld(w, s)
  {
    hide Guarded, Settled, Started, Stores, IsHeld;
    match s {
      case Begin(id, call, sql, kind) => BeginKeepsGuarded(w, id, call, sql, kind);
      case Finish(id, outcome) =>
        if StoresHeld(w, s) {
          StoringEndsGuard(w, s);
        } else {
          FinishKeepsGuarded(w, id, outcome);
        }
      case ClearCache => ClearedIsGuarded(w);
    }
  }

  lemma ClearedIsGuarded(w: World)
    requires Guarded(w)
    ensures Guarded(w.(cache := []))
  {
    assert forall id, text :: Holds(w.(cache := []), id, text) == Holds(w, id, text);
  }

  lemma InitialIsGuarded(w: World)
    requires Initial(w)
    ensures Guarded(w)
  {
  }

  // ---- Runs ----------------------------------------------------------------------------

  /** A run has been guarded all along, up to world `i`, exactly if none of the steps before
      stored a statement under a text that another call held. */
  lemma {:induction false} GuardedExactly(ws: seq<World>, steps: seq<Step>, i: nat)
    requires Run(ws, steps) && i < |ws|
    ensures (forall j | 0 <= j <= i :: Guarded(ws[j])) <==> (forall j | 0 <= j < i :: !StoresHeld(ws[j], steps[j]))
  {
    hide Guarded, StoresHeld, After;
    if i == 0 {
      InitialIsGuarded(ws[0]);
    } else {
      GuardedExactly(ws, steps, i - 1);
      assert (forall j | 0 <= j <= i :: Guarded(ws[j])) <==>
        (forall j | 0 <= j <= i - 1 :: Guarded(ws[j])) && Guarded(ws[i]);
      assert (forall j | 0 <= j < i :: !StoresHeld(ws[j], steps[j])) <==>
        (forall j | 0 <= j < i - 1 :: !StoresHeld(ws[j], steps[j])) && !StoresHeld(ws[i - 1], steps[i - 1]);
      if Guarded(ws[i - 1]) {
        StepKeepsGuarded(ws[i - 1], steps[i - 1]);
      }
    }
  }

  /** In a run without such a step a statement is checked out to one call at a time. */
  lemma CheckedOutOnce(ws: seq<World>, steps: seq<Step>, i: nat, a: nat, b: nat, sql: string)
    requires Run(ws, steps) && i < |ws| && forall j | 0 <= j < i :: !StoresHeld(ws[j], steps[j])
    requires Holds(ws[i], a, sql) && Holds(ws[i], b, sql)
    ensures a == b
  {
    hide StoresHeld, Run;
    GuardedExactly(ws, steps, i);
    assert Guarded(ws[i]);
  }

  /** After such a step the next call with that text is served the entry while another call still
      holds it, whatever its kind. */
  lemma ThenTwoHold(w: World, s: Step, id: nat, call: Call, kind: StatementType) returns (other: nat)
    requires Guarded(w) && Enabled(w, s) && StoresHeld(w, s) && id !in After(w, s).tasks
    ensures var sql := w.tasks[s.id].sql;
      var v := After(After(w, s), Begin(id, call, sql, kind));
      other != id && Holds(v, other, sql) && Holds(v, id, sql)
  {
    hide Guarded, Settled, Stores;
    var u, sql := After(w, s), w.tasks[s.id].sql;
    StoringEndsGuard(w, s);
    other :| other in u.tasks && Holds(u, other, sql);
    StoringNeedsRoom(w, s);
    IdleIsServed(u, id, call, sql, kind);
    OthersHoldAsBefore(u, id, call, sql, kind);
  }

  /** So every run whose last step is the first of that kind goes on to one in which two calls
      hold one entry. */
  lemma RunToTwoHolders(ws: seq<World>, steps: seq<Step>, id: nat, call: Call, kind: StatementType)
    returns (next: World, begin: Step, other: nat)
    requires Run(ws, steps) && steps != []
    requires forall j | 0 <= j < |steps| - 1 :: !StoresHeld(ws[j], steps[j])
    requires StoresHeld(ws[|steps| - 1], steps[|steps| - 1]) && id !in ws[|steps|].tasks
    ensures Run(ws + [next], steps + [begin]) && begin.Begin? && begin.id == id
    ensures other != id && Holds(next, id, begin.sql) && Holds(next, other, begin.sql)
  {
    hide Guarded, StoresHeld, Started, Settled, Holds;
    var i := |steps| - 1;
    GuardedExactly(ws, steps, i);
    assert Guarded(ws[i]);
    StoringNeedsRoom(ws[i], steps[i]);
    begin := Begin(id, call, ws[i].tasks[steps[i].id].sql, kind);
    next := After(ws[|steps|], begin);
    other := ThenTwoHold(ws[i], steps[i], id, call, kind);
  }

  lemma StoringNeedsRoom(w: World, s: Step)
    requires Enabled(w, s) && StoresHeld(w, s)
    ensures s.Finish? && After(w, s).max > 0
  {
  }

  lemma IdleIsServed(w: World, id: nat, call: Call, sql: string, kind: StatementType)
    requires DistinctKeys(w.cache) && HasIdle(w.cache, sql) && w.max > 0
    ensures Holds(Started(w, id, call, sql, kind), id, sql)
  {
    var j :| 0 <= j < |w.cache| && w.cache[j].key == sql && !w.cache[j].inUse;
    FindOnly(w.cache, j, sql);
  }
}
