/** What a call executes: over every interleaving, a statement with the text the call was made with
    and a kind that the text was begun with, whether it was made from the text or served from the
    cache. The results speak of the steps of a run, not of the list operations. */
module ServedStatements {
  import opened Bytes
  import opened CacheSharing
  import opened RecencyList
  import opened Statements
  import opened Wrappers

  /** The texts that calls were begun with in the first `n` steps, and their kinds. */
  function Begun(steps: seq<Step>, n: nat): set<(string, StatementType)>
    requires n <= |steps|
  {
    set j | 0 <= j < n && steps[j].Begin? :: (steps[j].sql, steps[j].kind)
  }

  /** The columns that queries were answered with in the first `n` steps, by text. */
  function Answers(ws: seq<World>, steps: seq<Step>, n: nat): set<(string, seq<string>)>
    requires Run(ws, steps) && n <= |steps|
  {
    set j | 0 <= j < n && steps[j].Finish? && steps[j].outcome.Answered? ::
      (ws[j].tasks[steps[j].id].sql, steps[j].outcome.columns)
  }

  /** The statement of that text: the kind it was begun with, no cursor, not executed, and either no
      columns or those of an answer to that text. */
  predicate Serves(st: Statement, sql: string, begun: set<(string, StatementType)>, answers: set<(string, seq<string>)>) {
    && st == Statement(sql, st.kind, 0, false, st.columns, false, false, false)
    && (sql, st.kind) in begun
    && (st.columns == [] || (sql, st.columns) in answers)
  }

  ghost predicate CacheServes(l: seq<Slot>, begun: set<(string, StatementType)>, answers: set<(string, seq<string>)>) {
    DistinctKeys(l) && forall s | s in l :: Serves(s.statement, s.key, begun, answers)
  }

  ghost predicate WorldServes(w: World, begun: set<(string, StatementType)>, answers: set<(string, seq<string>)>) {
    && CacheServes(w.cache, begun, answers)
    && forall id | id in w.tasks :: Serves(w.tasks[id].statement, w.tasks[id].sql, begun, answers)
  }

  lemma MoreServes(w: World, begun: set<(string, StatementType)>, answers: set<(string, seq<string>)>,
                   begun': set<(string, StatementType)>, answers': set<(string, seq<string>)>)
    requires WorldServes(w, begun, answers) && begun <= begun' && answers <= answers'
    ensures WorldServes(w, begun', answers')
  {
  }

  lemma GetServes(l: seq<Slot>, max: nat, key: string, begun: set<(string, StatementType)>,
                  answers: set<(string, seq<string>)>)
    requires CacheServes(l, begun, answers)
    ensures var (after, st) := Get(l, max, key);
      CacheServes(after, begun, answers) && (st.Some? ==> Serves(st.value, key, begun, answers))
  {
    DistinctAfterGet(l, max, key);
    WithoutKeys(l, Find(l, key));
    if Find(l, key) < |l| {
      assert l[Find(l, key)] in l;
    }
  }

  lemma ReturnServes(l: seq<Slot>, key: string, begun: set<(string, StatementType)>, answers: set<(string, seq<string>)>)
    requires CacheServes(l, begun, answers)
    ensures CacheServes(Return(l, key), begun, answers)
  {
    if Find(l, key) < |l| {
      assert l[Find(l, key)] in l;
    }
  }

  /** The slot of `key` may be open, if closing its statement makes it one that serves. */
  ghost predicate ServesOnceClosed(l: seq<Slot>, key: string, begun: set<(string, StatementType)>,
                                   answers: set<(string, seq<string>)>) {
    DistinctKeys(l) && forall s | s in l ::
      Serves(if s.key == key then MarkClosed(s.statement) else s.statement, s.key, begun, answers)
  }

  lemma CloseServes(l: seq<Slot>, key: string, begun: set<(string, StatementType)>, answers: set<(string, seq<string>)>)
    requires ServesOnceClosed(l, key, begun, answers)
    ensures CacheServes(CloseCursor(l, key), begun, answers)
  {
    hide Serves, MarkClosed;
    var after := CloseCursor(l, key);
    forall j | 0 <= j < |after|
      ensures Serves(after[j].statement, after[j].key, begun, answers)
    {
      assert l[j] in l;
      FindOnly(l, j, key);
    }
  }

  lemma ClosedAlready(l: seq<Slot>, key: string, begun: set<(string, StatementType)>, answers: set<(string, seq<string>)>)
    requires CacheServes(l, begun, answers)
    ensures ServesOnceClosed(l, key, begun, answers)
  {
  }

  lemma PutServes(l: seq<Slot>, max: nat, key: string, st: Statement, begun: set<(string, StatementType)>,
                  answers: set<(string, seq<string>)>)
    requires CacheServes(l, begun, answers) && Serves(MarkClosed(st), key, begun, answers)
    ensures ServesOnceClosed(Put(l, max, key, st), key, begun, answers)
  {
    hide DistinctKeys, Without, Find, FirstIdle, Serves, MarkClosed;
    DistinctAfterPut(l, max, key, st);
    WithoutKeys(l, Find(l, key));
    WithoutKeys(l, FirstIdle(l));
    ClosedAlready(l, key, begun, answers);
  }

  lemma PreparedServes(t: Task, cursorId: nat, columns: seq<string>, begun: set<(string, StatementType)>,
                       answers: set<(string, seq<string>)>)
    requires Serves(t.statement, t.sql, begun, answers) && (t.sql, columns) in answers && 0 < cursorId < 0x1_0000
    ensures Serves(MarkClosed(Prepared(t, cursorId, columns)), t.sql, begun, answers)
  {
  }

  lemma SettledServes(l: seq<Slot>, max: nat, t: Task, outcome: Outcome, begun: set<(string, StatementType)>,
                      answers: set<(string, seq<string>)>)
    requires CacheServes(l, begun, answers) && Serves(t.statement, t.sql, begun, answers)
    requires outcome.Answered? ==> !outcome.hasMoreRows && (t.sql, outcome.columns) in answers
    ensures CacheServes(Settled(l, max, t, outcome), begun, answers)
  {
    hide Return, Put, CloseCursor, CacheServes, ServesOnceClosed, Serves, Prepared;
    ReturnServes(l, t.sql, begun, answers);
    ClosedAlready(Return(l, t.sql), t.sql, begun, answers);
    CloseServes(Return(l, t.sql), t.sql, begun, answers);
    if outcome.Answered? && outcome.cursorId > 0 {
      var st := Prepared(t, outcome.cursorId, outcome.columns);
      PreparedServes(t, outcome.cursorId, outcome.columns, begun, answers);
      PutServes(l, max, t.sql, st, begun, answers);
      CloseServes(Put(l, max, t.sql, st), t.sql, begun, answers);
    }
  }

  lemma StartServes(w: World, id: nat, call: Call, sql: string, kind: StatementType,
                    begun: set<(string, StatementType)>, answers: set<(string, seq<string>)>)
    requires WorldServes(w, begun, answers) && (sql, kind) in begun
    ensures WorldServes(Started(w, id, call, sql, kind), begun, answers)
  {
    hide Get, CacheServes;
    GetServes(w.cache, w.max, sql, begun, answers);
    var (cache, cached) := Get(w.cache, w.max, sql);
    assert Started(w, id, call, sql, kind).cache == cache;
  }

  lemma StepServes(w: World, s: Step, begun: set<(string, StatementType)>, answers: set<(string, seq<string>)>)
    requires WorldServes(w, begun, answers) && Enabled(w, s)
    requires s.Begin? ==> (s.sql, s.kind) in begun
    requires s.Finish? && s.outcome.Answered? ==> (w.tasks[s.id].sql, s.outcome.columns) in answers
    ensures WorldServes(After(w, s), begun, answers)
  {
    hide Started, Settled, CacheServes, Serves;
    match s {
      case Begin(id, call, sql, kind) => StartServes(w, id, call, sql, kind, begun, answers);
      case Finish(id, outcome) => FinishServes(w, id, outcome, begun, answers);
      case ClearCache => NothingServes(begun, answers);
    }
  }

  lemma FinishServes(w: World, id: nat, outcome: Outcome, begun: set<(string, StatementType)>,
                     answers: set<(string, seq<string>)>)
    requires WorldServes(w, begun, answers) && Enabled(w, Finish(id, outcome))
    requires outcome.Answered? ==> (w.tasks[id].sql, outcome.columns) in answers
    ensures WorldServes(After(w, Finish(id, outcome)), begun, answers)
  {
    hide Settled, CacheServes, Serves;
    SettledServes(w.cache, w.max, w.tasks[id], outcome, begun, answers);
  }

  lemma NothingServes(begun: set<(string, StatementType)>, answers: set<(string, seq<string>)>)
    ensures CacheServes([], begun, answers)
  {
  }

  /** In every interleaving each cached statement is the statement of its key, and each call holds
      the statement of its own text. */
  lemma {:induction false} AlwaysServes(ws: seq<World>, steps: seq<Step>, i: nat)
    requires Run(ws, steps) && i <= |steps|
    ensures WorldServes(ws[i], Begun(steps, i), Answers(ws, steps, i))
  {
    hide After, Serves, CacheServes;
    if i == 0 {
      NothingServes(Begun(steps, 0), Answers(ws, steps, 0));
    } else {
      AlwaysServes(ws, steps, i - 1);
      var w, s := ws[i - 1], steps[i - 1];
      var begun, answers := Begun(steps, i), Answers(ws, steps, i);
      MoreServes(w, Begun(steps, i - 1), Answers(ws, steps, i - 1), begun, answers);
      StepServes(w, s, begun, answers);
    }
  }

  /** The call and the text of a task are those it was begun with. */
  lemma {:induction false} TaskWasBegun(ws: seq<World>, steps: seq<Step>, i: nat, id: nat)
    requires Run(ws, steps) && i <= |steps| && id in ws[i].tasks
    ensures exists j :: 0 <= j < i && steps[j].Begin? && steps[j].id == id
                        && steps[j].call == ws[i].tasks[id].call && steps[j].sql == ws[i].tasks[id].sql
  {
    hide Get, Settled;
    if id in ws[i - 1].tasks && (steps[i - 1].Begin? ==> steps[i - 1].id != id) {
      assert ws[i - 1].tasks[id] == ws[i].tasks[id];
      TaskWasBegun(ws, steps, i - 1, id);
    }
  }

  /** A text has one kind. */
  ghost predicate OneKind(steps: seq<Step>) {
    forall i, j | 0 <= i < |steps| && 0 <= j < |steps| && steps[i].Begin? && steps[j].Begin? ::
      steps[i].sql == steps[j].sql ==> steps[i].kind == steps[j].kind
  }

  /** So a call that was begun with a text executes that text, as the kind of statement the text
      is: the request it sends holds that text and asks to parse it. */
  lemma ExecutesItsText(ws: seq<World>, steps: seq<Step>, i: nat, id: nat, j: nat, o: ExecuteOptions)
    requires Run(ws, steps) && OneKind(steps) && i <= |steps| && id in ws[i].tasks
    requires j < i && steps[j].Begin? && steps[j].sql == ws[i].tasks[id].sql
    ensures var st := ws[i].tasks[id].statement;
      && st.sql == steps[j].sql && st.kind == steps[j].kind
      && RequestFor(st, o) == FullExecute(true, 0, Some(steps[j].sql))
  {
    hide After, RequestFor, CacheServes;
    AlwaysServes(ws, steps, i);
    FromScratchExactly(ws[i].tasks[id].statement, o);
  }

  /** A query that is answered for the first time leaves its columns in the cache, closed and idle: the
      next call with the text is served them. */
  lemma ColumnsAreKept(w: World, id: nat, cursorId: u16, columns: seq<string>)
    requires DistinctKeys(w.cache) && w.max > 0 && id in w.tasks && cursorId > 0
    requires var t := w.tasks[id]; t.call == QueryCall && !t.fromCache && t.statement.kind != Ddl
    ensures var t, after := w.tasks[id], After(w, Finish(id, Answered(cursorId, false, columns))).cache;
      && after != [] && after[|after| - 1].key == t.sql && !after[|after| - 1].inUse
      && after[|after| - 1].statement == t.statement.(cursorId := 0, executed := false, columns := columns)
  {
    hide Find, FirstIdle, Put, DistinctKeys;
    var t := w.tasks[id];
    var st := Prepared(t, cursorId, columns);
    var stored := Put(w.cache, w.max, t.sql, st);
    PutExactly(w.cache, w.max, t.sql, st);
    DistinctAfterPut(w.cache, w.max, t.sql, st);
    LastIsFound(stored, t.sql);
  }

  lemma LastIsFound(l: seq<Slot>, key: string)
    requires DistinctKeys(l) && l != [] && l[|l| - 1].key == key
    ensures Find(l, key) == |l| - 1
  {
    FindOnly(l, |l| - 1, key);
  }
}
