/** Statements, and what of a statement goes into an execute request. */
module Statements {
  import opened Bytes
  import opened Wrappers

  datatype StatementType = Unknown | Query | Dml | Ddl | PlSql

  /** A statement is a value: the cache and its callers hold copies. */
  datatype Statement = Statement(
    sql: string,
    kind: StatementType,
    cursorId: u16,
    executed: bool,
    columns: seq<string>,
    bindsChanged: bool,
    requiresDefine: bool,
    noPrefetch: bool)
  {
    /** The server has no cursor of ours for this statement. */
    predicate Closed() {
      cursorId == 0 && !executed
    }
  }

  /** A statement straight from its text. */
  function NewStatement(sql: string, kind: StatementType): (s: Statement)
    ensures s.Closed()
  {
    Statement(sql, kind, 0, false, [], false, false, false)
  }

  function CloneForReuse(s: Statement): Statement {
    s.(bindsChanged := false, requiresDefine := false)
  }

  datatype FunctionCode = Execute | Reexecute | ReexecuteAndFetch

  datatype ExecuteOptions = ExecuteOptions(
    describeOnly: bool,
    batchErrors: bool,
    scrollable: bool,
    prefetchRows: u32)

  /** The choice made when an execute message is created. */
  function FunctionCodeFor(s: Statement, o: ExecuteOptions): FunctionCode {
    if s.cursorId == 0 || !s.executed || s.sql == "" || s.kind == Ddl || s.bindsChanged
       || o.describeOnly || s.requiresDefine || o.batchErrors || o.scrollable
    then Execute
    else if s.kind == Query && o.prefetchRows > 0 then ReexecuteAndFetch
    else Reexecute
  }

  /** The fields of an execute request that say which statement is meant. */
  datatype ExecuteRequest =
    | FullExecute(parse: bool, cursorId: u16, sql: Option<string>)
    | ByCursor(code: FunctionCode, cursorId: u16)

  function RequestFor(s: Statement, o: ExecuteOptions): ExecuteRequest {
    var code := FunctionCodeFor(s, o);
    if code == Execute then
      var parse := s.cursorId == 0 || s.kind == Ddl;
      FullExecute(parse, s.cursorId, if parse then Some(s.sql) else None)
    else ByCursor(code, s.cursorId)
  }

  /** A request that names no server cursor, parses, and carries the text. */
  predicate FromScratch(r: ExecuteRequest, sql: string) {
    r == FullExecute(true, 0, Some(sql))
  }

  /** The statement has been executed under a cursor and nothing about it has changed. */
  predicate Repeats(s: Statement, o: ExecuteOptions) {
    && s.cursorId != 0 && s.executed && s.sql != "" && s.kind != Ddl
    && !s.bindsChanged && !s.requiresDefine
    && !o.describeOnly && !o.batchErrors && !o.scrollable
  }

  /** Only such a statement goes by its cursor alone, a query that prefetches together with a fetch;
      in every other request the text is there exactly if it is to be parsed, which it is unless the
      statement has a cursor and is not DDL. */
  lemma RequestExactly(s: Statement, o: ExecuteOptions)
    ensures var r := RequestFor(s, o);
      && (r.ByCursor? <==> Repeats(s, o))
      && (r.ByCursor? ==> r.cursorId == s.cursorId && r.code != Execute)
      && (r.ByCursor? ==> (r.code == ReexecuteAndFetch <==> s.kind == Query && o.prefetchRows > 0))
      && (r.FullExecute? ==> r.cursorId == s.cursorId && (r.parse <==> s.cursorId == 0 || s.kind == Ddl))
      && (r.FullExecute? ==> r.sql == if r.parse then Some(s.sql) else None)
  {
  }

  /** A request names no cursor and carries the text to parse exactly when the statement has
      no cursor. */
  lemma FromScratchExactly(s: Statement, o: ExecuteOptions)
    ensures FromScratch(RequestFor(s, o), s.sql) <==> s.cursorId == 0
  {
  }
}

/** The statement cache as a list of slots, from the least to the most recently touched. */
module RecencyList {
  import opened Statements
  import opened Wrappers

  datatype Slot = Slot(key: string, statement: Statement, inUse: bool)

  ghost predicate DistinctKeys(l: seq<Slot>) {
    forall i, j | 0 <= i < j < |l| :: l[i].key != l[j].key
  }

  /** Where `key` is, or the length of the list. */
  function Find(l: seq<Slot>, key: string): (i: nat)
    ensures i <= |l|
    ensures i < |l| ==> l[i].key == key
    ensures forall j | 0 <= j < i :: l[j].key != key
  {
    if l == [] || l[0].key == key then 0 else 1 + Find(l[1..], key)
  }

  /** Where the first idle slot is, or the length of the list. */
  function FirstIdle(l: seq<Slot>): (i: nat)
    ensures i <= |l|
    ensures i < |l| ==> !l[i].inUse
    ensures forall j | 0 <= j < i :: l[j].inUse
  {
    if l == [] || !l[0].inUse then 0 else 1 + FirstIdle(l[1..])
  }

  function Without(l: seq<Slot>, i: nat): seq<Slot> {
    if i < |l| then l[..i] + l[i + 1..] else l
  }

  function ToEnd(l: seq<Slot>, i: nat, s: Slot): seq<Slot> {
    Without(l, i) + [s]
  }

  function Get(l: seq<Slot>, max: nat, key: string): (seq<Slot>, Option<Statement>) {
    var i := Find(l, key);
    if max == 0 || i == |l| then (l, None)
    else (ToEnd(l, i, l[i].(inUse := true)),
          if l[i].inUse then None else Some(CloneForReuse(l[i].statement)))
  }

  predicate Cacheable(s: Statement) {
    s.kind != Ddl && s.cursorId != 0
  }

  function Evict(l: seq<Slot>): seq<Slot> {
    Without(l, FirstIdle(l))
  }

  function Put(l: seq<Slot>, max: nat, key: string, s: Statement): seq<Slot> {
    if max == 0 || !Cacheable(s) then l
    else
      var i := Find(l, key);
      if i < |l| then ToEnd(l, i, Slot(key, s, false))
      else (if |l| >= max then Evict(l) else l) + [Slot(key, s, false)]
  }

  function Return(l: seq<Slot>, key: string): seq<Slot> {
    var i := Find(l, key);
    if i < |l| then l[i := l[i].(inUse := false)] else l
  }

  function MarkClosed(s: Statement): Statement {
    if s.cursorId != 0 then s.(cursorId := 0, executed := false) else s
  }

  function CloseCursor(l: seq<Slot>, key: string): seq<Slot> {
    var i := Find(l, key);
    if i < |l| then l[i := l[i].(statement := MarkClosed(l[i].statement))] else l
  }

  /** Only what is neither DDL nor without a cursor goes into a cache that has room for anything: to
      the recent end, idle. */
  lemma PutExactly(l: seq<Slot>, max: nat, key: string, s: Statement)
    ensures max == 0 || s.kind == Ddl || s.cursorId == 0 ==> Put(l, max, key, s) == l
    ensures max > 0 && s.kind != Ddl && s.cursorId != 0 ==>
      var after := Put(l, max, key, s);
      after != [] && after[|after| - 1] == Slot(key, s, false) && forall t | t in after[..|after| - 1] :: t in l
  {
    hide Find, FirstIdle;
    WithoutParts(l, Find(l, key));
    WithoutParts(l, FirstIdle(l));
  }

  lemma WithoutParts(l: seq<Slot>, i: nat)
    ensures forall t | t in Without(l, i) :: t in l
  {
  }

  // ---- What the list operations keep ---------------------------------------------------

  lemma WithoutKeys(l: seq<Slot>, i: nat)
    requires DistinctKeys(l)
    ensures DistinctKeys(Without(l, i))
    ensures forall s | s in Without(l, i) :: s in l
    ensures i < |l| ==> forall s | s in Without(l, i) :: s.key != l[i].key
  {
  }

  lemma FindOnly(l: seq<Slot>, i: nat, key: string)
    requires DistinctKeys(l) && i < |l|
    ensures l[i].key == key <==> Find(l, key) == i
  {
  }

  lemma DistinctSnoc(l: seq<Slot>, s: Slot)
    requires DistinctKeys(l) && forall t | t in l :: t.key != s.key
    ensures DistinctKeys(l + [s])
  {
  }

  lemma DistinctAfterGet(l: seq<Slot>, max: nat, key: string)
    requires DistinctKeys(l)
    ensures DistinctKeys(Get(l, max, key).0) && |Get(l, max, key).0| == |l|
  {
    hide DistinctKeys;
    var i := Find(l, key);
    WithoutKeys(l, i);
    if i < |l| {
      DistinctSnoc(Without(l, i), l[i].(inUse := true));
    }
  }

  lemma DistinctAfterPut(l: seq<Slot>, max: nat, key: string, s: Statement)
    requires DistinctKeys(l)
    ensures DistinctKeys(Put(l, max, key, s))
  {
    hide DistinctKeys, Without, FirstIdle;
    var i := Find(l, key);
    WithoutKeys(l, i);
    WithoutKeys(l, FirstIdle(l));
    if i < |l| {
      DistinctSnoc(Without(l, i), Slot(key, s, false));
    } else {
      DistinctSnoc(l, Slot(key, s, false));
      DistinctSnoc(Evict(l), Slot(key, s, false));
    }
  }

  /** Adding a new key to a full cache gives up the least recently touched idle slot and
      nothing else: every slot in use stays, and so does every idle slot touched later. */
  lemma VictimIsLeastRecentIdle(l: seq<Slot>, max: nat, key: string, s: Statement)
    requires max > 0 && |l| >= max && Cacheable(s) && Find(l, key) == |l| && FirstIdle(l) < |l|
    ensures var v, after := FirstIdle(l), Put(l, max, key, s);
      && after == l[..v] + l[v + 1..] + [Slot(key, s, false)]
      && !l[v].inUse && (forall j | 0 <= j < v :: l[j].inUse)
      && forall t | t in l && t.inUse :: t in after
  {
    var v, after := FirstIdle(l), Put(l, max, key, s);
    assert after == l[..v] + l[v + 1..] + [Slot(key, s, false)];
    forall t | t in l && t.inUse
      ensures t in after
    {
      OthersStay(l, v, t);
    }
  }

  lemma OthersStay(l: seq<Slot>, v: nat, t: Slot)
    requires v < |l| && t in l && t != l[v]
    ensures t in l[..v] + l[v + 1..]
  {
    var j :| 0 <= j < |l| && l[j] == t;
    assert if j < v then l[..v][j] == t else l[v + 1..][j - v - 1] == t;
  }

  /** With every slot in use nothing is given up and the cache grows past its size. */
  lemma FullyInUseGrows(l: seq<Slot>, max: nat, key: string, s: Statement)
    requires max > 0 && |l| >= max && Cacheable(s) && Find(l, key) == |l|
    ensures |Put(l, max, key, s)| == |l| + 1 <==> forall t | t in l :: t.inUse
  {
    var v := FirstIdle(l);
    if v < |l| {
      assert l[v] in l;
    }
  }
}
