/** The statement cache as it is stored: an insertion-ordered map whose removals scramble the
    order, with a time stamp and an in-use mark on every entry. */
module StatementCaches {
  import opened RecencyList
  import opened Statements
  import opened Wrappers

  datatype Entry = Entry(key: string, statement: Statement, inUse: bool, lastUsed: nat)

  ghost function SlotOf(e: Entry): Slot {
    Slot(e.key, e.statement, e.inUse)
  }

  ghost function Slots(es: seq<Entry>): (l: seq<Slot>)
    ensures |l| == |es| && forall i | 0 <= i < |es| :: l[i] == SlotOf(es[i])
  {
    seq(|es|, i requires 0 <= i < |es| => SlotOf(es[i]))
  }

  ghost predicate UniqueKeys(es: seq<Entry>) {
    forall i, j | 0 <= i < j < |es| :: es[i].key != es[j].key
  }

  /** Strictly increasing time stamps. */
  ghost predicate Ordered(es: seq<Entry>) {
    forall i, j | 0 <= i < j < |es| :: es[i].lastUsed < es[j].lastUsed
  }

  ghost predicate NoRepeats<T>(s: seq<T>) {
    forall i, j | 0 <= i < j < |s| :: s[i] != s[j]
  }

  ghost predicate SameMembers<T(!new)>(s: seq<T>, t: seq<T>) {
    |s| == |t| && forall x :: x in s <==> x in t
  }

  /** What ties the stored entries to their list by recency. */
  ghost predicate Linked(entries: seq<Entry>, recency: seq<Entry>, clock: nat) {
    && UniqueKeys(entries) && Ordered(recency) && SameMembers(entries, recency)
    && forall e | e in entries :: e.lastUsed <= clock
  }

  // ---- Members of an edited sequence ---------------------------------------------------

  function Drop<T>(s: seq<T>, i: nat): seq<T>
    requires i < |s|
  {
    s[..i] + s[i + 1..]
  }

  lemma MembersOfUpdate<T>(s: seq<T>, i: nat, y: T, x: T)
    requires i < |s| && NoRepeats(s)
    ensures x in s[i := y] <==> x == y || (x in s && x != s[i])
  {
    if x == y {
      assert s[i := y][i] == x;
    } else if x in s && x != s[i] {
      var j :| 0 <= j < |s| && s[j] == x;
      assert s[i := y][j] == x;
    }
  }

  lemma MembersOfDrop<T>(s: seq<T>, i: nat, x: T)
    requires i < |s| && NoRepeats(s)
    ensures x in Drop(s, i) <==> x in s && x != s[i]
  {
    if x in s && x != s[i] {
      var j :| 0 <= j < |s| && s[j] == x;
      assert Drop(s, i)[if j < i then j else j - 1] == x;
    }
  }

  /** `swap_remove`: the last element takes the removed one's place. */
  function SwapRemove<T>(s: seq<T>, i: nat): seq<T>
    requires i < |s|
  {
    s[i := s[|s| - 1]][..|s| - 1]
  }

  lemma MembersOfSwapRemove<T>(s: seq<T>, i: nat, x: T)
    requires i < |s| && NoRepeats(s)
    ensures x in SwapRemove(s, i) <==> x in s && x != s[i]
  {
    var t := SwapRemove(s, i);
    if x in s && x != s[i] {
      var j :| 0 <= j < |s| && s[j] == x;
      assert t[if j == |s| - 1 then i else j] == x;
    }
    if x in t {
      var j :| 0 <= j < |t| && t[j] == x;
      assert x == if j == i then s[|s| - 1] else s[j];
    }
  }

  lemma SameSize(entries: seq<Entry>, recency: seq<Entry>, clock: nat)
    requires Linked(entries, recency, clock)
    ensures |entries| == |recency|
  {
  }

  lemma LinkedNoRepeats(entries: seq<Entry>, recency: seq<Entry>, clock: nat)
    requires Linked(entries, recency, clock)
    ensures NoRepeats(entries) && NoRepeats(recency)
  {
  }

  /** A stored entry, its place in the list, and what a lookup by key finds there. */
  lemma PlaceOf(entries: seq<Entry>, recency: seq<Entry>, clock: nat, i: nat) returns (r: nat)
    requires Linked(entries, recency, clock) && i < |entries|
    ensures r < |recency| && recency[r] == entries[i] && Find(Slots(recency), entries[i].key) == r
  {
    assert entries[i] in recency;
    r :| 0 <= r < |recency| && recency[r] == entries[i];
    var f := Find(Slots(recency), entries[i].key);
    assert Slots(recency)[r].key == entries[i].key;
    assert f <= r;
    assert recency[f] in entries;
    var j :| 0 <= j < |entries| && entries[j] == recency[f];
    assert entries[j].key == entries[i].key;
  }

  lemma AbsentKey(entries: seq<Entry>, recency: seq<Entry>, clock: nat, key: string)
    requires Linked(entries, recency, clock) && forall e | e in entries :: e.key != key
    ensures Find(Slots(recency), key) == |recency|
  {
    forall r | 0 <= r < |recency|
      ensures recency[r].key != key
    {
      assert recency[r] in entries;
    }
  }

  lemma LinkedAfterTouch(entries: seq<Entry>, recency: seq<Entry>, clock: nat, i: nat, r: nat, e: Entry)
    requires Linked(entries, recency, clock) && i < |entries| && r < |recency| && recency[r] == entries[i]
    requires e.key == entries[i].key && e.lastUsed == clock + 1
    ensures Linked(entries[i := e], Drop(recency, r) + [e], clock + 1)
  {
    var es, rs := entries[i := e], Drop(recency, r) + [e];
    LinkedNoRepeats(entries, recency, clock);
    forall x
      ensures x in es <==> x in rs
      ensures x in es ==> x.lastUsed <= clock + 1
    {
      MembersOfUpdate(entries, i, e, x);
      MembersOfDrop(recency, r, x);
    }
    OrderedAfterDrop(recency, r);
    forall x | x in Drop(recency, r)
      ensures x.lastUsed <= clock
    {
      MembersOfDrop(recency, r, x);
    }
    assert Ordered(rs);
  }

  lemma OrderedAfterDrop(recency: seq<Entry>, r: nat)
    requires Ordered(recency) && r < |recency|
    ensures Ordered(Drop(recency, r))
  {
  }

  lemma LinkedAfterEdit(entries: seq<Entry>, recency: seq<Entry>, clock: nat, i: nat, r: nat, e: Entry)
    requires Linked(entries, recency, clock) && i < |entries| && r < |recency| && recency[r] == entries[i]
    requires e.key == entries[i].key && e.lastUsed == entries[i].lastUsed
    ensures Linked(entries[i := e], recency[r := e], clock)
  {
    LinkedNoRepeats(entries, recency, clock);
    forall x
      ensures x in entries[i := e] <==> x in recency[r := e]
      ensures x in entries[i := e] ==> x.lastUsed <= clock
    {
      MembersOfUpdate(entries, i, e, x);
      MembersOfUpdate(recency, r, e, x);
    }
  }

  lemma LinkedAfterRemoval(entries: seq<Entry>, recency: seq<Entry>, clock: nat, i: nat, r: nat)
    requires Linked(entries, recency, clock) && i < |entries| && r < |recency| && recency[r] == entries[i]
    ensures Linked(SwapRemove(entries, i), Drop(recency, r), clock)
  {
    LinkedNoRepeats(entries, recency, clock);
    forall x
      ensures x in SwapRemove(entries, i) <==> x in Drop(recency, r)
      ensures x in SwapRemove(entries, i) ==> x.lastUsed <= clock
    {
      MembersOfSwapRemove(entries, i, x);
      MembersOfDrop(recency, r, x);
    }
    OrderedAfterDrop(recency, r);
  }

  lemma LinkedAfterInsert(entries: seq<Entry>, recency: seq<Entry>, clock: nat, e: Entry)
    requires Linked(entries, recency, clock) && e.lastUsed == clock + 1
    requires forall x | x in entries :: x.key != e.key
    ensures Linked(entries + [e], recency + [e], clock + 1)
  {
    forall x
      ensures x in entries + [e] <==> x in recency + [e]
    {
    }
    forall j | 0 <= j < |recency|
      ensures recency[j].lastUsed <= clock
    {
      assert recency[j] in entries;
    }
  }

  class StatementCache {
    var entries: seq<Entry>
    const maxSize: nat
    /** The monotonic clock. */
    var clock: nat
    /** The entries from the least to the most recently touched. */
    ghost var recency: seq<Entry>

    ghost predicate Valid()
      reads this
    {
      Linked(entries, recency, clock)
    }

    ghost function Contents(): seq<Slot>
      reads this
    {
      Slots(recency)
    }

    constructor (maxSize: nat)
      ensures Valid() && Contents() == [] && this.maxSize == maxSize
    {
      entries := [];
      this.maxSize := maxSize;
      clock := 0;
      recency := [];
    }

    method Now() returns (t: nat)
      modifies this`clock
      ensures clock == old(clock) + 1 == t
    {
      clock := clock + 1;
      t := clock;
    }

    /** The map lookup. */
    method Lookup(sql: string) returns (found: Option<nat>)
      requires Valid()
      ensures found.Some? ==> found.value < |entries| && entries[found.value].key == sql
      ensures found.None? ==> forall e | e in entries :: e.key != sql
    {
      for i := 0 to |entries|
        invariant forall j | 0 <= j < i :: entries[j].key != sql
      {
        if entries[i].key == sql {
          return Some(i);
        }
      }
      return None;
    }

    method Get(sql: string) returns (r: Option<Statement>)
      requires Valid()
      modifies this
      ensures Valid() && (Contents(), r) == RecencyList.Get(old(Contents()), maxSize, sql)
    {
      if maxSize == 0 {
        return None;
      }
      var found := Lookup(sql);
      if found.None? {
        AbsentKey(entries, recency, clock, sql);
        return None;
      }
      var i := found.value;
      ghost var place := PlaceOf(entries, recency, clock, i);
      ghost var before, was := recency, entries[i];
      var busy := entries[i].inUse;
      var now := Now();
      var touched := entries[i].(lastUsed := now, inUse := true);
      LinkedAfterTouch(entries, recency, now - 1, i, place, touched);
      r := if busy then None else Some(CloneForReuse(entries[i].statement));
      entries := entries[i := touched];
      recency := Drop(recency, place) + [touched];
      SlotsOfTouch(before, place, touched);
    }

    method Put(sql: string, statement: Statement)
      requires Valid()
      modifies this
      ensures Valid() && Contents() == RecencyList.Put(old(Contents()), maxSize, sql, statement)
    {
      hide Linked;
      if maxSize == 0 {
        return;
      }
      SameSize(entries, recency, clock);
      if statement.kind == Ddl {
        return;
      }
      if statement.cursorId == 0 {
        return;
      }
      var found := Lookup(sql);
      if found.Some? {
        PutExisting(found.value, statement);
        return;
      }
      AbsentKey(entries, recency, clock, sql);
      if |entries| >= maxSize {
        EvictLru();
      }
      PutNew(sql, statement);
    }

    /** The update of an entry that is already there. */
    method PutExisting(i: nat, statement: Statement)
      requires Valid() && i < |entries|
      modifies this`entries, this`recency, this`clock
      ensures Valid()
      ensures var key, l := old(entries[i].key), old(Contents());
        Find(l, key) < |l| && Contents() == ToEnd(l, Find(l, key), Slot(key, statement, false))
    {
      ghost var place := PlaceOf(entries, recency, clock, i);
      ghost var before := recency;
      var now := Now();
      var updated := entries[i].(statement := statement, inUse := false, lastUsed := now);
      LinkedAfterTouch(entries, recency, now - 1, i, place, updated);
      entries := entries[i := updated];
      recency := Drop(recency, place) + [updated];
      SlotsOfTouch(before, place, updated);
    }

    /** The insertion at the end of `put`. */
    method PutNew(sql: string, statement: Statement)
      requires Valid() && forall e | e in entries :: e.key != sql
      modifies this
      ensures Valid() && Contents() == old(Contents()) + [Slot(sql, statement, false)]
    {
      var now := Now();
      var fresh' := Entry(sql, statement, false, now);
      LinkedAfterInsert(entries, recency, now - 1, fresh');
      entries := entries + [fresh'];
      recency := recency + [fresh'];
    }

    /** Removes the idle entry with the earliest time stamp, if any entry is idle. */
    method EvictLru()
      requires Valid()
      modifies this`entries, this`recency
      ensures Valid() && Contents() == Evict(old(Contents()))
      ensures forall e | e in entries :: e in old(entries)
    {
      var lru: Option<nat> := None;
      for i := 0 to |entries|
        invariant lru.None? ==> forall j | 0 <= j < i :: entries[j].inUse
        invariant lru.Some? ==> lru.value < i && !entries[lru.value].inUse
        invariant lru.Some? ==>
          forall j | 0 <= j < i && !entries[j].inUse :: entries[lru.value].lastUsed <= entries[j].lastUsed
      {
        if !entries[i].inUse && (lru.None? || entries[i].lastUsed < entries[lru.value].lastUsed) {
          lru := Some(i);
        }
      }
      if lru.None? {
        NoneIdle(entries, recency, clock);
        return;
      }
      var i := lru.value;
      ghost var place := PlaceOf(entries, recency, clock, i);
      ghost var before := recency;
      OldestIdle(entries, recency, clock, i, place);
      LinkedAfterRemoval(entries, recency, clock, i, place);
      LinkedNoRepeats(entries, recency, clock);
      forall x
        ensures x in SwapRemove(entries, i) ==> x in entries
      {
        MembersOfSwapRemove(entries, i, x);
      }
      entries := SwapRemove(entries, i);
      recency := Drop(recency, place);
      SlotsOfDrop(before, place);
    }

    method ReturnStatement(sql: string)
      requires Valid()
      modifies this`entries, this`recency
      ensures Valid() && Contents() == Return(old(Contents()), sql)
    {
      var found := Lookup(sql);
      if found.None? {
        AbsentKey(entries, recency, clock, sql);
        return;
      }
      var i := found.value;
      ghost var place := PlaceOf(entries, recency, clock, i);
      ghost var before := recency;
      var e := entries[i].(inUse := false);
      LinkedAfterEdit(entries, recency, clock, i, place, e);
      entries := entries[i := e];
      recency := recency[place := e];
      SlotsOfEdit(before, place, e);
    }

    method MarkCursorClosed(sql: string)
      requires Valid()
      modifies this`entries, this`recency
      ensures Valid() && Contents() == CloseCursor(old(Contents()), sql)
    {
      var found := Lookup(sql);
      if found.None? {
        AbsentKey(entries, recency, clock, sql);
        return;
      }
      var i := found.value;
      ghost var place := PlaceOf(entries, recency, clock, i);
      ghost var before := recency;
      var e := entries[i];
      if e.statement.cursorId != 0 {
        e := e.(statement := e.statement.(cursorId := 0));
        e := e.(statement := e.statement.(executed := false));
      }
      LinkedAfterEdit(entries, recency, clock, i, place, e);
      entries := entries[i := e];
      recency := recency[place := e];
      SlotsOfEdit(before, place, e);
    }

    method Clear()
      requires Valid()
      modifies this`entries, this`recency
      ensures Valid() && Contents() == []
    {
      entries := [];
      recency := [];
    }

    function Len(): (n: nat)
      requires Valid()
      reads this
      ensures n == |Contents()|
    {
      |entries|
    }
  }

  // ---- The list side of each edit ------------------------------------------------------

  lemma SlotsOfDrop(recency: seq<Entry>, r: nat)
    requires r < |recency|
    ensures Slots(Drop(recency, r)) == Without(Slots(recency), r)
  {
  }

  lemma SlotsOfTouch(recency: seq<Entry>, r: nat, e: Entry)
    requires r < |recency|
    ensures Slots(Drop(recency, r) + [e]) == ToEnd(Slots(recency), r, SlotOf(e))
  {
    SlotsOfDrop(recency, r);
    assert Slots(Drop(recency, r) + [e]) == Slots(Drop(recency, r)) + [SlotOf(e)];
  }

  lemma SlotsOfEdit(recency: seq<Entry>, r: nat, e: Entry)
    requires r < |recency|
    ensures Slots(recency[r := e]) == Slots(recency)[r := SlotOf(e)]
  {
  }

  lemma NoneIdle(entries: seq<Entry>, recency: seq<Entry>, clock: nat)
    requires Linked(entries, recency, clock) && forall j | 0 <= j < |entries| :: entries[j].inUse
    ensures FirstIdle(Slots(recency)) == |recency|
  {
    forall r | 0 <= r < |recency|
      ensures recency[r].inUse
    {
      assert recency[r] in entries;
    }
  }

  /** The idle entry with the earliest stamp is the first idle slot of the list. */
  lemma OldestIdle(entries: seq<Entry>, recency: seq<Entry>, clock: nat, i: nat, r: nat)
    requires Linked(entries, recency, clock) && i < |entries| && r < |recency| && recency[r] == entries[i]
    requires !entries[i].inUse
    requires forall j | 0 <= j < |entries| && !entries[j].inUse :: entries[i].lastUsed <= entries[j].lastUsed
    ensures FirstIdle(Slots(recency)) == r
  {
    var v := FirstIdle(Slots(recency));
    assert !Slots(recency)[r].inUse;
    assert v <= r;
    assert recency[v] in entries;
    var j :| 0 <= j < |entries| && entries[j] == recency[v];
    assert !entries[j].inUse;
  }
}
