/** What the order of the cache's list means: over every history of operations it is the order in
    which the statements were last touched. */
module TouchOrder {
  import opened RecencyList
  import opened Statements

  datatype Operation =
    | GetOp(key: string)
    | PutOp(key: string, statement: Statement)
    | ReturnOp(key: string)
    | CloseOp(key: string)
    | ClearOp

  function Apply(l: seq<Slot>, max: nat, op: Operation): seq<Slot> {
    match op
    case GetOp(key) => Get(l, max, key).0
    case PutOp(key, s) => Put(l, max, key, s)
    case ReturnOp(key) => Return(l, key)
    case CloseOp(key) => CloseCursor(l, key)
    case ClearOp => []
  }

  /** The operation looks the key up and finds it, or stores a statement under it. */
  predicate Touches(l: seq<Slot>, max: nat, op: Operation, key: string) {
    match op
    case GetOp(k) => k == key && max > 0 && exists i | 0 <= i < |l| :: l[i].key == key
    case PutOp(k, s) => k == key && max > 0 && Cacheable(s)
    case _ => false
  }

  /** A history that starts with an empty cache. */
  ghost predicate History(ls: seq<seq<Slot>>, ops: seq<Operation>, max: nat) {
    && |ls| == |ops| + 1 && ls[0] == []
    && forall i | 0 <= i < |ops| :: ls[i + 1] == Apply(ls[i], max, ops[i])
  }

  /** One more than the index of the last operation before `n` that touched `key`. */
  function LastTouch(ls: seq<seq<Slot>>, ops: seq<Operation>, max: nat, n: nat, key: string): (t: nat)
    requires |ls| == |ops| + 1 && n <= |ops|
    ensures t <= n
  {
    if n == 0 then 0
    else if Touches(ls[n - 1], max, ops[n - 1], key) then n
    else LastTouch(ls, ops, max, n - 1, key)
  }

  /** The list goes from the least to the most recently touched. */
  ghost predicate ByTouch(ls: seq<seq<Slot>>, ops: seq<Operation>, max: nat, n: nat, l: seq<Slot>)
    requires |ls| == |ops| + 1 && n <= |ops|
  {
    DistinctKeys(l) && forall i, j | 0 <= i < j < |l| ::
      LastTouch(ls, ops, max, n, l[i].key) < LastTouch(ls, ops, max, n, l[j].key)
  }

  /** The keys of `m` in their order are some of those of `l`. */
  ghost predicate KeysWithin(m: seq<Slot>, l: seq<Slot>, at: nat -> nat) {
    && (forall i | 0 <= i < |m| :: at(i) < |l| && l[at(i)].key == m[i].key)
    && (forall i, j | 0 <= i < j < |m| :: at(i) < at(j))
  }

  lemma ByTouchWithin(ls: seq<seq<Slot>>, ops: seq<Operation>, max: nat, n: nat, l: seq<Slot>,
                      m: seq<Slot>, at: nat -> nat)
    requires |ls| == |ops| + 1 && n <= |ops| && ByTouch(ls, ops, max, n, l) && KeysWithin(m, l, at)
    ensures ByTouch(ls, ops, max, n, m)
  {
    hide LastTouch;
  }

  lemma WithoutWithin(l: seq<Slot>, v: nat)
    ensures KeysWithin(Without(l, v), l, (i: nat) => if i < v then i else i + 1)
         || (v >= |l| && Without(l, v) == l)
  {
  }

  /** An operation that touches nothing keeps the order if it keeps the keys in order. */
  lemma UntouchedKeeps(ls: seq<seq<Slot>>, ops: seq<Operation>, max: nat, n: nat, m: seq<Slot>)
    requires |ls| == |ops| + 1 && n < |ops| && ByTouch(ls, ops, max, n, m)
    requires forall s | s in m :: !Touches(ls[n], max, ops[n], s.key)
    ensures ByTouch(ls, ops, max, n + 1, m)
  {
    hide Touches;
    forall i | 0 <= i < |m|
      ensures LastTouch(ls, ops, max, n + 1, m[i].key) == LastTouch(ls, ops, max, n, m[i].key)
    {
      assert m[i] in m;
    }
  }

  /** The touched key goes to the end. */
  lemma TouchedLast(ls: seq<seq<Slot>>, ops: seq<Operation>, max: nat, n: nat, m: seq<Slot>, s: Slot)
    requires |ls| == |ops| + 1 && n < |ops| && ByTouch(ls, ops, max, n, m)
    requires Touches(ls[n], max, ops[n], s.key) && forall t | t in m :: t.key != s.key
    ensures ByTouch(ls, ops, max, n + 1, m + [s])
  {
    OnlyOneTouched(ls[n], max, ops[n], s.key);
    UntouchedKeeps(ls, ops, max, n, m);
    DistinctSnoc(m, s);
    hide Touches, DistinctKeys;
    var l := m + [s];
    assert LastTouch(ls, ops, max, n + 1, s.key) == n + 1;
    forall i | 0 <= i < |m|
      ensures LastTouch(ls, ops, max, n + 1, l[i].key) <= n
    {
      assert m[i] in m;
    }
  }

  lemma OnlyOneTouched(l: seq<Slot>, max: nat, op: Operation, key: string)
    requires Touches(l, max, op, key)
    ensures forall k | k != key :: !Touches(l, max, op, k)
  {
  }

  /** The same keys in the same places. */
  lemma SameKeysKeep(ls: seq<seq<Slot>>, ops: seq<Operation>, max: nat, n: nat, m: seq<Slot>)
    requires |ls| == |ops| + 1 && n < |ops| && ByTouch(ls, ops, max, n, ls[n])
    requires ops[n].ReturnOp? || ops[n].CloseOp? || |m| == 0
    requires |m| == 0 || (|m| == |ls[n]| && forall i | 0 <= i < |m| :: m[i].key == ls[n][i].key)
    ensures ByTouch(ls, ops, max, n + 1, m)
  {
    hide LastTouch;
    ByTouchWithin(ls, ops, max, n, ls[n], m, i => i);
    UntouchedKeeps(ls, ops, max, n, m);
  }

  lemma ByTouchWithout(ls: seq<seq<Slot>>, ops: seq<Operation>, max: nat, n: nat, l: seq<Slot>, v: nat)
    requires |ls| == |ops| + 1 && n <= |ops| && ByTouch(ls, ops, max, n, l)
    ensures ByTouch(ls, ops, max, n, Without(l, v))
  {
    hide ByTouch, Without, KeysWithin;
    WithoutWithin(l, v);
    if !(v >= |l| && Without(l, v) == l) {
      ByTouchWithin(ls, ops, max, n, l, Without(l, v), (i: nat) => if i < v then i else i + 1);
    }
  }

  lemma GetKeepsOrder(ls: seq<seq<Slot>>, ops: seq<Operation>, max: nat, n: nat, key: string)
    requires |ls| == |ops| + 1 && n < |ops| && ByTouch(ls, ops, max, n, ls[n]) && ops[n] == GetOp(key)
    ensures ByTouch(ls, ops, max, n + 1, Get(ls[n], max, key).0)
  {
    hide LastTouch, Without;
    var l, i := ls[n], Find(ls[n], key);
    if max == 0 || i == |l| {
      UntouchedKeeps(ls, ops, max, n, l);
    } else {
      WithoutKeys(l, i);
      ByTouchWithout(ls, ops, max, n, l, i);
      TouchedLast(ls, ops, max, n, Without(l, i), l[i].(inUse := true));
    }
  }

  lemma PutKeepsOrder(ls: seq<seq<Slot>>, ops: seq<Operation>, max: nat, n: nat, key: string, s: Statement)
    requires |ls| == |ops| + 1 && n < |ops| && ByTouch(ls, ops, max, n, ls[n]) && ops[n] == PutOp(key, s)
    ensures ByTouch(ls, ops, max, n + 1, Put(ls[n], max, key, s))
  {
    hide LastTouch, Without, FirstIdle;
    var l, i := ls[n], Find(ls[n], key);
    if max == 0 || !Cacheable(s) {
      UntouchedKeeps(ls, ops, max, n, l);
    } else {
      var kept := if i < |l| then Without(l, i) else if |l| >= max then Evict(l) else l;
      WithoutKeys(l, i);
      WithoutKeys(l, FirstIdle(l));
      ByTouchWithout(ls, ops, max, n, l, i);
      ByTouchWithout(ls, ops, max, n, l, FirstIdle(l));
      TouchedLast(ls, ops, max, n, kept, Slot(key, s, false));
    }
  }

  /** After every history the cache's list is in the order of the last touches. */
  lemma {:induction false} OrderIsTouchOrder(ls: seq<seq<Slot>>, ops: seq<Operation>, max: nat, n: nat)
    requires History(ls, ops, max) && n <= |ops|
    ensures ByTouch(ls, ops, max, n, ls[n])
  {
    hide ByTouch, LastTouch, Get, Put, Return, CloseCursor;
    if n == 0 {
      EmptyByTouch(ls, ops, max);
    } else {
      OrderIsTouchOrder(ls, ops, max, n - 1);
      match ops[n - 1]
      case GetOp(key) => GetKeepsOrder(ls, ops, max, n - 1, key);
      case PutOp(key, s) => PutKeepsOrder(ls, ops, max, n - 1, key, s);
      case ReturnOp(key) =>
        EditsKeepKeys(ls[n - 1], key);
        SameKeysKeep(ls, ops, max, n - 1, ls[n]);
      case CloseOp(key) =>
        EditsKeepKeys(ls[n - 1], key);
        SameKeysKeep(ls, ops, max, n - 1, ls[n]);
      case ClearOp => SameKeysKeep(ls, ops, max, n - 1, ls[n]);
    }
  }

  lemma EmptyByTouch(ls: seq<seq<Slot>>, ops: seq<Operation>, max: nat)
    requires |ls| == |ops| + 1
    ensures ByTouch(ls, ops, max, 0, [])
  {
  }

  lemma EditsKeepKeys(l: seq<Slot>, key: string)
    ensures |Return(l, key)| == |CloseCursor(l, key)| == |l|
    ensures forall i | 0 <= i < |l| :: Return(l, key)[i].key == l[i].key && CloseCursor(l, key)[i].key == l[i].key
  {
  }

  /** Whenever an operation drops a statement from the cache, other than by clearing it, the cache
      was full, the dropped statement was idle, and every idle statement that stays was touched
      later. */
  lemma DroppedIsLeastRecent(ls: seq<seq<Slot>>, ops: seq<Operation>, max: nat, n: nat, d: nat)
    requires History(ls, ops, max) && n < |ops| && !ops[n].ClearOp?
    requires d < |ls[n]| && forall s | s in ls[n + 1] :: s.key != ls[n][d].key
    ensures |ls[n]| >= max && !ls[n][d].inUse
    ensures forall j | 0 <= j < |ls[n]| && j != d && !ls[n][j].inUse ::
      LastTouch(ls, ops, max, n, ls[n][d].key) < LastTouch(ls, ops, max, n, ls[n][j].key)
  {
    hide LastTouch, Cacheable, DistinctKeys;
    OrderIsTouchOrder(ls, ops, max, n);
    DroppedIsFirstIdle(ls[n], max, ops[n], d);
  }

  lemma KeyStays(l: seq<Slot>, m: seq<Slot>, i: nat, j: nat)
    requires i < |l| && j < |m| && m[j].key == l[i].key
    ensures exists s :: s in m && s.key == l[i].key
  {
    assert m[j] in m;
  }

  lemma DroppedIsFirstIdle(l: seq<Slot>, max: nat, op: Operation, d: nat)
    requires !op.ClearOp? && d < |l| && forall s | s in Apply(l, max, op) :: s.key != l[d].key
    ensures |l| >= max && FirstIdle(l) == d
  {
    hide Get, Put, Without;
    var m := Apply(l, max, op);
    match op
    case ReturnOp(key) =>
      EditsKeepKeys(l, key);
      KeyStays(l, m, d, d);
    case CloseOp(key) =>
      EditsKeepKeys(l, key);
      KeyStays(l, m, d, d);
    case GetOp(key) =>
      GetKeepsAll(l, max, key, d);
    case PutOp(key, s) =>
      if d != FirstIdle(l) || |l| < max || max == 0 || !Cacheable(s) || Find(l, key) < |l| {
        PutKeepsOthers(l, max, key, s, d);
      }
  }

  lemma GetKeepsAll(l: seq<Slot>, max: nat, key: string, d: nat)
    requires d < |l|
    ensures exists t :: t in Get(l, max, key).0 && t.key == l[d].key
  {
    hide Without;
    var m, i := Get(l, max, key).0, Find(l, key);
    if max == 0 || i == |l| {
      KeyStays(l, m, d, d);
    } else if d == i {
      KeyStays(l, m, d, |m| - 1);
    } else {
      StaysWithout(l, i, d);
      InFront(Without(l, i), l[i].(inUse := true), l[d]);
    }
  }

  lemma PutKeepsOthers(l: seq<Slot>, max: nat, key: string, s: Statement, d: nat)
    requires d < |l| && (d != FirstIdle(l) || |l| < max || max == 0 || !Cacheable(s) || Find(l, key) < |l|)
    ensures exists t :: t in Put(l, max, key, s) && t.key == l[d].key
  {
    hide Cacheable, Without;
    var m, i := Put(l, max, key, s), Find(l, key);
    if max == 0 || !Cacheable(s) {
      KeyStays(l, m, d, d);
    } else if d == i {
      KeyStays(l, m, d, |m| - 1);
    } else if i < |l| {
      StaysWithout(l, i, d);
      InFront(Without(l, i), Slot(key, s, false), l[d]);
    } else if |l| >= max {
      StaysWithout(l, FirstIdle(l), d);
      InFront(Evict(l), Slot(key, s, false), l[d]);
    } else {
      InFront(l, Slot(key, s, false), l[d]);
    }
  }

  lemma StaysWithout(l: seq<Slot>, v: nat, d: nat)
    requires d < |l| && d != v
    ensures l[d] in Without(l, v)
  {
    if v < |l| {
      assert Without(l, v)[if d < v then d else d - 1] == l[d];
    }
  }

  lemma InFront(l: seq<Slot>, s: Slot, t: Slot)
    requires t in l
    ensures t in l + [s]
  {
  }
}
