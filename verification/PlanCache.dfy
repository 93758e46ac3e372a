/** The signature-keyed plan cache: a dictionary in recency order with stale flags and,
    when a capacity is set, least-recently-used eviction. */
module PlanCache {
  import opened Types
  import opened OrderedDict

  const MAX_EXPECTED_SIZE := 16

  datatype Entry<T> = Entry(plan: T, stale: bool, hits: nat, refreshedWhileHeld: nat)

  type Entries<K, T> = Dict<K, Entry<T>>

  /** What a lookup sees: nothing for an absent or stale key. */
  function Visible<K(==), T>(es: Entries<K, T>, k: K): Option<T> {
    match Find(es, k)
    case None => None
    case Some(e) => if e.stale then None else Some(e.plan)
  }

  /** Pop and insert again: the key becomes the most recent one. */
  function Touch<K(==), T>(capacity: Option<nat>, es: Entries<K, T>, k: K): Entries<K, T> {
    match Find(es, k)
    case None => es
    case Some(e) => if capacity.None? then es else Remove(es, k) + [(k, e)]
  }

  /** Drop the oldest entries until the capacity is met. */
  function Trim<T>(capacity: Option<nat>, s: seq<T>): seq<T> {
    if capacity.None? || |s| <= capacity.value then s else s[|s| - capacity.value..]
  }

  datatype Op<K, T> = Get(key: K) | Store(key: K, plan: T) | Refresh(key: K, plan: T) | MarkStale(key: K)

  /** The effect of one operation on the entries. */
  function Apply<K(==), T>(capacity: Option<nat>, es: Entries<K, T>, op: Op<K, T>): Entries<K, T> {
    match op
    case Get(k) =>
      if Visible(es, k).None? then es
      else
        var e := Find(es, k).value;
        Touch(capacity, Put(es, k, e.(hits := e.hits + 1)), k)
    case Store(k, plan) => Trim(capacity, Put(es, k, Entry(plan, false, 0, 0)))
    case Refresh(k, plan) =>
      (match Find(es, k)
       case None => Trim(capacity, Put(es, k, Entry(plan, false, 0, 0)))
       case Some(e) =>
         Touch(capacity, Put(es, k, Entry(plan, false, e.hits, e.refreshedWhileHeld + 1)), k))
    case MarkStale(k) =>
      (match Find(es, k)
       case None => es
       case Some(e) => Put(es, k, e.(stale := true)))
  }

  class Cache<K(==), T> {
    const capacity: Option<nat>
    var entries: Entries<K, T>

    constructor (capacity: Option<nat>)
      ensures entries == [] && this.capacity == capacity
    {
      this.capacity := capacity;
      entries := [];
    }

    method Get(k: K) returns (r: Option<T>)
      modifies this
      ensures r == Visible(old(entries), k)
      ensures entries == Apply(capacity, old(entries), Op<K, T>.Get(k))
      ensures Distinct(old(entries)) && r.Some? ==>
                var was := Find(old(entries), k).value;
                Find(entries, k) == Some(Entry(was.plan, false, was.hits + 1, was.refreshedWhileHeld))
    {
      CountedHit(capacity, entries, k);
      hide Position, Touch, Distinct;
      var i := Position(entries, k);
      if i == |entries| || entries[i].1.stale {
        return None;
      }
      var e := entries[i].1;
      r := Some(e.plan);
      entries := entries[i := (k, e.(hits := e.hits + 1))];
      assert entries == Put(old(entries), k, e.(hits := e.hits + 1));
      MoveToEnd(k);
    }

    /** An unbounded cache that outgrows its expected size reports it, after the insertion. */
    method Store(k: K, plan: T) returns (ok: bool)
      modifies this
      ensures entries == Apply(capacity, old(entries), Op.Store(k, plan))
      ensures ok <==> capacity.Some? || |entries| <= 16
    {
      entries := Put(entries, k, Entry(plan, false, 0, 0));
      ok := EnforceSize();
    }

    method Refresh(k: K, plan: T) returns (ok: bool)
      modifies this
      ensures entries == Apply(capacity, old(entries), Op.Refresh(k, plan))
      ensures ok <==> Position(old(entries), k) < |old(entries)| || capacity.Some? || |entries| <= 16
      ensures Distinct(old(entries)) && Find(old(entries), k).Some? ==>
                var was := Find(old(entries), k).value;
                Find(entries, k) == Some(Entry(plan, false, was.hits, was.refreshedWhileHeld + 1))
    {
      CountedRefresh(capacity, entries, k, plan);
      hide Position, Touch, Trim, Distinct;
      var i := Position(entries, k);
      if i == |entries| {
        ok := Store(k, plan);
        return;
      }
      var e := entries[i].1;
      entries := entries[i := (k, Entry(plan, false, e.hits, e.refreshedWhileHeld + 1))];
      assert entries == Put(old(entries), k, Entry(plan, false, e.hits, e.refreshedWhileHeld + 1));
      MoveToEnd(k);
      ok := true;
    }

    method MarkStale(k: K)
      modifies this
      ensures entries == Apply(capacity, old(entries), Op<K, T>.MarkStale(k))
    {
      var i := Position(entries, k);
      if i < |entries| {
        entries := entries[i := (k, entries[i].1.(stale := true))];
      }
    }

    method MoveToEnd(k: K)
      modifies this
      ensures entries == Touch(capacity, old(entries), k)
    {
      var i := Position(entries, k);
      if capacity.Some? && i < |entries| {
        var e := entries[i].1;
        entries := entries[..i] + entries[i + 1..];
        entries := entries + [(k, e)];
      }
    }

    method EnforceSize() returns (ok: bool)
      modifies this
      ensures entries == Trim(capacity, old(entries))
      ensures ok <==> capacity.Some? || |entries| <= 16
    {
      if capacity.None? {
        return |entries| <= MAX_EXPECTED_SIZE;
      }
      ghost var dropped := 0;
      while |entries| > capacity.value
        invariant 0 <= dropped <= |old(entries)| && entries == old(entries)[dropped..]
        invariant dropped > 0 ==> |entries| >= capacity.value
      {
        entries := entries[1..];
        dropped := dropped + 1;
      }
      ok := true;
    }
  }

  /** A served lookup counts one hit, whether or not the entry moves. */
  lemma CountedHit<K, T>(capacity: Option<nat>, es: Entries<K, T>, k: K)
    ensures Distinct(es) && Visible(es, k).Some? ==>
              var was := Find(es, k).value;
              Find(Apply(capacity, es, Op<K, T>.Get(k)), k)
                == Some(Entry(was.plan, false, was.hits + 1, was.refreshedWhileHeld))
  {
    hide Find, Put, Touch, Distinct;
    if Distinct(es) && Visible(es, k).Some? {
      var was := Find(es, k).value;
      var now := was.(hits := was.hits + 1);
      FindAfterPut(es, k, now, k);
      FindAfterTouch(capacity, Put(es, k, now), k, k);
      assert Apply(capacity, es, Op<K, T>.Get(k)) == Touch(capacity, Put(es, k, now), k);
    }
  }

  /** Refreshing a held entry keeps its hits and counts one refresh. */
  lemma CountedRefresh<K, T>(capacity: Option<nat>, es: Entries<K, T>, k: K, plan: T)
    ensures Distinct(es) && Find(es, k).Some? ==>
              var was := Find(es, k).value;
              Find(Apply(capacity, es, Op<K, T>.Refresh(k, plan)), k)
                == Some(Entry(plan, false, was.hits, was.refreshedWhileHeld + 1))
  {
    hide Find, Put, Touch, Distinct;
    if Distinct(es) && Find(es, k).Some? {
      var was := Find(es, k).value;
      var now := Entry(plan, false, was.hits, was.refreshedWhileHeld + 1);
      FindAfterPut(es, k, now, k);
      FindAfterTouch(capacity, Put(es, k, now), k, k);
    }
  }

  // Whole histories.

  function Run<K(==), T>(capacity: Option<nat>, trace: seq<Op<K, T>>): Entries<K, T> {
    if trace == [] then []
    else Apply(capacity, Run(capacity, trace[..|trace| - 1]), trace[|trace| - 1])
  }

  /** The plan most recently written under a key. */
  function LastWritten<K(==), T>(trace: seq<Op<K, T>>, k: K): Option<T> {
    if trace == [] then None
    else
      var op := trace[|trace| - 1];
      if (op.Store? || op.Refresh?) && op.key == k then Some(op.plan)
      else LastWritten(trace[..|trace| - 1], k)
  }

  /** Was the key marked stale after it was last written? */
  predicate MarkedSince<K(==), T>(trace: seq<Op<K, T>>, k: K) {
    trace != [] &&
    var op := trace[|trace| - 1];
    if op.key == k && (op.Store? || op.Refresh?) then false
    else (op.MarkStale? && op.key == k) || MarkedSince(trace[..|trace| - 1], k)
  }

  lemma FindAfterTouch<K, T>(capacity: Option<nat>, d: Entries<K, T>, k: K, x: K)
    requires Distinct(d)
    ensures Distinct(Touch(capacity, d, k)) && Find(Touch(capacity, d, k), x) == Find(d, x)
  {
    var i := Position(d, k);
    if capacity.Some? && i < |d| {
      assert Touch(capacity, d, k) == d[..i] + d[i + 1..] + [d[i]];
      hide Position, Find, Touch;
      SamePairsSameFind(Touch(capacity, d, k), d, x);
    }
  }

  lemma FindAfterTrim<K, V>(capacity: Option<nat>, d: Dict<K, V>, x: K)
    requires Distinct(d)
    ensures Distinct(Trim(capacity, d))
    ensures Find(Trim(capacity, d), x).Some? ==> Find(Trim(capacity, d), x) == Find(d, x)
  {
    hide Position, Find;
    FindIsMember(d, x);
    FindIsMember(Trim(capacity, d), x);
  }

  /** Whatever was evicted or touched, an entry always holds the plan last written under its
      key and knows whether it was marked stale since. */
  lemma {:induction false} EntriesAreCurrent<K, T>(capacity: Option<nat>, trace: seq<Op<K, T>>, x: K)
    ensures Distinct(Run(capacity, trace))
    ensures match Find(Run(capacity, trace), x)
            case None => true
            case Some(e) => LastWritten(trace, x) == Some(e.plan) && e.stale == MarkedSince(trace, x)
  {
    if trace != [] {
      var front, op := trace[..|trace| - 1], trace[|trace| - 1];
      var es := Run(capacity, front);
      EntriesAreCurrent(capacity, front, x);
      ApplyKeeps(capacity, es, op, x);
    }
  }

  /** What one operation does to what is found under any key. */
  lemma ApplyKeeps<K, T>(capacity: Option<nat>, es: Entries<K, T>, op: Op<K, T>, x: K)
    requires Distinct(es)
    ensures Distinct(Apply(capacity, es, op))
    ensures match Find(Apply(capacity, es, op), x)
            case None => true
            case Some(e) =>
              if op.key == x && (op.Store? || op.Refresh?) then e.plan == op.plan && !e.stale
              else match Find(es, x)
                   case None => false
                   case Some(was) =>
                     e.plan == was.plan && e.stale == (was.stale || (op.MarkStale? && op.key == x))
  {
    hide Position, Find, Put, Touch, Trim, Distinct;
    var k := op.key;
    match op
    case Get(_) =>
      if Visible(es, k).Some? {
        var e := Find(es, k).value;
        FindAfterPut(es, k, e.(hits := e.hits + 1), x);
        FindAfterTouch(capacity, Put(es, k, e.(hits := e.hits + 1)), k, x);
      }
    case Store(_, plan) =>
      FindAfterPut(es, k, Entry(plan, false, 0, 0), x);
      FindAfterTrim(capacity, Put(es, k, Entry(plan, false, 0, 0)), x);
    case Refresh(_, plan) =>
      if Find(es, k).Some? {
        var e := Find(es, k).value;
        FindAfterPut(es, k, Entry(plan, false, e.hits, e.refreshedWhileHeld + 1), x);
        FindAfterTouch(capacity, Put(es, k, Entry(plan, false, e.hits, e.refreshedWhileHeld + 1)), k, x);
      } else {
        FindAfterPut(es, k, Entry(plan, false, 0, 0), x);
        FindAfterTrim(capacity, Put(es, k, Entry(plan, false, 0, 0)), x);
      }
    case MarkStale(_) =>
      if Find(es, k).Some? {
        FindAfterPut(es, k, Find(es, k).value.(stale := true), x);
      }
  }

  /** A lookup never serves a stale or overwritten plan: after any history it serves the last
      plan written under the key, and only if that was not marked stale since. */
  lemma NeverStaleNorOverwritten<K, T>(capacity: Option<nat>, trace: seq<Op<K, T>>, k: K)
    ensures Visible(Run(capacity, trace), k).Some? ==>
              Visible(Run(capacity, trace), k) == LastWritten(trace, k) && !MarkedSince(trace, k)
  {
    EntriesAreCurrent(capacity, trace, k);
  }

  // Recency.

  function Order<K, V>(d: Dict<K, V>): (ks: seq<K>)
    ensures |ks| == |d| && forall i :: 0 <= i < |d| ==> ks[i] == d[i].0
  {
    seq(|d|, i requires 0 <= i < |d| => d[i].0)
  }

  /** Operations that make their key the most recent one: an insertion, a served lookup, a
      refresh. Overwriting a held key is not one of them. */
  predicate Touches<K(==), T>(es: Entries<K, T>, op: Op<K, T>) {
    match op
    case Get(k) => Visible(es, k).Some?
    case Store(k, _) => Find(es, k).None?
    case Refresh(_, _) => true
    case MarkStale(_) => false
  }

  /** When the key was last made the most recent one; zero for never. */
  function LastTouch<K(==), T>(capacity: Option<nat>, trace: seq<Op<K, T>>, k: K): nat {
    if trace == [] then 0
    else
      var front, op := trace[..|trace| - 1], trace[|trace| - 1];
      if op.key == k && Touches(Run(capacity, front), op) then |trace| else LastTouch(capacity, front, k)
  }

  /** Remove a key from a list of distinct keys. */
  function Without<K(==)>(ks: seq<K>, k: K): seq<K> {
    if ks == [] then [] else (if ks[0] == k then [] else [ks[0]]) + Without(ks[1..], k)
  }

  lemma {:induction false} WithoutAbsent<K>(ks: seq<K>, k: K)
    requires k !in ks
    ensures Without(ks, k) == ks
  {
    if ks != [] {
      WithoutAbsent(ks[1..], k);
    }
  }

  lemma {:induction false} WithoutIndex<K>(ks: seq<K>, i: nat)
    requires i < |ks| && forall a, b :: 0 <= a < b < |ks| ==> ks[a] != ks[b]
    ensures Without(ks, ks[i]) == ks[..i] + ks[i + 1..]
  {
    if i == 0 {
      WithoutAbsent(ks[1..], ks[0]);
    } else {
      WithoutIndex(ks[1..], i - 1);
      assert ks[1..][..i - 1] == ks[1..i] && ks[1..][i..] == ks[i + 1..] && ks[..i] == [ks[0]] + ks[1..i];
    }
  }

  lemma WithoutAt<K, V>(d: Dict<K, V>, k: K)
    requires Distinct(d)
    ensures Without(Order(d), k) == Order(Remove(d, k))
  {
    var i, ks := Position(d, k), Order(d);
    if i < |d| {
      WithoutIndex(ks, i);
      assert Order(Remove(d, k)) == ks[..i] + ks[i + 1..];
    } else {
      WithoutAbsent(ks, k);
    }
  }

  lemma OrderAfterPut<K, V>(d: Dict<K, V>, k: K, v: V)
    requires Distinct(d)
    ensures Order(Put(d, k, v)) == if Find(d, k).Some? then Order(d) else Without(Order(d), k) + [k]
  {
    if Find(d, k).None? {
      WithoutAt(d, k);
    }
  }

  lemma OrderAfterTouch<K, T>(capacity: nat, d: Entries<K, T>, k: K)
    requires Distinct(d) && Find(d, k).Some?
    ensures Order(Touch(Some(capacity), d, k)) == Without(Order(d), k) + [k]
  {
    WithoutAt(d, k);
  }

  lemma {:induction false} WithoutIs<K>(ks: seq<K>, k: K)
    requires forall i, j :: 0 <= i < j < |ks| ==> ks[i] != ks[j]
    ensures |Without(ks, k)| == |ks| - if k in ks then 1 else 0
    ensures forall i :: 0 <= i < |Without(ks, k)| ==> Without(ks, k)[i] in ks && Without(ks, k)[i] != k
    ensures forall x :: x in ks && x != k ==> x in Without(ks, k)
  {
    if ks != [] {
      WithoutIs(ks[1..], k);
      assert ks == [ks[0]] + ks[1..];
    }
  }

  /** One operation on a bounded cache either keeps the order or moves its key to the end and
      drops from the front. */
  lemma ApplyOrder<K, T>(capacity: nat, es: Entries<K, T>, op: Op<K, T>)
    requires Distinct(es) && |es| <= capacity
    ensures Order(Apply(Some(capacity), es, op))
         == if Touches(es, op) then Trim(Some(capacity), Without(Order(es), op.key) + [op.key]) else Order(es)
  {
    hide Put, Touch, Position, Find, Without, Distinct;
    var k := op.key;
    match op
    case Get(_) =>
      if Visible(es, k).Some? {
        var e := Find(es, k).value;
        PutThenTouch(capacity, es, k, e.(hits := e.hits + 1));
      }
    case Store(_, plan) =>
      OrderAfterPut(es, k, Entry(plan, false, 0, 0));
    case Refresh(_, plan) =>
      if Find(es, k).Some? {
        var e := Find(es, k).value;
        PutThenTouch(capacity, es, k, Entry(plan, false, e.hits, e.refreshedWhileHeld + 1));
      } else {
        OrderAfterPut(es, k, Entry(plan, false, 0, 0));
      }
    case MarkStale(_) =>
      if Find(es, k).Some? {
        OrderAfterPut(es, k, Find(es, k).value.(stale := true));
      }
  }

  lemma PutThenTouch<K, T>(capacity: nat, es: Entries<K, T>, k: K, e: Entry<T>)
    requires Distinct(es) && Find(es, k).Some? && |es| <= capacity
    ensures Order(Touch(Some(capacity), Put(es, k, e), k)) == Without(Order(es), k) + [k]
    ensures |Without(Order(es), k) + [k]| <= capacity
  {
    FindAfterPut(es, k, e, k);
    OrderAfterPut(es, k, e);
    OrderAfterTouch(capacity, Put(es, k, e), k);
    FindIsMember(es, k);
    WithoutIs(Order(es), k);
  }

  ghost predicate Ascending<K>(ks: seq<K>, stamp: K -> nat) {
    forall i, j :: 0 <= i < j < |ks| ==> stamp(ks[i]) < stamp(ks[j])
  }

  lemma {:induction false} WithoutAscending<K(!new)>(ks: seq<K>, k: K, stamp: K -> nat)
    requires Ascending(ks, stamp)
    ensures Ascending(Without(ks, k), stamp)
    ensures forall x :: x in Without(ks, k) <==> x in ks && x != k
  {
    if ks != [] {
      var rest := ks[1..];
      WithoutAscending(rest, k, stamp);
      assert ks == [ks[0]] + rest;
      forall x | x in Without(rest, k) ensures stamp(ks[0]) < stamp(x) {
        assert x in rest;
        var m :| 0 <= m < |rest| && rest[m] == x;
        assert ks[m + 1] == x;
      }
    }
  }

  function Stamps<K(==), T>(capacity: nat, trace: seq<Op<K, T>>): K -> nat {
    k => LastTouch(Some(capacity), trace, k)
  }

  ghost predicate InRecencyOrder<K(!new), T>(capacity: nat, trace: seq<Op<K, T>>) {
    var es := Run(Some(capacity), trace);
    && Distinct(es) && |es| <= capacity && Ascending(Order(es), Stamps(capacity, trace))
    && forall k :: Stamps(capacity, trace)(k) <= |trace|
  }

  /** A bounded cache never outgrows its capacity and keeps its keys in order of their last
      insertion, served lookup or refresh. */
  lemma {:induction false} RecencyOrder<K(!new), T>(capacity: nat, trace: seq<Op<K, T>>)
    ensures InRecencyOrder(capacity, trace)
  {
    if trace != [] {
      var front, op := trace[..|trace| - 1], trace[|trace| - 1];
      RecencyOrder(capacity, front);
      assert trace == front + [op];
      hide InRecencyOrder, Run, Stamps, LastTouch;
      RecencyNext(capacity, front, op);
    }
  }

  lemma RunNext<K, T>(capacity: Option<nat>, front: seq<Op<K, T>>, op: Op<K, T>)
    ensures Run(capacity, front + [op]) == Apply(capacity, Run(capacity, front), op)
  {
    assert (front + [op])[..|front|] == front;
  }

  lemma RecencyNext<K(!new), T>(capacity: nat, front: seq<Op<K, T>>, op: Op<K, T>)
    requires InRecencyOrder(capacity, front)
    ensures InRecencyOrder(capacity, front + [op])
  {
    hide Apply, Run, Stamps, Touches, Without, Distinct, LastTouch;
    var es := Run(Some(capacity), front);
    RunNext(Some(capacity), front, op);
    ApplyKeeps(Some(capacity), es, op, op.key);
    AfterOperation(capacity, es, op);
    ApplyOrder(capacity, es, op);
    FullOrder(capacity, front, op);
  }

  lemma StampsNext<K(!new), T>(capacity: nat, front: seq<Op<K, T>>, op: Op<K, T>)
    ensures forall k :: Stamps(capacity, front + [op])(k)
                     == if k == op.key && Touches(Run(Some(capacity), front), op) then |front| + 1
                        else Stamps(capacity, front)(k)
  {
    assert (front + [op])[..|front|] == front;
    hide Touches, Run;
  }

  /** Before the trimming: the old keys without the touched one, then the touched one, are in
      order of the new stamps. */
  lemma FullOrder<K(!new), T>(capacity: nat, front: seq<Op<K, T>>, op: Op<K, T>)
    requires var es := Run(Some(capacity), front);
             Distinct(es) && Ascending(Order(es), Stamps(capacity, front))
    requires forall k :: Stamps(capacity, front)(k) <= |front|
    ensures var es, stamp := Run(Some(capacity), front), Stamps(capacity, front + [op]);
            if Touches(es, op) then Ascending(Without(Order(es), op.key) + [op.key], stamp)
            else Ascending(Order(es), stamp)
    ensures forall k :: Stamps(capacity, front + [op])(k) <= |front| + 1
  {
    var es := Run(Some(capacity), front);
    var was, now := Stamps(capacity, front), Stamps(capacity, front + [op]);
    hide Touches, Stamps, Run, LastTouch, Without, Distinct;
    StampsNext(capacity, front, op);
    WithoutAscending(Order(es), op.key, was);
    var w := Without(Order(es), op.key);
    forall i | 0 <= i < |w| ensures w[i] != op.key && now(w[i]) == was(w[i]) {
      assert w[i] in w;
    }
  }

  /** Only inserting a new key into a full cache evicts, and what it evicts was touched before
      everything it keeps. */
  lemma EvictsLeastRecent<K(!new), T>(capacity: nat, trace: seq<Op<K, T>>, op: Op<K, T>, k: K)
    requires k in Order(Run(Some(capacity), trace)) && k !in Order(Run(Some(capacity), trace + [op]))
    ensures (op.Store? || op.Refresh?) && op.key !in Order(Run(Some(capacity), trace))
    ensures |Run(Some(capacity), trace)| == capacity
    ensures forall x :: x in Order(Run(Some(capacity), trace + [op])) ==>
              Stamps(capacity, trace + [op])(k) < Stamps(capacity, trace + [op])(x)
  {
    var es := Run(Some(capacity), trace);
    var full := Without(Order(es), op.key) + [op.key];
    RecencyOrder(capacity, trace);
    ApplyOrder(capacity, es, op);
    assert (trace + [op])[..|trace|] == trace;
    FullOrder(capacity, trace, op);
    WithoutIs(Order(es), op.key);
    assert Touches(es, op);
    assert k in full;
  }

  /** The keys held are exactly the most recently touched ones: a touched key is missing only
      from a full cache, and only when everything held was touched after it. */
  lemma {:induction false} HeldAreMostRecent<K(!new), T>(capacity: nat, trace: seq<Op<K, T>>, y: K)
    requires y !in Order(Run(Some(capacity), trace)) && Stamps(capacity, trace)(y) > 0
    ensures |Run(Some(capacity), trace)| == capacity
    ensures forall x :: x in Order(Run(Some(capacity), trace)) ==>
              Stamps(capacity, trace)(y) < Stamps(capacity, trace)(x)
  {
    var front, op := trace[..|trace| - 1], trace[|trace| - 1];
    var es := Run(Some(capacity), front);
    assert trace == front + [op];
    assert Run(Some(capacity), trace) == Apply(Some(capacity), es, op);
    RecencyOrder(capacity, front);
    StampsNext(capacity, front, op);
    AfterOperation(capacity, es, op);
    hide Apply, LastTouch, Touches, Stamps, Run, Distinct;
    if y in Order(es) {
      EvictsLeastRecent(capacity, front, op, y);
      EvictionFills(capacity, es, op);
    } else if Stamps(capacity, front)(y) > 0 {
      HeldAreMostRecent(capacity, front, y);
    }
  }

  /** What one operation on a bounded cache does to the set of keys held. */
  lemma AfterOperation<K(!new), T>(capacity: nat, es: Entries<K, T>, op: Op<K, T>)
    requires Distinct(es) && |es| <= capacity
    ensures var after := Apply(Some(capacity), es, op);
            && (forall x :: x in Order(after) ==> x in Order(es) || (x == op.key && Touches(es, op)))
            && (Touches(es, op) && capacity > 0 ==> op.key in Order(after))
            && |after| <= capacity && (|es| == capacity ==> |after| == capacity)
  {
    ApplyOrder(capacity, es, op);
    WithoutIs(Order(es), op.key);
    var after, order := Apply(Some(capacity), es, op), Order(es);
    var rest := Without(order, op.key);
    assert |after| == |Order(after)|;
    TrimTail(capacity, rest, op.key);
    hide Apply, Touches, Without, Trim, Distinct;
    assert forall x :: x in rest ==> x in order;
  }

  lemma TrimTail<K(!new)>(capacity: nat, s: seq<K>, k: K)
    ensures var t := Trim(Some(capacity), s + [k]);
            && |t| == (if |s| < capacity then |s| + 1 else capacity)
            && (capacity > 0 ==> k in t) && forall x :: x in t ==> x == k || x in s
  {
    var t := Trim(Some(capacity), s + [k]);
    if capacity > 0 {
      assert t[|t| - 1] == k;
    }
  }

  lemma EvictionFills<K, T>(capacity: nat, es: Entries<K, T>, op: Op<K, T>)
    requires Distinct(es) && |es| == capacity && op.key !in Order(es) && (op.Store? || op.Refresh?)
    ensures |Apply(Some(capacity), es, op)| == capacity
  {
  }

  /** Without a capacity a lookup serves exactly the last written plan, unless marked since. */
  lemma {:induction false} UnboundedServesLastWritten<K, T>(trace: seq<Op<K, T>>, k: K)
    ensures Visible(Run(None, trace), k) == if MarkedSince(trace, k) then None else LastWritten(trace, k)
  {
    EntriesAreCurrent(None, trace, k);
    WrittenIsHeld(trace, k);
  }

  lemma {:induction false} WrittenIsHeld<K, T>(trace: seq<Op<K, T>>, k: K)
    ensures LastWritten(trace, k).Some? ==> Find(Run(None, trace), k).Some?
  {
    if trace != [] {
      var front, op := trace[..|trace| - 1], trace[|trace| - 1];
      WrittenIsHeld(front, k);
      EntriesAreCurrent(None, front, k);
      UnboundedHolds(Run(None, front), op, k);
    }
  }

  lemma UnboundedHolds<K, T>(es: Entries<K, T>, op: Op<K, T>, x: K)
    requires Distinct(es)
    ensures Find(es, x).Some? || (op.key == x && (op.Store? || op.Refresh?)) ==> Find(Apply(None, es, op), x).Some?
  {
    hide Position, Find, Put, Distinct;
    match op
    case Get(k) =>
      if Visible(es, k).Some? {
        var e := Find(es, k).value;
        FindAfterPut(es, k, e.(hits := e.hits + 1), x);
        FindAfterTouch(None, Put(es, k, e.(hits := e.hits + 1)), k, x);
      }
    case Store(k, plan) =>
      FindAfterPut(es, k, Entry(plan, false, 0, 0), x);
    case Refresh(k, plan) =>
      if Find(es, k).Some? {
        var e := Find(es, k).value;
        FindAfterPut(es, k, Entry(plan, false, e.hits, e.refreshedWhileHeld + 1), x);
        FindAfterTouch(None, Put(es, k, Entry(plan, false, e.hits, e.refreshedWhileHeld + 1)), k, x);
      } else {
        FindAfterPut(es, k, Entry(plan, false, 0, 0), x);
      }
    case MarkStale(k) =>
      if Find(es, k).Some? {
        FindAfterPut(es, k, Find(es, k).value.(stale := true), x);
      }
  }
}
