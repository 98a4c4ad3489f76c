/** The log-structured merge tree of src/lsm.c: a sorted memtable over immutable sorted
    tables, newest first, and the files that hold them.

    One model serves both modes: entries are grouped by key (unique mode) or by
    (key, value) pair (multi mode), and the newest entry of a group decides. */
module Lsm {
  import opened Wrappers

  datatype Entry = Entry(key: int, val: int, tomb: bool)

  /** What an entry replaces: in unique mode every entry of its key, in multi mode only its own pair. */
  datatype Group = Group(key: int, val: int)

  function GroupOf(multi: bool, e: Entry): Group {
    Group(e.key, if multi then e.val else 0)
  }

  predicate Less(a: Group, b: Group) {
    a.key < b.key || (a.key == b.key && a.val < b.val)
  }

  /** Strictly ascending groups. */
  ghost predicate IsRun(multi: bool, es: seq<Entry>) {
    forall i, j | 0 <= i < j < |es| :: Less(GroupOf(multi, es[i]), GroupOf(multi, es[j]))
  }

  function Find(multi: bool, es: seq<Entry>, g: Group): Option<Entry> {
    if es == [] then None else if GroupOf(multi, es[0]) == g then Some(es[0]) else Find(multi, es[1..], g)
  }

  /** A table and its sequence number: the larger, the newer. */
  datatype Table = Table(id: nat, run: seq<Entry>)

  /** The newest entry of a group; tables are listed oldest first. */
  function Newest(multi: bool, ts: seq<Table>, g: Group): Option<Entry>
    decreases |ts|
  {
    if ts == [] then None else
      var n := |ts| - 1;
      var e := Find(multi, ts[n].run, g);
      if e.Some? then e else Newest(multi, ts[..n], g)
  }

  function Value(e: Option<Entry>): Option<int> {
    if e.Some? && !e.value.tomb then Some(e.value.val) else None
  }

  // ----- finding -----

  lemma {:induction false} FindSound(multi: bool, es: seq<Entry>, g: Group)
    ensures var e := Find(multi, es, g); e.Some? ==> e.value in es && GroupOf(multi, e.value) == g
  {
    if es != [] { FindSound(multi, es[1..], g); }
  }

  lemma {:induction false} FindExact(multi: bool, es: seq<Entry>, i: nat)
    requires IsRun(multi, es) && i < |es|
    ensures Find(multi, es, GroupOf(multi, es[i])) == Some(es[i])
  {
    if i > 0 {
      FindExact(multi, es[1..], i - 1);
      assert GroupOf(multi, es[0]) != GroupOf(multi, es[i]);
    }
  }

  lemma FindNone(multi: bool, es: seq<Entry>, g: Group)
    requires forall i | 0 <= i < |es| :: GroupOf(multi, es[i]) != g
    ensures Find(multi, es, g) == None
  {
    FindSound(multi, es, g);
  }

  lemma {:induction false} FindJoin(multi: bool, a: seq<Entry>, b: seq<Entry>, g: Group)
    ensures Find(multi, a + b, g) == var e := Find(multi, a, g); if e.Some? then e else Find(multi, b, g)
  {
    if a == [] {
      assert a + b == b;
    } else {
      assert (a + b)[1..] == a[1..] + b;
      FindJoin(multi, a[1..], b, g);
    }
  }

  // ----- writing to the memtable -----

  /** mem_upsert and mem_upsert_dup: replace the entry of the group, or insert in order. */
  function Upsert(multi: bool, mem: seq<Entry>, e: Entry): seq<Entry> {
    if mem == [] then [e]
    else if GroupOf(multi, mem[0]) == GroupOf(multi, e) then [e] + mem[1..]
    else if Less(GroupOf(multi, e), GroupOf(multi, mem[0])) then [e] + mem
    else [mem[0]] + Upsert(multi, mem[1..], e)
  }

  /** The position the binary search finds: everything before is smaller, everything from it on is not. */
  ghost predicate Splits(multi: bool, mem: seq<Entry>, g: Group, pos: nat) {
    && pos <= |mem|
    && (forall i | 0 <= i < pos :: Less(GroupOf(multi, mem[i]), g))
    && forall i | pos <= i < |mem| :: !Less(GroupOf(multi, mem[i]), g)
  }

  lemma {:induction false} UpsertAt(multi: bool, mem: seq<Entry>, e: Entry, pos: nat)
    requires IsRun(multi, mem) && Splits(multi, mem, GroupOf(multi, e), pos)
    ensures Upsert(multi, mem, e) ==
            if pos < |mem| && GroupOf(multi, mem[pos]) == GroupOf(multi, e) then mem[pos := e]
            else mem[..pos] + [e] + mem[pos..]
  {
    if pos > 0 {
      var head, rest := mem[0], mem[1..];
      UpsertAt(multi, rest, e, pos - 1);
      assert Upsert(multi, mem, e) == [head] + Upsert(multi, rest, e);
      assert mem[..pos] == [head] + rest[..pos - 1] && mem[pos..] == rest[pos - 1..];
      if pos < |mem| { assert mem[pos := e] == [head] + rest[pos - 1 := e]; }
    } else if mem != [] {
      assert mem[..0] + [e] + mem[0..] == [e] + mem && mem[0 := e] == [e] + mem[1..];
    }
  }

  lemma {:induction false} UpsertFind(multi: bool, mem: seq<Entry>, e: Entry, g: Group)
    requires IsRun(multi, mem)
    ensures Find(multi, Upsert(multi, mem, e), g) == if g == GroupOf(multi, e) then Some(e) else Find(multi, mem, g)
  {
    if mem != [] && Less(GroupOf(multi, mem[0]), GroupOf(multi, e)) {
      var rest := Upsert(multi, mem[1..], e);
      UpsertFind(multi, mem[1..], e, g);
      assert ([mem[0]] + rest)[1..] == rest;
    } else if mem != [] {
      assert ([e] + mem[1..])[1..] == mem[1..] && ([e] + mem)[1..] == mem;
    }
  }

  lemma {:induction false} UpsertHead(multi: bool, mem: seq<Entry>, e: Entry, low: Group)
    requires Less(low, GroupOf(multi, e)) && forall i | 0 <= i < |mem| :: Less(low, GroupOf(multi, mem[i]))
    ensures forall i | 0 <= i < |Upsert(multi, mem, e)| :: Less(low, GroupOf(multi, Upsert(multi, mem, e)[i]))
  {
    if mem != [] { UpsertHead(multi, mem[1..], e, low); }
  }

  lemma ConsRun(multi: bool, e: Entry, es: seq<Entry>)
    requires IsRun(multi, es) && forall i | 0 <= i < |es| :: Less(GroupOf(multi, e), GroupOf(multi, es[i]))
    ensures IsRun(multi, [e] + es)
  {
  }

  lemma {:induction false} UpsertRun(multi: bool, mem: seq<Entry>, e: Entry)
    requires IsRun(multi, mem)
    ensures IsRun(multi, Upsert(multi, mem, e))
  {
    if mem != [] {
      if GroupOf(multi, mem[0]) == GroupOf(multi, e) || Less(GroupOf(multi, e), GroupOf(multi, mem[0])) {
        ConsRun(multi, e, if GroupOf(multi, mem[0]) == GroupOf(multi, e) then mem[1..] else mem);
      } else {
        UpsertRun(multi, mem[1..], e);
        UpsertHead(multi, mem[1..], e, GroupOf(multi, mem[0]));
        ConsRun(multi, mem[0], Upsert(multi, mem[1..], e));
      }
    }
  }

  // ----- merging: collect, arrange, keep the first of each group -----

  /** An entry with the priority of the table it comes from. */
  datatype Tagged = Tagged(entry: Entry, prio: nat)

  function Tag(es: seq<Entry>, prio: nat): seq<Tagged> {
    seq(|es|, i requires 0 <= i < |es| => Tagged(es[i], prio))
  }

  function Collect(ts: seq<Table>): seq<Tagged>
    decreases |ts|
  {
    if ts == [] then [] else Collect(ts[..|ts| - 1]) + Tag(ts[|ts| - 1].run, ts[|ts| - 1].id)
  }

  /** mentry_cmp and mentry_cmp_multi: groups ascending, within a group the newest first. */
  predicate Before(multi: bool, a: Tagged, b: Tagged) {
    var g, h := GroupOf(multi, a.entry), GroupOf(multi, b.entry);
    Less(g, h) || (g == h && a.prio >= b.prio)
  }

  ghost predicate Arranged(multi: bool, xs: seq<Tagged>) {
    forall i, j | 0 <= i < j < |xs| :: Before(multi, xs[i], xs[j])
  }

  function Insert(multi: bool, xs: seq<Tagged>, x: Tagged): seq<Tagged> {
    if xs == [] || Before(multi, x, xs[0]) then [x] + xs else [xs[0]] + Insert(multi, xs[1..], x)
  }

  /** The call of qsort: some arrangement of the same entries. */
  function Arrange(multi: bool, xs: seq<Tagged>): seq<Tagged> {
    if xs == [] then [] else Insert(multi, Arrange(multi, xs[1..]), xs[0])
  }

  lemma {:induction false} InsertMembers(multi: bool, xs: seq<Tagged>, x: Tagged)
    ensures multiset(Insert(multi, xs, x)) == multiset(xs) + multiset{x}
  {
    if xs != [] && !Before(multi, x, xs[0]) {
      InsertMembers(multi, xs[1..], x);
      assert xs == [xs[0]] + xs[1..];
    }
  }

  ghost predicate Leads(multi: bool, x: Tagged, xs: seq<Tagged>) {
    forall i | 0 <= i < |xs| :: Before(multi, x, xs[i])
  }

  lemma ConsArranged(multi: bool, x: Tagged, xs: seq<Tagged>)
    requires Arranged(multi, xs) && Leads(multi, x, xs)
    ensures Arranged(multi, [x] + xs)
  {
  }

  lemma {:induction false} InsertLeads(multi: bool, xs: seq<Tagged>, x: Tagged, low: Tagged)
    requires Leads(multi, low, xs) && Before(multi, low, x)
    ensures Leads(multi, low, Insert(multi, xs, x))
  {
    if xs != [] && !Before(multi, x, xs[0]) { InsertLeads(multi, xs[1..], x, low); }
  }

  lemma {:induction false} InsertKeeps(multi: bool, xs: seq<Tagged>, x: Tagged)
    requires Arranged(multi, xs)
    ensures Arranged(multi, Insert(multi, xs, x))
  {
    if xs == [] {
    } else if Before(multi, x, xs[0]) {
      ConsArranged(multi, x, xs);
    } else {
      InsertKeeps(multi, xs[1..], x);
      InsertLeads(multi, xs[1..], x, xs[0]);
      ConsArranged(multi, xs[0], Insert(multi, xs[1..], x));
    }
  }

  lemma {:induction false} ArrangeKeeps(multi: bool, xs: seq<Tagged>)
    ensures Arranged(multi, Arrange(multi, xs)) && multiset(Arrange(multi, xs)) == multiset(xs)
  {
    if xs != [] {
      ArrangeKeeps(multi, xs[1..]);
      InsertKeeps(multi, Arrange(multi, xs[1..]), xs[0]);
      InsertMembers(multi, Arrange(multi, xs[1..]), xs[0]);
      assert xs == [xs[0]] + xs[1..];
    }
  }

  lemma ArrangeMembers(multi: bool, xs: seq<Tagged>, x: Tagged)
    ensures x in Arrange(multi, xs) <==> x in xs
  {
    ArrangeKeeps(multi, xs);
    assert x in xs <==> x in multiset(xs);
    assert x in Arrange(multi, xs) <==> x in multiset(Arrange(multi, xs));
  }

  /** same_group. */
  predicate SameGroup(multi: bool, a: Tagged, b: Tagged) {
    a.entry.key == b.entry.key && (!multi || a.entry.val == b.entry.val)
  }

  /** Past the older versions of `cur` that start at i. */
  function GroupEnd(multi: bool, xs: seq<Tagged>, i: nat, cur: Tagged): (n: nat)
    requires i <= |xs|
    ensures i <= n <= |xs| && (n < |xs| ==> !SameGroup(multi, xs[n], cur))
    ensures forall k | i <= k < n :: SameGroup(multi, xs[k], cur)
    decreases |xs| - i
  {
    if i < |xs| && SameGroup(multi, xs[i], cur) then GroupEnd(multi, xs, i + 1, cur) else i
  }

  function Live(e: Entry): seq<Entry> {
    if e.tomb then [] else [Entry(e.key, e.val, false)]
  }

  /** From i on, the newest entry of every group, except those that are tombstones. */
  function Survivors(multi: bool, xs: seq<Tagged>, i: nat): seq<Entry>
    decreases |xs| - i
  {
    if i >= |xs| then [] else Live(xs[i].entry) + Survivors(multi, xs, GroupEnd(multi, xs, i + 1, xs[i]))
  }

  /** The first entry of a group in an arrangement, from i on. */
  function FirstOf(multi: bool, xs: seq<Tagged>, i: nat, g: Group): Option<Entry>
    decreases |xs| - i
  {
    if i >= |xs| then None
    else if GroupOf(multi, xs[i].entry) == g then Some(xs[i].entry) else FirstOf(multi, xs, i + 1, g)
  }

  lemma {:induction false} FirstSkips(multi: bool, xs: seq<Tagged>, i: nat, n: nat, g: Group)
    requires i <= n <= |xs| && forall k | i <= k < n :: GroupOf(multi, xs[k].entry) != g
    ensures FirstOf(multi, xs, i, g) == FirstOf(multi, xs, n, g)
    decreases n - i
  {
    if i < n { FirstSkips(multi, xs, i + 1, n, g); }
  }

  ghost predicate AllAbove(multi: bool, es: seq<Entry>, g: Group) {
    forall i | 0 <= i < |es| :: Less(g, GroupOf(multi, es[i]))
  }

  ghost predicate AllLater(multi: bool, xs: seq<Tagged>, i: nat, g: Group) {
    forall k | i <= k < |xs| :: Less(g, GroupOf(multi, xs[k].entry))
  }

  lemma {:induction false} SurvivorsAbove(multi: bool, xs: seq<Tagged>, i: nat, g: Group)
    requires AllLater(multi, xs, i, g)
    ensures AllAbove(multi, Survivors(multi, xs, i), g)
    decreases |xs| - i
  {
    if i < |xs| { SurvivorsAbove(multi, xs, GroupEnd(multi, xs, i + 1, xs[i]), g); }
  }

  lemma RestLater(multi: bool, xs: seq<Tagged>, i: nat)
    requires Arranged(multi, xs) && i < |xs|
    ensures AllLater(multi, xs, GroupEnd(multi, xs, i + 1, xs[i]), GroupOf(multi, xs[i].entry))
  {
    var n := GroupEnd(multi, xs, i + 1, xs[i]);
    forall k | n <= k < |xs|
      ensures Less(GroupOf(multi, xs[i].entry), GroupOf(multi, xs[k].entry))
    {
      assert Before(multi, xs[i], xs[n]) && (k > n ==> Before(multi, xs[n], xs[k]));
    }
  }

  /** The survivors are a run, with one entry for each group whose first entry is live. */
  lemma {:induction false} SurvivorsRun(multi: bool, xs: seq<Tagged>, i: nat)
    requires Arranged(multi, xs)
    ensures IsRun(multi, Survivors(multi, xs, i))
    decreases |xs| - i
  {
    if i < |xs| {
      var n, e := GroupEnd(multi, xs, i + 1, xs[i]), xs[i].entry;
      RestLater(multi, xs, i);
      SurvivorsRun(multi, xs, n);
      SurvivorsAbove(multi, xs, n, GroupOf(multi, e));
      if !e.tomb { ConsRun(multi, Entry(e.key, e.val, false), Survivors(multi, xs, n)); }
    }
  }

  function Keep(e: Option<Entry>): Option<Entry> {
    if e.Some? && !e.value.tomb then e else None
  }

  lemma FindLive(multi: bool, e: Entry, g: Group)
    ensures Find(multi, Live(e), g) == if g == GroupOf(multi, e) then Keep(Some(e)) else None
  {
  }

  lemma {:induction false} SurvivorsFind(multi: bool, xs: seq<Tagged>, i: nat, g: Group)
    requires Arranged(multi, xs)
    ensures Find(multi, Survivors(multi, xs, i), g) == Keep(FirstOf(multi, xs, i, g))
    decreases |xs| - i
  {
    if i < |xs| {
      var n, e := GroupEnd(multi, xs, i + 1, xs[i]), xs[i].entry;
      RestLater(multi, xs, i);
      SurvivorsFind(multi, xs, n, g);
      FindJoin(multi, Live(e), Survivors(multi, xs, n), g);
      FindLive(multi, e, g);
      if g == GroupOf(multi, e) {
        SurvivorsAbove(multi, xs, n, g);
        FindNone(multi, Survivors(multi, xs, n), g);
      } else {
        FirstSkips(multi, xs, i, n, g);
      }
    }
  }

  // ----- the first of a group is the newest -----

  /** Tables in the order of their numbers, each a run. */
  ghost predicate Layered(multi: bool, ts: seq<Table>) {
    && (forall i, j | 0 <= i < j < |ts| :: ts[i].id < ts[j].id)
    && forall i | 0 <= i < |ts| :: IsRun(multi, ts[i].run)
  }

  ghost predicate Held(ts: seq<Table>, x: Tagged, i: nat) {
    i < |ts| && ts[i].id == x.prio && x.entry in ts[i].run
  }

  lemma {:induction false} CollectHas(ts: seq<Table>, x: Tagged)
    ensures x in Collect(ts) <==> exists i: nat :: Held(ts, x, i)
    decreases |ts|
  {
    if ts != [] {
      var n := |ts| - 1;
      CollectHas(ts[..n], x);
      TagHas(ts[n].run, ts[n].id, x);
      if x in Collect(ts[..n]) {
        var i: nat :| Held(ts[..n], x, i);
        assert Held(ts, x, i);
      } else if i: nat :| Held(ts, x, i) && i < n {
        assert Held(ts[..n], x, i);
      }
      assert x in Tag(ts[n].run, ts[n].id) <==> Held(ts, x, n);
    }
  }

  lemma TagHas(es: seq<Entry>, prio: nat, x: Tagged)
    ensures x in Tag(es, prio) <==> x.prio == prio && x.entry in es
  {
    if x.prio == prio && x.entry in es {
      var i :| 0 <= i < |es| && es[i] == x.entry;
      assert Tag(es, prio)[i] == x;
    }
  }

  lemma {:induction false} FirstSound(multi: bool, xs: seq<Tagged>, from: nat, g: Group) returns (i: nat)
    requires FirstOf(multi, xs, from, g).Some?
    ensures from <= i < |xs| && xs[i].entry == FirstOf(multi, xs, from, g).value && GroupOf(multi, xs[i].entry) == g
    ensures forall j | from <= j < i :: GroupOf(multi, xs[j].entry) != g
    decreases |xs| - from
  {
    if GroupOf(multi, xs[from].entry) == g { i := from; } else { i := FirstSound(multi, xs, from + 1, g); }
  }

  lemma {:induction false} FirstNone(multi: bool, xs: seq<Tagged>, from: nat, g: Group, i: nat)
    requires from <= i < |xs| && GroupOf(multi, xs[i].entry) == g
    ensures FirstOf(multi, xs, from, g).Some?
    decreases i - from
  {
    if from < i { FirstNone(multi, xs, from + 1, g, i); }
  }

  /** The newest entry comes from some table, and no later table has one. */
  lemma {:induction false} NewestSound(multi: bool, ts: seq<Table>, g: Group) returns (n: nat)
    requires Newest(multi, ts, g).Some?
    ensures n < |ts| && Find(multi, ts[n].run, g) == Newest(multi, ts, g)
    ensures forall j | n < j < |ts| :: Find(multi, ts[j].run, g) == None
    decreases |ts|
  {
    n := |ts| - 1;
    if Find(multi, ts[n].run, g) == None {
      n := NewestSound(multi, ts[..n], g);
    }
  }

  lemma {:induction false} NewestNone(multi: bool, ts: seq<Table>, g: Group, n: nat)
    requires n < |ts| && Find(multi, ts[n].run, g).Some?
    ensures Newest(multi, ts, g).Some?
    decreases |ts|
  {
    if n < |ts| - 1 { NewestNone(multi, ts[..|ts| - 1], g, n); }
  }

  /** An entry of a group that some table holds. */
  lemma EntryFound(multi: bool, ts: seq<Table>, x: Tagged) returns (n: nat)
    requires Layered(multi, ts) && x in Collect(ts)
    ensures n < |ts| && ts[n].id == x.prio && Find(multi, ts[n].run, GroupOf(multi, x.entry)) == Some(x.entry)
  {
    CollectHas(ts, x);
    n :| Held(ts, x, n);
    var i :| 0 <= i < |ts[n].run| && ts[n].run[i] == x.entry;
    FindExact(multi, ts[n].run, i);
  }

  lemma OlderBelow(multi: bool, ts: seq<Table>, m: nat, n: nat)
    requires Layered(multi, ts) && m <= n < |ts|
    ensures ts[m].id <= ts[n].id && (ts[m].id == ts[n].id ==> m == n)
  {
  }

  lemma FirstFirst(multi: bool, xs: seq<Tagged>, i: nat, j: nat)
    requires Arranged(multi, xs) && i <= j < |xs| && GroupOf(multi, xs[i].entry) == GroupOf(multi, xs[j].entry)
    ensures xs[i].prio >= xs[j].prio
  {
    assert i < j ==> Before(multi, xs[i], xs[j]);
  }

  /** The entries of these tables in the order of the comparison function. */
  ghost predicate Arrangement(multi: bool, ts: seq<Table>, xs: seq<Tagged>) {
    Arranged(multi, xs) && forall x :: x in xs <==> x in Collect(ts)
  }

  lemma NewestArranged(multi: bool, ts: seq<Table>, xs: seq<Tagged>, g: Group)
    requires Layered(multi, ts) && Newest(multi, ts, g).Some? && Arrangement(multi, ts, xs)
    ensures FirstOf(multi, xs, 0, g) == Newest(multi, ts, g)
  {
    var n := NewestSound(multi, ts, g);
    var y := Tagged(Newest(multi, ts, g).value, ts[n].id);
    FindSound(multi, ts[n].run, g);
    CollectHas(ts, y);
    assert Held(ts, y, n);
    assert y in xs;
    var j: nat :| j < |xs| && xs[j] == y;
    FirstNone(multi, xs, 0, g, j);
    var i := FirstSound(multi, xs, 0, g);
    assert xs[i] in xs;
    var m := EntryFound(multi, ts, xs[i]);
    assert m <= n && i <= j;
    OlderBelow(multi, ts, m, n);
    FirstFirst(multi, xs, i, j);
  }

  /** Sorting by (group, newest first) and taking the first of a group is the newest-to-oldest search. */
  lemma FirstIsNewest(multi: bool, ts: seq<Table>, xs: seq<Tagged>, g: Group)
    requires Layered(multi, ts) && Arrangement(multi, ts, xs)
    ensures FirstOf(multi, xs, 0, g) == Newest(multi, ts, g)
  {
    if Newest(multi, ts, g).Some? {
      NewestArranged(multi, ts, xs, g);
    } else if FirstOf(multi, xs, 0, g).Some? {
      var i := FirstSound(multi, xs, 0, g);
      assert xs[i] in xs;
      var n := EntryFound(multi, ts, xs[i]);
      NewestNone(multi, ts, g, n);
    }
  }

  /** What the group-skipping loop leaves of any arrangement of the tables. */
  lemma SurvivorsExact(multi: bool, ts: seq<Table>, xs: seq<Tagged>, g: Group)
    requires Layered(multi, ts) && Arrangement(multi, ts, xs)
    ensures IsRun(multi, Survivors(multi, xs, 0)) && Find(multi, Survivors(multi, xs, 0),
            g) == Keep(Newest(multi, ts, g))
  {
    SurvivorsRun(multi, xs, 0);
    SurvivorsFind(multi, xs, 0, g);
    FirstIsNewest(multi, ts, xs, g);
  }

  /** All tables merged into one run of live entries. */
  function Merge(multi: bool, ts: seq<Table>): seq<Entry> {
    Survivors(multi, Arrange(multi, Collect(ts)), 0)
  }

  lemma ArrangeCollect(multi: bool, ts: seq<Table>, xs: seq<Tagged>)
    requires forall x :: x in xs <==> x in Collect(ts)
    ensures Arrangement(multi, ts, Arrange(multi, xs))
  {
    ArrangeKeeps(multi, xs);
    forall x
      ensures x in Arrange(multi, xs) <==> x in Collect(ts)
    {
      ArrangeMembers(multi, xs, x);
    }
  }

  lemma MergeExact(multi: bool, ts: seq<Table>, g: Group)
    requires Layered(multi, ts)
    ensures IsRun(multi, Merge(multi, ts)) && Find(multi, Merge(multi, ts), g) == Keep(Newest(multi, ts, g))
  {
    ArrangeCollect(multi, ts, Collect(ts));
    SurvivorsExact(multi, ts, Arrange(multi, Collect(ts)), g);
  }
}
