/** `collect_run_retention` of src/agent_state/store.rs: which runs a pass removes, and in what order. */
module Retention {
  import opened Base
  import opened Records
  import opened Regions
  import opened Protocol

  const RUN_RETENTION_PER_PANE: nat := 64
  const RUN_RETENTION_SECONDS: nat := 30 * 24 * 60 * 60

  datatype Reserve = Reserve(records: nat, bytes: nat)

  /** Oldest first: by creation time, then by identifier. */
  predicate Older(runs: Runs, a: RunId, b: RunId)
    requires a in runs && b in runs
  {
    runs[a].createdAt < runs[b].createdAt || (runs[a].createdAt == runs[b].createdAt && a < b)
  }

  // ---------------------------------------------------------------- sorting by age

  predicate Sorted(runs: Runs, s: seq<RunId>) {
    && (forall i :: 0 <= i < |s| ==> s[i] in runs)
    && forall i, j :: 0 <= i < j < |s| ==> Older(runs, s[i], s[j])
  }

  function Elements(s: seq<RunId>): set<RunId> {
    set i | 0 <= i < |s| :: s[i]
  }

  lemma {:induction false} OldestExists(runs: Runs, ids: set<RunId>) returns (k: RunId)
    requires ids != {} && ids <= runs.Keys
    ensures k in ids && forall j :: j in ids ==> j == k || Older(runs, k, j)
    decreases |ids|
  {
    k :| k in ids;
    if ids != {k} {
      var rest := ids - {k};
      var m := OldestExists(runs, rest);
      var first := if Older(runs, m, k) then m else k;
      assert forall j :: j in ids ==> j == k || j in rest;
      k := first;
    }
  }

  method SortByAge(runs: Runs, ids: set<RunId>) returns (s: seq<RunId>)
    requires ids <= runs.Keys
    ensures Sorted(runs, s) && Elements(s) == ids
  {
    s := [];
    var left := ids;
    while left != {}
      invariant Sorted(runs, s) && left <= ids
      invariant Elements(s) == ids - left
      invariant forall i, k :: 0 <= i < |s| && k in left ==> Older(runs, s[i], k)
      decreases left
    {
      var oldest := OldestExists(runs, left);
      var k :| k in left && forall j :: j in left ==> j == k || Older(runs, k, j);
      ghost var before := s;
      s := s + [k];
      left := left - {k};
      assert Elements(s) == Elements(before) + {k} by {
        assert forall i :: 0 <= i < |before| ==> s[i] == before[i];
        assert s[|before|] == k;
      }
    }
  }

  lemma {:induction false} SortedCount(runs: Runs, s: seq<RunId>)
    requires Sorted(runs, s)
    ensures |Elements(s)| == |s|
  {
    if s != [] {
      var front := s[..|s| - 1];
      SortedCount(runs, front);
      assert s == front + [s[|s| - 1]];
      assert Elements(s) == Elements(front) + {s[|s| - 1]};
      assert s[|s| - 1] !in Elements(front) by {
        forall i | 0 <= i < |front|
          ensures front[i] != s[|s| - 1]
        {
          assert Older(runs, s[i], s[|s| - 1]);
        }
      }
    }
  }

  function NewerThan(runs: Runs, ids: set<RunId>, k: RunId): set<RunId>
    requires ids <= runs.Keys && k in runs
  {
    set y | y in ids && Older(runs, k, y)
  }

  lemma NewerCount(runs: Runs, s: seq<RunId>, i: nat)
    requires Sorted(runs, s) && i < |s|
    ensures |NewerThan(runs, Elements(s), s[i])| == |s| - 1 - i
  {
    var rest := s[i + 1..];
    assert NewerThan(runs, Elements(s), s[i]) == Elements(rest) by {
      forall y | y in Elements(s) && Older(runs, s[i], y)
        ensures y in Elements(rest)
      {
        var j :| 0 <= j < |s| && s[j] == y;
        assert i < j;
        assert rest[j - i - 1] == y;
      }
      forall y | y in Elements(rest)
        ensures y in Elements(s) && Older(runs, s[i], y)
      {
        var j :| 0 <= j < |rest| && rest[j] == y;
        assert s[i + 1 + j] == y;
      }
    }
    SortedCount(runs, rest);
  }

  // ---------------------------------------------------------------- the policy

  function Removable(runs: Runs, protected: set<RunId>): set<RunId> {
    set id | id in runs && !runs[id].Active() && id !in protected
  }

  function OverAge(runs: Runs, protected: set<RunId>, now: int): set<RunId> {
    set id | id in Removable(runs, protected) && runs[id].createdAt < now - RUN_RETENTION_SECONDS
  }

  function OnPane(runs: Runs, ids: set<RunId>, pane: PaneInstance): set<RunId>
    requires ids <= runs.Keys
  {
    set id | id in ids && runs[id].binding.pane == pane
  }

  /** On the pane a new run is about to join, its protected run is about to become history. */
  function PaneLimit(runs: Runs, protected: set<RunId>, incoming: Option<PaneInstance>, pane: PaneInstance): nat {
    if incoming == Some(pane) && exists id :: id in runs && id in protected && runs[id].binding.pane == pane
    then RUN_RETENTION_PER_PANE - 1 else RUN_RETENTION_PER_PANE
  }

  /** Runs young enough to stay, but with a full pane's worth of newer ones. */
  function PaneExcess(runs: Runs, young: set<RunId>, protected: set<RunId>, incoming: Option<PaneInstance>): set<RunId>
    requires young <= runs.Keys
  {
    set id | id in young &&
             |NewerThan(runs, OnPane(runs, young, runs[id].binding.pane), id)| >= PaneLimit(runs, protected, incoming, runs[id].binding.pane)
  }

  /** What goes whether or not the store is full. */
  function Stale(runs: Runs, protected: set<RunId>, now: int, incoming: Option<PaneInstance>): set<RunId> {
    var old_ := OverAge(runs, protected, now);
    old_ + PaneExcess(runs, Removable(runs, protected) - old_, protected, incoming)
  }

  /** True record count and byte sum once `gone` is removed. */
  ghost function UsageWithout(c: Codec, runs: Runs, gone: set<RunId>): RegionCapacity {
    RegionCapacity(|runs - gone|, TotalSize(runs - gone, c.runSize))
  }

  ghost predicate Fits(c: Codec, runs: Runs, gone: set<RunId>, reserve: Reserve) {
    var left := UsageWithout(c, runs, gone);
    left.records + reserve.records <= RUN_STORE_MAX_RECORDS && left.bytes + reserve.bytes <= RUN_STORE_MAX_BYTES
  }

  /** Exactly what a pass removes: the stale runs, then the shortest oldest-first prefix of the rest that makes room. */
  ghost predicate Removes(c: Codec, runs: Runs, protected: set<RunId>, now: int, incoming: Option<PaneInstance>, reserve: Reserve,
                          gone: set<RunId>) {
    var removable := Removable(runs, protected);
    var stale := Stale(runs, protected, now, incoming);
    && stale <= gone <= removable
    && Fits(c, runs, gone, reserve)
    && (forall x, y :: x in gone && x !in stale && y in removable && Older(runs, y, x) ==> y in gone)
    && (forall x :: x in gone && x !in stale ==> !Fits(c, runs, stale + (set y | y in removable && Older(runs, y, x)), reserve))
  }

  /** The one set a pass removes. */
  ghost function RetentionSet(c: Codec, runs: Runs, protected: set<RunId>, now: int, incoming: Option<PaneInstance>, reserve: Reserve): set<RunId> {
    if exists gone :: Removes(c, runs, protected, now, incoming, reserve, gone) then
      var gone :| Removes(c, runs, protected, now, incoming, reserve, gone);
      gone
    else {}
  }

  /** There is only one set that meets the policy. */
  lemma RemovesIsUnique(c: Codec, runs: Runs, protected: set<RunId>, now: int, incoming: Option<PaneInstance>, reserve: Reserve,
                        a: set<RunId>, b: set<RunId>)
    requires Removes(c, runs, protected, now, incoming, reserve, a) && Removes(c, runs, protected, now, incoming, reserve, b)
    ensures a == b
    ensures RetentionSet(c, runs, protected, now, incoming, reserve) == a
  {
    RemovesIsLeast(c, runs, protected, now, incoming, reserve, a, b);
    RemovesIsLeast(c, runs, protected, now, incoming, reserve, b, a);
    var chosen := RetentionSet(c, runs, protected, now, incoming, reserve);
    RemovesIsLeast(c, runs, protected, now, incoming, reserve, a, chosen);
    RemovesIsLeast(c, runs, protected, now, incoming, reserve, chosen, a);
  }

  lemma RemovesIsLeast(c: Codec, runs: Runs, protected: set<RunId>, now: int, incoming: Option<PaneInstance>, reserve: Reserve,
                       a: set<RunId>, b: set<RunId>)
    requires Removes(c, runs, protected, now, incoming, reserve, a) && Removes(c, runs, protected, now, incoming, reserve, b)
    ensures a <= b
  {
    hide Fits, Stale;
    var removable, stale := Removable(runs, protected), Stale(runs, protected, now, incoming);
    forall x | x in a
      ensures x in b
    {
      if x !in b {
        var older := set y | y in removable && Older(runs, y, x);
        assert b <= stale + older by {
          forall z | z in b && z !in stale
            ensures z in older
          {
            assert z in removable && x in removable;
          }
        }
        FitsGrows(c, runs, b, stale + older, reserve);
      }
    }
  }

  // ---------------------------------------------------------------- what the policy promises

  lemma LimitHolds(runs: Runs, ids: set<RunId>, limit: nat)
    requires ids <= runs.Keys
    requires forall id :: id in ids ==> |NewerThan(runs, ids, id)| < limit
    ensures |ids| <= limit
  {
    if ids != {} {
      var k := OldestExists(runs, ids);
      assert ids == NewerThan(runs, ids, k) + {k};
    }
  }

  /** No pane keeps more than its limit of removable runs. */
  lemma PaneKeepsLimit(c: Codec, runs: Runs, protected: set<RunId>, now: int, incoming: Option<PaneInstance>, reserve: Reserve,
                       gone: set<RunId>, pane: PaneInstance)
    requires Removes(c, runs, protected, now, incoming, reserve, gone)
    ensures |OnPane(runs, Removable(runs, protected) - gone, pane)| <= PaneLimit(runs, protected, incoming, pane)
  {
    var young := Removable(runs, protected) - OverAge(runs, protected, now);
    var limit := PaneLimit(runs, protected, incoming, pane);
    var kept := OnPane(runs, Removable(runs, protected) - gone, pane);
    forall id | id in kept
      ensures |NewerThan(runs, kept, id)| < limit
    {
      assert id in young && id !in PaneExcess(runs, young, protected, incoming);
      CardOfPart(NewerThan(runs, OnPane(runs, young, pane), id), NewerThan(runs, kept, id));
    }
    LimitHolds(runs, kept, limit);
  }

  /** On one pane no removable run outlives a newer one. */
  lemma PaneOldestFirst(c: Codec, runs: Runs, protected: set<RunId>, now: int, incoming: Option<PaneInstance>, reserve: Reserve,
                        gone: set<RunId>, x: RunId, y: RunId)
    requires Removes(c, runs, protected, now, incoming, reserve, gone)
    requires x in gone && y in Removable(runs, protected) && y !in gone
    requires runs[x].binding.pane == runs[y].binding.pane
    ensures Older(runs, x, y)
  {
    var young := Removable(runs, protected) - OverAge(runs, protected, now);
    var pane := runs[x].binding.pane;
    if x in OverAge(runs, protected, now) {
    } else if x in PaneExcess(runs, young, protected, incoming) {
      var mine := OnPane(runs, young, pane);
      if NewerThan(runs, mine, x) <= NewerThan(runs, mine, y) {
        CardOfPart(NewerThan(runs, mine, y), NewerThan(runs, mine, x));
      }
    } else {
      assert x == y || Older(runs, x, y) || Older(runs, y, x);
    }
  }

  lemma RemovesOnlyIdle(c: Codec, runs: Runs, protected: set<RunId>, now: int, incoming: Option<PaneInstance>, reserve: Reserve,
                        gone: set<RunId>)
    requires Removes(c, runs, protected, now, incoming, reserve, gone)
    ensures forall id :: id in gone ==> id in runs && !runs[id].Active() && id !in protected
  {
    hide Stale, Fits;
  }

  /**
   * Retention safety in the terms of its users: nothing active or protected goes, every
   * over-age removable run goes, and there is then room for the reserve.
   */
  lemma RetentionIsSafe(c: Codec, runs: Runs, protected: set<RunId>, now: int, incoming: Option<PaneInstance>, reserve: Reserve,
                        gone: set<RunId>)
    requires Removes(c, runs, protected, now, incoming, reserve, gone)
    ensures forall id :: id in gone ==> id in runs && !runs[id].Active() && id !in protected
    ensures forall id :: id in runs && !runs[id].Active() && id !in protected && runs[id].createdAt < now - RUN_RETENTION_SECONDS ==> id in gone
    ensures forall r: RunRecord :: r.runId !in runs && 1 <= reserve.records && c.runSize(r) <= reserve.bytes ==>
              RunsFit(c, (runs - gone)[r.runId := r])
  {
    forall id | id in runs && !runs[id].Active() && id !in protected && runs[id].createdAt < now - RUN_RETENTION_SECONDS
      ensures id in gone
    {
      assert id in OverAge(runs, protected, now);
    }
    forall r: RunRecord | r.runId !in runs && 1 <= reserve.records && c.runSize(r) <= reserve.bytes
      ensures RunsFit(c, (runs - gone)[r.runId := r])
    {
      CountAfterPut(runs - gone, r.runId, r);
      TotalAfterPut(runs - gone, c.runSize, r.runId, r);
    }
  }

  // ---------------------------------------------------------------- what goes, run by run, in the fields of the records

  /** Ended or resolved, and not shown on any pane. */
  ghost predicate MayGo(runs: Runs, protected: set<RunId>, x: RunId) {
    x in runs && (runs[x].outcome == Completed || runs[x].phase == Ended) && x !in protected
  }

  /** Created more than thirty days ago. */
  ghost predicate AgedOut(r: RunRecord, now: int) {
    r.createdAt < now - 2_592_000
  }

  ghost predicate CreatedBefore(runs: Runs, x: RunId, y: RunId)
    requires x in runs && y in runs
  {
    runs[x].createdAt < runs[y].createdAt || (runs[x].createdAt == runs[y].createdAt && x < y)
  }

  /** Its pane keeps 64 newer runs, none of them aged out; 63 where a new run is about to push another one into history. */
  ghost predicate CrowdedOut(runs: Runs, protected: set<RunId>, now: int, incoming: Option<PaneInstance>, x: RunId)
    requires x in runs
  {
    var pane := runs[x].binding.pane;
    var newer := set y | y in runs && MayGo(runs, protected, y) && !AgedOut(runs[y], now) && runs[y].binding.pane == pane && CreatedBefore(runs, x, y);
    |newer| >= if incoming == Some(pane) && (exists id :: id in runs && id in protected && runs[id].binding.pane == pane) then 63 else 64
  }

  /** Even with all of those and every older run gone, the reserve does not fit. */
  ghost predicate NeededOut(c: Codec, runs: Runs, protected: set<RunId>, now: int, incoming: Option<PaneInstance>, reserve: Reserve, x: RunId)
    requires x in runs
  {
    var earlier := set y | y in runs && MayGo(runs, protected, y)
                           && (AgedOut(runs[y], now) || CrowdedOut(runs, protected, now, incoming, y) || CreatedBefore(runs, y, x));
    |runs - earlier| + reserve.records > 2048 || TotalSize(runs - earlier, c.runSize) + reserve.bytes > 96 * 1_048_576
  }

  /** A run goes if and only if it may, and there is one of these causes. */
  ghost predicate GoneForCause(c: Codec, runs: Runs, protected: set<RunId>, now: int, incoming: Option<PaneInstance>, reserve: Reserve,
                               gone: set<RunId>) {
    forall x :: x in gone <==>
      && x in runs && MayGo(runs, protected, x)
      && (AgedOut(runs[x], now) || CrowdedOut(runs, protected, now, incoming, x) || NeededOut(c, runs, protected, now, incoming, reserve, x))
  }

  lemma StaleIsForCause(runs: Runs, protected: set<RunId>, now: int, incoming: Option<PaneInstance>, x: RunId)
    requires x in runs
    ensures x in Removable(runs, protected) <==> MayGo(runs, protected, x)
    ensures x in Stale(runs, protected, now, incoming) <==>
              MayGo(runs, protected, x) && (AgedOut(runs[x], now) || CrowdedOut(runs, protected, now, incoming, x))
  {
    var pane := runs[x].binding.pane;
    var young := Removable(runs, protected) - OverAge(runs, protected, now);
    assert NewerThan(runs, OnPane(runs, young, pane), x) ==
           set y | y in runs && MayGo(runs, protected, y) && !AgedOut(runs[y], now) && runs[y].binding.pane == pane && CreatedBefore(runs, x, y);
  }

  lemma NeedIsForCause(c: Codec, runs: Runs, protected: set<RunId>, now: int, incoming: Option<PaneInstance>, reserve: Reserve, x: RunId)
    requires x in runs
    ensures NeededOut(c, runs, protected, now, incoming, reserve, x) <==>
              !Fits(c, runs, Stale(runs, protected, now, incoming) + (set y | y in Removable(runs, protected) && Older(runs, y, x)), reserve)
  {
    hide Stale, Removable, MayGo, CrowdedOut, AgedOut, TotalSize;
    StaleIsRemovable(runs, protected, now, incoming);
    forall y | y in runs
      ensures y in Removable(runs, protected) <==> MayGo(runs, protected, y)
      ensures y in Stale(runs, protected, now, incoming) <==>
                MayGo(runs, protected, y) && (AgedOut(runs[y], now) || CrowdedOut(runs, protected, now, incoming, y))
    {
      StaleIsForCause(runs, protected, now, incoming, y);
    }
    assert Stale(runs, protected, now, incoming) + (set y | y in Removable(runs, protected) && Older(runs, y, x)) ==
           set y | y in runs && MayGo(runs, protected, y)
                   && (AgedOut(runs[y], now) || CrowdedOut(runs, protected, now, incoming, y) || CreatedBefore(runs, y, x));
  }

  /** Even with everything gone that may go, the reserve does not fit. */
  ghost predicate NoRoomAtAll(c: Codec, runs: Runs, protected: set<RunId>, reserve: Reserve) {
    var idle := set y | y in runs && MayGo(runs, protected, y);
    |runs - idle| + reserve.records > 2048 || TotalSize(runs - idle, c.runSize) + reserve.bytes > 96 * 1_048_576
  }

  lemma NoRoomIsNoFit(c: Codec, runs: Runs, protected: set<RunId>, reserve: Reserve)
    ensures NoRoomAtAll(c, runs, protected, reserve) <==> !Fits(c, runs, Removable(runs, protected), reserve)
  {
    assert Removable(runs, protected) == set y | y in runs && MayGo(runs, protected, y);
  }

  /** What a pass removes, and why: nothing goes without a cause, and nothing that has one stays. */
  lemma RemovedForCause(c: Codec, runs: Runs, protected: set<RunId>, now: int, incoming: Option<PaneInstance>, reserve: Reserve, gone: set<RunId>)
    requires Removes(c, runs, protected, now, incoming, reserve, gone)
    ensures GoneForCause(c, runs, protected, now, incoming, reserve, gone)
  {
    hide Stale, Removable, MayGo, CrowdedOut, AgedOut, NeededOut, Fits;
    StaleIsRemovable(runs, protected, now, incoming);
    var removable, stale := Removable(runs, protected), Stale(runs, protected, now, incoming);
    forall x | x in runs
      ensures x in gone <==>
                && MayGo(runs, protected, x)
                && (AgedOut(runs[x], now) || CrowdedOut(runs, protected, now, incoming, x) || NeededOut(c, runs, protected, now, incoming, reserve, x))
    {
      StaleIsForCause(runs, protected, now, incoming, x);
      NeedIsForCause(c, runs, protected, now, incoming, reserve, x);
      var older := set y | y in removable && Older(runs, y, x);
      if x in removable && x !in gone {
        assert gone <= stale + older;
        FitsGrows(c, runs, gone, stale + older, reserve);
      }
    }
  }

  // ---------------------------------------------------------------- the pass

  /** The runs beyond each pane's limit, pane by pane. */
  method FindPaneExcess(runs: Runs, young: set<RunId>, protected: set<RunId>, incoming: Option<PaneInstance>) returns (gone: set<RunId>)
    requires young <= runs.Keys
    ensures gone == PaneExcess(runs, young, protected, incoming)
  {
    gone := {};
    var left := set id | id in young :: runs[id].binding.pane;
    ghost var panes := left;
    while left != {}
      invariant left <= panes
      invariant gone == set id | id in PaneExcess(runs, young, protected, incoming) && runs[id].binding.pane !in left
      decreases left
    {
      var pane :| pane in left;
      var mine := OnPane(runs, young, pane);
      var sorted := SortByAge(runs, mine);
      var limit := PaneLimit(runs, protected, incoming, pane);
      var excess := if |sorted| > limit then |sorted| - limit else 0;
      ExcessIsPrefix(runs, sorted, limit, excess);
      assert Elements(sorted[..excess]) == set id | id in PaneExcess(runs, young, protected, incoming) && runs[id].binding.pane == pane;
      gone := gone + Elements(sorted[..excess]);
      left := left - {pane};
    }
  }

  lemma ExcessIsPrefix(runs: Runs, s: seq<RunId>, limit: nat, excess: nat)
    requires Sorted(runs, s) && excess == if |s| > limit then |s| - limit else 0
    ensures Elements(s[..excess]) == set id | id in Elements(s) && |NewerThan(runs, Elements(s), id)| >= limit
  {
    forall i | 0 <= i < |s|
      ensures |NewerThan(runs, Elements(s), s[i])| >= limit <==> i < excess
    {
      NewerCount(runs, s, i);
    }
    assert forall i :: 0 <= i < excess ==> s[..excess][i] == s[i];
    forall id | id in Elements(s) && |NewerThan(runs, Elements(s), id)| >= limit
      ensures id in Elements(s[..excess])
    {
      var i :| 0 <= i < |s| && s[i] == id;
      assert s[..excess][i] == id;
    }
  }

  lemma {:induction false} RestAfter(runs: Runs, c: Codec, gone: set<RunId>, k: RunId)
    requires k in runs && k !in gone
    ensures UsageWithout(c, runs, gone).records >= 1 && UsageWithout(c, runs, gone).bytes >= c.runSize(runs[k])
    ensures UsageWithout(c, runs, gone + {k}) ==
            RegionCapacity(UsageWithout(c, runs, gone).records - 1, UsageWithout(c, runs, gone).bytes - c.runSize(runs[k]))
  {
    var rest := runs - gone;
    TotalWithout(rest, c.runSize, k);
    assert rest - {k} == runs - (gone + {k});
    assert rest.Keys == (rest - {k}).Keys + {k};
  }

  lemma NothingGone(c: Codec, runs: Runs)
    ensures UsageWithout(c, runs, {}) == RegionCapacity(|runs|, TotalSize(runs, c.runSize))
  {
    assert runs - {} == runs;
  }

  lemma FitsGrows(c: Codec, runs: Runs, few: set<RunId>, many: set<RunId>, reserve: Reserve)
    requires few <= many && Fits(c, runs, few, reserve)
    ensures Fits(c, runs, many, reserve)
  {
    TotalOfPart(runs - few, c.runSize, many);
    assert runs - few - many == runs - many;
  }

  /** What is left of the region once `gone` is removed, counted down from the cached counters. */
  method CountDown(c: Codec, runs: Runs, usage: RegionCapacity, gone: set<RunId>) returns (left: RegionCapacity)
    requires usage == RegionCapacity(|runs|, TotalSize(runs, c.runSize)) && gone <= runs.Keys
    ensures left == UsageWithout(c, runs, gone)
  {
    hide UsageWithout, TotalSize;
    NothingGone(c, runs);
    left := usage;
    var done: set<RunId> := {};
    while gone - done != {}
      invariant done <= gone
      invariant left == UsageWithout(c, runs, done)
      decreases |gone - done|
    {
      var k :| k in gone - done;
      assert gone - (done + {k}) == gone - done - {k};
      RestAfter(runs, c, done, k);
      left := RegionCapacity(left.records - 1, SaturatingSub(left.bytes, c.runSize(runs[k])));
      done := done + {k};
    }
    assert done == gone;
  }

  lemma NoElements(s: seq<RunId>)
    ensures Elements(s[..0]) == {}
  {
  }

  lemma PrefixStep(s: seq<RunId>, i: nat)
    requires i < |s|
    ensures Elements(s[..i + 1]) == Elements(s[..i]) + {s[i]}
  {
    assert s[..i + 1] == s[..i] + [s[i]];
    assert forall j :: 0 <= j < i ==> s[..i + 1][j] == s[..i][j];
    assert s[..i + 1][i] == s[i];
  }

  lemma PrefixIsOlder(runs: Runs, s: seq<RunId>, j: nat)
    requires Sorted(runs, s) && j < |s|
    ensures Elements(s[..j]) == set y | y in Elements(s) && Older(runs, y, s[j])
  {
    forall y | y in Elements(s) && Older(runs, y, s[j])
      ensures y in Elements(s[..j])
    {
      var i :| 0 <= i < |s| && s[i] == y;
      assert s[..j][i] == y;
    }
    forall y | y in Elements(s[..j])
      ensures y in Elements(s) && Older(runs, y, s[j])
    {
      var i :| 0 <= i < j && s[..j][i] == y;
      assert s[i] == y;
    }
  }

  lemma PrefixRemoves(c: Codec, runs: Runs, protected: set<RunId>, now: int, incoming: Option<PaneInstance>, reserve: Reserve,
                      order: seq<RunId>, i: nat)
    requires Sorted(runs, order) && Elements(order) == Removable(runs, protected) && i <= |order|
    requires forall j :: 0 <= j < i ==> !Fits(c, runs, Stale(runs, protected, now, incoming) + Elements(order[..j]), reserve)
    requires Fits(c, runs, Stale(runs, protected, now, incoming) + Elements(order[..i]), reserve)
    ensures Removes(c, runs, protected, now, incoming, reserve, Stale(runs, protected, now, incoming) + Elements(order[..i]))
    ensures Stale(runs, protected, now, incoming) + Elements(order[..i]) <= Removable(runs, protected)
  {
    hide Fits, PaneExcess, OverAge;
    var removable := Removable(runs, protected);
    var stale := Stale(runs, protected, now, incoming);
    assert stale <= removable by {
      StaleIsRemovable(runs, protected, now, incoming);
    }
    var gone := stale + Elements(order[..i]);
    forall x | x in gone && x !in stale
      ensures forall y :: y in removable && Older(runs, y, x) ==> y in gone
      ensures !Fits(c, runs, stale + (set y | y in removable && Older(runs, y, x)), reserve)
    {
      var j :| 0 <= j < i && order[..i][j] == x;
      PrefixIsOlder(runs, order, j);
      assert forall k :: 0 <= k < j ==> order[..j][k] == order[..i][k];
    }
  }

  lemma StaleIsRemovable(runs: Runs, protected: set<RunId>, now: int, incoming: Option<PaneInstance>)
    ensures OverAge(runs, protected, now) <= Stale(runs, protected, now, incoming) <= Removable(runs, protected) <= runs.Keys
  {
  }

  /** Decide what to remove. A full store with nothing removable is an error, and then nothing is removed at all. */
  method PlanRetention(c: Codec, runs: Runs, usage: RegionCapacity, now: int, protected: set<RunId>, reserve: Reserve,
                       incoming: Option<PaneInstance>) returns (r: Result<set<RunId>>)
    requires usage == RegionCapacity(|runs|, TotalSize(runs, c.runSize))
    ensures r == Err(Invalid) <==> now < 0 || reserve.records > RUN_STORE_MAX_RECORDS || reserve.bytes > RUN_STORE_MAX_BYTES
    ensures r.Err? ==> r.error == Invalid || r.error == Capacity
    ensures r.Err? && r.error != Invalid <==>
            && now >= 0 && reserve.records <= RUN_STORE_MAX_RECORDS && reserve.bytes <= RUN_STORE_MAX_BYTES
            && (|protected| > RUN_STORE_MAX_RECORDS || !Fits(c, runs, Removable(runs, protected), reserve))
    ensures r.Ok? ==> Removes(c, runs, protected, now, incoming, reserve, r.value)
    ensures r.Ok? ==> GoneForCause(c, runs, protected, now, incoming, reserve, r.value)
    ensures r == Err(Capacity) ==> |protected| > 2048 || NoRoomAtAll(c, runs, protected, reserve)
  {
    hide TotalSize, UsageWithout, PaneExcess, OverAge, Removable, Removes, Elements, GoneForCause, NoRoomAtAll;
    NoRoomIsNoFit(c, runs, protected, reserve);
    if now < 0 || reserve.records > RUN_STORE_MAX_RECORDS || reserve.bytes > RUN_STORE_MAX_BYTES {
      return Err(Invalid);
    }
    if |protected| > RUN_STORE_MAX_RECORDS {
      return Err(Capacity);
    }
    StaleIsRemovable(runs, protected, now, incoming);
    var removable := Removable(runs, protected);
    var order := SortByAge(runs, removable);
    var gone := OverAge(runs, protected, now);
    var excess := FindPaneExcess(runs, removable - gone, protected, incoming);
    gone := gone + excess;
    ghost var stale := gone;
    assert stale == Stale(runs, protected, now, incoming);
    var left := CountDown(c, runs, usage, gone);
    var i := 0;
    assert gone == stale + Elements(order[..i]) by {
      NoElements(order);
    }
    while i < |order| && (left.records > RUN_STORE_MAX_RECORDS - reserve.records || left.bytes > RUN_STORE_MAX_BYTES - reserve.bytes)
      invariant i <= |order|
      invariant gone == stale + Elements(order[..i])
      invariant left == UsageWithout(c, runs, gone)
      invariant forall j :: 0 <= j < i ==> !Fits(c, runs, stale + Elements(order[..j]), reserve)
    {
      PrefixStep(order, i);
      if order[i] !in gone {
        RestAfter(runs, c, gone, order[i]);
        left := RegionCapacity(left.records - 1, SaturatingSub(left.bytes, c.runSize(runs[order[i]])));
        gone := gone + {order[i]};
      }
      i := i + 1;
    }
    if left.records > RUN_STORE_MAX_RECORDS - reserve.records || left.bytes > RUN_STORE_MAX_BYTES - reserve.bytes {
      assert order[..i] == order;
      assert gone == removable;
      return Err(Capacity);
    }
    PrefixRemoves(c, runs, protected, now, incoming, reserve, order, i);
    FitsGrows(c, runs, gone, removable, reserve);
    RemovedForCause(c, runs, protected, now, incoming, reserve, gone);
    r := Ok(gone);
  }
}
