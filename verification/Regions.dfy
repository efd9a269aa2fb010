/** Record counts and byte sums of one state directory (src/agent_state/store.rs). */
module Regions {
  import opened Base

  datatype RegionCapacity = RegionCapacity(records: nat, bytes: nat)

  ghost function TotalSize<K, V>(m: map<K, V>, size: V -> nat): nat {
    if m == map[] then 0 else
    var k :| k in m;
    size(m[k]) + TotalSize(m - {k}, size)
  }

  lemma {:induction false} TotalWithout<K, V>(m: map<K, V>, size: V -> nat, k: K)
    requires k in m
    ensures TotalSize(m, size) == size(m[k]) + TotalSize(m - {k}, size)
    decreases |m|
  {
    var p :| p in m && TotalSize(m, size) == size(m[p]) + TotalSize(m - {p}, size);
    if p != k {
      TotalWithout(m - {p}, size, k);
      TotalWithout(m - {k}, size, p);
      assert m - {p} - {k} == m - {k} - {p};
    }
  }

  lemma CountAfterPut<K, V>(m: map<K, V>, k: K, v: V)
    ensures |m[k := v]| == |m| + (if k in m then 0 else 1)
  {
    if k in m {
      assert m[k := v].Keys == m.Keys;
    } else {
      assert m[k := v].Keys == m.Keys + {k};
    }
  }

  /** Writing one record moves the sum by the difference of the two file sizes. */
  lemma TotalAfterPut<K, V>(m: map<K, V>, size: V -> nat, k: K, v: V)
    ensures TotalSize(m[k := v], size) == TotalSize(m, size) - (if k in m then size(m[k]) else 0) + size(v)
    ensures k in m ==> size(m[k]) <= TotalSize(m, size)
  {
    var m' := m[k := v];
    TotalWithout(m', size, k);
    assert m' - {k} == m - {k};
    if k in m {
      TotalWithout(m, size, k);
    } else {
      assert m - {k} == m;
    }
  }

  lemma OneFits<K, V>(k: K, v: V, size: V -> nat)
    ensures TotalSize(map[k := v], size) == size(v) && |map[k := v]| == 1
  {
    TotalWithout(map[k := v], size, k);
    assert map[k := v] - {k} == map[];
    assert map[k := v].Keys == {k};
  }

  lemma TwoFit<K, V>(k: K, v: V, j: K, u: V, size: V -> nat)
    requires j != k
    ensures TotalSize(map[k := v, j := u], size) == size(v) + size(u) && |map[k := v, j := u]| == 2
  {
    TotalWithout(map[k := v, j := u], size, j);
    OneFits(k, v, size);
    assert map[k := v, j := u] - {j} == map[k := v];
    assert map[k := v, j := u].Keys == {k, j};
  }

  lemma TotalOfOneLess<K, V>(m: map<K, V>, size: V -> nat, k: K)
    ensures TotalSize(m - {k}, size) <= TotalSize(m, size)
    ensures |m - {k}| <= |m|
  {
    hide TotalSize;
    if k in m {
      TotalWithout(m, size, k);
      assert m.Keys == (m - {k}).Keys + {k};
    } else {
      assert m - {k} == m;
    }
  }

  lemma {:induction false} TotalOfPart<K, V>(m: map<K, V>, size: V -> nat, gone: set<K>)
    ensures TotalSize(m - gone, size) <= TotalSize(m, size)
    ensures |m - gone| <= |m|
    decreases |gone|
  {
    hide TotalSize;
    if gone == {} {
      assert m - gone == m;
    } else {
      var k :| k in gone;
      OneKeyMore(m, gone, k);
      TotalOfPart(m, size, gone - {k});
      TotalOfOneLess(m - (gone - {k}), size, k);
    }
  }

  lemma OneKeyMore<K, V>(m: map<K, V>, gone: set<K>, k: K)
    requires k in gone
    ensures m - (gone - {k}) - {k} == m - gone
    ensures |gone - {k}| < |gone|
  {
  }

  lemma CardOfPart<T>(a: set<T>, b: set<T>)
    requires b <= a
    ensures |b| <= |a|
  {
    assert a == b + (a - b);
  }

  function SaturatingSub(a: nat, b: nat): nat {
    if b <= a then a - b else 0
  }

  function SaturatingAdd(a: nat, b: nat): nat {
    if a + b <= U64_MAX then a + b else U64_MAX
  }

  /** `next_region_capacity`: the counters after one write, unless the region would overflow. */
  function NextCapacity(now: RegionCapacity, replaced: Option<nat>, size: nat, recordLimit: nat, byteLimit: nat)
    : (r: Option<RegionCapacity>)
    ensures byteLimit < U64_MAX && replaced.Some? && replaced.value <= now.bytes ==>
      (r.Some? <==> now.records <= recordLimit && now.bytes - replaced.value + size <= byteLimit)
    ensures byteLimit < U64_MAX && replaced.None? ==>
      (r.Some? <==> now.records < recordLimit && now.bytes + size <= byteLimit)
  {
    var records := now.records + (if replaced.None? then 1 else 0);
    var bytes := SaturatingAdd(SaturatingSub(now.bytes, if replaced.None? then 0 else replaced.value), size);
    if records > recordLimit || bytes > byteLimit then None else Some(RegionCapacity(records, bytes))
  }
}
