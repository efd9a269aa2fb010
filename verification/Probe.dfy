/** src/git.rs: the probe cache of the poller, and the poll that groups paths by worktree. */
module Probe {
  import opened Base
  import opened Regions

  const GIT_PROBE_CACHE_CAPACITY: nat := 256
  const GIT_PROBE_CACHE_TTL: nat := 60

  datatype Identity = Identity(topLevel: Text, gitDir: Text, commonDir: Text, superproject: Option<Text>)

  /** What one probe found: a worktree, none, or that the probe failed. */
  datatype Answer = Answer(identity: Option<Identity>, failed: bool)

  datatype Entry = Entry(answer: Answer, cachedAt: int, lastUsed: nat)

  /** The repositories as they are probed: the answer for a path at a time. */
  type Runner = (Text, int) -> Answer

  // ---------------------------------------------------------------- recency

  /** For every path ever resolved, the position of its last use. */
  function LastUses(uses: seq<Text>): map<Text, nat> {
    if uses == [] then map[] else LastUses(uses[..|uses| - 1])[uses[|uses| - 1] := |uses|]
  }

  lemma {:induction false} LastUsesBounded(uses: seq<Text>)
    ensures forall p :: p in LastUses(uses) ==> 0 < LastUses(uses)[p] <= |uses| && uses[LastUses(uses)[p] - 1] == p
    ensures forall i :: 0 <= i < |uses| ==> uses[i] in LastUses(uses) && i < LastUses(uses)[uses[i]]
  {
    if uses != [] {
      LastUsesBounded(uses[..|uses| - 1]);
    }
  }

  /** Every path outside `kept` was last used before every path inside. */
  ghost predicate Newest(last: map<Text, nat>, kept: set<Text>) {
    kept <= last.Keys && forall p, q :: p in kept && q in last && q !in kept ==> last[q] < last[p]
  }

  /** `kept` are the most recently used paths: all of them, or as many as the capacity allows. */
  ghost predicate MostRecent(last: map<Text, nat>, kept: set<Text>, capacity: nat) {
    Newest(last, kept) && |kept| == if |last| < capacity then |last| else capacity
  }

  ghost predicate Distinct(last: map<Text, nat>) {
    forall p, q :: p in last && q in last && last[p] == last[q] ==> p == q
  }

  lemma UsesAreDistinct(uses: seq<Text>)
    ensures Distinct(LastUses(uses))
  {
    LastUsesBounded(uses);
  }

  lemma LastUsesStep(uses: seq<Text>, p: Text)
    ensures LastUses(uses + [p]) == LastUses(uses)[p := |uses| + 1]
  {
    assert (uses + [p])[..|uses|] == uses;
  }

  /** Using a path makes it the newest one; a cache that is not full knows every path ever used. */
  lemma UseKeepsNewest(last: map<Text, nat>, kept: set<Text>, p: Text, now: nat)
    requires Newest(last, kept) && forall q :: q in last ==> last[q] < now
    requires |kept| < GIT_PROBE_CACHE_CAPACITY ==> |kept| == |last|
    ensures Newest(last[p := now], kept + {p})
    ensures |kept + {p}| < GIT_PROBE_CACHE_CAPACITY ==> |kept + {p}| == |last[p := now]|
    ensures p in kept ==> kept + {p} == kept
  {
    CountAfterPut(last, p, now);
    if p in kept {
      assert kept + {p} == kept;
    } else {
      if |kept| == |last| {
        SameSize(kept, last.Keys);
      }
      assert |kept + {p}| == |kept| + 1;
    }
  }

  /** Giving up the least recently used path keeps the newest ones. */
  lemma EvictKeepsNewest(last: map<Text, nat>, kept: set<Text>, oldest: Text)
    requires Newest(last, kept) && Distinct(last) && oldest in kept && forall q :: q in kept ==> last[oldest] <= last[q]
    ensures Newest(last, kept - {oldest})
  {
    forall p, q | p in kept - {oldest} && q in last && q !in kept - {oldest}
      ensures last[q] < last[p]
    {
      assert last[oldest] <= last[p] && last[oldest] != last[p];
    }
  }

  lemma SameSize(part: set<Text>, whole: set<Text>)
    requires part <= whole && |part| == |whole|
    ensures part == whole
  {
    assert whole == part + (whole - part);
  }

  // ---------------------------------------------------------------- the cache

  /** Each entry holds the answer of the probe at its time stamp, and only paths used earlier are missing. */
  ghost predicate Sound(runner: Runner, uses: seq<Text>, cache: map<Text, Entry>) {
    && Newest(LastUses(uses), cache.Keys)
    && (|cache| < GIT_PROBE_CACHE_CAPACITY ==> |cache| == |LastUses(uses)|)
    && forall p :: p in cache ==> cache[p].answer == runner(p, cache[p].cachedAt) && cache[p].lastUsed == LastUses(uses)[p]
  }

  /** Writing the entry of the path just used keeps the cache sound, possibly one entry too large. */
  lemma UseKeepsSound(runner: Runner, uses: seq<Text>, cache: map<Text, Entry>, path: Text, entry: Entry)
    requires Sound(runner, uses, cache) && entry.answer == runner(path, entry.cachedAt) && entry.lastUsed == |uses| + 1
    ensures Sound(runner, uses + [path], cache[path := entry])
  {
    hide LastUses, Newest;
    LastUsesBounded(uses);
    LastUsesStep(uses, path);
    UseKeepsNewest(LastUses(uses), cache.Keys, path, |uses| + 1);
    UsedAreCounted(LastUses(uses), cache.Keys);
    assert cache[path := entry].Keys == cache.Keys + {path};
  }

  lemma EntryIsProbed(runner: Runner, uses: seq<Text>, cache: map<Text, Entry>, path: Text)
    requires Sound(runner, uses, cache) && path in cache
    ensures cache[path].answer == runner(path, cache[path].cachedAt)
  {
  }

  /** Dropping the least recently used entry of an overfull cache keeps it sound. */
  lemma EvictKeepsSound(runner: Runner, uses: seq<Text>, cache: map<Text, Entry>, oldest: Text)
    requires Sound(runner, uses, cache) && oldest in cache && |cache| > GIT_PROBE_CACHE_CAPACITY
    requires forall q :: q in cache ==> cache[oldest].lastUsed <= cache[q].lastUsed
    ensures Sound(runner, uses, cache - {oldest}) && |cache - {oldest}| < |cache|
    ensures uses != [] && uses[|uses| - 1] in cache ==> uses[|uses| - 1] in cache - {oldest}
  {
    hide LastUses, Newest;
    var last := LastUses(uses);
    UsedAreCounted(last, cache.Keys);
    UsesAreDistinct(uses);
    EvictKeepsNewest(last, cache.Keys, oldest);
    assert (cache - {oldest}).Keys == cache.Keys - {oldest};
    if uses != [] {
      LastIsNewest(uses);
      var others := cache.Keys - {oldest};
      var other :| other in others;
      assert cache[oldest].lastUsed <= cache[other].lastUsed;
    }
  }

  // ---------------------------------------------------------------- grouping

  datatype Badge = Badge(branch: Text, ahead: nat, behind: nat, insertions: nat, deletions: nat)

  /** The worktree a path belonged to when it was probed. */
  function Worktree(runner: Runner, path: Text, at: int): Option<Text> {
    var identity := runner(path, at).identity;
    if identity.Some? then Some(identity.value.topLevel) else None
  }

  /** What polling just this path's worktree shows. */
  function Alone(runner: Runner, status: Text -> Option<Badge>, path: Text, at: int): Option<Badge> {
    var top := Worktree(runner, path, at);
    if top.Some? then status(top.value) else None
  }

  function Found(runner: Runner, seen: map<Text, int>): map<Text, Identity> {
    map p | p in seen && runner(p, seen[p]).identity.Some? :: runner(p, seen[p]).identity.value
  }

  lemma FoundStep(runner: Runner, seen: map<Text, int>, path: Text, at: int)
    requires path !in seen
    ensures Found(runner, seen[path := at]) ==
            if runner(path, at).identity.Some? then Found(runner, seen)[path := runner(path, at).identity.value] else Found(runner, seen)
  {
  }

  // ---------------------------------------------------------------- the poller

  class GitPoller {
    const runner: Runner
    var cache: map<Text, Entry>
    var useCounter: nat

    /** Every path resolved so far, oldest first. */
    ghost var uses: seq<Text>

    constructor (runner: Runner)
      ensures Valid() && this.runner == runner && uses == []
    {
      this.runner := runner;
      cache := map[];
      useCounter := 0;
      uses := [];
    }

    ghost predicate Valid()
      reads this
    {
      useCounter == |uses| && Sound(runner, uses, cache) && |cache| <= GIT_PROBE_CACHE_CAPACITY
    }

    /** The cached paths are exactly the 256 most recently used ones, or all of them. */
    lemma CachesMostRecent()
      requires Valid()
      ensures MostRecent(LastUses(uses), cache.Keys, GIT_PROBE_CACHE_CAPACITY)
    {
      CardOfPart(LastUses(uses).Keys, cache.Keys);
    }

    static function Age(now: int, since: int): int {
      Max(0, now - since)
    }

    /** Resolve a path: the answer is what a probe less than a minute ago found. */
    method ResolveIdentity(path: Text, now: int) returns (answer: Answer, ghost probedAt: int)
      requires Valid()
      modifies this
      ensures Valid()
      ensures MostRecent(LastUses(uses), cache.Keys, GIT_PROBE_CACHE_CAPACITY)
      ensures uses == old(uses) + [path] && path in cache
      ensures answer == runner(path, probedAt) && Age(now, probedAt) < GIT_PROBE_CACHE_TTL
      // in seconds: no answer is a minute old, and no probe is repeated within the minute
      ensures now < probedAt + 60
      ensures probedAt == if path in old(cache) && now < old(cache)[path].cachedAt + 60 then old(cache)[path].cachedAt else now
      ensures MostRecent(LastUses(uses), cache.Keys, 256)
    {
      hide Sound, MostRecent;
      useCounter := useCounter + 1;
      if path in cache && Age(now, cache[path].cachedAt) < GIT_PROBE_CACHE_TTL {
        var entry := cache[path];
        EntryIsProbed(runner, uses, cache, path);
        answer, probedAt := entry.answer, entry.cachedAt;
        UseKeepsSound(runner, uses, cache, path, entry.(lastUsed := useCounter));
        CountAfterPut(cache, path, entry.(lastUsed := useCounter));
        cache := cache[path := entry.(lastUsed := useCounter)];
        uses := uses + [path];
      } else {
        answer, probedAt := runner(path, now), now;
        UseKeepsSound(runner, uses, cache, path, Entry(answer, now, useCounter));
        cache := cache[path := Entry(answer, now, useCounter)];
        uses := uses + [path];
        EvictLeastRecent(path);
      }
      CachesMostRecent();
    }

    /** Drop least recently used entries while there are too many; the path used last always stays. */
    method EvictLeastRecent(ghost path: Text)
      requires Sound(runner, uses, cache) && uses != [] && uses[|uses| - 1] == path && path in cache
      modifies this`cache
      ensures Sound(runner, uses, cache) && |cache| <= GIT_PROBE_CACHE_CAPACITY && path in cache
    {
      hide Sound;
      while |cache| > GIT_PROBE_CACHE_CAPACITY
        invariant Sound(runner, uses, cache) && path in cache
        decreases |cache|
      {
        var oldest := LeastRecent();
        EvictKeepsSound(runner, uses, cache, oldest);
        cache := cache - {oldest};
      }
    }

    /** Resolve every path once; `seen` is when each answer was probed. */
    method ResolveAll(paths: set<Text>, now: int) returns (found: map<Text, Identity>, ghost seen: map<Text, int>)
      requires Valid()
      modifies this
      ensures Valid()
      ensures seen.Keys == paths && forall p :: p in paths ==> now < seen[p] + 60
      ensures found == Found(runner, seen)
    {
      hide Valid, Age, LastUses, MostRecent;
      found, seen := map[], map[];
      var left := paths;
      while left != {}
        invariant Valid() && left <= paths
        invariant seen.Keys == paths - left && forall p :: p in seen ==> now < seen[p] + 60
        invariant found == Found(runner, seen)
        decreases left
      {
        var path :| path in left;
        var answer;
        ghost var at;
        answer, at := ResolveIdentity(path, now);
        FoundStep(runner, seen, path, at);
        seen := seen[path := at];
        if answer.identity.Some? {
          found := found[path := answer.identity.value];
        }
        left := left - {path};
      }
    }

    /**
     * One status call per distinct worktree, and every path gets the badge that polling its own
     * worktree would give.
     */
    method Poll(paths: set<Text>, now: int, status: Text -> Option<Badge>)
      returns (badges: map<Text, Badge>, calls: seq<Text>, ghost seen: map<Text, int>)
      requires Valid()
      modifies this
      ensures Valid()
      ensures seen.Keys == paths && forall p :: p in paths ==> now < seen[p] + 60
      ensures forall p :: p in badges <==> p in paths && Alone(runner, status, p, seen[p]).Some?
      ensures forall p :: p in badges ==> Some(badges[p]) == Alone(runner, status, p, seen[p])
      ensures forall i, j :: 0 <= i < j < |calls| ==> calls[i] != calls[j]
      ensures forall top :: top in calls <==> exists p :: p in paths && Worktree(runner, p, seen[p]) == Some(top)
    {
      hide Valid, Age, LastUses, MostRecent;
      var found;
      found, seen := ResolveAll(paths, now);
      var left := set p | p in found :: found[p].topLevel;
      ghost var tops := left;
      var topBadges: map<Text, Badge> := map[];
      calls := [];
      while left != {}
        invariant left <= tops
        invariant forall i, j :: 0 <= i < j < |calls| ==> calls[i] != calls[j]
        invariant forall top :: top in calls <==> top in tops - left
        invariant forall top :: top in topBadges <==> top in tops - left && status(top).Some?
        invariant forall top :: top in topBadges ==> Some(topBadges[top]) == status(top)
        decreases left
      {
        var top :| top in left;
        var badge := status(top);
        assert top !in calls;
        calls := calls + [top];
        if badge.Some? {
          topBadges := topBadges[top := badge.value];
        }
        left := left - {top};
      }
      badges := map p | p in found && found[p].topLevel in topBadges :: topBadges[found[p].topLevel];
      assert forall p :: p in found <==> p in paths && Worktree(runner, p, seen[p]).Some?;
    }

    method LeastRecent() returns (oldest: Text)
      requires cache != map[]
      ensures oldest in cache && forall q :: q in cache ==> cache[oldest].lastUsed <= cache[q].lastUsed
    {
      oldest :| oldest in cache;
      var left := cache.Keys - {oldest};
      while left != {}
        invariant oldest in cache && left <= cache.Keys
        invariant forall q :: q in cache && q !in left ==> cache[oldest].lastUsed <= cache[q].lastUsed
        decreases left
      {
        var q :| q in left;
        if cache[q].lastUsed < cache[oldest].lastUsed {
          oldest := q;
        }
        left := left - {q};
      }
    }
  }

  lemma UsedAreCounted(last: map<Text, nat>, kept: set<Text>)
    requires Newest(last, kept)
    ensures kept <= last.Keys
  {
  }

  lemma LastIsNewest(uses: seq<Text>)
    requires uses != []
    ensures var path := uses[|uses| - 1];
      path in LastUses(uses) && forall q :: q in LastUses(uses) && q != path ==> LastUses(uses)[q] < LastUses(uses)[path]
  {
    LastUsesBounded(uses[..|uses| - 1]);
  }
}
