/** Model of internal/stats/plan.go: the counter set one discovery run
    accumulates, and the frozen snapshot it hands out.

    Timestamps are integers (milliseconds), 0 standing for Go's zero
    `time.Time`; the clock reading `time.Now()` is a parameter. The atomics
    and the mutex of the source only make the updates safe under concurrent
    callers: the model gives each update its sequential effect. */
module StatsPlan {

  /** PlanSnapshot: an immutable copy of the accumulator. */
  datatype PlanSnapshot = PlanSnapshot(
    startedAt: int, endedAt: int, durationMS: int, dbInitMS: int,
    language: string, languageSource: string,
    root: string, includeGlobs: seq<string>, excludeGlobs: seq<string>, gitIgnoreFound: bool,
    filesDiscovered: int, filesSelected: int, filesIgnored: int,
    ignoredByReason: map<string, int>,
    dirsVisited: int, maxDepth: int, largestFileBytes: int,
    warnCount: int, errorCount: int)

  /** `&stats.PlanSnapshot{}`: every field at its zero value. */
  const EmptySnapshot: PlanSnapshot :=
    PlanSnapshot(0, 0, 0, 0, "", "", "", [], [], false, 0, 0, 0, map[], 0, 0, 0, 0, 0)

  /** MaxDepthSeen's rule: a non-positive depth is ignored, otherwise the larger value is kept. */
  function DepthAfter(cur: int, depth: int): int {
    if depth <= 0 || depth <= cur then cur else depth
  }

  /** ConsiderLargest's net effect: its compare-and-swap loop stores `size`
      only when it is strictly larger than the current value. */
  function LargestAfter(cur: int, size: int): int {
    if size <= cur then cur else size
  }

  /** A reason's count in the breakdown map; Go reads a missing key as 0. */
  function CountOf(m: map<string, int>, reason: string): int {
    if reason in m then m[reason] else 0
  }

  /** Ignore's rule: `m[reason] += n`, except that n == 0 does nothing. */
  function IgnoreAfter(m: map<string, int>, reason: string, n: int): map<string, int> {
    if n == 0 then m else m[reason := CountOf(m, reason) + n]
  }

  /** maxDepth after a sequence of MaxDepthSeen calls. */
  function FoldDepth(cur: int, depths: seq<int>): int
    decreases depths
  {
    if depths == [] then cur else FoldDepth(DepthAfter(cur, depths[0]), depths[1..])
  }

  /** largestFileBytes after a sequence of ConsiderLargest calls. */
  function FoldLargest(cur: int, sizes: seq<int>): int
    decreases sizes
  {
    if sizes == [] then cur else FoldLargest(LargestAfter(cur, sizes[0]), sizes[1..])
  }

  /** The arguments of one Ignore call. */
  datatype IgnoreCall = IgnoreCall(reason: string, n: int)

  /** The breakdown map after a sequence of Ignore calls. */
  function FoldIgnore(m: map<string, int>, calls: seq<IgnoreCall>): map<string, int>
    decreases calls
  {
    if calls == [] then m else FoldIgnore(IgnoreAfter(m, calls[0].reason, calls[0].n), calls[1..])
  }

  /** Sum of the amounts submitted for one reason. */
  function SumFor(calls: seq<IgnoreCall>, reason: string): int {
    if calls == [] then 0
    else (if calls[0].reason == reason then calls[0].n else 0) + SumFor(calls[1..], reason)
  }

  /** After any sequence of MaxDepthSeen calls, maxDepth is the maximum of
      its starting value and the positive depths submitted. */
  lemma {:induction false} FoldDepthIsMax(cur: int, depths: seq<int>)
    decreases depths
    ensures FoldDepth(cur, depths) >= cur
    ensures forall i :: 0 <= i < |depths| && depths[i] > 0 ==> FoldDepth(cur, depths) >= depths[i]
    ensures FoldDepth(cur, depths) == cur
            || exists i :: 0 <= i < |depths| && depths[i] > 0 && FoldDepth(cur, depths) == depths[i]
  {
    if depths != [] {
      var next := DepthAfter(cur, depths[0]);
      var rest := depths[1..];
      FoldDepthIsMax(next, rest);
      var r := FoldDepth(cur, depths);
      assert r == FoldDepth(next, rest);
      forall i | 0 <= i < |depths| && depths[i] > 0
        ensures r >= depths[i]
      {
        if i > 0 { assert rest[i - 1] == depths[i]; }
      }
      if r != cur {
        if r == next {
          assert depths[0] > 0 && r == depths[0];
        } else {
          var j :| 0 <= j < |rest| && rest[j] > 0 && r == rest[j];
          assert depths[j + 1] == r;
        }
      }
    }
  }

  /** The final maxDepth does not depend on the order in which the depths arrive. */
  lemma FoldDepthOrderFree(cur: int, a: seq<int>, b: seq<int>)
    requires multiset(a) == multiset(b)
    ensures FoldDepth(cur, a) == FoldDepth(cur, b)
  {
    FoldDepthIsMax(cur, a);
    FoldDepthIsMax(cur, b);
    var ra, rb := FoldDepth(cur, a), FoldDepth(cur, b);
    if ra != cur {
      var i :| 0 <= i < |a| && a[i] > 0 && ra == a[i];
      assert a[i] in multiset(b);
      var j :| 0 <= j < |b| && b[j] == a[i];
    }
    if rb != cur {
      var j :| 0 <= j < |b| && b[j] > 0 && rb == b[j];
      assert b[j] in multiset(a);
      var i :| 0 <= i < |a| && a[i] == b[j];
    }
  }

  /** After any sequence of ConsiderLargest calls, largestFileBytes is the
      maximum of its starting value and every size submitted. */
  lemma {:induction false} FoldLargestIsMax(cur: int, sizes: seq<int>)
    decreases sizes
    ensures FoldLargest(cur, sizes) >= cur
    ensures forall i :: 0 <= i < |sizes| ==> FoldLargest(cur, sizes) >= sizes[i]
    ensures FoldLargest(cur, sizes) == cur
            || exists i :: 0 <= i < |sizes| && FoldLargest(cur, sizes) == sizes[i]
  {
    if sizes != [] {
      var next := LargestAfter(cur, sizes[0]);
      var rest := sizes[1..];
      FoldLargestIsMax(next, rest);
      var r := FoldLargest(cur, sizes);
      assert r == FoldLargest(next, rest);
      forall i | 0 <= i < |sizes|
        ensures r >= sizes[i]
      {
        if i > 0 { assert rest[i - 1] == sizes[i]; }
      }
      if r != cur {
        if r == next {
          assert r == sizes[0];
        } else {
          var j :| 0 <= j < |rest| && r == rest[j];
          assert sizes[j + 1] == r;
        }
      }
    }
  }

  /** The final largestFileBytes does not depend on the order of the calls. */
  lemma FoldLargestOrderFree(cur: int, a: seq<int>, b: seq<int>)
    requires multiset(a) == multiset(b)
    ensures FoldLargest(cur, a) == FoldLargest(cur, b)
  {
    FoldLargestIsMax(cur, a);
    FoldLargestIsMax(cur, b);
    var ra, rb := FoldLargest(cur, a), FoldLargest(cur, b);
    if ra != cur {
      var i :| 0 <= i < |a| && ra == a[i];
      assert a[i] in multiset(b);
      var j :| 0 <= j < |b| && b[j] == a[i];
    }
    if rb != cur {
      var j :| 0 <= j < |b| && rb == b[j];
      assert b[j] in multiset(a);
      var i :| 0 <= i < |a| && a[i] == b[j];
    }
  }

  /** After any sequence of Ignore calls, each reason's count has grown by
      exactly the amounts submitted for it. */
  lemma {:induction false} FoldIgnoreCounts(m: map<string, int>, calls: seq<IgnoreCall>, reason: string)
    decreases calls
    ensures CountOf(FoldIgnore(m, calls), reason) == CountOf(m, reason) + SumFor(calls, reason)
  {
    if calls != [] {
      FoldIgnoreCounts(IgnoreAfter(m, calls[0].reason, calls[0].n), calls[1..], reason);
    }
  }

  /** A reason is a key after a sequence of Ignore calls exactly when it was
      one before or some call named it with a non-zero amount. */
  lemma {:induction false} FoldIgnoreKeys(m: map<string, int>, calls: seq<IgnoreCall>, reason: string)
    decreases calls
    ensures reason in FoldIgnore(m, calls)
            <==> reason in m || exists i :: 0 <= i < |calls| && calls[i].reason == reason && calls[i].n != 0
  {
    if calls != [] {
      var rest := calls[1..];
      FoldIgnoreKeys(IgnoreAfter(m, calls[0].reason, calls[0].n), rest, reason);
      if exists i :: 0 <= i < |rest| && rest[i].reason == reason && rest[i].n != 0 {
        var i :| 0 <= i < |rest| && rest[i].reason == reason && rest[i].n != 0;
        assert calls[i + 1] == rest[i];
      }
      if exists i :: 0 <= i < |calls| && calls[i].reason == reason && calls[i].n != 0 {
        var i :| 0 <= i < |calls| && calls[i].reason == reason && calls[i].n != 0;
        if i > 0 { assert rest[i - 1] == calls[i]; }
      }
    }
  }

  /** stats.Plan: the accumulator of one discovery run. The root and the glob
      lists are fixed at construction; everything else is updated in place. */
  class Plan {
    var startedAt: int
    var endedAt: int
    var dbInitMS: int

    var language: string
    var languageSource: string

    const root: string
    const includeGlobs: seq<string>
    const excludeGlobs: seq<string>
    var gitIgnoreFound: bool

    var filesDiscovered: int
    var filesSelected: int
    var dirsVisited: int
    var largestFileBytes: int

    var maxDepth: int
    var warnCnt: int
    var errCnt: int

    var ignoredByReason: map<string, int>

    /** NewPlan. `now` is the clock reading time.Now().UTC() takes; the glob
        lists are copied (sequences are values, so the copy is the argument). */
    constructor (root: string, includes: seq<string>, excludes: seq<string>, now: int)
      ensures IsNew(root, includes, excludes, now)
    {
      startedAt, endedAt, dbInitMS := now, 0, 0;
      language, languageSource := "", "";
      this.root, includeGlobs, excludeGlobs, gitIgnoreFound := root, includes, excludes, false;
      filesDiscovered, filesSelected, dirsVisited, largestFileBytes := 0, 0, 0, 0;
      maxDepth, warnCnt, errCnt := 0, 0, 0;
      ignoredByReason := map[];
    }

    /** The state NewPlan leaves: started at `now`, the given root and globs,
        every counter, the maximum depth and the breakdown at zero or empty,
        and no .gitignore found. */
    ghost predicate IsNew(root: string, includes: seq<string>, excludes: seq<string>, now: int)
      reads this
    {
      && this.root == root && includeGlobs == includes && excludeGlobs == excludes
      && startedAt == now && endedAt == 0 && dbInitMS == 0
      && language == "" && languageSource == "" && !gitIgnoreFound
      && filesDiscovered == 0 && filesSelected == 0 && dirsVisited == 0 && largestFileBytes == 0
      && maxDepth == 0 && warnCnt == 0 && errCnt == 0
      && ignoredByReason == map[]
    }

    /** End stamps the end time. */
    method End(now: int)
      modifies this`endedAt
      ensures endedAt == now
    {
      endedAt := now;
    }

    method AddDBInit(ms: int)
      modifies this`dbInitMS
      ensures dbInitMS == ms
    {
      dbInitMS := ms;
    }

    method SetLanguage(lang: string)
      modifies this`language
      ensures language == lang
    {
      language := lang;
    }

    method SetGitIgnoreFound(found: bool)
      modifies this`gitIgnoreFound
      ensures gitIgnoreFound == found
    {
      gitIgnoreFound := found;
    }

    method SetLanguageSource(source: string)
      modifies this`languageSource
      ensures languageSource == source
    {
      languageSource := source;
    }

    method IncDiscovered(n: int)
      modifies this`filesDiscovered
      ensures filesDiscovered == old(filesDiscovered) + n
    {
      filesDiscovered := filesDiscovered + n;
    }

    method IncSelected(n: int)
      modifies this`filesSelected
      ensures filesSelected == old(filesSelected) + n
    {
      filesSelected := filesSelected + n;
    }

    method IncDirs(n: int)
      modifies this`dirsVisited
      ensures dirsVisited == old(dirsVisited) + n
    {
      dirsVisited := dirsVisited + n;
    }

    /** MaxDepthSeen: a non-positive depth changes nothing; otherwise maxDepth
        becomes the larger of itself and the depth, so it never decreases. */
    method MaxDepthSeen(depth: int)
      modifies this`maxDepth
      ensures maxDepth == DepthAfter(old(maxDepth), depth)
      ensures depth <= 0 ==> maxDepth == old(maxDepth)
      ensures depth > 0 ==> maxDepth >= depth
      ensures maxDepth >= old(maxDepth) && (maxDepth == old(maxDepth) || maxDepth == depth)
    {
      if depth <= 0 {
        return;
      }
      if depth > maxDepth {
        maxDepth := depth;
      }
    }

    /** ConsiderLargest: largestFileBytes becomes the larger of itself and
        the size; a size that is not larger leaves it as it was. */
    method ConsiderLargest(sizeBytes: int)
      modifies this`largestFileBytes
      ensures largestFileBytes == LargestAfter(old(largestFileBytes), sizeBytes)
      ensures largestFileBytes >= old(largestFileBytes) && largestFileBytes >= sizeBytes
      ensures sizeBytes <= old(largestFileBytes) ==> largestFileBytes == old(largestFileBytes)
    {
      var cur := largestFileBytes;
      if sizeBytes <= cur {
        return;
      }
      largestFileBytes := sizeBytes;
    }

    /** Ignore: n == 0 is a no-op; otherwise the reason's count grows by n (a
        missing key counting as 0) and no other key changes. */
    method Ignore(reason: string, n: int)
      modifies this`ignoredByReason
      ensures ignoredByReason == IgnoreAfter(old(ignoredByReason), reason, n)
      ensures n == 0 ==> ignoredByReason == old(ignoredByReason)
      ensures n != 0 ==> reason in ignoredByReason
                         && ignoredByReason[reason] == CountOf(old(ignoredByReason), reason) + n
      ensures forall k :: k != reason ==> CountOf(ignoredByReason, k) == CountOf(old(ignoredByReason), k)
      ensures ignoredByReason.Keys - {reason} == old(ignoredByReason).Keys - {reason}
    {
      if n == 0 {
        return;
      }
      ignoredByReason := ignoredByReason[reason := CountOf(ignoredByReason, reason) + n];
    }

    method Warn()
      modifies this`warnCnt
      ensures warnCnt == old(warnCnt) + 1
    {
      warnCnt := warnCnt + 1;
    }

    method Error()
      modifies this`errCnt
      ensures errCnt == old(errCnt) + 1
    {
      errCnt := errCnt + 1;
    }

    /** A snapshot that mirrors the current state field by field, with the
        derived fields: FilesIgnored is discovered minus selected, and the
        duration is set only when both timestamps are. */
    ghost predicate IsSnapshotOf(s: PlanSnapshot)
      reads this
    {
      && s.startedAt == startedAt && s.endedAt == endedAt
      && s.durationMS == (if startedAt != 0 && endedAt != 0 then endedAt - startedAt else 0)
      && s.dbInitMS == dbInitMS
      && s.language == language && s.languageSource == languageSource
      && s.root == root && s.includeGlobs == includeGlobs && s.excludeGlobs == excludeGlobs
      && s.gitIgnoreFound == gitIgnoreFound
      && s.filesDiscovered == filesDiscovered && s.filesSelected == filesSelected
      && s.filesIgnored == filesDiscovered - filesSelected
      && s.ignoredByReason == ignoredByReason
      && s.dirsVisited == dirsVisited && s.maxDepth == maxDepth
      && s.largestFileBytes == largestFileBytes
      && s.warnCount == warnCnt && s.errorCount == errCnt
    }

    /** Snapshot: an independent copy of the state, the breakdown map copied
        entry by entry. It changes nothing. */
    method Snapshot() returns (s: PlanSnapshot)
      ensures IsSnapshotOf(s)
    {
      var ignoredCopy: map<string, int> := map[];
      var pending := ignoredByReason.Keys;
      while pending != {}
        invariant pending <= ignoredByReason.Keys
        invariant ignoredCopy.Keys == ignoredByReason.Keys - pending
        invariant forall k :: k in ignoredCopy ==> ignoredCopy[k] == ignoredByReason[k]
        decreases pending
      {
        var k :| k in pending;
        ignoredCopy := ignoredCopy[k := ignoredByReason[k]];
        pending := pending - {k};
      }

      var start, end := startedAt, endedAt;
      var dur := 0;
      if start != 0 && end != 0 {
        dur := end - start;
      }

      s := PlanSnapshot(
        start, end, dur, dbInitMS,
        language, languageSource,
        root, includeGlobs, excludeGlobs, gitIgnoreFound,
        filesDiscovered, filesSelected, filesDiscovered - filesSelected,
        ignoredCopy,
        dirsVisited, maxDepth, largestFileBytes,
        warnCnt, errCnt);
    }
  }
}
