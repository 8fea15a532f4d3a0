/**
 The backend's load signals, backend/handler/load_signals.go: the latency samples of the last
 fifteen seconds, trimmed with a binary search, and their 99th percentile.
 */
module LoadSignals {
  import opened Basics
  import AdaptiveTtl

  const WINDOW: Time := 15 * SECOND

  datatype Sample = Sample(recordedAt: Time, duration: Time)

  predicate Recent(s: Sample, cutoff: Time) {
    s.recordedAt >= cutoff
  }

  /** The reference: the samples of the whole history that are recent, in order. */
  function RecentOf(samples: seq<Sample>, cutoff: Time): seq<Sample> {
    if samples == [] then []
    else
      var rest := RecentOf(samples[..|samples| - 1], cutoff);
      var last := samples[|samples| - 1];
      if Recent(last, cutoff) then rest + [last] else rest
  }

  /** No sample is followed by an older one. */
  ghost predicate InOrder(samples: seq<Sample>) {
    forall i, j :: 0 <= i < j < |samples| ==> samples[i].recordedAt <= samples[j].recordedAt
  }

  /** The expired samples all come before the recent ones. */
  ghost predicate Split(samples: seq<Sample>, cutoff: Time, at: nat)
    requires at <= |samples|
  {
    && (forall i :: 0 <= i < at ==> !Recent(samples[i], cutoff))
    && (forall i :: at <= i < |samples| ==> Recent(samples[i], cutoff))
  }

  lemma {:induction false} RecentOfSize(samples: seq<Sample>, cutoff: Time)
    ensures |RecentOf(samples, cutoff)| <= |samples|
    ensures forall s :: s in RecentOf(samples, cutoff) ==> Recent(s, cutoff)
    ensures |RecentOf(samples, cutoff)| == |samples| ==> forall i :: 0 <= i < |samples| ==> Recent(samples[i], cutoff)
    ensures |RecentOf(samples, cutoff)| == 0 ==> forall i :: 0 <= i < |samples| ==> !Recent(samples[i], cutoff)
  {
    if samples != [] {
      RecentOfSize(samples[..|samples| - 1], cutoff);
    }
  }

  lemma {:induction false} RecentOfConcat(a: seq<Sample>, b: seq<Sample>, cutoff: Time)
    ensures RecentOf(a + b, cutoff) == RecentOf(a, cutoff) + RecentOf(b, cutoff)
  {
    if b == [] {
      assert a + b == a;
    } else {
      RecentOfConcat(a, b[..|b| - 1], cutoff);
      assert (a + b)[..|a + b| - 1] == a + b[..|b| - 1];
    }
  }

  lemma {:induction false} RecentOfAll(samples: seq<Sample>, cutoff: Time)
    requires forall i :: 0 <= i < |samples| ==> Recent(samples[i], cutoff)
    ensures RecentOf(samples, cutoff) == samples
  {
    if samples != [] {
      RecentOfAll(samples[..|samples| - 1], cutoff);
    }
  }

  lemma {:induction false} RecentOfNone(samples: seq<Sample>, cutoff: Time)
    requires forall i :: 0 <= i < |samples| ==> !Recent(samples[i], cutoff)
    ensures RecentOf(samples, cutoff) == []
  {
    if samples != [] {
      RecentOfNone(samples[..|samples| - 1], cutoff);
    }
  }

  /** A suffix that is all the recent samples leaves none before it, and holds no other. */
  lemma FilterSplits(samples: seq<Sample>, cutoff: Time, at: nat)
    requires at <= |samples| && samples[at..] == RecentOf(samples[..at], cutoff) + RecentOf(samples[at..], cutoff)
    ensures Split(samples, cutoff, at)
  {
    RecentOfSize(samples[at..], cutoff);
    RecentOfSize(samples[..at], cutoff);
    forall i | at <= i < |samples| ensures Recent(samples[i], cutoff) {
      assert samples[i] == samples[at..][i - at];
    }
    RecentOfAll(samples[at..], cutoff);
    assert RecentOf(samples[..at], cutoff) == [];
    forall i | 0 <= i < at ensures !Recent(samples[i], cutoff) {
      assert samples[i] == samples[..at][i];
    }
  }

  /** Keeping a suffix is filtering exactly when the samples are split there. */
  lemma SuffixIsFilter(samples: seq<Sample>, cutoff: Time, at: nat)
    requires at <= |samples|
    ensures samples[at..] == RecentOf(samples, cutoff) <==> Split(samples, cutoff, at)
  {
    assert samples == samples[..at] + samples[at..];
    RecentOfConcat(samples[..at], samples[at..], cutoff);
    if Split(samples, cutoff, at) {
      RecentOfNone(samples[..at], cutoff);
      RecentOfAll(samples[at..], cutoff);
    } else if samples[at..] == RecentOf(samples, cutoff) {
      FilterSplits(samples, cutoff, at);
    }
  }

  /** Some index splits the list. */
  ghost predicate Splittable(samples: seq<Sample>, cutoff: Time) {
    exists at :: 0 <= at <= |samples| && Split(samples, cutoff, at)
  }

  lemma {:induction false} InOrderSplits(samples: seq<Sample>, cutoff: Time) returns (at: nat)
    requires InOrder(samples)
    ensures at <= |samples| && Split(samples, cutoff, at)
  {
    at := |samples|;
    if samples != [] && Recent(samples[at - 1], cutoff) {
      at := InOrderSplits(samples[..at - 1], cutoff);
    }
  }

  /** A later cutoff filters again what an earlier one has left. */
  lemma {:induction false} RecentOfTwice(samples: seq<Sample>, earlier: Time, later: Time)
    requires earlier <= later
    ensures RecentOf(RecentOf(samples, earlier), later) == RecentOf(samples, later)
  {
    if samples != [] {
      var before, last := samples[..|samples| - 1], samples[|samples| - 1];
      RecentOfTwice(before, earlier, later);
      if Recent(last, earlier) {
        RecentOfConcat(RecentOf(before, earlier), [last], later);
        assert [last][..0] == [];
      }
    }
  }

  lemma {:induction false} RecentOfInOrder(samples: seq<Sample>, cutoff: Time)
    requires InOrder(samples)
    ensures InOrder(RecentOf(samples, cutoff))
    ensures forall s :: s in RecentOf(samples, cutoff) ==> s in samples
  {
    if samples != [] {
      RecentOfInOrder(samples[..|samples| - 1], cutoff);
      var rest := RecentOf(samples[..|samples| - 1], cutoff);
      forall i | 0 <= i < |rest| ensures rest[i].recordedAt <= samples[|samples| - 1].recordedAt {
        assert rest[i] in samples[..|samples| - 1];
      }
    }
  }

  /** `list` is the window over the full history for the instant `trimmedFor`. */
  ghost predicate WindowOf(list: seq<Sample>, history: seq<Sample>, trimmedFor: Time) {
    InOrder(history) && list == RecentOf(history, trimmedFor - WINDOW)
  }

  /** Trimming a list to `after` is filtering it exactly when its expired samples all come first. */
  ghost predicate FiltersIfSplit(list: seq<Sample>, now: Time, after: seq<Sample>) {
    after == RecentOf(list, now - WINDOW) <==> Splittable(list, now - WINDOW)
  }

  /** A window can be split for any other cutoff, and filtering it gives the later of the two windows. */
  lemma FilteredWindow(history: seq<Sample>, earlier: Time, later: Time)
    requires InOrder(history)
    ensures Splittable(RecentOf(history, earlier), later)
    ensures RecentOf(RecentOf(history, earlier), later) == RecentOf(history, Max(earlier, later))
  {
    var window := RecentOf(history, earlier);
    RecentOfInOrder(history, earlier);
    var at := InOrderSplits(window, later);
    if earlier <= later {
      RecentOfTwice(history, earlier, later);
    } else {
      RecentOfSize(history, earlier);
      assert forall i :: 0 <= i < |window| ==> window[i] in window;
      RecentOfAll(window, later);
    }
  }

  lemma TrimKeepsWindow(list: seq<Sample>, history: seq<Sample>, trimmedFor: Time, now: Time, after: seq<Sample>)
    requires WindowOf(list, history, trimmedFor) && FiltersIfSplit(list, now, after)
    ensures WindowOf(after, history, Max(trimmedFor, now))
  {
    FilteredWindow(history, trimmedFor - WINDOW, now - WINDOW);
  }

  lemma AppendedWindow(list: seq<Sample>, history: seq<Sample>, trimmedFor: Time, sample: Sample)
    ensures WindowOf(list, history, trimmedFor) && InOrder(history + [sample])
            && Recent(sample, trimmedFor - WINDOW) ==>
              WindowOf(list + [sample], history + [sample], trimmedFor)
  {
    assert (history + [sample])[..|history|] == history;
  }

  /** The recorder of the backend; every method is one critical section under its mutex. */
  class Recorder {
    var requestDurations: seq<Sample>
    /** Every sample ever recorded, in the order they got the mutex, and how many of them are gone. */
    ghost var history: seq<Sample>
    ghost var dropped: nat
    /** The latest instant the list was trimmed for. */
    ghost var trimmedFor: Time

    /** Whatever the timestamps, the list is what is left of the history after its oldest entries. */
    ghost predicate Valid()
      reads this
    {
      dropped <= |history| && requestDurations == history[dropped..]
    }

    ghost predicate Windowed()
      reads this
    {
      WindowOf(requestDurations, history, trimmedFor)
    }

    constructor (now: Time)
      ensures Valid() && Windowed() && history == [] && trimmedFor == now
    {
      requestDurations, history, dropped, trimmedFor := [], [], 0, now;
    }

    /** sort.Search for the first recent sample: it finds the split of the list if there is one. */
    method FirstRecent(cutoff: Time) returns (at: nat)
      ensures at <= |requestDurations|
      ensures Splittable(requestDurations, cutoff) ==> Split(requestDurations, cutoff, at)
    {
      var lo, hi := 0, |requestDurations|;
      while lo < hi
        invariant 0 <= lo <= hi <= |requestDurations|
        invariant forall a :: 0 <= a <= |requestDurations| && Split(requestDurations, cutoff, a) ==> lo <= a <= hi
        decreases hi - lo
      {
        var mid := (lo + hi) / 2;
        if Recent(requestDurations[mid], cutoff) {
          hi := mid;
        } else {
          lo := mid + 1;
        }
      }
      return lo;
    }

    /**
     Trimming drops a prefix. It is filtering exactly when the expired samples all come first, as
     they do in a window over the history.
     */
    method RemoveExpired(now: Time)
      requires Valid()
      modifies this`requestDurations, this`dropped, this`trimmedFor
      ensures Valid() && trimmedFor == Max(old(trimmedFor), now)
      ensures FiltersIfSplit(old(requestDurations), now, requestDurations)
      ensures old(Windowed()) ==> Windowed()
    {
      var cutoff := now - WINDOW;
      var firstRecentIndex := FirstRecent(cutoff);
      SuffixIsFilter(requestDurations, cutoff, firstRecentIndex);
      if old(Windowed()) {
        TrimKeepsWindow(requestDurations, history, trimmedFor, now, requestDurations[firstRecentIndex..]);
      }
      dropped, trimmedFor := dropped + firstRecentIndex, Max(trimmedFor, now);
      if firstRecentIndex == 0 {
        assert requestDurations[0..] == requestDurations;
        return;
      }
      if firstRecentIndex >= |requestDurations| {
        requestDurations := [];
        assert old(requestDurations)[firstRecentIndex..] == [];
        return;
      }
      requestDurations := requestDurations[firstRecentIndex..];
    }

    /**
     A sample is appended and the list trimmed for its timestamp, which was taken before the mutex.
     The list stays the window over the history while samples come in order, the new one not already
     outside the window.
     */
    method Record(duration: Time, now: Time)
      requires Valid()
      modifies this
      ensures Valid() && history == old(history) + [Sample(now, duration)]
      ensures trimmedFor == Max(old(trimmedFor), now)
      ensures FiltersIfSplit(old(requestDurations) + [Sample(now, duration)], now, requestDurations)
      ensures old(Windowed()) && InOrder(history) && Recent(Sample(now, duration), old(trimmedFor) - WINDOW) ==>
                Windowed()
    {
      var sample := Sample(now, duration);
      AppendedWindow(requestDurations, history, trimmedFor, sample);
      requestDurations, history := requestDurations + [sample], history + [sample];
      RemoveExpired(now);
    }

    /** The durations of the trimmed list, which is the window over the history if it was one before. */
    method RecentRequestDurations(now: Time) returns (durations: seq<Time>)
      requires Valid()
      modifies this`requestDurations, this`dropped, this`trimmedFor
      ensures Valid() && trimmedFor == Max(old(trimmedFor), now)
      ensures durations == Durations(requestDurations)
      ensures FiltersIfSplit(old(requestDurations), now, requestDurations)
      ensures old(Windowed()) ==> Windowed()
    {
      RemoveExpired(now);
      durations := [];
      for i := 0 to |requestDurations|
        invariant durations == Durations(requestDurations[..i])
      {
        durations := durations + [requestDurations[i].duration];
        assert requestDurations[..i + 1][..i] == requestDurations[..i];
      }
      assert requestDurations[..|requestDurations|] == requestDurations;
    }
  }

  function Durations(samples: seq<Sample>): seq<Time> {
    if samples == [] then []
    else Durations(samples[..|samples| - 1]) + [samples[|samples| - 1].duration]
  }

  /** One duration for every sample, in their order. */
  lemma {:induction false} DurationsAt(samples: seq<Sample>)
    ensures |Durations(samples)| == |samples|
    ensures forall i :: 0 <= i < |samples| ==> Durations(samples)[i] == samples[i].duration
  {
    if samples != [] {
      DurationsAt(samples[..|samples| - 1]);
    }
  }

  /** The window holds every sample of the last fifteen seconds as often as it was recorded, and no other. */
  lemma {:induction false} RecentOfCounts(samples: seq<Sample>, now: Time, s: Sample)
    ensures multiset(RecentOf(samples, now - WINDOW))[s]
            == if s.recordedAt >= now - 15_000_000_000 then multiset(samples)[s] else 0
  {
    if samples != [] {
      var before, last := samples[..|samples| - 1], samples[|samples| - 1];
      RecentOfCounts(before, now, s);
      assert samples == before + [last];
      assert multiset(samples) == multiset(before) + multiset{last};
    }
  }

  /** Timestamps are taken before the mutex, so two samples can land out of order: then no trim is a filter. */
  lemma OutOfOrderCannotBeTrimmed(late: Sample, early: Sample, cutoff: Time)
    requires early.recordedAt < cutoff <= late.recordedAt
    ensures !Splittable([late, early], cutoff)
  {
    forall at | 0 <= at <= 2 ensures !Split([late, early], cutoff, at) {
      assert [late, early][0] == late && [late, early][1] == early;
    }
  }

  // ---------------------------------------------------------------------------------------------
  // The 99th percentile

  function Insert(sorted: seq<Time>, d: Time): seq<Time> {
    if sorted == [] || d <= sorted[0] then [d] + sorted else [sorted[0]] + Insert(sorted[1..], d)
  }

  /** What sort.Slice makes of a list of durations. */
  function Sort(durations: seq<Time>): seq<Time> {
    if durations == [] then [] else Insert(Sort(durations[1..]), durations[0])
  }

  predicate Sorted(s: seq<Time>) {
    forall i, j :: 0 <= i < j < |s| ==> s[i] <= s[j]
  }

  function CountAtMost(s: seq<Time>, limit: Time): nat {
    if s == [] then 0 else (if s[0] <= limit then 1 else 0) + CountAtMost(s[1..], limit)
  }

  /** The smallest sample that at least 99 in 100 of the samples do not exceed. */
  ghost predicate IsP99(s: seq<Time>, v: Time) {
    && v in s
    && 100 * CountAtMost(s, v) >= 99 * |s|
    && forall w :: w in s && w < v ==> 100 * CountAtMost(s, w) < 99 * |s|
  }

  lemma {:induction false} InsertSorts(sorted: seq<Time>, d: Time)
    requires Sorted(sorted)
    ensures Sorted(Insert(sorted, d)) && |Insert(sorted, d)| == |sorted| + 1
    ensures forall x :: x in Insert(sorted, d) <==> x == d || x in sorted
    ensures forall v :: CountAtMost(Insert(sorted, d), v) == CountAtMost(sorted, v) + if d <= v then 1 else 0
  {
    if sorted != [] && d > sorted[0] {
      InsertSorts(sorted[1..], d);
      var rest := Insert(sorted[1..], d);
      forall j | 0 <= j < |rest| ensures sorted[0] <= rest[j] {
        assert rest[j] in rest;
      }
    }
  }

  lemma {:induction false} SortSorts(s: seq<Time>)
    ensures Sorted(Sort(s)) && |Sort(s)| == |s|
    ensures forall x :: x in Sort(s) <==> x in s
    ensures forall v :: CountAtMost(Sort(s), v) == CountAtMost(s, v)
  {
    if s != [] {
      SortSorts(s[1..]);
      InsertSorts(Sort(s[1..]), s[0]);
      assert forall x :: x in s <==> x == s[0] || x in s[1..];
    }
  }

  lemma {:induction false} CountConcat(a: seq<Time>, b: seq<Time>, limit: Time)
    ensures CountAtMost(a + b, limit) == CountAtMost(a, limit) + CountAtMost(b, limit)
    ensures CountAtMost(a, limit) <= |a|
  {
    if a == [] {
      assert a + b == b;
    } else {
      CountConcat(a[1..], b, limit);
      assert (a + b)[1..] == a[1..] + b;
    }
  }

  lemma {:induction false} CountExtremes(s: seq<Time>, limit: Time)
    ensures (forall x :: x in s ==> x <= limit) ==> CountAtMost(s, limit) == |s|
    ensures (forall x :: x in s ==> x > limit) ==> CountAtMost(s, limit) == 0
  {
    if s != [] {
      assert s[0] in s && forall x :: x in s[1..] ==> x in s;
      CountExtremes(s[1..], limit);
    }
  }

  function Removed(s: seq<Time>, i: nat): seq<Time>
    requires i < |s|
  {
    s[..i] + s[i + 1..]
  }

  lemma CountRemoved(s: seq<Time>, i: nat, limit: Time)
    requires i < |s|
    ensures CountAtMost(s, limit) == CountAtMost(Removed(s, i), limit) + if s[i] <= limit then 1 else 0
    ensures multiset(Removed(s, i)) == multiset(s) - multiset{s[i]}
  {
    assert s == s[..i] + ([s[i]] + s[i + 1..]);
    assert multiset(s) == multiset(s[..i]) + multiset{s[i]} + multiset(s[i + 1..]);
    CountConcat(s[..i], [s[i]] + s[i + 1..], limit);
    CountConcat(s[..i], s[i + 1..], limit);
    assert ([s[i]] + s[i + 1..])[1..] == s[i + 1..];
  }

  /** Counting does not depend on the order of the samples. */
  lemma {:induction false} CountPermutation(s: seq<Time>, t: seq<Time>, limit: Time)
    requires multiset(s) == multiset(t)
    ensures CountAtMost(s, limit) == CountAtMost(t, limit)
    decreases |s|
  {
    if s == [] {
      assert |multiset(t)| == 0;
    } else {
      assert s[0] in multiset(t);
      var i :| 0 <= i < |t| && t[i] == s[0];
      CountRemoved(s, 0, limit);
      CountRemoved(t, i, limit);
      CountPermutation(Removed(s, 0), Removed(t, i), limit);
    }
  }

  /** In a sorted list the element at index i is at least i + 1 of them, and a smaller one at most i. */
  lemma RankInSorted(s: seq<Time>, i: nat, w: Time)
    requires Sorted(s) && i < |s|
    ensures w >= s[i] ==> CountAtMost(s, w) >= i + 1
    ensures w < s[i] ==> CountAtMost(s, w) <= i
  {
    var n := if w < s[i] then i else i + 1;
    assert s == s[..n] + s[n..];
    CountConcat(s[..n], s[n..], w);
    if w < s[i] {
      CountExtremes(s[n..], w);
    } else {
      CountExtremes(s[..n], w);
    }
  }

  function P99Index(n: nat): int {
    (99 * n + 99) / 100 - 1
  }

  /** The nearest-rank choice is the 99th percentile of the samples themselves. */
  lemma NearestRankIsP99(s: seq<Time>)
    requires s != []
    ensures 0 <= P99Index(|s|) < |Sort(s)| && IsP99(s, Sort(s)[P99Index(|s|)])
  {
    SortSorts(s);
    var r, i := Sort(s), P99Index(|s|);
    RankInSorted(r, i, r[i]);
    assert r[i] in r;
    forall w | w in s && w < r[i] ensures 100 * CountAtMost(s, w) < 99 * |s| {
      RankInSorted(r, i, w);
    }
  }

  /** There is only one such sample, and it does not depend on the order they were recorded in. */
  lemma P99Unique(s: seq<Time>, t: seq<Time>, v: Time, w: Time)
    requires multiset(s) == multiset(t) && IsP99(s, v) && IsP99(t, w)
    ensures v == w
  {
    assert |multiset(s)| == |multiset(t)|;
    assert v in multiset(t) && w in multiset(s);
    CountPermutation(s, t, v);
    CountPermutation(s, t, w);
  }

  /** The reported value: zero without samples, otherwise the percentile in milliseconds. */
  method CalculateP99LatencyMs(durations: seq<Time>) returns (p99: real)
    ensures durations == [] ==> p99 == 0.0
    ensures durations != [] ==> exists v :: IsP99(durations, v) && p99 == v as real / MILLISECOND as real
  {
    if |durations| == 0 {
      return 0.0;
    }
    var sortedDurations := Sort(durations);
    SortSorts(durations);
    NearestRankIsP99(durations);
    var index := P99Index(|sortedDurations|);
    if index < 0 {
      index := 0;
    }
    assert IsP99(durations, sortedDurations[index]);
    return sortedDurations[index] as real / MILLISECOND as real;
  }

  /**
   The whole reply. While recording keeps the list the window over the history, the percentile and
   the count are those of exactly its samples of the last fifteen seconds.
   */
  method GetLoadSignals(recorder: Recorder, active: int, semaphoreCapacity: int, now: Time)
    returns (signals: AdaptiveTtl.Signals)
    requires recorder.Valid()
    modifies recorder
    ensures recorder.Valid() && recorder.history == old(recorder.history)
    ensures recorder.trimmedFor == Max(old(recorder.trimmedFor), now)
    ensures signals.activeRequests == active && signals.maxConcurrent == semaphoreCapacity
    ensures Reports(signals, Durations(recorder.requestDurations))
    ensures old(recorder.Windowed()) ==>
              recorder.Windowed()
              && Reports(signals, Durations(RecentOf(recorder.history, recorder.trimmedFor - WINDOW)))
  {
    var durations := recorder.RecentRequestDurations(now);
    var p99 := CalculateP99LatencyMs(durations);
    signals := AdaptiveTtl.Signals(p99, active, semaphoreCapacity, |durations|);
  }

  ghost predicate Reports(signals: AdaptiveTtl.Signals, durations: seq<Time>) {
    && signals.sampleCount == |durations|
    && (durations == [] ==> signals.p99LatencyMs == 0.0)
    && (durations != [] ==> exists v :: IsP99(durations, v) && signals.p99LatencyMs == v as real / MILLISECOND as real)
  }
}
