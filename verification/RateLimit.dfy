/** The in-memory sliding-window rate limiter. */
module RateLimit {
  import opened Wrappers

  datatype Limit = Limit(maxAttempts: int, window: real)

  /** An empty key shares the bucket of the key "unknown". */
  function Bucket(key: string): string { if key == "" then "unknown" else key }

  /** A call to `check`, with the bucket it goes to. */
  datatype Call = Call(bucket: string, at: real)

  type Attempts = map<string, seq<real>>

  function Times(attempts: Attempts, bucket: string): seq<real> {
    if bucket in attempts then attempts[bucket] else []
  }

  /** Drop leading entries that are not after the cutoff. */
  function Prune(times: seq<real>, cutoff: real): seq<real> {
    if times != [] && times[0] <= cutoff then Prune(times[1..], cutoff) else times
  }

  predicate Accepts(l: Limit, attempts: Attempts, call: Call) {
    |Prune(Times(attempts, call.bucket), call.at - l.window)| < l.maxAttempts
  }

  function Checked(l: Limit, attempts: Attempts, call: Call): Attempts {
    var live := Prune(Times(attempts, call.bucket), call.at - l.window);
    attempts[call.bucket := if Accepts(l, attempts, call) then live + [call.at] else live]
  }

  /** The bucket of a key after a check. */
  function Bucketed(l: Limit, times: seq<real>, at: real): seq<real> {
    var live := Prune(times, at - l.window);
    if |live| < l.maxAttempts then live + [at] else live
  }

  lemma CheckedTimes(l: Limit, attempts: Attempts, call: Call, bucket: string)
    ensures Times(Checked(l, attempts, call), bucket) ==
      if bucket == call.bucket then Bucketed(l, Times(attempts, bucket), call.at) else Times(attempts, bucket)
    ensures bucket == call.bucket ==>
      (Accepts(l, attempts, call) <==> |Prune(Times(attempts, bucket), call.at - l.window)| < l.maxAttempts)
  {
  }

  function Run(l: Limit, calls: seq<Call>): Attempts {
    if calls == [] then map[] else Checked(l, Run(l, calls[..|calls| - 1]), calls[|calls| - 1])
  }

  /** The times at which calls with this bucket were accepted, over the whole run. */
  function Accepted(l: Limit, calls: seq<Call>, bucket: string): seq<real> {
    if calls == [] then []
    else
      var prefix, last := calls[..|calls| - 1], calls[|calls| - 1];
      var earlier := Accepted(l, prefix, bucket);
      if last.bucket == bucket && Accepts(l, Run(l, prefix), last) then earlier + [last.at] else earlier
  }

  /** Entries of `times` in the window that ends at `end`. */
  function InWindow(times: seq<real>, end: real, window: real): nat {
    if times == [] then 0
    else InWindow(times[..|times| - 1], end, window)
         + (if end - window < times[|times| - 1] <= end then 1 else 0)
  }

  /** The clock does not run backwards between calls with one bucket. */
  predicate Monotone(calls: seq<Call>) {
    forall i, j :: 0 <= i < j < |calls| && calls[i].bucket == calls[j].bucket ==> calls[i].at <= calls[j].at
  }

  predicate Sorted(times: seq<real>) {
    forall i, j :: 0 <= i < j < |times| ==> times[i] <= times[j]
  }

  /** Any `maxAttempts` consecutive entries are followed by one a whole window later. */
  predicate Spaced(l: Limit, times: seq<real>) {
    forall i, j :: 0 <= i < j < |times| && j - i >= l.maxAttempts ==> times[j] - times[i] >= l.window
  }

  // ---- Pruning ----------------------------------------------------------------------------------

  lemma {:induction false} PruneSorted(times: seq<real>, cutoff: real) returns (dropped: nat)
    requires Sorted(times)
    ensures dropped <= |times| && Prune(times, cutoff) == times[dropped..]
    ensures forall i :: 0 <= i < dropped ==> times[i] <= cutoff
    ensures forall i :: dropped <= i < |times| ==> times[i] > cutoff
    decreases |times|
  {
    if times != [] && times[0] <= cutoff {
      var rest := PruneSorted(times[1..], cutoff);
      dropped := rest + 1;
      assert times[1..][rest..] == times[dropped..];
      forall i | 0 < i < |times| ensures times[i] <= cutoff <==> i < dropped {
        assert times[i] == times[1..][i - 1];
      }
    } else {
      dropped := 0;
      assert times[0..] == times;
    }
  }

  /** In a sorted list the window count is the number of entries after the window's start. */
  lemma {:induction false} CountFrom(times: seq<real>, end: real, window: real, dropped: nat)
    requires dropped <= |times|
    requires forall i :: 0 <= i < dropped ==> times[i] <= end - window
    requires forall i :: dropped <= i < |times| ==> end - window < times[i] <= end
    ensures InWindow(times, end, window) == |times| - dropped
    decreases |times|
  {
    if times != [] {
      if dropped < |times| {
        CountFrom(times[..|times| - 1], end, window, dropped);
      } else {
        CountFrom(times[..|times| - 1], end, window, dropped - 1);
      }
    }
  }

  // ---- The invariant of a bucket -----------------------------------------------------------------

  /** A bucket holds the latest accepted times; the others lie at or before the cutoff. */
  predicate Suffix(accepted: seq<real>, times: seq<real>, cutoff: real) {
    && |times| <= |accepted| && times == accepted[|accepted| - |times|..]
    && (forall i :: 0 <= i < |accepted| - |times| ==> accepted[i] <= cutoff)
  }

  /** The accepted times are spaced out, and those the bucket lost have left every window to come. */
  predicate Tracks(l: Limit, accepted: seq<real>, times: seq<real>, last: real) {
    && Sorted(accepted) && Spaced(l, accepted)
    && (forall i :: 0 <= i < |accepted| ==> accepted[i] <= last)
    && Suffix(accepted, times, last - l.window)
  }

  lemma SuffixIsSorted(accepted: seq<real>, times: seq<real>, cutoff: real)
    requires Sorted(accepted) && Suffix(accepted, times, cutoff)
    ensures Sorted(times)
  {
    var start := |accepted| - |times|;
    forall i, j | 0 <= i < j < |times| ensures times[i] <= times[j] {
      assert times[i] == accepted[start + i] && times[j] == accepted[start + j];
    }
  }

  lemma SuffixOfSuffix(accepted: seq<real>, times: seq<real>, before: real, cutoff: real, dropped: nat)
    requires Suffix(accepted, times, before) && before <= cutoff && dropped <= |times|
    requires forall i :: 0 <= i < dropped ==> times[i] <= cutoff
    requires forall i :: dropped <= i < |times| ==> times[i] > cutoff
    ensures Suffix(accepted, times[dropped..], cutoff)
    ensures forall i :: |accepted| - (|times| - dropped) <= i < |accepted| ==> accepted[i] > cutoff
  {
    var start := |accepted| - |times|;
    assert times[dropped..] == accepted[start + dropped..];
    forall i | start <= i < |accepted| ensures accepted[i] == times[i - start] {
    }
  }

  lemma PruneSuffix(accepted: seq<real>, times: seq<real>, before: real, cutoff: real)
    requires Sorted(accepted) && Suffix(accepted, times, before) && before <= cutoff
    ensures var live := Prune(times, cutoff);
            && Suffix(accepted, live, cutoff)
            && forall i :: |accepted| - |live| <= i < |accepted| ==> accepted[i] > cutoff
  {
    SuffixIsSorted(accepted, times, before);
    var dropped := PruneSorted(times, cutoff);
    SuffixOfSuffix(accepted, times, before, cutoff, dropped);
  }

  lemma PruneTracks(l: Limit, accepted: seq<real>, times: seq<real>, last: real, at: real)
    requires Tracks(l, accepted, times, last) && last <= at && l.window >= 0.0
    ensures var live := Prune(times, at - l.window);
            Tracks(l, accepted, live, at) && |live| == InWindow(accepted, at, l.window)
  {
    PruneSuffix(accepted, times, last - l.window, at - l.window);
    CountFrom(accepted, at, l.window, |accepted| - |Prune(times, at - l.window)|);
  }

  lemma AppendTracks(l: Limit, accepted: seq<real>, live: seq<real>, at: real)
    requires Tracks(l, accepted, live, at) && |live| < l.maxAttempts
    ensures Tracks(l, accepted + [at], live + [at], at)
  {
    var gone, more := |accepted| - |live|, accepted + [at];
    assert more[gone..] == accepted[gone..] + [at];
    forall i, j | 0 <= i < j < |more| && j - i >= l.maxAttempts ensures more[j] - more[i] >= l.window {
      if j == |accepted| {
        assert i < gone;
      }
    }
  }

  /** One bucket and its accepted times before and after a call at `at`. */
  predicate OneCall(l: Limit, accepted: seq<real>, times: seq<real>, at: real, accepted': seq<real>, times': seq<real>) {
    var live := Prune(times, at - l.window);
    if |live| < l.maxAttempts then accepted' == accepted + [at] && times' == live + [at]
    else accepted' == accepted && times' == live
  }

  lemma CallTracks(l: Limit, accepted: seq<real>, times: seq<real>, at: real,
                   accepted': seq<real>, times': seq<real>, now: real)
    requires l.window >= 0.0 && at <= now && Tracks(l, accepted, times, at)
    requires OneCall(l, accepted, times, at, accepted', times')
    ensures Tracks(l, accepted', times', now)
  {
    PruneTracks(l, accepted, times, at, at);
    if |Prune(times, at - l.window)| < l.maxAttempts {
      AppendTracks(l, accepted, Prune(times, at - l.window), at);
    }
    Later(l, accepted', times', at, now);
  }

  /** The calls with this bucket all lie at or before `now`. */
  predicate Until(calls: seq<Call>, bucket: string, now: real) {
    forall i :: 0 <= i < |calls| && calls[i].bucket == bucket ==> calls[i].at <= now
  }

  lemma MonotonePrefix(calls: seq<Call>, call: Call)
    requires Monotone(calls + [call])
    ensures Monotone(calls) && Until(calls, call.bucket, call.at)
  {
    var all := calls + [call];
    assert forall i :: 0 <= i < |calls| ==> all[i] == calls[i];
    assert all[|calls|] == call;
  }

  /** What one more call does to a bucket and to the accepted times that go with it. */
  lemma OneMoreCall(l: Limit, calls: seq<Call>, bucket: string)
    requires calls != []
    ensures var prefix, last := calls[..|calls| - 1], calls[|calls| - 1];
            if last.bucket == bucket then
              OneCall(l, Accepted(l, prefix, bucket), Times(Run(l, prefix), bucket), last.at,
                      Accepted(l, calls, bucket), Times(Run(l, calls), bucket))
            else
              && Accepted(l, calls, bucket) == Accepted(l, prefix, bucket)
              && Times(Run(l, calls), bucket) == Times(Run(l, prefix), bucket)
  {
  }

  /** Every run keeps each bucket in step with the accepted calls of its own. */
  lemma {:induction false} BucketsTrack(l: Limit, calls: seq<Call>, bucket: string, now: real)
    requires l.window >= 0.0 && Monotone(calls) && Until(calls, bucket, now)
    ensures Tracks(l, Accepted(l, calls, bucket), Times(Run(l, calls), bucket), now)
    decreases |calls|
  {
    if calls != [] {
      var prefix, last := calls[..|calls| - 1], calls[|calls| - 1];
      assert calls == prefix + [last];
      MonotonePrefix(prefix, last);
      OneMoreCall(l, calls, bucket);
      if last.bucket == bucket {
        BucketsTrack(l, prefix, bucket, last.at);
        CallTracks(l, Accepted(l, prefix, bucket), Times(Run(l, prefix), bucket), last.at,
                   Accepted(l, calls, bucket), Times(Run(l, calls), bucket), now);
      } else {
        BucketsTrack(l, prefix, bucket, now);
      }
    }
  }

  lemma Later(l: Limit, accepted: seq<real>, times: seq<real>, last: real, now: real)
    requires Tracks(l, accepted, times, last) && last <= now
    ensures Tracks(l, accepted, times, now)
  {
  }

  // ---- The bound, and exactly when a call is rejected ------------------------------------------------

  lemma {:induction false} FewInWindow(times: seq<real>, end: real, window: real, bound: nat)
    requires forall i :: 0 <= i < |times| - bound ==> !(end - window < times[i] <= end)
    ensures InWindow(times, end, window) <= bound
    decreases |times|
  {
    if times != [] {
      if bound > 0 {
        FewInWindow(times[..|times| - 1], end, window, bound - 1);
      } else {
        FewInWindow(times[..|times| - 1], end, window, 0);
      }
    }
  }

  lemma {:induction false} SpacedBound(l: Limit, times: seq<real>, end: real)
    requires Sorted(times) && Spaced(l, times) && l.maxAttempts > 0
    ensures InWindow(times, end, l.window) <= l.maxAttempts
    decreases |times|
  {
    if times != [] {
      var last := times[|times| - 1];
      if end - l.window < last <= end {
        FewInWindow(times, end, l.window, l.maxAttempts);
      } else {
        SpacedBound(l, times[..|times| - 1], end);
      }
    }
  }

  lemma {:induction false} NoneAccepted(l: Limit, calls: seq<Call>, bucket: string)
    requires l.maxAttempts <= 0
    ensures Accepted(l, calls, bucket) == []
    decreases |calls|
  {
    if calls != [] {
      NoneAccepted(l, calls[..|calls| - 1], bucket);
    }
  }

  /** In every run, any window of any bucket holds at most `maxAttempts` accepted calls. */
  lemma WindowBound(l: Limit, calls: seq<Call>, bucket: string, end: real)
    requires l.window >= 0.0 && Monotone(calls)
    ensures InWindow(Accepted(l, calls, bucket), end, l.window) <= Max(l.maxAttempts, 0)
  {
    if l.maxAttempts <= 0 {
      NoneAccepted(l, calls, bucket);
    } else {
      var now := LatestCall(calls);
      BucketsTrack(l, calls, bucket, now);
      SpacedBound(l, Accepted(l, calls, bucket), end);
    }
  }

  function LatestCall(calls: seq<Call>): (now: real)
    ensures forall i :: 0 <= i < |calls| ==> calls[i].at <= now
  {
    if calls == [] then 0.0
    else
      var rest := LatestCall(calls[..|calls| - 1]);
      if rest < calls[|calls| - 1].at then calls[|calls| - 1].at else rest
  }

  /** A call is rejected exactly when the window ending at it already holds `maxAttempts` accepted ones. */
  lemma RejectedExactlyWhenFull(l: Limit, calls: seq<Call>, call: Call)
    requires l.window >= 0.0 && Monotone(calls + [call])
    ensures !Accepts(l, Run(l, calls), call)
            <==> InWindow(Accepted(l, calls, call.bucket), call.at, l.window) >= l.maxAttempts
  {
    MonotonePrefix(calls, call);
    LiveIsWindow(l, calls, call.bucket, call.at);
  }

  lemma LiveIsWindow(l: Limit, calls: seq<Call>, bucket: string, at: real)
    requires l.window >= 0.0 && Monotone(calls) && Until(calls, bucket, at)
    ensures |Prune(Times(Run(l, calls), bucket), at - l.window)|
            == InWindow(Accepted(l, calls, bucket), at, l.window)
  {
    BucketsTrack(l, calls, bucket, at);
    PruneTracks(l, Accepted(l, calls, bucket), Times(Run(l, calls), bucket), at, at);
  }

  // ---- Buckets are independent ---------------------------------------------------------------------------

  function OfBucket(calls: seq<Call>, bucket: string): seq<Call> {
    if calls == [] then []
    else OfBucket(calls[..|calls| - 1], bucket)
         + (if calls[|calls| - 1].bucket == bucket then [calls[|calls| - 1]] else [])
  }

  /** Calls to other buckets never change what happens in this one. */
  lemma {:induction false} BucketsAreIndependent(l: Limit, calls: seq<Call>, bucket: string)
    ensures Times(Run(l, calls), bucket) == Times(Run(l, OfBucket(calls, bucket)), bucket)
    ensures Accepted(l, calls, bucket) == Accepted(l, OfBucket(calls, bucket), bucket)
    decreases |calls|
  {
    if calls != [] {
      var prefix, last := calls[..|calls| - 1], calls[|calls| - 1];
      BucketsAreIndependent(l, prefix, bucket);
      CheckedTimes(l, Run(l, prefix), last, bucket);
      if last.bucket == bucket {
        CheckedTimes(l, Run(l, OfBucket(prefix, bucket)), last, bucket);
        assert (OfBucket(prefix, bucket) + [last])[..|OfBucket(prefix, bucket)|] == OfBucket(prefix, bucket);
      } else {
        assert OfBucket(prefix, bucket) + [] == OfBucket(prefix, bucket);
      }
    }
  }

  /** A call to `check` as the caller makes it. */
  datatype KeyCall = KeyCall(key: string, at: real)

  function Calls(calls: seq<KeyCall>): (r: seq<Call>)
    ensures |r| == |calls|
  {
    seq(|calls|, i requires 0 <= i < |calls| => Call(Bucket(calls[i].key), calls[i].at))
  }

  /** Two keys share a bucket only if they are equal, or one is empty and the other "unknown". */
  lemma BucketsAreKeys(a: string, b: string)
    ensures Bucket(a) == Bucket(b) <==> a == b || (a in {"", "unknown"} && b in {"", "unknown"})
  {
  }

  function OfKey(calls: seq<KeyCall>, key: string): seq<KeyCall> {
    if calls == [] then []
    else OfKey(calls[..|calls| - 1], key) + (if calls[|calls| - 1].key == key then [calls[|calls| - 1]] else [])
  }

  lemma {:induction false} OfKeyIsOfBucket(calls: seq<KeyCall>, key: string)
    requires key != "" && key != "unknown"
    ensures Calls(OfKey(calls, key)) == OfBucket(Calls(calls), Bucket(key))
    decreases |calls|
  {
    if calls != [] {
      var init, last := calls[..|calls| - 1], calls[|calls| - 1];
      OfKeyIsOfBucket(init, key);
      BucketsAreKeys(last.key, key);
      assert Calls(calls)[..|calls| - 1] == Calls(init);
      if last.key == key {
        assert Calls(OfKey(init, key) + [last]) == Calls(OfKey(init, key)) + [Call(Bucket(key), last.at)];
      } else {
        assert OfKey(init, key) + [] == OfKey(init, key);
        assert OfBucket(Calls(init), Bucket(key)) + [] == OfBucket(Calls(init), Bucket(key));
      }
    }
  }

  /** What happens to a key is decided by its own calls: those with other keys change no answer. */
  lemma KeysAreIndependent(l: Limit, calls: seq<KeyCall>, call: KeyCall)
    requires call.key != "" && call.key != "unknown"
    ensures Accepts(l, Run(l, Calls(calls)), Call(Bucket(call.key), call.at))
            <==> Accepts(l, Run(l, Calls(OfKey(calls, call.key))), Call(Bucket(call.key), call.at))
  {
    OfKeyIsOfBucket(calls, call.key);
    BucketsAreIndependent(l, Calls(calls), Bucket(call.key));
  }

  /** A call that finds room beside the entries still live. */
  lemma AcceptedNext(l: Limit, calls: seq<Call>, call: Call, accepted: seq<real>, times: seq<real>, live: seq<real>)
    requires Accepted(l, calls, call.bucket) == accepted && Times(Run(l, calls), call.bucket) == times
    requires Prune(times, call.at - l.window) == live && |live| < l.maxAttempts
    ensures Accepted(l, calls + [call], call.bucket) == accepted + [call.at]
    ensures Times(Run(l, calls + [call]), call.bucket) == live + [call.at]
  {
    assert (calls + [call])[..|calls|] == calls;
    OneMoreCall(l, calls + [call], call.bucket);
  }

  lemma TwoTogether(l: Limit, a: Call)
    requires l == Limit(2, 10.0) && a == Call("k", 100.0)
    ensures Accepted(l, [a, a], "k") == [100.0, 100.0] && Times(Run(l, [a, a]), "k") == [100.0, 100.0]
  {
    AcceptedNext(l, [], a, [], [], []);
    assert [] + [a] == [a];
    AcceptedNext(l, [a], a, [100.0], [100.0], [100.0]);
    assert [a] + [a] == [a, a];
  }

  /** The clock assumption is needed: a step back lets three calls into one window of two. */
  lemma BackwardClockBreaksTheBound(l: Limit, a: Call, b: Call, c: Call)
    requires l == Limit(2, 10.0)
    requires a == Call("k", 100.0) && b == Call("k", 111.0) && c == Call("k", 105.0)
    ensures InWindow(Accepted(l, [a, a, b, c], "k"), 105.0, l.window) == 3
  {
    TwoTogether(l, a);
    PruneBoth(100.0, 101.0);
    AcceptedNext(l, [a, a], b, [100.0, 100.0], [100.0, 100.0], []);
    assert [a, a] + [b] == [a, a, b];
    AcceptedNext(l, [a, a, b], c, [100.0, 100.0, 111.0], [111.0], [111.0]);
    assert [a, a, b] + [c] == [a, a, b, c];
    CountOfFour();
  }

  lemma PruneBoth(x: real, cutoff: real)
    requires x <= cutoff
    ensures Prune([x, x], cutoff) == []
  {
    assert [x, x][1..] == [x] && [x][1..] == [];
    assert Prune([x], cutoff) == Prune([], cutoff) == [];
  }

  lemma CountOfFour()
    ensures InWindow([100.0, 100.0, 111.0, 105.0], 105.0, 10.0) == 3
  {
    assert [100.0, 100.0, 111.0, 105.0][..3] == [100.0, 100.0, 111.0];
    assert [100.0, 100.0, 111.0][..2] == [100.0, 100.0] && [100.0, 100.0][..1] == [100.0] && [100.0][..0] == [];
    assert InWindow([100.0], 105.0, 10.0) == 1;
    assert InWindow([100.0, 100.0], 105.0, 10.0) == 2;
    assert InWindow([100.0, 100.0, 111.0], 105.0, 10.0) == 2;
  }

  // ---- The limiter ---------------------------------------------------------------------------------------

  class InMemoryRateLimiter {
    const l: Limit
    var attempts: Attempts

    constructor (l: Limit)
      ensures this.l == l && attempts == map[]
    {
      this.l := l;
      attempts := map[];
    }

    /** `ok` is false where the source raises; the pruned bucket stays pruned then. */
    method Check(key: string, now: real) returns (ok: bool)
      modifies this`attempts
      ensures ok <==> Accepts(l, old(attempts), Call(Bucket(key), now))
      ensures attempts == Checked(l, old(attempts), Call(Bucket(key), now))
    {
      var bucket := Times(attempts, Bucket(key));
      var cutoff := now - l.window;
      while bucket != [] && bucket[0] <= cutoff
        invariant Prune(bucket, cutoff) == Prune(Times(attempts, Bucket(key)), cutoff)
        decreases |bucket|
      {
        bucket := bucket[1..];
      }
      ok := |bucket| < l.maxAttempts;
      if ok {
        bucket := bucket + [now];
      }
      attempts := attempts[Bucket(key) := bucket];
    }

    method Reset()
      modifies this`attempts
      ensures attempts == map[]
    {
      attempts := map[];
    }
  }
}
