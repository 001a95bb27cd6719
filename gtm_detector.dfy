/**
 * The detector's pure helpers (container id format, size percentage) and its
 * table of request timings (`requestTiming`), keyed by the browser's request
 * id. Clock readings are parameters, in whole milliseconds.
 */
module GtmDetector {
  import opened Wrappers
  import opened Strings
  import opened Json
  import opened Constants

  // ---------------------------------------------------------------------------
  // Container ids
  // ---------------------------------------------------------------------------

  /** A character of `[A-Z0-9]`. */
  predicate IdChar(c: char) {
    'A' <= c <= 'Z' || '0' <= c <= '9'
  }

  /** `/^GTM-[A-Z0-9]{7,}$/` on a string. */
  predicate MatchesContainerId(s: string) {
    |s| >= 11 && StartsWith(s, "GTM-") && forall i | 4 <= i < |s| :: IdChar(s[i])
  }

  /** `isValidContainerId(containerId)`: falsy and non-string values are not ids. */
  predicate IsValidContainerId(v: Json) {
    v.JString? && v.s != "" && MatchesContainerId(v.s)
  }

  /** A valid id stays valid with one more id character, and never loses its prefix. */
  lemma ContainerIdExtends(s: string, c: char)
    requires MatchesContainerId(s) && IdChar(c)
    ensures MatchesContainerId(s + [c])
    ensures (s + [c])[..4] == "GTM-"
  {
    assert (s + [c])[..4] == s[..4];
  }

  /** Seven id characters are the minimum; lower-case letters and a missing prefix are refused. */
  lemma ContainerIdExamples()
    ensures IsValidContainerId(JString("GTM-ABC1234"))
    ensures !IsValidContainerId(JString("GTM-ABC123"))
    ensures !IsValidContainerId(JString("GTM-abc1234"))
    ensures !IsValidContainerId(JString("G-ABC12345"))
    ensures !IsValidContainerId(JNull) && !IsValidContainerId(JNumber(1234567))
  {
    assert !IdChar("GTM-abc1234"[4]);
    assert "G-ABC12345"[..4] != "GTM-" by { assert "G-ABC12345"[..4][1] == '-'; }
  }

  // ---------------------------------------------------------------------------
  // Sizes
  // ---------------------------------------------------------------------------

  /** `Math.round(n / d)` on exact rationals: the nearest integer, halves rounded up. */
  function RoundDiv(n: int, d: nat): (r: int)
    requires d > 0
    ensures 2 * d * r - d <= 2 * n < 2 * d * r + d
  {
    DivBounds(2 * n + d, 2 * d);
    (2 * n + d) / (2 * d)
  }

  lemma DivBounds(x: int, y: int)
    requires y > 0
    ensures y * (x / y) <= x < y * (x / y) + y
  {
  }

  /** The quotient is the one `q` with `y * q <= x < y * q + y`. */
  lemma DivUnique(x: int, y: int, q: int)
    requires y > 0 && y * q <= x < y * q + y
    ensures x / y == q
  {
    DivBounds(x, y);
    var d := x / y - q;
    assert y * (x / y) - y * q == y * d;
    if d >= 1 {
      MulAtLeast(y, d);
    } else if d <= -1 {
      MulAtLeast(y, -d);
    }
  }

  lemma MulAtLeast(y: int, d: int)
    requires y > 0 && d >= 1
    ensures y * d >= y
  {
  }

  /** `calculateSizePercentage(sizeInBytes)`: the size as a rounded percentage of the 200 KB limit. */
  function CalculateSizePercentage(sizeInBytes: int): (r: int)
    ensures 2 * MaxGtmSize * r - MaxGtmSize <= 200 * sizeInBytes < 2 * MaxGtmSize * r + MaxGtmSize
  {
    RoundDiv(sizeInBytes * 100, MaxGtmSize)
  }

  /** The percentage is `(b + 1024) / 2048`: 2048 bytes per percent, rounded half up. */
  lemma {:induction false} SizePercentageClosedForm(b: int)
    ensures CalculateSizePercentage(b) == (b + 1024) / 2048
  {
    var r := CalculateSizePercentage(b);
    assert 2048 * r <= b + 1024 < 2048 * r + 2048;
    DivUnique(b + 1024, 2048, r);
  }

  /** An empty container is 0%, one at the limit is 100%, and a larger one is never a smaller percentage. */
  lemma SizePercentageMonotone(a: int, b: int)
    requires a <= b
    ensures CalculateSizePercentage(a) <= CalculateSizePercentage(b)
    ensures CalculateSizePercentage(0) == 0 && CalculateSizePercentage(MaxGtmSize) == 100
  {
    SizePercentageClosedForm(a);
    SizePercentageClosedForm(b);
    SizePercentageClosedForm(0);
    SizePercentageClosedForm(MaxGtmSize);
    DivBounds(a + 1024, 2048);
    DivBounds(b + 1024, 2048);
  }

  /** The size report `measureContainerSize` returns once the sizes are known. */
  datatype SizeInfo = SizeInfo(
    sizeInKb: int,
    uncompressedSizeKb: int,
    sizeEstimate: bool,
    sizeInBytes: int,
    percentage: int)

  /** `Math.round(bytes / 1024)`: a byte count in whole kilobytes. */
  function Kilobytes(bytes: int): (r: int)
    ensures 2048 * r - 1024 <= 2 * bytes < 2048 * r + 1024
  {
    RoundDiv(bytes, 1024)
  }

  /** The report for a measured size in kilobytes. */
  function SizeReport(sizeInKb: int, uncompressedSizeKb: int, sizeEstimate: bool): (r: SizeInfo)
    ensures r.sizeInKb == sizeInKb && r.sizeInBytes == sizeInKb * 1024
  {
    SizeInfo(sizeInKb, uncompressedSizeKb, sizeEstimate, sizeInKb * 1024, CalculateSizePercentage(sizeInKb * 1024))
  }

  /** A size in whole kilobytes is half as many percent, rounded half up. */
  lemma SizeReportPercentage(sizeInKb: int, uncompressedSizeKb: int, sizeEstimate: bool)
    ensures SizeReport(sizeInKb, uncompressedSizeKb, sizeEstimate).percentage == (sizeInKb + 1) / 2
  {
    var b := sizeInKb * 1024;
    SizePercentageClosedForm(b);
    var q := (sizeInKb + 1) / 2;
    DivBounds(sizeInKb + 1, 2);
    DivUnique(b + 1024, 2048, q);
  }

  // ---------------------------------------------------------------------------
  // Request timing
  // ---------------------------------------------------------------------------

  /** One timed request; `completeRequestTiming` fills in the end and the load time. */
  datatype Timing = Timing(startTime: int, url: string, tabId: int, endTime: Option<int>, loadTimeMs: Option<int>)

  /** The table after `startRequestTiming(requestId, url, tabId)` at time `now`. */
  function Started(m: map<string, Timing>, requestId: string, url: string, tabId: Json, now: int): (r: map<string, Timing>)
    ensures requestId == "" || url == "" || !tabId.JNumber? ==> r == m
    ensures requestId != "" && url != "" && tabId.JNumber? ==>
      r.Keys == m.Keys + {requestId} && r[requestId] == Timing(now, url, tabId.n, None, None)
    ensures forall k | k in m && k != requestId :: k in r && r[k] == m[k]
  {
    if requestId == "" || url == "" || !tabId.JNumber? then m
    else m[requestId := Timing(now, url, tabId.n, None, None)]
  }

  /** The entry of `requestId` once completed at time `now`, or `None` when there is none. */
  function Completed(m: map<string, Timing>, requestId: string, now: int): (r: Option<Timing>)
    ensures r.None? <==> requestId == "" || requestId !in m
    ensures r.Some? ==> r.value.startTime == m[requestId].startTime && r.value.endTime == Some(now)
    ensures r.Some? ==>
      r.value.loadTimeMs == Some(now - m[requestId].startTime)
      && r.value.url == m[requestId].url && r.value.tabId == m[requestId].tabId
  {
    if requestId == "" || requestId !in m then None
    else
      var t := m[requestId];
      Some(t.(endTime := Some(now), loadTimeMs := Some(now - t.startTime)))
  }

  /** Starting and then completing a request measures the time between the two. */
  lemma StartThenComplete(m: map<string, Timing>, requestId: string, url: string, tabId: int, t0: int, t1: int)
    requires requestId != "" && url != ""
    ensures Completed(Started(m, requestId, url, JNumber(tabId), t0), requestId, t1)
      == Some(Timing(t0, url, tabId, Some(t1), Some(t1 - t0)))
  {
  }

  class GTMDetector {
    /** `requestTiming`, keyed by request id. */
    var requestTiming: map<string, Timing>
    const maxGtmSize: nat

    constructor ()
      ensures requestTiming == map[] && maxGtmSize == MaxGtmSize
    {
      requestTiming := map[];
      maxGtmSize := MaxGtmSize;
    }

    /** `startRequestTiming(requestId, url, tabId)`: records the start, unless an argument is missing. */
    method StartRequestTiming(requestId: string, url: string, tabId: Json, now: int)
      modifies this
      ensures requestTiming == Started(old(requestTiming), requestId, url, tabId, now)
    {
      if requestId == "" || url == "" || !tabId.JNumber? {
        return;
      }
      requestTiming := requestTiming[requestId := Timing(now, url, tabId.n, None, None)];
    }

    /** `completeRequestTiming(requestId)`: stamps the stored entry and returns the stamped timing as a value. */
    method CompleteRequestTiming(requestId: string, now: int) returns (r: Option<Timing>)
      modifies this
      ensures r == Completed(old(requestTiming), requestId, now)
      ensures r.None? ==> requestTiming == old(requestTiming)
      ensures r.Some? ==> requestTiming == old(requestTiming)[requestId := r.value]
    {
      if requestId == "" || requestId !in requestTiming {
        return None;
      }
      var timing := requestTiming[requestId];
      timing := timing.(endTime := Some(now));
      timing := timing.(loadTimeMs := Some(now - timing.startTime));
      requestTiming := requestTiming[requestId := timing];
      r := Some(timing);
    }

    /** `cleanupRequestTiming(requestId)`: forgets that one request. */
    method CleanupRequestTiming(requestId: string)
      modifies this
      ensures requestId != "" ==> requestTiming == old(requestTiming) - {requestId}
      ensures requestId == "" ==> requestTiming == old(requestTiming)
    {
      if requestId != "" && requestId in requestTiming {
        requestTiming := requestTiming - {requestId};
      }
    }

    /** `cleanupAllTiming()`: forgets every request. */
    method CleanupAllTiming()
      modifies this
      ensures requestTiming == map[]
    {
      requestTiming := map[];
    }
  }
}
