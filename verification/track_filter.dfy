/** The time-window filter applied to a parsed subtitle track before it is
    written out (`SubtitleEncoder.FilterEvents`): a leading run of cues that
    start or end before the window is skipped, cues after the first one that
    starts past the window end are cut, and the survivors are optionally
    rebased so that the window start becomes time zero. Times are `long`
    ticks of 100 ns, so the subtractions wrap around as C# `long` does. */
module TrackFilter {
  import opened DotNet

  /** One cue: start and end in ticks, and the text the filter never touches. */
  datatype Event = Event(start: Int64, end: Int64, text: string)

  /** The drop test of the leading run, `(start - s) < 0 || (end - s) < 0`
      evaluated on `long`. */
  predicate EarlierThanWindow(e: Event, s: Int64) {
    Sub64(e.start, s) < 0 || Sub64(e.end, s) < 0
  }

  /** `SkipWhile(EarlierThanWindow)`: the events left after the longest
      leading run of earlier events. */
  function SkipLeading(es: seq<Event>, s: Int64): (r: seq<Event>)
    ensures |r| <= |es| && r == es[|es| - |r|..]
    ensures forall i :: 0 <= i < |es| - |r| ==> EarlierThanWindow(es[i], s)
    ensures |r| > 0 ==> !EarlierThanWindow(r[0], s)
    decreases |es|
  {
    if |es| == 0 then []
    else if EarlierThanWindow(es[0], s) then SkipLeading(es[1..], s)
    else es
  }

  /** `TakeWhile(start <= endTicks)`: the longest prefix of events that do
      not start after `endTicks`. */
  function TakeUntil(es: seq<Event>, endTicks: Int64): (r: seq<Event>)
    ensures |r| <= |es| && r == es[..|r|]
    ensures forall i :: 0 <= i < |r| ==> r[i].start <= endTicks
    ensures |r| < |es| ==> es[|r|].start > endTicks
    decreases |es|
  {
    if |es| == 0 || es[0].start > endTicks then []
    else [es[0]] + TakeUntil(es[1..], endTicks)
  }

  /** The events the filter keeps, before any rebasing. */
  function Kept(es: seq<Event>, s: Int64, endTicks: Option<Int64>): seq<Event> {
    var tail := SkipLeading(es, s);
    if endTicks.Some? then TakeUntil(tail, endTicks.value) else tail
  }

  /** One cue moved `s` ticks earlier, as the loop at the end of the filter does. */
  function Shift(e: Event, s: Int64): Event {
    Event(Sub64(e.start, s), Sub64(e.end, s), e.text)
  }

  /** One cue moved `s` ticks later: the inverse of `Shift`. */
  function Unshift(e: Event, s: Int64): Event {
    Event(Add64(e.start, s), Add64(e.end, s), e.text)
  }

  /** Moves every event `s` ticks earlier; adding `s` back restores each one. */
  function Rebase(es: seq<Event>, s: Int64): (r: seq<Event>)
    ensures |r| == |es|
    ensures forall i :: 0 <= i < |es| ==> Unshift(r[i], s) == es[i]
    ensures forall i :: 0 <= i < |es| ==> r[i].text == es[i].text
  {
    seq(|es|, i requires 0 <= i < |es| => Shift(es[i], s))
  }

  /** Moves every event `s` ticks later. */
  function Restore(es: seq<Event>, s: Int64): seq<Event> {
    seq(|es|, i requires 0 <= i < |es| => Unshift(es[i], s))
  }

  /** `FilterEvents(track, s, endTicks, preserveTimestamps)`. The result
      holds exactly the kept events, in order; when timestamps are not
      preserved, moving them back by `s` gives the kept events again. */
  function FilterEvents(es: seq<Event>, s: Int64, endTicks: Option<Int64>, preserveTimestamps: bool): (r: seq<Event>)
    ensures |r| == |Kept(es, s, endTicks)| <= |es|
    ensures preserveTimestamps ==> r == Kept(es, s, endTicks)
    ensures !preserveTimestamps ==> Restore(r, s) == Kept(es, s, endTicks)
  {
    var kept := Kept(es, s, endTicks);
    if preserveTimestamps then kept
    else
      var r := Rebase(kept, s);
      assert Restore(r, s) == kept;
      r
  }

  // ------------------------------------------------------------------
  // Properties

  /** No subtraction the filter performs on these events wraps around. */
  predicate NoWrap(es: seq<Event>, s: Int64) {
    forall i :: 0 <= i < |es| ==>
      MinInt64 <= es[i].start - s <= MaxInt64 && MinInt64 <= es[i].end - s <= MaxInt64
  }

  /** Cue times and the window start are non-negative in practice, and then
      nothing wraps. */
  lemma NonNegativeTicksDoNotWrap(es: seq<Event>, s: Int64)
    requires 0 <= s
    requires forall i :: 0 <= i < |es| ==> 0 <= es[i].start && 0 <= es[i].end
    ensures NoWrap(es, s)
  {
  }

  /** Events are in non-decreasing start order and none ends before it starts. */
  predicate WellOrdered(es: seq<Event>) {
    && (forall i, j :: 0 <= i < j < |es| ==> es[i].start <= es[j].start)
    && (forall i :: 0 <= i < |es| ==> es[i].start <= es[i].end)
  }

  /** How many leading events the filter skips. */
  function Skipped(es: seq<Event>, s: Int64): (n: nat)
    ensures n <= |es|
  {
    |es| - |SkipLeading(es, s)|
  }

  /** The kept events are one contiguous slice of the input, starting right
      after the longest leading run of earlier events; without an end bound
      nothing is cut at the tail, and with one the slice stops before the
      first event that starts past it. */
  lemma KeptIsSlice(es: seq<Event>, s: Int64, endTicks: Option<Int64>)
    ensures Skipped(es, s) + |Kept(es, s, endTicks)| <= |es|
    ensures Kept(es, s, endTicks) == es[Skipped(es, s)..Skipped(es, s) + |Kept(es, s, endTicks)|]
    ensures forall i :: 0 <= i < Skipped(es, s) ==> EarlierThanWindow(es[i], s)
    ensures Skipped(es, s) < |es| ==> !EarlierThanWindow(es[Skipped(es, s)], s)
    ensures endTicks.None? ==> Skipped(es, s) + |Kept(es, s, endTicks)| == |es|
    ensures endTicks.Some? ==> forall i :: 0 <= i < |Kept(es, s, endTicks)| ==> Kept(es, s, endTicks)[i].start <= endTicks.value
    ensures endTicks.Some? && Skipped(es, s) + |Kept(es, s, endTicks)| < |es| ==>
              es[Skipped(es, s) + |Kept(es, s, endTicks)|].start > endTicks.value
  {
    var tail := SkipLeading(es, s);
    var lo := Skipped(es, s);
    assert tail == es[lo..];
    if endTicks.Some? {
      var k := TakeUntil(tail, endTicks.value);
      assert k == tail[..|k|];
      assert k == es[lo..lo + |k|];
      if lo + |k| < |es| {
        assert es[lo + |k|] == tail[|k|];
      }
    }
  }

  /** When nothing wraps, the skipped events are exactly those that start or
      end before the window, compared in ordinary arithmetic. */
  lemma EarlierIsPlainComparison(e: Event, s: Int64)
    requires NoWrap([e], s)
    ensures EarlierThanWindow(e, s) <==> e.start < s || e.end < s
  {
    assert MinInt64 <= [e][0].start - s <= MaxInt64;
  }

  /** The first kept event lies wholly at or after the window start. */
  lemma FirstKeptInWindow(es: seq<Event>, s: Int64, endTicks: Option<Int64>)
    requires NoWrap(es, s)
    ensures var k := Kept(es, s, endTicks);
            |k| > 0 ==> k[0].start >= s && k[0].end >= s
  {
    KeptIsSlice(es, s, endTicks);
    var lo := Skipped(es, s);
    if |Kept(es, s, endTicks)| > 0 {
      assert Kept(es, s, endTicks)[0] == es[lo];
      assert NoWrap([es[lo]], s);
      EarlierIsPlainComparison(es[lo], s);
    }
  }

  /** A cue that is already showing at the window start (it starts before
      and ends at or after it) is dropped when it heads the track: the drop
      test uses "or", not "and". */
  lemma StraddlingHeadIsDropped(es: seq<Event>, s: Int64, endTicks: Option<Int64>)
    requires NoWrap(es, s)
    requires |es| > 0 && es[0].start < s <= es[0].end
    ensures |Kept(es, s, endTicks)| < |es|
    ensures |SkipLeading(es, s)| < |es|
  {
    assert NoWrap([es[0]], s);
    EarlierIsPlainComparison(es[0], s);
    KeptIsSlice(es, s, endTicks);
  }

  /** For a track in start order whose cues do not end before they start,
      every kept event lies wholly at or after the window start. */
  lemma {:induction false} OrderedTrackKeptInWindow(es: seq<Event>, s: Int64, endTicks: Option<Int64>)
    requires NoWrap(es, s) && WellOrdered(es)
    ensures var k := Kept(es, s, endTicks);
            forall i :: 0 <= i < |k| ==> k[i].start >= s && k[i].end >= s
  {
    KeptIsSlice(es, s, endTicks);
    FirstKeptInWindow(es, s, endTicks);
    var k := Kept(es, s, endTicks);
    var lo := Skipped(es, s);
    forall i | 0 <= i < |k|
      ensures k[i].start >= s && k[i].end >= s
    {
      assert k[i] == es[lo + i];
      assert k[0] == es[lo];
      assert es[lo].start <= es[lo + i].start;
    }
  }

  /** Only the leading run is checked: an out-of-order cue that lies wholly
      before the window survives once an earlier cue has been kept. */
  lemma LaterCuesAreNotRechecked()
    ensures var es := [Event(10, 20, "a"), Event(0, 1, "b")];
            Kept(es, 5, None) == es && es[1].end < 5
  {
    var es := [Event(10, 20, "a"), Event(0, 1, "b")];
    assert !EarlierThanWindow(es[0], 5);
  }

  /** Rebasing is exact when nothing wraps: every kept start and end drops by
      exactly the window start, texts are unchanged, and count and order are
      kept. */
  lemma RebaseIsExact(es: seq<Event>, s: Int64, endTicks: Option<Int64>)
    requires NoWrap(es, s)
    ensures var k := Kept(es, s, endTicks);
            var r := FilterEvents(es, s, endTicks, false);
            |r| == |k| &&
            forall i :: 0 <= i < |r| ==>
              r[i].start == k[i].start - s && r[i].end == k[i].end - s && r[i].text == k[i].text
  {
    KeptIsSlice(es, s, endTicks);
    var k := Kept(es, s, endTicks);
    var lo := Skipped(es, s);
    forall i | 0 <= i < |k|
      ensures MinInt64 <= k[i].start - s <= MaxInt64 && MinInt64 <= k[i].end - s <= MaxInt64
    {
      assert k[i] == es[lo + i];
    }
  }
}
