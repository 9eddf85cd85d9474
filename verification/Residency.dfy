/** The residency timeline: the state in force on a day, and the jurisdictions a lookback
    window makes active. */
module Residency {
  import opened Basics
  import opened Text
  import opened Calendar

  datatype Entry = Entry(effective: int, state: string)

  datatype TimelineError = UnsortedOrDuplicate | ConsecutiveSameState

  datatype Jurisdiction = Federal | State(code: string)

  ghost predicate ValidTimeline(entries: seq<Entry>) {
    forall i ::
      0 <= i < |entries| - 1 ==>
        entries[i].effective < entries[i + 1].effective && entries[i].state != entries[i + 1].state
  }

  /** The timeline is valid up to entry `i`, and the step to the next has this defect. */
  ghost predicate FirstDefect(entries: seq<Entry>, i: nat, error: TimelineError) {
    && i + 1 < |entries|
    && ValidTimeline(entries[..i + 1])
    && match error
       case UnsortedOrDuplicate => entries[i + 1].effective <= entries[i].effective
       case ConsecutiveSameState =>
         entries[i].effective < entries[i + 1].effective && entries[i].state == entries[i + 1].state
  }

  /** Accepts exactly the timelines with strictly ascending dates and no move to the state
      already in force; otherwise names the first defect. */
  method Validate(entries: seq<Entry>) returns (r: Result<(), TimelineError>)
    ensures r.Success? <==> ValidTimeline(entries)
    ensures r.Failure? ==> exists i :: FirstDefect(entries, i, r.error)
  {
    var i := 0;
    while i + 1 < |entries|
      invariant 0 <= i && (entries != [] ==> i < |entries|)
      invariant ValidTimeline(entries[..if entries == [] then 0 else i + 1])
    {
      assert entries[..i + 1][..i + 1] == entries[..i + 1];
      assert entries[i + 1].effective <= entries[i].effective ==> FirstDefect(entries, i, UnsortedOrDuplicate);
      if entries[i + 1].effective <= entries[i].effective { return Failure(UnsortedOrDuplicate); }
      assert entries[i + 1].state == entries[i].state ==> FirstDefect(entries, i, ConsecutiveSameState);
      if entries[i + 1].state == entries[i].state { return Failure(ConsecutiveSameState); }
      i := i + 1;
    }
    assert entries[..if entries == [] then 0 else i + 1] == entries;
    return Success(());
  }

  ghost predicate Ascending(entries: seq<Entry>) {
    forall i, j :: 0 <= i < j < |entries| ==> entries[i].effective < entries[j].effective
  }

  lemma {:induction false} ValidAscends(entries: seq<Entry>)
    requires ValidTimeline(entries)
    ensures Ascending(entries)
  {
    if entries != [] {
      var n := |entries| - 1;
      ValidAscends(entries[..n]);
      forall i | 0 <= i < n ensures entries[i].effective < entries[n].effective {
        assert entries[..n][i] == entries[i] && entries[..n][n - 1] == entries[n - 1];
      }
      forall i, j | 0 <= i < j < n ensures entries[i].effective < entries[j].effective {
        assert entries[..n][i] == entries[i] && entries[..n][j] == entries[j];
      }
    }
  }

  /** The state of the last entry already effective on the day. */
  function ResidencyOn(entries: seq<Entry>, day: int): Option<string> {
    if entries == [] then None
    else if entries[|entries| - 1].effective <= day then Some(entries[|entries| - 1].state)
    else ResidencyOn(entries[..|entries| - 1], day)
  }

  /** Entry `i` is in force on the day: effective, and the next one not yet. */
  predicate InForce(entries: seq<Entry>, i: nat, day: int)
    requires i < |entries|
  {
    entries[i].effective <= day && (i + 1 < |entries| ==> day < entries[i + 1].effective)
  }

  /** On each day from the first entry on, exactly one entry of a valid timeline is in force
      and gives the residency. */
  lemma {:induction false} ResidencyIsInForce(entries: seq<Entry>, day: int)
    requires Ascending(entries)
    ensures ResidencyOn(entries, day).Some? <==> entries != [] && entries[0].effective <= day
    ensures forall i ::
      0 <= i < |entries| && InForce(entries, i, day) ==> ResidencyOn(entries, day) == Some(entries[i].state)
    ensures ResidencyOn(entries, day).Some? ==>
      exists i :: 0 <= i < |entries| && InForce(entries, i, day) && entries[i].state == ResidencyOn(entries, day).value
  {
    if entries != [] {
      var n := |entries| - 1;
      var front := entries[..n];
      if entries[n].effective <= day {
        assert InForce(entries, n, day);
      } else {
        ResidencyIsInForce(front, day);
        forall i | 0 <= i < n ensures InForce(entries, i, day) <==> InForce(front, i, day) {}
        if ResidencyOn(front, day).Some? {
          var i :| 0 <= i < n && InForce(front, i, day) && front[i].state == ResidencyOn(front, day).value;
          assert InForce(entries, i, day);
        }
      }
    }
  }

  // --- The active set. ---

  const DAY_MAX: int := 0x7fff_ffff

  function CoverageEnd(entries: seq<Entry>, i: nat): int
    requires i < |entries|
  {
    if i + 1 < |entries| then entries[i + 1].effective else DAY_MAX
  }

  predicate Intersects(entries: seq<Entry>, i: nat, from: int, to: int)
    requires i < |entries|
  {
    entries[i].effective <= to && CoverageEnd(entries, i) > from
  }

  ghost predicate Covered(entries: seq<Entry>, n: nat, from: int, to: int, state: string)
    requires n <= |entries|
  {
    exists i :: 0 <= i < n && entries[i].state == state && Intersects(entries, i, from, to)
  }

  ghost predicate NoRepeats(js: seq<Jurisdiction>) {
    forall i, j :: 0 <= i < j < |js| ==> js[i] != js[j]
  }

  function WindowStart(year: int, lookback: int): int {
    DaysFromCivil(year - lookback, 1, 1)
  }

  function WindowEnd(year: int): int {
    DaysFromCivil(year, 12, 31)
  }

  /** Federal, then each state whose coverage interval meets the window, once. */
  method ActiveJurisdictions(entries: seq<Entry>, year: int, lookback: int) returns (out: seq<Jurisdiction>)
    ensures out != [] && out[0] == Federal && NoRepeats(out)
    ensures forall s ::
      State(s) in out <==> Covered(entries, |entries|, WindowStart(year, lookback), WindowEnd(year), s)
  {
    var from := WindowStart(year, lookback);
    var to := WindowEnd(year);
    out := [Federal];
    var seen: set<string> := {};
    var i := 0;
    while i < |entries|
      invariant 0 <= i <= |entries|
      invariant out != [] && out[0] == Federal && NoRepeats(out)
      invariant forall s :: State(s) in out <==> s in seen
      invariant forall s :: s in seen <==> Covered(entries, i, from, to, s)
    {
      if Intersects(entries, i, from, to) && entries[i].state !in seen {
        out := out + [State(entries[i].state)];
        seen := seen + {entries[i].state};
      }
      i := i + 1;
    }
  }

  /** A state is active exactly when it was the residency on some day of the window. */
  lemma CoveredIsResidency(entries: seq<Entry>, from: int, to: int, state: string)
    requires Ascending(entries) && from <= to && from < DAY_MAX
    ensures Covered(entries, |entries|, from, to, state) <==>
            exists day :: from <= day <= to && ResidencyOn(entries, day) == Some(state)
  {
    if Covered(entries, |entries|, from, to, state) {
      var i :| 0 <= i < |entries| && entries[i].state == state && Intersects(entries, i, from, to);
      var day := if entries[i].effective < from then from else entries[i].effective;
      ResidencyIsInForce(entries, day);
      assert InForce(entries, i, day);
    }
    if day :| from <= day <= to && ResidencyOn(entries, day) == Some(state) {
      ResidencyIsInForce(entries, day);
      var i :| 0 <= i < |entries| && InForce(entries, i, day) && entries[i].state == state;
      assert Intersects(entries, i, from, to);
    }
  }

  lemma WindowIsDays(year: int, lookback: int)
    requires lookback >= 0
    ensures WindowStart(year, lookback) < WindowEnd(year)
  {
    DaysOrderDates((year - lookback, 1, 1), (year, 12, 31));
  }

  /** For every valid timeline and non-negative lookback, the interval test and the day by
      day reading agree. */
  lemma {:induction false} ActiveIsPointwise(entries: seq<Entry>, year: int, lookback: int, state: string)
    requires ValidTimeline(entries) && lookback >= 0 && FitsI32(WindowEnd(year))
    ensures Covered(entries, |entries|, WindowStart(year, lookback), WindowEnd(year), state) <==>
            exists day ::
              WindowStart(year, lookback) <= day <= WindowEnd(year) && ResidencyOn(entries, day) == Some(state)
  {
    ValidAscends(entries);
    WindowIsDays(year, lookback);
    CoveredIsResidency(entries, WindowStart(year, lookback), WindowEnd(year), state);
  }

  /** A negative lookback leaves no days, yet a state moved to by the end of the year is
      still active: no negative lookback gives the day by day reading. */
  lemma {:induction false} NegativeLookbackDisagrees(year: int, lookback: int, state: string)
    requires lookback < 0 && FitsI32(WindowStart(year, lookback)) && WindowStart(year, lookback) < DAY_MAX
    ensures
      var entries := [Entry(WindowEnd(year), state)];
      && ValidTimeline(entries)
      && Covered(entries, |entries|, WindowStart(year, lookback), WindowEnd(year), state)
      && !exists day ::
           WindowStart(year, lookback) <= day <= WindowEnd(year) && ResidencyOn(entries, day) == Some(state)
  {
    DaysOrderDates((year, 12, 31), (year - lookback, 1, 1));
    assert Intersects([Entry(WindowEnd(year), state)], 0, WindowStart(year, lookback), WindowEnd(year));
  }
}
