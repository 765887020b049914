/** The availability gap calculator of an Offer (`Offer.get_availabilities`):
    the offer's window minus the busy intervals of its contracts, as a list
    of `[start, end]` pairs. */
module Availability {
  import opened Records

  /** `t` lies in one of the half-open intervals of `spans`. */
  predicate Covers(spans: seq<Span>, t: int)
  {
    spans != [] && ((spans[0].start <= t < spans[0].end) || Covers(spans[1..], t))
  }

  /** Every interval has positive length. */
  predicate Positive(spans: seq<Span>)
  {
    forall i :: 0 <= i < |spans| ==> spans[i].start < spans[i].end
  }

  /** Every interval lies inside the window `[start, end)`. */
  predicate Within(spans: seq<Span>, start: int, end: int)
  {
    forall i :: 0 <= i < |spans| ==> start <= spans[i].start && spans[i].end <= end
  }

  /** Time-sorted and pairwise disjoint; touching intervals are allowed. */
  predicate Ordered(spans: seq<Span>)
  {
    forall i, j :: 0 <= i < j < |spans| ==> spans[i].end <= spans[j].start
  }

  /** Time-sorted with a strict gap between any two intervals. */
  predicate Separated(spans: seq<Span>)
  {
    forall i, j :: 0 <= i < j < |spans| ==> spans[i].end < spans[j].start
  }

  /** What the store's conflict-times query promises for an offer's window:
      sorted, disjoint, positive-length busy intervals inside the window. */
  predicate BusyWellFormed(start: int, busy: seq<Span>, end: int)
  {
    Positive(busy) && Within(busy, start, end) && Ordered(busy)
  }

  /** The flat boundary list `[start, b0.start, b0.end, ..., bn.end, end]`. */
  function Boundaries(start: int, busy: seq<Span>, end: int): (a: seq<int>)
  {
    seq(2 * |busy| + 2, k requires 0 <= k < 2 * |busy| + 2 =>
      if k == 0 then start
      else if k == 2 * |busy| + 1 then end
      else if k % 2 == 1 then busy[k / 2].start
      else busy[k / 2 - 1].end)
  }

  /** Chunks an even-length list into consecutive `[a[2j], a[2j+1]]` pairs. */
  function Pairs(a: seq<int>): (r: seq<Span>)
    requires |a| % 2 == 0
  {
    seq(|a| / 2, j requires 0 <= j < |a| / 2 => Span(a[2 * j], a[2 * j + 1]))
  }

  /** The intervals between consecutive busy intervals, the first one starting
      at `start` and the last one ending at `end`; some may be empty. */
  function Gaps(start: int, busy: seq<Span>, end: int): (r: seq<Span>)
    decreases |busy|
  {
    if busy == [] then [Span(start, end)]
    else [Span(start, busy[0].start)] + Gaps(busy[0].end, busy[1..], end)
  }

  /** Drops the zero-length intervals. */
  function DropEmpty(spans: seq<Span>): (r: seq<Span>)
    ensures forall x :: x in r ==> x in spans && x.start != x.end
    ensures |r| <= |spans|
  {
    if spans == [] then []
    else if spans[0].start == spans[0].end then DropEmpty(spans[1..])
    else [spans[0]] + DropEmpty(spans[1..])
  }

  /** Specification of `get_availabilities`: nothing unless the offer is
      available; the whole window when there are no conflicts; otherwise the
      non-empty gaps between the conflicts. */
  function Availabilities(status: Status, start: int, end: int, busy: seq<Span>): (r: seq<Span>)
    ensures status != Available ==> r == []
    ensures status == Available && busy == [] ==> r == [Span(start, end)]
  {
    if status != Available then []
    else if busy == [] then [Span(start, end)]
    else DropEmpty(Gaps(start, busy, end))
  }

  // ---------------------------------------------------------------------
  // Lemmas about the specification
  // ---------------------------------------------------------------------

  /** The i-th gap runs from the end of busy interval i-1 (or the window
      start) to the start of busy interval i (or the window end). */
  lemma {:induction false} GapsAt(start: int, busy: seq<Span>, end: int, j: nat)
    requires j <= |busy|
    decreases |busy|
    ensures |Gaps(start, busy, end)| == |busy| + 1
    ensures Gaps(start, busy, end)[j]
         == Span(if j == 0 then start else busy[j - 1].end,
                 if j == |busy| then end else busy[j].start)
  {
    if busy != [] {
      if j == 0 {
        GapsAt(busy[0].end, busy[1..], end, 0);
      } else {
        GapsAt(busy[0].end, busy[1..], end, j - 1);
      }
    }
  }

  /** Chunking the boundary list gives exactly the gaps. */
  lemma PairsOfBoundaries(start: int, busy: seq<Span>, end: int)
    ensures Pairs(Boundaries(start, busy, end)) == Gaps(start, busy, end)
  {
    var p := Pairs(Boundaries(start, busy, end));
    var g := Gaps(start, busy, end);
    GapsAt(start, busy, end, 0);
    forall j | 0 <= j < |p|
      ensures p[j] == g[j]
    {
      GapsAt(start, busy, end, j);
      BoundariesAt(start, busy, end, j);
    }
  }

  /** The boundaries at positions 2j and 2j + 1 open and close the j-th gap. */
  lemma BoundariesAt(start: int, busy: seq<Span>, end: int, j: nat)
    requires j <= |busy|
    ensures var a := Boundaries(start, busy, end);
      a[2 * j] == (if j == 0 then start else busy[j - 1].end) &&
      a[2 * j + 1] == (if j == |busy| then end else busy[j].start)
  {
    assert (2 * j + 1) % 2 == 1 && (2 * j + 1) / 2 == j;
    assert j > 0 ==> (2 * j) % 2 == 0 && (2 * j) / 2 - 1 == j - 1;
  }

  /** Removing a zero-length pair from the boundary list removes that gap. */
  lemma PairsRemove(a: seq<int>, m: nat)
    requires |a| % 2 == 0 && 2 * m + 1 < |a|
    ensures |a[..2 * m] + a[2 * m + 2..]| % 2 == 0
    ensures Pairs(a[..2 * m] + a[2 * m + 2..]) == Pairs(a)[..m] + Pairs(a)[m + 1..]
  {
    var b := a[..2 * m] + a[2 * m + 2..];
    var l, r := Pairs(b), Pairs(a)[..m] + Pairs(a)[m + 1..];
    assert |l| == |r|;
    forall j | 0 <= j < |l|
      ensures l[j] == r[j]
    {
      if j < m {
        assert b[2 * j] == a[2 * j] && b[2 * j + 1] == a[2 * j + 1];
      } else {
        assert b[2 * j] == a[2 * j + 2] && b[2 * j + 1] == a[2 * j + 3];
      }
    }
  }

  lemma {:induction false} DropEmptyAppend(p: seq<Span>, q: seq<Span>)
    ensures DropEmpty(p + q) == DropEmpty(p) + DropEmpty(q)
  {
    if p == [] {
      assert p + q == q;
    } else {
      assert (p + q)[0] == p[0] && (p + q)[1..] == p[1..] + q;
      DropEmptyAppend(p[1..], q);
    }
  }

  /** Removing an empty interval does not change the non-empty ones. */
  lemma DropEmptyRemove(s: seq<Span>, m: nat)
    requires m < |s| && s[m].start == s[m].end
    ensures DropEmpty(s[..m] + s[m + 1..]) == DropEmpty(s)
  {
    assert s == s[..m] + ([s[m]] + s[m + 1..]);
    DropEmptyAppend(s[..m], [s[m]] + s[m + 1..]);
    DropEmptyAppend([s[m]], s[m + 1..]);
    DropEmptyAppend(s[..m], s[m + 1..]);
  }

  /** A list without empty intervals is left as it is. */
  lemma {:induction false} DropEmptyNone(s: seq<Span>)
    requires forall j :: 0 <= j < |s| ==> s[j].start != s[j].end
    ensures DropEmpty(s) == s
  {
    if s != [] {
      DropEmptyNone(s[1..]);
    }
  }

  /** Dropping empty intervals does not change the time covered. */
  lemma {:induction false} DropEmptyCovers(s: seq<Span>, t: int)
    ensures Covers(DropEmpty(s), t) <==> Covers(s, t)
  {
    if s != [] {
      DropEmptyCovers(s[1..], t);
      if s[0].start != s[0].end {
        assert DropEmpty(s)[1..] == DropEmpty(s[1..]);
      }
    }
  }

  /** Dropping empty intervals keeps a separated list separated. */
  lemma {:induction false} DropEmptySeparated(s: seq<Span>)
    requires Separated(s)
    ensures Separated(DropEmpty(s))
  {
    if s != [] {
      DropEmptySeparated(s[1..]);
      if s[0].start != s[0].end {
        var r := DropEmpty(s);
        assert r[1..] == DropEmpty(s[1..]);
        forall i, j | 0 <= i < j < |r|
          ensures r[i].end < r[j].start
        {
          if i == 0 {
            assert r[j] in s[1..];
          } else {
            assert r[i] == r[1..][i - 1] && r[j] == r[1..][j - 1];
          }
        }
      }
    }
  }

  /** Each gap lies inside the window, and the gaps are strictly separated
      because every busy interval between them has positive length. */
  lemma GapsShape(start: int, busy: seq<Span>, end: int)
    requires start <= end && BusyWellFormed(start, busy, end)
    ensures var g := Gaps(start, busy, end);
      (forall i :: 0 <= i < |g| ==> start <= g[i].start <= g[i].end <= end)
      && Separated(g)
  {
    var g := Gaps(start, busy, end);
    GapsAt(start, busy, end, 0);
    forall i | 0 <= i < |g|
      ensures start <= g[i].start <= g[i].end <= end
    {
      GapsAt(start, busy, end, i);
    }
    forall i, j | 0 <= i < j < |g|
      ensures g[i].end < g[j].start
    {
      GapsAt(start, busy, end, i);
      GapsAt(start, busy, end, j);
    }
  }

  lemma {:induction false} CoversAt(s: seq<Span>, i: nat, t: int)
    requires i < |s| && s[i].start <= t < s[i].end
    ensures Covers(s, t)
  {
    if i > 0 {
      CoversAt(s[1..], i - 1, t);
    }
  }

  /** Gaps cover exactly the points of the window no busy interval covers. */
  lemma {:induction false} GapsCover(start: int, busy: seq<Span>, end: int, t: int)
    requires BusyWellFormed(start, busy, end)
    ensures Covers(Gaps(start, busy, end), t) <==> start <= t < end && !Covers(busy, t)
    decreases |busy|
  {
    if busy != [] {
      var b, rest := busy[0], busy[1..];
      assert BusyWellFormed(b.end, rest, end) by {
        forall i | 0 <= i < |rest|
          ensures b.end <= rest[i].start
        {
          assert busy[0].end <= busy[i + 1].start;
        }
      }
      GapsCover(b.end, rest, end, t);
      var g := Gaps(start, busy, end);
      assert g[1..] == Gaps(b.end, rest, end);
      if t < b.start {
        NotCoveredBefore(rest, t);
      }
    }
  }

  /** A point before every interval of a well-formed list is not covered. */
  lemma {:induction false} NotCoveredBefore(s: seq<Span>, t: int)
    requires forall i :: 0 <= i < |s| ==> t < s[i].start
    ensures !Covers(s, t)
  {
    if s != [] {
      NotCoveredBefore(s[1..], t);
    }
  }

  /** For a well-formed window and conflict list, every returned pair lies
      inside the window with start < end, the pairs are sorted with gaps
      between them, and together they cover exactly the window minus the
      busy intervals. */
  lemma AvailabilitiesSound(start: int, end: int, busy: seq<Span>)
    requires start < end && BusyWellFormed(start, busy, end)
    ensures var r := Availabilities(Available, start, end, busy);
      (forall i :: 0 <= i < |r| ==> start <= r[i].start < r[i].end <= end)
      && Separated(r)
      && (forall t :: Covers(r, t) <==> start <= t < end && !Covers(busy, t))
  {
    var r := Availabilities(Available, start, end, busy);
    if busy == [] {
      forall t ensures Covers(r, t) <==> start <= t < end && !Covers(busy, t) {
        assert r[1..] == [];
      }
    } else {
      var g := Gaps(start, busy, end);
      GapsShape(start, busy, end);
      DropEmptySeparated(g);
      forall i | 0 <= i < |r|
        ensures start <= r[i].start < r[i].end <= end
      {
        assert r[i] in g;
      }
      forall t ensures Covers(r, t) <==> start <= t < end && !Covers(busy, t) {
        DropEmptyCovers(g, t);
        GapsCover(start, busy, end, t);
      }
    }
  }

  /** Adjacent busy intervals leave no gap between them. */
  lemma AdjacentBusyExample()
    ensures Availabilities(Available, 0, 10, [Span(2, 5), Span(5, 8)]) == [Span(0, 2), Span(8, 10)]
  {
  }

  /** Busy intervals touching both window edges leave one interior gap. */
  lemma EdgeBusyExample()
    ensures Availabilities(Available, 0, 10, [Span(0, 3), Span(7, 10)]) == [Span(3, 7)]
  {
  }

  // ---------------------------------------------------------------------
  // The calculator as written: a boundary list built with appends, then
  // shrunk in place by popping equal adjacent pairs, then chunked.
  // ---------------------------------------------------------------------

  /** Builds `[start, c0.start, c0.end, ..., cn.end, end]` with appends. */
  method BuildBoundaries(start: int, conflicts: seq<Span>, end: int) returns (a: seq<int>)
    requires conflicts != []
    ensures a == Boundaries(start, conflicts, end)
  {
    var n := |conflicts|;
    a := [start, conflicts[0].start];
    for i := 0 to n - 1
      invariant a == Boundaries(start, conflicts[..i], conflicts[i].start)
    {
      a := a + [conflicts[i].end];
      a := a + [conflicts[i + 1].start];
    }
    a := a + [conflicts[n - 1].end];
    a := a + [end];
    assert conflicts[..n] == conflicts;
  }

  /** Every odd position of a boundary list opens a busy interval, which is
      strictly before the next boundary. */
  predicate BusyPairsPositive(a: seq<int>)
  {
    forall j :: 0 <= j < |a| - 1 && j % 2 == 1 ==> a[j] < a[j + 1]
  }

  /** The pairs starting at even positions below `i` are non-empty. */
  predicate CheckedBelow(a: seq<int>, i: int)
  {
    forall j :: 0 <= j < i && j + 1 < |a| && j % 2 == 0 ==> a[j] != a[j + 1]
  }

  /** Popping at an even position i leaves the pairs below i as they were. */
  lemma PopKeepsChecked(a: seq<int>, i: nat)
    requires i % 2 == 0 && i + 1 < |a| && CheckedBelow(a, i)
    ensures CheckedBelow(a[..i] + a[i + 2..], i)
  {
    var b := a[..i] + a[i + 2..];
    forall j | 0 <= j < i && j + 1 < |b| && j % 2 == 0
      ensures b[j] != b[j + 1]
    {
      assert j + 1 < i;
      assert b[j] == a[j] && b[j + 1] == a[j + 1];
    }
  }

  /** Popping an equal pair at an even position keeps the busy pairs
      positive. */
  lemma PopKeepsPositive(a: seq<int>, i: nat)
    requires i % 2 == 0 && i + 1 < |a| && BusyPairsPositive(a) && a[i] == a[i + 1]
    ensures BusyPairsPositive(a[..i] + a[i + 2..])
  {
    var b := a[..i] + a[i + 2..];
    forall j | 0 <= j < |b| - 1 && j % 2 == 1
      ensures b[j] < b[j + 1]
    {
      if j + 1 < i {
        assert b[j] == a[j] && b[j + 1] == a[j + 1];
      } else if j + 1 == i {
        assert b[j] == a[j] && b[j + 1] == a[i + 2];
        assert a[j] < a[j + 1] && a[i + 1] < a[i + 2];
      } else {
        assert b[j] == a[j + 2] && b[j + 1] == a[j + 3];
      }
    }
  }

  /** Popping an equal pair at position i (which is then even) removes an
      empty gap: the busy pairs stay positive and the non-empty gaps stay. */
  lemma PopEmptyPair(a: seq<int>, i: nat)
    requires |a| % 2 == 0 && i + 1 < |a| && BusyPairsPositive(a) && a[i] == a[i + 1]
    requires CheckedBelow(a, i)
    ensures i % 2 == 0
    ensures var b := a[..i] + a[i + 2..];
      |b| % 2 == 0 && BusyPairsPositive(b) && DropEmpty(Pairs(b)) == DropEmpty(Pairs(a))
      && CheckedBelow(b, i)
  {
    // an odd position opens a busy pair, which is never empty
    var x, y := a[i], a[i + 1];
    assert i % 2 == 1 ==> x < y;
    var m := i / 2;
    assert i == 2 * m;
    PopKeepsChecked(a, i);
    PopKeepsPositive(a, i);
    PairsRemove(a, m);
    DropEmptyRemove(Pairs(a), m);
  }

  /** Once every even position is checked, no gap is empty and no two
      adjacent boundaries are equal. */
  lemma AllChecked(a: seq<int>)
    requires |a| % 2 == 0 && BusyPairsPositive(a) && CheckedBelow(a, |a| - 1)
    ensures forall j :: 0 <= j < |a| - 1 ==> a[j] != a[j + 1]
    ensures Pairs(a) == DropEmpty(Pairs(a))
  {
    var p := Pairs(a);
    forall j | 0 <= j < |p|
      ensures p[j].start != p[j].end
    {
      assert p[j] == Span(a[2 * j], a[2 * j + 1]);
    }
    DropEmptyNone(p);
  }

  /** Popping position i twice removes the pair at i and i + 1. */
  lemma PopTwice(a: seq<int>, i: nat)
    requires i + 1 < |a|
    ensures var b := a[..i] + a[i + 1..]; b[..i] + b[i + 1..] == a[..i] + a[i + 2..]
  {
    var b := a[..i] + a[i + 1..];
    assert b[..i] == a[..i] && b[i + 1..] == a[i + 2..];
  }

  /** The `while`/`pop` loop: deletes each equal adjacent pair. On a boundary
      list whose busy pairs are positive, it removes exactly the empty gaps. */
  method RemoveEmptyPairs(a0: seq<int>) returns (a: seq<int>)
    requires |a0| % 2 == 0 && BusyPairsPositive(a0)
    ensures |a| % 2 == 0
    ensures Pairs(a) == DropEmpty(Pairs(a0))
    ensures forall j :: 0 <= j < |a| - 1 ==> a[j] != a[j + 1]
  {
    a := a0;
    var i := 0;
    while i < |a| - 1
      invariant |a| % 2 == 0 && 0 <= i <= |a|
      invariant BusyPairsPositive(a)
      invariant CheckedBelow(a, i)
      invariant DropEmpty(Pairs(a)) == DropEmpty(Pairs(a0))
      decreases |a| - i
    {
      if a[i] == a[i + 1] {
        PopTwice(a, i);
        PopEmptyPair(a, i);
        a := a[..i] + a[i + 1..];  // a.pop(i)
        a := a[..i] + a[i + 1..];  // a.pop(i)
      } else {
        i := i + 1;
      }
    }
    AllChecked(a);
  }

  /** `conflicts` is what the store's conflict-times query returned for this
      offer; each conflict is a booked contract window of positive length. */
  method GetAvailabilities(offer: Offer, conflicts: seq<Span>) returns (r: seq<Span>)
    requires Positive(conflicts)
    ensures r == Availabilities(offer.status, offer.startTime, offer.endTime, conflicts)
  {
    if offer.status != Available {
      return [];
    }
    if conflicts != [] {
      var a := BuildBoundaries(offer.startTime, conflicts, offer.endTime);
      PairsOfBoundaries(offer.startTime, conflicts, offer.endTime);
      assert BusyPairsPositive(a) by {
        forall j | 0 <= j < |a| - 1 && j % 2 == 1
          ensures a[j] < a[j + 1]
        {
          assert a[j] == conflicts[j / 2].start && a[j + 1] == conflicts[j / 2].end;
        }
      }
      a := RemoveEmptyPairs(a);
      r := Pairs(a);  // [[a[j], a[j + 1]] for j in range(0, len(a) - 1, 2)]
    } else {
      r := [Span(offer.startTime, offer.endTime)];
    }
  }
}
