/** The timeline of requests and responses: a list kept in time order by binary search, two
    hash indexes over it, and playback driven by single-shot timers. */
module Timeline {
  import opened Prelude

  // ------------------------------------------------------------------ binary search

  ghost predicate SortedStamps(stamps: seq<int>) {
    forall i, j :: 0 <= i < j < |stamps| ==> stamps[i] <= stamps[j]
  }

  /** Lines 322-346; last may be first - 1, where the search gives up. */
  function BinarySearch(list: seq<int>, first: int, last: int, timeStamp: int): (idx: int)
    requires 0 <= first && last < |list| && first <= last + 1
    ensures first - 1 <= idx <= last
    decreases last - first + 1
  {
    if first > last then last
    else
      var mid := (first + last) / 2;
      if timeStamp == list[mid] then mid
      else if timeStamp < list[mid] then BinarySearch(list, first, mid - 1, timeStamp)
      else BinarySearch(list, mid + 1, last, timeStamp)
  }

  /** On a list in order, everything up to the result is no later, everything after no earlier. */
  lemma {:induction false} BinarySearchSplits(list: seq<int>, first: int, last: int, ts: int)
    requires 0 <= first && last < |list| && first <= last + 1 && SortedStamps(list)
    ensures forall i :: first <= i <= BinarySearch(list, first, last, ts) ==> list[i] <= ts
    ensures forall i :: BinarySearch(list, first, last, ts) < i <= last ==> ts <= list[i]
    decreases last - first + 1
  {
    if first <= last {
      var mid := (first + last) / 2;
      if ts < list[mid] {
        BinarySearchSplits(list, first, mid - 1, ts);
      } else if ts > list[mid] {
        BinarySearchSplits(list, mid + 1, last, ts);
      }
    }
  }

  /** Where an event of the given stamp goes. */
  function InsertIndex(stamps: seq<int>, ts: int): (i: nat)
    ensures i <= |stamps|
  {
    if |stamps| == 0 then 0 else BinarySearch(stamps, 0, |stamps| - 1, ts) + 1
  }

  function InsertAt<T>(xs: seq<T>, i: nat, x: T): seq<T>
    requires i <= |xs|
  {
    xs[..i] + [x] + xs[i..]
  }

  function RemoveAt<T>(xs: seq<T>, i: nat): seq<T>
    requires i < |xs|
  {
    xs[..i] + xs[i + 1..]
  }

  function Insert(stamps: seq<int>, ts: int): seq<int> {
    InsertAt(stamps, InsertIndex(stamps, ts), ts)
  }

  lemma {:induction false} InsertKeepsOrder(stamps: seq<int>, ts: int)
    requires SortedStamps(stamps)
    ensures SortedStamps(Insert(stamps, ts))
  {
    if |stamps| > 0 { BinarySearchSplits(stamps, 0, |stamps| - 1, ts); }
  }

  /** What InsertAt inserts, RemoveAt of the same place takes out. */
  lemma RemoveUndoesInsert<T>(xs: seq<T>, i: nat, x: T)
    requires i <= |xs|
    ensures RemoveAt(InsertAt(xs, i, x), i) == xs
  {
  }

  lemma {:induction false} RemoveKeepsOrder(stamps: seq<int>, i: nat)
    requires i < |stamps| && SortedStamps(stamps)
    ensures SortedStamps(RemoveAt(stamps, i))
  {
  }

  // ------------------------------------------------------------------ editing two stamps at once

  /** A pair edit has already changed both stamps: the request at i and the response at j of the
      list are then moved one after the other. */
  function PairEdit(stamps: seq<int>, i: nat, j: nat): seq<int>
    requires i < |stamps| && j < |stamps| && i != j
  {
    var without := RemoveAt(stamps, i);
    var moved := Insert(without, stamps[i]);
    var j' := ShiftedIndex(stamps, i, j);
    Insert(RemoveAt(moved, j'), moved[j'])
  }

  lemma {:induction false} PairEditLength(stamps: seq<int>, i: nat, j: nat)
    requires i < |stamps| && j < |stamps| && i != j
    ensures |PairEdit(stamps, i, j)| == |stamps|
  {
    hide InsertIndex;
  }

  /** Where the response is once the request has moved. */
  function ShiftedIndex(stamps: seq<int>, i: nat, j: nat): (k: nat)
    requires i < |stamps| && j < |stamps| && i != j
    ensures k < |stamps| && Insert(RemoveAt(stamps, i), stamps[i])[k] == stamps[j]
  {
    var without := RemoveAt(stamps, i);
    var k := if j < i then j else j - 1;
    if k < InsertIndex(without, stamps[i]) then k else k + 1
  }

  lemma PairEditSteps(stamps: seq<int>, i: nat, j: nat, ts: int, us: int)
    requires i < |stamps| && j < |stamps| && i != j && stamps[i] == ts && stamps[j] == us
    ensures Insert(RemoveAt(Insert(RemoveAt(stamps, i), ts), ShiftedIndex(stamps, i, j)), us) == PairEdit(stamps, i, j)
  {
  }

  /** The request lands between its neighbours although the response may be out of place. */
  ghost predicate LandsInOrder(stamps: seq<int>, i: nat, j: nat)
    requires i < |stamps| && j < |stamps| && i != j
  {
    var without := RemoveAt(stamps, i);
    var k := if j < i then j else j - 1;
    var r := InsertIndex(without, stamps[i]);
    && (forall m :: 0 <= m < r && m != k ==> without[m] <= stamps[i])
    && (forall m :: r <= m < |without| && m != k ==> stamps[i] <= without[m])
  }

  ghost predicate OthersSorted(stamps: seq<int>, i: nat, j: nat) {
    forall a, b :: 0 <= a < b < |stamps| && a != i && b != i && a != j && b != j ==> stamps[a] <= stamps[b]
  }

  /** The part of the list the search is left with when it looks at entry k: the midpoints on
      the way there depend on nothing but the length of the list and k. */
  function Window(first: int, last: int, k: int): (w: (int, int))
    requires 0 <= first <= k <= last
    ensures first <= w.0 <= k <= w.1 <= last
    decreases last - first
  {
    var mid := (first + last) / 2;
    if k == mid then (first, last)
    else if k < mid then Window(first, mid - 1, k)
    else Window(mid + 1, last, k)
  }

  /** Entry k, out of place, sends the search for ts the wrong way: it turns left at k although
      a later entry is smaller than ts, or right although an earlier one is larger.  The search
      gets as far as k only if ts fits between the entries on either side of its window. */
  predicate Misleads(list: seq<int>, first: int, last: int, k: int, ts: int)
    requires 0 <= first <= k <= last < |list|
  {
    var (f, l) := Window(first, last, k);
    || (ts <= list[k] && k < last && list[k + 1] < ts && (l < last ==> ts < list[l + 1]))
    || (list[k] <= ts && first < k && ts < list[k - 1] && (first < f ==> list[f - 1] < ts))
  }

  /** In order from first to last, but for entry k. */
  ghost predicate SortedBut(list: seq<int>, first: int, last: int, k: int) {
    forall a, b :: 0 <= first <= a < b <= last < |list| && a != k && b != k ==> list[a] <= list[b]
  }

  /** Everything but entry k is on the right side of r. */
  ghost predicate Splits(list: seq<int>, first: int, last: int, k: int, ts: int, r: int)
    requires 0 <= first && last < |list|
  {
    forall m :: first <= m <= last && m != k ==> if m <= r then list[m] <= ts else ts <= list[m]
  }

  /** A search that turned at mid has everything on the other side of mid where it should be. */
  lemma {:induction false} TurnedAt(list: seq<int>, first: int, last: int, k: int, ts: int, mid: int, r: int)
    requires 0 <= first <= mid <= last < |list| && k != mid && SortedBut(list, first, last, k)
    requires if ts < list[mid] then r < mid && Splits(list, first, mid - 1, k, ts, r)
             else if ts > list[mid] then mid <= r && Splits(list, mid + 1, last, k, ts, r)
             else r == mid
    ensures Splits(list, first, last, k, ts, r)
  {
    forall m | first <= m <= last && m != k
      ensures if m <= r then list[m] <= ts else ts <= list[m]
    {
      assert m < mid ==> list[m] <= list[mid];
      assert mid < m ==> list[mid] <= list[m];
    }
  }

  lemma {:induction false} SearchOutside(list: seq<int>, first: int, last: int, k: int, ts: int)
    requires 0 <= first && last < |list| && first <= last + 1 && SortedBut(list, first, last, k) && !(first <= k <= last)
    ensures Splits(list, first, last, k, ts, BinarySearch(list, first, last, ts))
    decreases last - first + 1
  {
    if first > last {
      return;
    }
    hide Splits, SortedBut;
    var mid := (first + last) / 2;
    SortedButPart(list, first, last, k, first, mid - 1);
    SortedButPart(list, first, last, k, mid + 1, last);
    if ts < list[mid] {
      SearchOutside(list, first, mid - 1, k, ts);
    } else if ts > list[mid] {
      SearchOutside(list, mid + 1, last, k, ts);
    }
    TurnedAt(list, first, last, k, ts, mid, BinarySearch(list, first, last, ts));
  }

  lemma {:induction false} SortedButPart(list: seq<int>, first: int, last: int, k: int, f: int, l: int)
    requires 0 <= first <= f && l <= last < |list| && SortedBut(list, first, last, k)
    ensures SortedBut(list, f, l, k)
  {
  }

  /** What a midpoint above k settles: nothing but which part is searched on. */
  lemma {:induction false} MidpointAbove(list: seq<int>, first: int, last: int, k: int, ts: int, r: int)
    requires 0 <= first <= k < (first + last) / 2 && last < |list| && SortedBut(list, first, last, k)
    requires ts < list[(first + last) / 2] && first - 1 <= r < (first + last) / 2
    ensures var mid := (first + last) / 2;
            && (Splits(list, first, last, k, ts, r) <==> Splits(list, first, mid - 1, k, ts, r))
            && (Misleads(list, first, last, k, ts) <==> Misleads(list, first, mid - 1, k, ts))
  {
    var mid := (first + last) / 2;
    assert Window(first, last, k) == Window(first, mid - 1, k);
    assert forall m :: mid <= m <= last ==> ts < list[m];
  }

  lemma {:induction false} MidpointBelow(list: seq<int>, first: int, last: int, k: int, ts: int, r: int)
    requires 0 <= first <= (first + last) / 2 < k <= last < |list| && SortedBut(list, first, last, k)
    requires ts > list[(first + last) / 2] && (first + last) / 2 <= r <= last
    ensures var mid := (first + last) / 2;
            && (Splits(list, first, last, k, ts, r) <==> Splits(list, mid + 1, last, k, ts, r))
            && (Misleads(list, first, last, k, ts) <==> Misleads(list, mid + 1, last, k, ts))
  {
    var mid := (first + last) / 2;
    assert Window(first, last, k) == Window(mid + 1, last, k);
    assert forall m :: first <= m <= mid ==> list[m] < ts;
  }

  /** A search that stops at a midpoint or turns away from k there is not misled. */
  lemma {:induction false} MidpointAway(list: seq<int>, first: int, last: int, k: int, ts: int)
    requires 0 <= first <= k <= last < |list| && SortedBut(list, first, last, k)
    requires var mid := (first + last) / 2; k != mid && if k < mid then ts >= list[mid] else ts <= list[mid]
    ensures !Misleads(list, first, last, k, ts)
  {
    var mid := (first + last) / 2;
    var w := Window(first, last, k);
    if k < mid {
      assert w == Window(first, mid - 1, k) && w.1 + 1 <= mid;
    } else {
      assert w == Window(mid + 1, last, k) && mid <= w.0 - 1;
    }
  }

  lemma {:induction false} SearchAway(list: seq<int>, first: int, last: int, k: int, ts: int)
    requires 0 <= first <= k <= last < |list| && SortedBut(list, first, last, k)
    requires var mid := (first + last) / 2; k != mid && if k < mid then ts >= list[mid] else ts <= list[mid]
    ensures Splits(list, first, last, k, ts, BinarySearch(list, first, last, ts))
  {
    var mid := (first + last) / 2;
    if ts > list[mid] {
      SearchOutside(list, mid + 1, last, k, ts);
    } else if ts < list[mid] {
      SearchOutside(list, first, mid - 1, k, ts);
    }
  }

  /** One entry out of place spoils the search exactly when it misleads it. */
  lemma {:induction false} SearchSplitsIff(list: seq<int>, first: int, last: int, k: int, ts: int)
    requires 0 <= first <= k <= last < |list| && SortedBut(list, first, last, k)
    ensures Splits(list, first, last, k, ts, BinarySearch(list, first, last, ts)) <==> !Misleads(list, first, last, k, ts)
    decreases last - first
  {
    hide Misleads, Splits, SortedBut;
    var mid := (first + last) / 2;
    if k == mid {
      SearchFromEntry(list, first, last, ts);
    } else if k < mid && ts < list[mid] {
      SortedButPart(list, first, last, k, first, mid - 1);
      SearchSplitsIff(list, first, mid - 1, k, ts);
      MidpointAbove(list, first, last, k, ts, BinarySearch(list, first, mid - 1, ts));
    } else if k > mid && ts > list[mid] {
      SortedButPart(list, first, last, k, mid + 1, last);
      SearchSplitsIff(list, mid + 1, last, k, ts);
      MidpointBelow(list, first, last, k, ts, BinarySearch(list, mid + 1, last, ts));
    } else {
      MidpointAway(list, first, last, k, ts);
      SearchAway(list, first, last, k, ts);
    }
  }

  /** The search that starts at the entry out of place. */
  lemma {:induction false} SearchFromEntry(list: seq<int>, first: int, last: int, ts: int)
    requires var k := (first + last) / 2; 0 <= first <= k <= last < |list| && SortedBut(list, first, last, k)
    ensures var k := (first + last) / 2;
            Splits(list, first, last, k, ts, BinarySearch(list, first, last, ts)) <==> !Misleads(list, first, last, k, ts)
  {
    var k := (first + last) / 2;
    if ts < list[k] {
      SearchOutside(list, first, k - 1, k, ts);
    } else if ts > list[k] {
      SearchOutside(list, k + 1, last, k, ts);
    }
  }

  /** The response, at its place in the list without the request, misleads the search for the
      request. */
  predicate ResponseMisleads(stamps: seq<int>, i: nat, j: nat)
    requires i < |stamps| && j < |stamps| && i != j
  {
    var without := RemoveAt(stamps, i);
    Misleads(without, 0, |without| - 1, if j < i then j else j - 1, stamps[i])
  }

  lemma {:induction false} LandsIsSplits(stamps: seq<int>, i: nat, j: nat)
    requires i < |stamps| && j < |stamps| && i != j
    ensures var without := RemoveAt(stamps, i);
            LandsInOrder(stamps, i, j) <==>
            Splits(without, 0, |without| - 1, if j < i then j else j - 1, stamps[i],
                   BinarySearch(without, 0, |without| - 1, stamps[i]))
  {
    hide BinarySearch;
  }

  /** The pair edit restores the order exactly if the response does not mislead the search for
      the request, which comes first. */
  lemma {:induction false} PairEditSortsIff(stamps: seq<int>, i: nat, j: nat)
    requires i < |stamps| && j < |stamps| && i != j && OthersSorted(stamps, i, j)
    ensures SortedStamps(PairEdit(stamps, i, j)) <==> !ResponseMisleads(stamps, i, j)
  {
    hide SortedStamps, PairEdit, Misleads, LandsInOrder, Splits, BinarySearch;
    var without := RemoveAt(stamps, i);
    var k := if j < i then j else j - 1;
    forall a, b | 0 <= a < b < |without| && a != k && b != k
      ensures without[a] <= without[b]
    {
      OthersStaySorted(stamps, i, j, a, b);
    }
    SearchSplitsIff(without, 0, |without| - 1, k, stamps[i]);
    LandsIsSplits(stamps, i, j);
    PairEditSortsIfLands(stamps, i, j);
  }

  lemma {:induction false} PairEditSortsIfLands(stamps: seq<int>, i: nat, j: nat)
    requires i < |stamps| && j < |stamps| && i != j && OthersSorted(stamps, i, j)
    ensures SortedStamps(PairEdit(stamps, i, j)) <==> LandsInOrder(stamps, i, j)
  {
    var without := RemoveAt(stamps, i);
    var k := if j < i then j else j - 1;
    var r := InsertIndex(without, stamps[i]);
    var moved := Insert(without, stamps[i]);
    var j' := ShiftedIndex(stamps, i, j);
    var rest := RemoveAt(moved, j');
    if LandsInOrder(stamps, i, j) {
      RestSorted(stamps, i, j);
      InsertKeepsOrder(rest, moved[j']);
    }
    if SortedStamps(PairEdit(stamps, i, j)) {
      var p := InsertIndex(rest, moved[j']);
      RemoveUndoesInsert(rest, p, moved[j']);
      RemoveKeepsOrder(PairEdit(stamps, i, j), p);
      LandedInOrder(stamps, i, j);
    }
  }

  /** Where the entry a of the list without the response comes from: the request, or the
      entry m of the list the request was taken from. */
  lemma {:induction false} RestOrigin(stamps: seq<int>, i: nat, j: nat, a: nat) returns (m: nat)
    requires i < |stamps| && j < |stamps| && i != j && a + 2 <= |stamps| + 1
    requires a < |RemoveAt(Insert(RemoveAt(stamps, i), stamps[i]), ShiftedIndex(stamps, i, j))|
    ensures var without, r, j' := RemoveAt(stamps, i), InsertIndex(RemoveAt(stamps, i), stamps[i]), ShiftedIndex(stamps, i, j);
            var rest := RemoveAt(Insert(without, stamps[i]), j');
            var at := if a < j' then a else a + 1;
            if at == r then rest[a] == stamps[i]
            else m == (if at < r then at else at - 1) && m < |without| && rest[a] == without[m]
                 && m != (if j < i then j else j - 1)
  {
    var r, j' := InsertIndex(RemoveAt(stamps, i), stamps[i]), ShiftedIndex(stamps, i, j);
    var at := if a < j' then a else a + 1;
    m := if at < r then at else if at == r then 0 else at - 1;
    assert RemoveAt(Insert(RemoveAt(stamps, i), stamps[i]), j')[a] == Insert(RemoveAt(stamps, i), stamps[i])[at];
  }

  lemma {:induction false} OthersStaySorted(stamps: seq<int>, i: nat, j: nat, a: nat, b: nat)
    requires i < |stamps| && j < |stamps| && i != j && OthersSorted(stamps, i, j)
    requires a < b < |stamps| - 1
    requires var k := if j < i then j else j - 1; a != k && b != k
    ensures RemoveAt(stamps, i)[a] <= RemoveAt(stamps, i)[b]
  {
    var a', b' := if a < i then a else a + 1, if b < i then b else b + 1;
    assert RemoveAt(stamps, i)[a] == stamps[a'] && RemoveAt(stamps, i)[b] == stamps[b'];
  }

  lemma {:induction false} RestSorted(stamps: seq<int>, i: nat, j: nat)
    requires i < |stamps| && j < |stamps| && i != j && OthersSorted(stamps, i, j)
    requires LandsInOrder(stamps, i, j)
    ensures SortedStamps(RemoveAt(Insert(RemoveAt(stamps, i), stamps[i]), ShiftedIndex(stamps, i, j)))
  {
    var j' := ShiftedIndex(stamps, i, j);
    var rest := RemoveAt(Insert(RemoveAt(stamps, i), stamps[i]), j');
    forall a, b | 0 <= a < b < |rest|
      ensures rest[a] <= rest[b]
    {
      var m := RestOrigin(stamps, i, j, a);
      var n := RestOrigin(stamps, i, j, b);
      var r := InsertIndex(RemoveAt(stamps, i), stamps[i]);
      if m < n && (if a < j' then a else a + 1) != r && (if b < j' then b else b + 1) != r {
        OthersStaySorted(stamps, i, j, m, n);
      }
    }
  }

  lemma {:induction false} LandedInOrder(stamps: seq<int>, i: nat, j: nat)
    requires i < |stamps| && j < |stamps| && i != j
    requires SortedStamps(RemoveAt(Insert(RemoveAt(stamps, i), stamps[i]), ShiftedIndex(stamps, i, j)))
    ensures LandsInOrder(stamps, i, j)
  {
    var without := RemoveAt(stamps, i);
    var k := if j < i then j else j - 1;
    var r := InsertIndex(without, stamps[i]);
    var moved := Insert(without, stamps[i]);
    var j' := ShiftedIndex(stamps, i, j);
    var rest := RemoveAt(moved, j');
    var r' := if j' < r then r - 1 else r;
    assert rest[r'] == stamps[i];
    forall m | 0 <= m < |without| && m != k
      ensures m < r ==> without[m] <= stamps[i]
      ensures r <= m ==> stamps[i] <= without[m]
    {
      var m1 := if m < r then m else m + 1;
      assert moved[m1] == without[m];
      var m2 := if m1 < j' then m1 else m1 - 1;
      assert rest[m2] == without[m];
    }
  }

  /** It is enough that the edited response has kept its place. */
  lemma {:induction false} PairEditSortsIfResponseFits(stamps: seq<int>, i: nat, j: nat)
    requires i < |stamps| && j < |stamps| && i != j && SortedStamps(RemoveAt(stamps, i))
    ensures SortedStamps(PairEdit(stamps, i, j))
  {
    var without := RemoveAt(stamps, i);
    InsertKeepsOrder(without, stamps[i]);
    var moved := Insert(without, stamps[i]);
    var j' := ShiftedIndex(stamps, i, j);
    RemoveKeepsOrder(moved, j');
    InsertKeepsOrder(RemoveAt(moved, j'), moved[j']);
  }

  /** It is not always enough: moving a pair at 1 and 2 to 15 and 30 past an event at 10. */
  lemma {:induction false} PairEditCanBreakOrder()
    ensures OthersSorted([15, 30, 10], 0, 1) && PairEdit([15, 30, 10], 0, 1) == [15, 10, 30]
  {
    hide BinarySearch;
    var stamps, without, rest := [15, 30, 10], [30, 10], [15, 10];
    assert RemoveAt(stamps, 0) == without && RemoveAt(stamps, 1) == rest;
    SearchInTwo(30, 10, 15);
    assert InsertIndex(without, 15) == 0 && Insert(without, 15) == stamps;
    SearchInTwo(15, 10, 30);
    assert InsertIndex(rest, 30) == 2 && Insert(rest, 30) == [15, 10, 30];
  }

  lemma {:induction false} SearchInTwo(a: int, b: int, ts: int)
    ensures BinarySearch([a, b], 0, 1, ts) == if ts == a then 0 else if ts < a then -1 else if ts < b then 0 else 1
  {
    var list := [a, b];
    assert BinarySearch(list, 1, 1, ts) == if ts < b then 0 else 1 by {
      assert BinarySearch(list, 1, 0, ts) == 0 && BinarySearch(list, 2, 1, ts) == 1;
    }
    assert BinarySearch(list, 0, -1, ts) == -1;
  }

  // ------------------------------------------------------------------ inserting two stamps

  /** The number of entries before ts, on a list in order. */
  function Earlier(stamps: seq<int>, ts: int): (n: nat)
    ensures n <= |stamps|
  {
    if stamps == [] || stamps[0] >= ts then 0 else Earlier(stamps[1..], ts) + 1
  }

  lemma {:induction false} EarlierSplits(stamps: seq<int>, ts: int)
    requires SortedStamps(stamps)
    ensures forall i :: 0 <= i < Earlier(stamps, ts) ==> stamps[i] < ts
    ensures forall i :: Earlier(stamps, ts) <= i < |stamps| ==> ts <= stamps[i]
  {
    if stamps != [] && stamps[0] < ts {
      EarlierSplits(stamps[1..], ts);
      assert forall i :: 0 < i < |stamps| ==> stamps[i] == stamps[1..][i - 1];
    }
  }

  /** The first midpoint from a to b - 1 of a search that turns right before a and left from b on:
      nothing but positions. */
  function FirstMid(first: int, last: int, a: int, b: int): (m: int)
    requires 0 <= first <= a < b <= last + 1
    ensures a <= m < b
    decreases last - first
  {
    var mid := (first + last) / 2;
    if mid < a then FirstMid(mid + 1, last, a, b)
    else if mid < b then mid
    else FirstMid(first, mid - 1, a, b)
  }

  lemma {:induction false} SearchFindsFirstMid(list: seq<int>, first: int, last: int, ts: int, a: int, b: int)
    requires 0 <= first <= a < b <= last + 1 <= |list|
    requires forall i :: first <= i <= last ==> if i < a then list[i] < ts else if i < b then list[i] == ts else ts < list[i]
    ensures BinarySearch(list, first, last, ts) == FirstMid(first, last, a, b)
    decreases last - first
  {
    var mid := (first + last) / 2;
    if mid < a {
      SearchFindsFirstMid(list, mid + 1, last, ts, a, b);
    } else if mid >= b {
      SearchFindsFirstMid(list, first, mid - 1, ts, a, b);
    }
  }

  /** Of two entries with the same stamp, the second is put behind the first exactly if there was
      none with this stamp, or the search meets those there are earlier in the list than it does
      once there is one more. */
  predicate SecondStaysBehind(stamps: seq<int>, ts: int) {
    var a, b := Earlier(stamps, ts), Earlier(stamps, ts + 1);
    a < b ==> FirstMid(0, |stamps| - 1, a, b) < FirstMid(0, |stamps|, a, b + 1)
  }

  lemma {:induction false} EarlierGrows(stamps: seq<int>, ts: int)
    ensures Earlier(stamps, ts) <= Earlier(stamps, ts + 1)
  {
    if stamps != [] && stamps[0] < ts { EarlierGrows(stamps[1..], ts); }
  }

  lemma {:induction false} EqualRange(stamps: seq<int>, ts: int)
    requires SortedStamps(stamps)
    ensures var a, b := Earlier(stamps, ts), Earlier(stamps, ts + 1);
            && a <= b
            && forall i :: 0 <= i < |stamps| ==> if i < a then stamps[i] < ts else if i < b then stamps[i] == ts else ts < stamps[i]
  {
    var a, b := Earlier(stamps, ts), Earlier(stamps, ts + 1);
    EarlierSplits(stamps, ts);
    EarlierSplits(stamps, ts + 1);
    EarlierGrows(stamps, ts);
  }

  /** Where a stamp goes that is there already. */
  lemma {:induction false} InsertAmongEqual(stamps: seq<int>, ts: int, a: int, b: int)
    requires 0 <= a <= b <= |stamps| && SortedStamps(stamps)
    requires forall i :: 0 <= i < |stamps| ==> if i < a then stamps[i] < ts else if i < b then stamps[i] == ts else ts < stamps[i]
    ensures InsertIndex(stamps, ts) == if a < b then FirstMid(0, |stamps| - 1, a, b) + 1 else a
  {
    if a < b {
      SearchFindsFirstMid(stamps, 0, |stamps| - 1, ts, a, b);
    } else if |stamps| > 0 {
      BinarySearchSplits(stamps, 0, |stamps| - 1, ts);
      var (before, after) := (if a > 0 then stamps[a - 1] else ts, if a < |stamps| then stamps[a] else ts);
    }
  }

  lemma {:induction false} EqualPairIff(stamps: seq<int>, ts: int)
    requires SortedStamps(stamps)
    ensures InsertIndex(stamps, ts) < InsertIndex(Insert(stamps, ts), ts) <==> SecondStaysBehind(stamps, ts)
  {
    hide BinarySearch, Earlier, FirstMid;
    var a, b := Earlier(stamps, ts), Earlier(stamps, ts + 1);
    EqualRange(stamps, ts);
    InsertAmongEqual(stamps, ts, a, b);
    InsertKeepsOrder(stamps, ts);
    InsertAmongEqual(Insert(stamps, ts), ts, a, b + 1);
  }

  /** Of a pair put into a list in order one after the other, which is listed first. */
  predicate FirstStaysFirst(stamps: seq<int>, ts: int, us: int) {
    ts < us || (ts == us && SecondStaysBehind(stamps, ts))
  }

  lemma {:induction false} PairOrderIff(stamps: seq<int>, ts: int, us: int)
    requires SortedStamps(stamps)
    ensures InsertIndex(stamps, ts) < InsertIndex(Insert(stamps, ts), us) <==> FirstStaysFirst(stamps, ts, us)
  {
    hide SecondStaysBehind;
    var p := InsertIndex(stamps, ts);
    if ts == us {
      EqualPairIff(stamps, ts);
    } else {
      InsertKeepsOrder(stamps, ts);
      BinarySearchSplits(Insert(stamps, ts), 0, |stamps|, us);
      assert Insert(stamps, ts)[p] == ts;
    }
  }

  /** A pair that is dropped starts with equal stamps.  Dropped on the response of a pair there
      is, at 5, its request is listed after its response. */
  lemma {:induction false} DroppedPairSwaps()
    ensures FirstStaysFirst([], 1, 5) && Insert(Insert([], 1), 5) == [1, 5] && !FirstStaysFirst([1, 5], 5, 5)
  {
    var stamps := [1, 5];
    assert BinarySearch([1], 0, 0, 5) == 0;
    assert stamps[1..] == [5] && Earlier([5], 5) == 0 && Earlier([5], 6) == 1;
    assert Earlier(stamps, 5) == 1 && Earlier(stamps, 6) == 2;
    assert FirstMid(0, 1, 1, 2) == 1 && FirstMid(0, 2, 1, 3) == 1;
  }

  // ------------------------------------------------------------------ the scene

  datatype EventType = Request | Response

  class TimelineEvent {
    var id: int
    var timeStamp: int
    var type_: EventType

    constructor (id: int, timeStamp: int, type_: EventType)
      ensures this.id == id && this.timeStamp == timeStamp && this.type_ == type_
    {
      this.id, this.timeStamp, this.type_ := id, timeStamp, type_;
    }
  }

  ghost function Stamps(es: seq<TimelineEvent>): (r: seq<int>)
    reads es
    ensures |r| == |es| && forall i :: 0 <= i < |es| ==> r[i] == es[i].timeStamp
  {
    if es == [] then [] else Stamps(es[..|es| - 1]) + [es[|es| - 1].timeStamp]
  }

  lemma {:induction false} PlacedStamps(es: seq<TimelineEvent>, fs: seq<TimelineEvent>, i: nat, e: TimelineEvent)
    requires i <= |es| && fs == InsertAt(es, i, e)
    ensures Stamps(fs) == InsertAt(Stamps(es), i, e.timeStamp)
  {
  }

  /** The list with a pair put in, each event where its stamp belongs at that time. */
  ghost function InsertPair(es: seq<TimelineEvent>, stamps: seq<int>, req: TimelineEvent, ts: int,
                            res: TimelineEvent, us: int): (r: seq<TimelineEvent>)
    requires |stamps| == |es|
    ensures |r| == |es| + 2
  {
    InsertAt(InsertAt(es, InsertIndex(stamps, ts), req), InsertIndex(Insert(stamps, ts), us), res)
  }

  lemma {:induction false} PairIndices(es: seq<TimelineEvent>, stamps: seq<int>, fs: seq<TimelineEvent>,
                                       req: TimelineEvent, ts: int, res: TimelineEvent, us: int)
    requires |stamps| == |es| && fs == InsertPair(es, stamps, req, ts, res, us) && Distinct(fs)
    ensures req in fs && res in fs
    ensures SortedStamps(stamps) ==> (IndexOf(fs, req) < IndexOf(fs, res) <==> FirstStaysFirst(stamps, ts, us))
  {
    hide IndexOf, InsertIndex, SortedStamps, FirstStaysFirst;
    var p, q := InsertIndex(stamps, ts), InsertIndex(Insert(stamps, ts), us);
    var p' := if p < q then p else p + 1;
    assert fs[p'] == req && fs[q] == res;
    IndexOfUnique(fs, req, p');
    IndexOfUnique(fs, res, q);
    if SortedStamps(stamps) { PairOrderIff(stamps, ts, us); }
  }

  lemma {:induction false} ListedOnce(es: seq<TimelineEvent>, hash: map<int, TimelineEvent>)
    requires IndexedBy(es, hash)
    ensures Distinct(es)
  {
  }

  predicate Distinct(es: seq<TimelineEvent>) {
    forall i, j :: 0 <= i < j < |es| ==> es[i] != es[j]
  }

  /** Every event is listed once and found under its id. */
  ghost predicate IndexedBy(es: seq<TimelineEvent>, hash: map<int, TimelineEvent>)
    reads es
  {
    && Distinct(es)
    && (forall i :: 0 <= i < |es| ==> es[i].id in hash && hash[es[i].id] == es[i])
    && (forall id :: id in hash ==> exists i :: 0 <= i < |es| && es[i] == hash[id] && es[i].id == id)
  }

  lemma {:induction false} InsertIndexed(es: seq<TimelineEvent>, hash: map<int, TimelineEvent>, i: nat, e: TimelineEvent)
    requires IndexedBy(es, hash) && i <= |es| && e.id !in hash
    ensures IndexedBy(InsertAt(es, i, e), hash[e.id := e])
  {
    var fs, hash' := InsertAt(es, i, e), hash[e.id := e];
    forall j | 0 <= j < |es|
      ensures es[j] != e
    {
    }
    forall id | id in hash'
      ensures exists k :: 0 <= k < |fs| && fs[k] == hash'[id] && fs[k].id == id
    {
      if id == e.id {
        assert fs[i] == e;
      } else {
        var j :| 0 <= j < |es| && es[j] == hash[id] && es[j].id == id;
        assert fs[if j < i then j else j + 1] == es[j];
      }
    }
  }

  /** QList::indexOf compares pointers. */
  function IndexOf(es: seq<TimelineEvent>, e: TimelineEvent): (i: nat)
    requires e in es
    ensures i < |es| && es[i] == e
  {
    if es[0] == e then 0 else IndexOf(es[1..], e) + 1
  }

  lemma {:induction false} IndexOfUnique(es: seq<TimelineEvent>, e: TimelineEvent, i: nat)
    requires Distinct(es) && i < |es| && es[i] == e
    ensures IndexOf(es, e) == i
  {
    assert es[IndexOf(es, e)] == es[i];
  }

  lemma {:induction false} TakenOut(es: seq<TimelineEvent>, hash: map<int, TimelineEvent>, i: nat)
    requires IndexedBy(es, hash) && i < |es|
    ensures IndexedBy(RemoveAt(es, i), hash - {es[i].id}) && es[i] !in RemoveAt(es, i)
  {
    var rest, hash' := RemoveAt(es, i), hash - {es[i].id};
    forall k | 0 <= k < |rest|
      ensures rest[k].id in hash' && hash'[rest[k].id] == rest[k] && rest[k] != es[i]
    {
      assert rest[k] == es[if k < i then k else k + 1];
    }
    forall id | id in hash'
      ensures exists k :: 0 <= k < |rest| && rest[k] == hash'[id] && rest[k].id == id
    {
      var j :| 0 <= j < |es| && es[j] == hash[id] && es[j].id == id;
      assert rest[if j < i then j else j - 1] == es[j];
    }
  }

  lemma {:induction false} RemovedStamps(es: seq<TimelineEvent>, i: nat)
    requires i < |es|
    ensures Stamps(RemoveAt(es, i)) == RemoveAt(Stamps(es), i)
  {
  }

  /** The list after one event has been taken out and placed again. */
  ghost function Moved(es: seq<TimelineEvent>, e: TimelineEvent): seq<TimelineEvent>
    requires e in es
    reads es
  {
    var rest := RemoveAt(es, IndexOf(es, e));
    InsertAt(rest, InsertIndex(Stamps(rest), e.timeStamp), e)
  }

  lemma {:induction false} MovedIndexed(es: seq<TimelineEvent>, hash: map<int, TimelineEvent>, e: TimelineEvent)
    requires IndexedBy(es, hash) && e in es
    ensures IndexedBy(Moved(es, e), hash)
  {
    var i := IndexOf(es, e);
    var rest := RemoveAt(es, i);
    TakenOut(es, hash, i);
    InsertIndexed(rest, hash - {e.id}, InsertIndex(Stamps(rest), e.timeStamp), e);
    assert hash == (hash - {e.id})[e.id := e];
  }

  /** Moving one event keeps the others in order, and restores the order if they were. */
  lemma {:induction false} MovedStamps(es: seq<TimelineEvent>, e: TimelineEvent)
    requires e in es
    ensures Stamps(Moved(es, e)) == Insert(RemoveAt(Stamps(es), IndexOf(es, e)), e.timeStamp)
    ensures SortedStamps(RemoveAt(Stamps(es), IndexOf(es, e))) ==> SortedStamps(Stamps(Moved(es, e)))
  {
    var i := IndexOf(es, e);
    var rest := RemoveAt(es, i);
    RemovedStamps(es, i);
    PlacedStamps(rest, Moved(es, e), InsertIndex(Stamps(rest), e.timeStamp), e);
    if SortedStamps(Stamps(rest)) { InsertKeepsOrder(Stamps(rest), e.timeStamp); }
  }

  lemma {:induction false} EntryShifts<T>(xs: seq<T>, i: nat, j: nat, r: nat, x: T)
    requires i < |xs| && j < |xs| && i != j && r < |xs|
    ensures var k := if j < i then j else j - 1;
            InsertAt(RemoveAt(xs, i), r, x)[if k < r then k else k + 1] == xs[j]
  {
    var rest, k := RemoveAt(xs, i), if j < i then j else j - 1;
    assert rest[k] == xs[j];
  }

  lemma {:induction false} MovedOther(es: seq<TimelineEvent>, e: TimelineEvent, f: TimelineEvent)
    requires e in es && f in es && e != f
    ensures |Moved(es, e)| == |es|
    ensures Moved(es, e)[ShiftedIndex(Stamps(es), IndexOf(es, e), IndexOf(es, f))] == f
    ensures e in Moved(es, e)
  {
    hide IndexOf, InsertIndex, Stamps;
    var i, j := IndexOf(es, e), IndexOf(es, f);
    RemovedStamps(es, i);
    EntryShifts(es, i, j, InsertIndex(Stamps(RemoveAt(es, i)), e.timeStamp), e);
  }

  function Max(a: int, b: int): int {
    if a < b then b else a
  }

  /** The delay to the event after k. */
  function NextDelay(stamps: seq<int>, k: nat): Option<int> {
    if k + 1 < |stamps| then Some(Max(0, stamps[k + 1] - stamps[k])) else None
  }

  /** Pairing is a symmetric relation without fixed points on the given ids. */
  ghost predicate PairedOn(pairs: map<int, int>, ids: set<int>) {
    && pairs.Keys == ids
    && forall id :: id in pairs ==> pairs[id] != id && pairs[id] in pairs && pairs[pairs[id]] == id
  }

  lemma {:induction false} PairUp(pairs: map<int, int>, ids: set<int>, a: int, b: int)
    requires PairedOn(pairs, ids) && a != b && a !in ids && b !in ids
    ensures PairedOn(pairs[a := b][b := a], ids + {a, b})
  {
  }

  // ------------------------------------------------------------------ playback as a state machine

  /** The number of events, the next one, whether playback runs, and the timers running. */
  datatype Playing = Playing(count: nat, idx: nat, running: bool, pending: nat)

  /** What is called from outside, and a timer running out. */
  datatype Action = Inserting | Starting | Stopping | Resetting | Clearing | Ticking

  const FRESH := Playing(0, 0, false, 0)

  /** No timer runs out, or the one that does finds what it looks up. */
  predicate InBounds(s: Playing, a: Action) {
    a.Ticking? && s.pending > 0 && s.running ==> s.idx < s.count
  }

  /** Stop leaves running timers alone, and only a tick uses one up. */
  function Do(s: Playing, a: Action): Playing
    requires InBounds(s, a)
  {
    match a
    case Inserting => if s.running then s else s.(count := s.count + 2)
    case Starting => s.(running := true, pending := s.pending + if s.idx < s.count then 1 else 0)
    case Stopping => s.(running := false)
    case Resetting => s.(idx := 0)
    case Clearing => s.(count := 0, idx := 0)
    case Ticking =>
      if s.pending == 0 then s
      else if !s.running then s.(pending := s.pending - 1)
      else s.(idx := s.idx + 1, pending := s.pending - 1 + if s.idx + 1 < s.count then 1 else 0)
  }

  class TimelineScene {
    var currentIdx: nat
    var eventHash: map<int, TimelineEvent>
    var eventPairHash: map<int, int>
    var events: seq<TimelineEvent>
    var isRunning: bool
    var timeStampLastProcessed: int
    var timeStampPause: int
    /** The single-shot timers that have been started and not run out. */
    ghost var pending: nat

    ghost predicate Coherent()
      reads this, events
    {
      IndexedBy(events, eventHash) && PairedOn(eventPairHash, eventHash.Keys)
    }

    /** The scene as far as playback goes. */
    ghost function View(): Playing
      reads this
    {
      Playing(|events|, currentIdx, isRunning, pending)
    }

    ghost predicate InOrder()
      reads this, events
    {
      SortedStamps(Stamps(events))
    }

    constructor ()
      ensures Coherent() && events == [] && eventHash == map[] && View() == FRESH
    {
      currentIdx, eventHash, eventPairHash, events, isRunning := 0, map[], map[], [], false;
      timeStampLastProcessed, timeStampPause, pending := 0, 0, 0;
    }

    /** The search of lines 322-346 over the live list. */
    method SearchEvents(list: seq<TimelineEvent>, first: int, last: int, timeStamp: int) returns (idx: int)
      requires 0 <= first && last < |list| && first <= last + 1
      ensures idx == BinarySearch(Stamps(list), first, last, timeStamp)
      decreases last - first + 1
    {
      if first > last {
        idx := last;
      } else {
        var mid := (first + last) / 2;
        if timeStamp == list[mid].timeStamp {
          idx := mid;
        } else if timeStamp < list[mid].timeStamp {
          idx := SearchEvents(list, first, mid - 1, timeStamp);
        } else {
          idx := SearchEvents(list, mid + 1, last, timeStamp);
        }
      }
    }

    /** The insertion both InsertTimelineEvent and UpdateTimelineEvent end with. */
    method Place(e: TimelineEvent)
      requires e !in events
      modifies this`events
      ensures events == InsertAt(old(events), InsertIndex(Stamps(old(events)), e.timeStamp), e)
    {
      var ts := e.timeStamp;
      if |events| == 0 {
        events := events + [e];
      } else {
        var idx := SearchEvents(events, 0, |events| - 1, ts);
        idx := idx + 1;
        events := events[..idx] + [e] + events[idx..];
      }
    }

    /** Lines 152-175: the event is copied and owned by the scene. */
    method InsertTimelineEvent(timelineEvent: TimelineEvent) returns (e: TimelineEvent)
      requires IndexedBy(events, eventHash) && timelineEvent.id !in eventHash
      modifies this`events, this`eventHash
      ensures fresh(e) && e.id == timelineEvent.id && e.timeStamp == timelineEvent.timeStamp && e.type_ == timelineEvent.type_
      ensures eventHash == old(eventHash)[e.id := e] && IndexedBy(events, eventHash)
      ensures events == InsertAt(old(events), InsertIndex(old(Stamps(events)), e.timeStamp), e)
      ensures Stamps(events) == Insert(old(Stamps(events)), e.timeStamp)
      ensures old(InOrder()) ==> InOrder()
    {
      hide SortedStamps, InsertIndex;
      e := new TimelineEvent(timelineEvent.id, timelineEvent.timeStamp, timelineEvent.type_);
      eventHash := eventHash[e.id := e];
      Place(e);
      ghost var was, i := old(events), InsertIndex(Stamps(old(events)), e.timeStamp);
      InsertIndexed(was, old(eventHash), i, e);
      PlacedStamps(was, events, i, e);
      if SortedStamps(Stamps(was)) { InsertKeepsOrder(Stamps(was), e.timeStamp); }
    }

    method InsertBoth(request: TimelineEvent, response: TimelineEvent) returns (req: TimelineEvent, res: TimelineEvent)
      requires IndexedBy(events, eventHash) && request.id != response.id
      requires request.id !in eventHash && response.id !in eventHash
      modifies this`events, this`eventHash
      ensures fresh(req) && req.timeStamp == request.timeStamp && req.type_ == request.type_ && req.id == request.id
      ensures fresh(res) && res.timeStamp == response.timeStamp && res.type_ == response.type_ && res.id == response.id
      ensures eventHash == old(eventHash)[request.id := req][response.id := res] && IndexedBy(events, eventHash)
      ensures events == InsertPair(old(events), old(Stamps(events)), req, request.timeStamp, res, response.timeStamp)
      ensures old(InOrder()) ==> InOrder()
    {
      hide IndexedBy, SortedStamps, InsertIndex;
      req := InsertTimelineEvent(request);
      res := InsertTimelineEvent(response);
    }

    /** Lines 126-140.  Ids are given out once, so those of a new pair are unknown here. */
    method InsertTimelineEventPair(request: TimelineEvent, response: TimelineEvent) returns (error: bool)
      requires Coherent() && request.id != response.id
      requires request.id !in eventHash && response.id !in eventHash
      modifies this`events, this`eventHash, this`eventPairHash
      ensures error == isRunning && Coherent()
      ensures error ==> events == old(events) && eventHash == old(eventHash) && eventPairHash == old(eventPairHash)
      ensures !error ==>
                && eventPairHash == old(eventPairHash)[request.id := response.id][response.id := request.id]
                && eventHash == old(eventHash)[request.id := eventHash[request.id]][response.id := eventHash[response.id]]
                && var req, res := eventHash[request.id], eventHash[response.id];
                   && fresh(req) && req.timeStamp == request.timeStamp && req.type_ == request.type_ && req.id == request.id
                   && fresh(res) && res.timeStamp == response.timeStamp && res.type_ == response.type_ && res.id == response.id
                   && events == InsertPair(old(events), old(Stamps(events)), req, request.timeStamp, res, response.timeStamp)
                   && req in events && res in events
                   && (old(InOrder()) ==>
                         (IndexOf(events, req) < IndexOf(events, res)
                          <==> FirstStaysFirst(old(Stamps(events)), request.timeStamp, response.timeStamp)))
      ensures old(InOrder()) ==> InOrder()
      ensures View() == Do(old(View()), Inserting)
    {
      hide IndexedBy, SortedStamps, Stamps, PairedOn, FirstStaysFirst, IndexOf, InsertIndex;
      if isRunning {
        return true;
      }
      ghost var stamps := Stamps(events);
      var req, res := InsertBoth(request, response);
      eventPairHash := eventPairHash[request.id := response.id][response.id := request.id];
      PairUp(old(eventPairHash), old(eventHash).Keys, request.id, response.id);
      assert eventHash.Keys == old(eventHash).Keys + {request.id, response.id};
      ListedOnce(events, eventHash);
      PairIndices(old(events), stamps, events, req, request.timeStamp, res, response.timeStamp);
      return false;
    }

    /** Lines 373-398: the event is taken out of the list and placed by its new stamp. */
    method UpdateTimelineEvent(timelineEvent: TimelineEvent)
      requires IndexedBy(events, eventHash) && timelineEvent in events
      modifies this`events
      ensures events == Moved(old(events), timelineEvent) && IndexedBy(events, eventHash)
    {
      ghost var was := events;
      var i := IndexOf(events, timelineEvent);
      TakenOut(was, eventHash, i);
      events := events[..i] + events[i + 1..];
      Place(timelineEvent);
      MovedIndexed(was, eventHash, timelineEvent);
    }

    /** What the next of two updates can rely on. */
    method UpdateOneOfTwo(timelineEvent: TimelineEvent, ghost other: TimelineEvent)
      requires IndexedBy(events, eventHash) && timelineEvent in events && other in events && timelineEvent != other
      modifies this`events
      ensures IndexedBy(events, eventHash) && other in events && timelineEvent in events
      ensures Stamps(events) == Insert(RemoveAt(old(Stamps(events)), IndexOf(old(events), timelineEvent)), timelineEvent.timeStamp)
      ensures IndexOf(events, other) ==
              ShiftedIndex(old(Stamps(events)), IndexOf(old(events), timelineEvent), IndexOf(old(events), other))
    {
      ghost var was := events;
      UpdateTimelineEvent(timelineEvent);
      MovedStamps(was, timelineEvent);
      MovedOther(was, timelineEvent, other);
      ghost var k := ShiftedIndex(Stamps(was), IndexOf(was, timelineEvent), IndexOf(was, other));
      assert events[k] == other;
      IndexOfUnique(events, other, k);
    }

    method UpdateBoth(request: TimelineEvent, response: TimelineEvent)
      requires IndexedBy(events, eventHash) && request in events && response in events && request != response
      modifies this`events
      ensures IndexedBy(events, eventHash)
      ensures Stamps(events) == PairEdit(old(Stamps(events)), IndexOf(old(events), request), IndexOf(old(events), response))
    {
      ghost var stamps, i, j := Stamps(events), IndexOf(events, request), IndexOf(events, response);
      UpdateOneOfTwo(request, response);
      UpdateOneOfTwo(response, request);
      PairEditSteps(stamps, i, j, request.timeStamp, response.timeStamp);
    }

    /** Lines 254-266: both stamps have been edited before either event moves. */
    method UpdateTimelineEventPair(request: TimelineEvent, response: TimelineEvent) returns (error: bool)
      requires Coherent() && request in events && response in events && request != response
      modifies this`events
      ensures error == isRunning && Coherent()
      ensures error ==> events == old(events)
      ensures !error ==> Stamps(events) == PairEdit(old(Stamps(events)),
                                                    IndexOf(old(events), request), IndexOf(old(events), response))
      ensures !error && OthersSorted(old(Stamps(events)), IndexOf(old(events), request), IndexOf(old(events), response)) ==>
                (InOrder() <==> !ResponseMisleads(old(Stamps(events)), IndexOf(old(events), request), IndexOf(old(events), response)))
      ensures View() == old(View())
    {
      hide PairEdit, ResponseMisleads, SortedStamps, IndexOf, Stamps;
      if isRunning {
        return true;
      }
      ghost var stamps, i, j := Stamps(events), IndexOf(events, request), IndexOf(events, response);
      PairEditLength(stamps, i, j);
      if OthersSorted(stamps, i, j) { PairEditSortsIff(stamps, i, j); }
      UpdateBoth(request, response);
      return false;
    }

    /** TimelineScene.h line 63: of a live event the partner is always there. */
    function PairedTimelineEvent(id: int): (e: TimelineEvent)
      requires Coherent() && id in eventHash
      reads this, events
      ensures e in events && e != eventHash[id] && e.id in eventHash && e.id == eventPairHash[id]
      ensures eventPairHash[e.id] == id
    {
      eventHash[eventPairHash[id]]
    }

    /** Lines 208-230: the delay of the single-shot timer started, if there is an event left. */
    method Start() returns (timer: Option<int>)
      modifies this`isRunning, this`timeStampPause, this`pending
      ensures View() == Do(old(View()), Starting) && isRunning && currentIdx == old(currentIdx)
      ensures (timer.Some? <==> pending == old(pending) + 1) && (timer.None? <==> pending == old(pending))
      ensures timer == if currentIdx < |events|
                       then Some(events[currentIdx].timeStamp - (old(timeStampPause) - timeStampLastProcessed))
                       else None
    {
      isRunning := true;
      timer := None;
      if currentIdx < |events| {
        var elapsed := timeStampPause - timeStampLastProcessed;
        timer := Some(events[currentIdx].timeStamp - elapsed);
        timeStampPause := 0;
        pending := pending + 1;
      }
    }

    /** Lines 234-249, at the tick now of the clock.  A timer that is running stays. */
    method Stop(now: int)
      modifies this`isRunning, this`timeStampPause
      ensures View() == Do(old(View()), Stopping) && !isRunning && currentIdx == old(currentIdx) && pending == old(pending)
      ensures timeStampPause == if old(isRunning) then now else old(timeStampPause)
    {
      if isRunning {
        timeStampPause := now;
      }
      isRunning := false;
    }

    /** Lines 407-431, on the tick now of the clock: the event sent and the next timer.  Some
        timer has run out, not necessarily the one that was started last. */
    method OnProcessEvent(now: int) returns (sent: Option<TimelineEvent>, timer: Option<int>)
      requires pending > 0 && (isRunning ==> currentIdx < |events|)
      modifies this`currentIdx, this`timeStampLastProcessed, this`pending
      ensures View() == Do(old(View()), Ticking) && pending == old(pending) - 1 + if timer.Some? then 1 else 0
      ensures !isRunning ==> sent.None? && timer.None?
      ensures isRunning ==>
                && sent == Some(events[old(currentIdx)]) && currentIdx == old(currentIdx) + 1
                && timer == NextDelay(Stamps(events), old(currentIdx))
    {
      pending := pending - 1;
      if !isRunning {
        return None, None;
      }
      var timelineEvent := events[currentIdx];
      timeStampLastProcessed := now;
      currentIdx := currentIdx + 1;
      timer := None;
      if currentIdx < |events| {
        var next := events[currentIdx];
        timer := Some(Max(0, next.timeStamp - timelineEvent.timeStamp));
        pending := pending + 1;
      }
      sent := Some(timelineEvent);
    }

    /** Lines 102-121. */
    method Clear()
      modifies this
      ensures Coherent() && InOrder() && events == [] && eventHash == map[] && eventPairHash == map[]
      ensures currentIdx == 0 && isRunning == old(isRunning) && View() == Do(old(View()), Clearing)
    {
      Reset();
      eventPairHash := map[];
      eventHash := map[];
      events := [];
    }

    /** Lines 194-204. */
    method Reset()
      modifies this`timeStampPause, this`timeStampLastProcessed, this`currentIdx
      ensures timeStampPause == 0 && timeStampLastProcessed == 0 && View() == Do(old(View()), Resetting)
    {
      timeStampPause := 0;
      timeStampLastProcessed := 0;
      currentIdx := 0;
    }
  }

  // ------------------------------------------------------------------ order of a pair

  /** A response later than its request is listed after it. */
  lemma RequestFirst(scene: TimelineScene, i: nat, j: nat)
    requires scene.InOrder() && i < |scene.events| && j < |scene.events|
    requires scene.events[i].timeStamp < scene.events[j].timeStamp
    ensures i < j
  {
    var stamps := Stamps(scene.events);
    assert stamps[i] < stamps[j];
  }

  // ------------------------------------------------------------------ playback

  datatype Firing = Firing(event: nat, at: int)

  /** Playback with one timer: the next event, the clock, the timer running, what was sent when. */
  datatype Play = Play(idx: nat, clock: int, timer: Option<int>, log: seq<Firing>)

  /** Start after Reset. */
  function Begin(stamps: seq<int>): Play {
    Play(0, 0, if |stamps| > 0 then Some(stamps[0]) else None, [])
  }

  /** The timer runs out and OnProcessEvent is called. */
  function Tick(stamps: seq<int>, p: Play): Play
    requires p.timer.Some?
  {
    var clock := p.clock + p.timer.value;
    Play(p.idx + 1, clock, NextDelay(stamps, p.idx), p.log + [Firing(p.idx, clock)])
  }

  /** The first n ticks; a tick always finds its event, and the last one leaves no timer. */
  function Playback(stamps: seq<int>, n: nat): (p: Play)
    requires n <= |stamps|
    ensures p.idx == n && |p.log| == n && (p.timer.Some? <==> n < |stamps|)
    ensures forall k :: 0 <= k < n ==> p.log[k].event == k
  {
    if n == 0 then Begin(stamps) else Tick(stamps, Playback(stamps, n - 1))
  }

  lemma {:induction false} PlaybackLog(stamps: seq<int>, n: nat, m: nat)
    requires n <= m <= |stamps|
    ensures Playback(stamps, m).log[..n] == Playback(stamps, n).log
    decreases m
  {
    if n < m {
      PlaybackLog(stamps, n, m - 1);
      assert Playback(stamps, m).log[..n] == Playback(stamps, m - 1).log[..n];
    } else {
      assert Playback(stamps, n).log[..n] == Playback(stamps, n).log;
    }
  }

  lemma {:induction false} OrderedPlayback(stamps: seq<int>, n: nat)
    requires SortedStamps(stamps) && n <= |stamps|
    ensures forall k :: 0 <= k < n ==> Playback(stamps, n).log[k] == Firing(k, stamps[k])
    ensures n < |stamps| ==> Playback(stamps, n).clock + Playback(stamps, n).timer.value == stamps[n]
  {
    if n > 0 { OrderedPlayback(stamps, n - 1); }
  }

  ghost predicate OnTime(stamps: seq<int>) {
    forall k :: 0 <= k < |stamps| ==> Playback(stamps, |stamps|).log[k].at == stamps[k]
  }

  /** Every event goes out at its own time stamp exactly if the list is in order. */
  lemma {:induction false} OnTimeIff(stamps: seq<int>)
    requires forall k :: 0 <= k < |stamps| ==> stamps[k] >= 0
    ensures OnTime(stamps) <==> SortedStamps(stamps)
  {
    if SortedStamps(stamps) {
      OrderedPlayback(stamps, |stamps|);
    } else if OnTime(stamps) {
      forall k | 0 < k < |stamps|
        ensures stamps[k - 1] <= stamps[k]
      {
        PlaybackLog(stamps, k, |stamps|);
        PlaybackLog(stamps, k + 1, |stamps|);
        var p := Playback(stamps, k);
        assert p.log[k - 1] == Playback(stamps, |stamps|).log[k - 1];
        assert Playback(stamps, k + 1).log[k] == Playback(stamps, |stamps|).log[k];
        assert p == Tick(stamps, Playback(stamps, k - 1));
        assert p.clock == stamps[k - 1];
      }
      StepwiseSorted(stamps);
    }
  }

  /** The list that pair edit leaves plays its second event late. */
  lemma {:induction false} BrokenOrderIsLate()
    ensures var stamps := PairEdit([15, 30, 10], 0, 1);
            stamps[1] == 10 && Playback(stamps, 3).log[1] == Firing(1, 15) && !OnTime(stamps)
  {
    hide PairEdit;
    PairEditCanBreakOrder();
    var stamps := [15, 10, 30];
    assert Playback(stamps, 0) == Play(0, 0, Some(15), []);
    assert Playback(stamps, 1) == Play(1, 15, Some(0), [Firing(0, 15)]);
    assert Playback(stamps, 2) == Play(2, 15, Some(20), [Firing(0, 15), Firing(1, 15)]);
    PlaybackLog(stamps, 2, 3);
    assert Playback(stamps, 3).log[1] == Playback(stamps, 3).log[..2][1];
  }

  lemma {:induction false} StepwiseSorted(stamps: seq<int>)
    requires forall k :: 0 < k < |stamps| ==> stamps[k - 1] <= stamps[k]
    ensures SortedStamps(stamps)
  {
    forall i, j | 0 <= i < j < |stamps|
      ensures stamps[i] <= stamps[j]
    {
      StepwiseAtMost(stamps, i, j);
    }
  }

  lemma {:induction false} StepwiseAtMost(stamps: seq<int>, i: nat, j: nat)
    requires i <= j < |stamps| && forall k :: 0 < k < |stamps| ==> stamps[k - 1] <= stamps[k]
    ensures stamps[i] <= stamps[j]
    decreases j
  {
    if i < j { StepwiseAtMost(stamps, i, j - 1); }
  }

  lemma {:induction false} PlaybackStarts(stamps: seq<int>)
    ensures Playback(stamps, 0) == Begin(stamps)
  {
  }

  lemma {:induction false} PlaybackTicks(stamps: seq<int>, n: nat)
    requires n <= |stamps| && Playback(stamps, n).timer.Some?
    ensures n < |stamps| && Playback(stamps, n + 1) == Tick(stamps, Playback(stamps, n))
  {
  }

  /** Reset, Start, and every timer running out in turn: each event is sent once, in the order
      of the list, and on an ordered list at its own time stamp. */
  method PlayThrough(scene: TimelineScene) returns (sent: seq<TimelineEvent>, log: seq<Firing>)
    requires scene.pending == 0
    modifies scene
    ensures scene.events == old(scene.events) && scene.View() == Playing(|scene.events|, |scene.events|, true, 0)
    ensures sent == scene.events && log == Playback(Stamps(scene.events), |scene.events|).log
    ensures scene.InOrder() ==> forall k :: 0 <= k < |log| ==> log[k] == Firing(k, scene.events[k].timeStamp)
  {
    hide SortedStamps, Playback, NextDelay, Stamps;
    scene.Reset();
    var timer := scene.Start();
    var clock := 0;
    ghost var stamps := Stamps(scene.events);
    PlaybackStarts(stamps);
    sent, log := [], [];
    while timer.Some?
      invariant scene.events == old(scene.events) && stamps == Stamps(scene.events)
      invariant scene.View() == Playing(|stamps|, |log|, true, if timer.Some? then 1 else 0)
      invariant |log| <= |stamps| && sent == scene.events[..|log|]
      invariant Playback(stamps, |log|) == Play(|log|, clock, timer, log)
      decreases |stamps| - |log|
    {
      PlaybackTicks(stamps, |log|);
      clock := clock + timer.value;
      var next;
      next, timer := scene.OnProcessEvent(clock);
      sent, log := sent + [next.value], log + [Firing(|log|, clock)];
    }
    if scene.InOrder() { OrderedPlayback(stamps, |stamps|); }
  }

  // ------------------------------------------------------------------ stale timers

  /** Letting all timers run out from here, each finds what it looks up. */
  ghost predicate RunsOut(s: Playing)
    decreases if s.idx < s.count then s.count - s.idx else 0, s.pending
  {
    s.pending == 0 || (InBounds(s, Ticking) && RunsOut(Do(s, Ticking)))
  }

  lemma {:induction false} RunsOutIff(s: Playing)
    ensures RunsOut(s) <==> (s.running ==> s.pending <= if s.idx < s.count then 1 else 0)
    decreases if s.idx < s.count then s.count - s.idx else 0, s.pending
  {
    if s.pending > 0 && InBounds(s, Ticking) { RunsOutIff(Do(s, Ticking)); }
  }

  /** The state after a run on a new scene; None once an event has been looked up that is not
      there. */
  function After(run: seq<Action>): Option<Playing> {
    if run == [] then Some(FRESH)
    else
      var a := run[|run| - 1];
      match After(run[..|run| - 1])
      case None => None
      case Some(s) => if InBounds(s, a) then Some(Do(s, a)) else None
  }

  /** Nothing is looked up that is not there, in the run or by the timers it leaves at any point. */
  ghost predicate Safe(run: seq<Action>) {
    forall n :: 0 <= n <= |run| ==> After(run[..n]).Some? && RunsOut(After(run[..n]).value)
  }

  /** Playback is not started while a timer is running, nor cleared under a timer that counts. */
  predicate Careful(s: Playing, a: Action) {
    match a
    case Starting => s.pending == 0
    case Clearing => s.running ==> s.pending == 0
    case _ => true
  }

  predicate AllCareful(run: seq<Action>) {
    run == [] ||
    var front := run[..|run| - 1];
    AllCareful(front) && After(front).Some? && Careful(After(front).value, run[|run| - 1])
  }

  /** What careful runs keep: at most one timer, and an event for it unless playback stands still. */
  predicate OneTimer(s: Playing) {
    s.pending <= if s.running && s.idx >= s.count then 0 else 1
  }

  lemma {:induction false} CarefulKeepsOneTimer(run: seq<Action>)
    requires AllCareful(run)
    ensures After(run).Some? && OneTimer(After(run).value)
  {
    if run != [] { CarefulKeepsOneTimer(run[..|run| - 1]); }
  }

  lemma {:induction false} CarefulPrefix(run: seq<Action>, n: nat)
    requires AllCareful(run) && n <= |run|
    ensures AllCareful(run[..n])
    decreases |run|
  {
    if n < |run| {
      CarefulPrefix(run[..|run| - 1], n);
      assert run[..|run| - 1][..n] == run[..n];
    } else {
      assert run[..n] == run;
    }
  }

  lemma {:induction false} SafePrefix(run: seq<Action>)
    requires Safe(run) && run != []
    ensures Safe(run[..|run| - 1])
  {
    var front := run[..|run| - 1];
    forall n | 0 <= n <= |front|
      ensures After(front[..n]).Some? && RunsOut(After(front[..n]).value)
    {
      assert front[..n] == run[..n];
    }
  }

  /** Over all runs: every event looked up is there exactly if playback is never started while
      a timer is running, nor cleared while it runs with one. */
  lemma {:induction false} SafeIffCareful(run: seq<Action>)
    ensures Safe(run) <==> AllCareful(run)
  {
    if AllCareful(run) {
      forall n | 0 <= n <= |run|
        ensures After(run[..n]).Some? && RunsOut(After(run[..n]).value)
      {
        CarefulPrefix(run, n);
        CarefulKeepsOneTimer(run[..n]);
        RunsOutIff(After(run[..n]).value);
      }
    }
    if Safe(run) && run != [] {
      var front := run[..|run| - 1];
      SafePrefix(run);
      SafeIffCareful(front);
      CarefulKeepsOneTimer(front);
      assert run[..|run|] == run;
      RunsOutIff(After(run).value);
    }
  }

  lemma {:induction false} AfterOneMore(run: seq<Action>, a: Action)
    requires After(run).Some? && InBounds(After(run).value, a)
    ensures After(run + [a]) == Some(Do(After(run).value, a))
  {
    assert (run + [a])[..|run|] == run;
  }

  /** A pair is inserted, played, paused and cleared, and playback is started again: the timer of
      the first playback looks up an event in the empty list. */
  lemma {:induction false} StaleTimerFindsNothing()
    ensures var run := [Inserting, Starting, Stopping, Clearing, Starting];
            After(run) == Some(Playing(0, 0, true, 1)) && After(run + [Ticking]) == None
  {
    assert After([]) == Some(FRESH);
    AfterOneMore([], Inserting);
    assert [] + [Inserting] == [Inserting];
    AfterOneMore([Inserting], Starting);
    assert [Inserting] + [Starting] == [Inserting, Starting];
    AfterOneMore([Inserting, Starting], Stopping);
    assert [Inserting, Starting] + [Stopping] == [Inserting, Starting, Stopping];
    AfterOneMore([Inserting, Starting, Stopping], Clearing);
    assert [Inserting, Starting, Stopping] + [Clearing] == [Inserting, Starting, Stopping, Clearing];
    AfterOneMore([Inserting, Starting, Stopping, Clearing], Starting);
    var run := [Inserting, Starting, Stopping, Clearing, Starting];
    assert [Inserting, Starting, Stopping, Clearing] + [Starting] == run;
    assert (run + [Ticking])[..5] == run;
  }

  /** One call, or one timer running out if there is one. */
  method PerformOne(scene: TimelineScene, a: Action, nextId: int, timers: nat) returns (nextId': int, timers': nat)
    requires scene.Coherent() && timers == scene.pending && InBounds(scene.View(), a)
    requires forall id :: id in scene.eventHash ==> id < nextId
    modifies scene
    ensures scene.Coherent() && timers' == scene.pending && scene.View() == Do(old(scene.View()), a)
    ensures forall id :: id in scene.eventHash ==> id < nextId'
  {
    hide IndexedBy, PairedOn, TimelineScene.InOrder, NextDelay;
    nextId', timers' := nextId, timers;
    match a {
      case Inserting =>
        var requestStamp: int, responseStamp: int := *, *;
        var request := new TimelineEvent(nextId, requestStamp, Request);
        var response := new TimelineEvent(nextId + 1, responseStamp, Response);
        var error := scene.InsertTimelineEventPair(request, response);
        nextId' := nextId + 2;
      case Starting =>
        var timer := scene.Start();
        timers' := timers + if timer.Some? then 1 else 0;
      case Stopping =>
        var now: int := *;
        scene.Stop(now);
      case Resetting => scene.Reset();
      case Clearing => scene.Clear();
      case Ticking =>
        if timers > 0 {
          var now: int := *;
          var sent, timer := scene.OnProcessEvent(now);
          timers' := timers - 1 + if timer.Some? then 1 else 0;
        }
    }
  }

  /** Every careful run can be performed on a scene: no call finds an event missing. */
  method Perform(run: seq<Action>) returns (scene: TimelineScene)
    requires AllCareful(run)
    ensures fresh(scene) && scene.Coherent() && After(run) == Some(scene.View())
  {
    hide AllCareful, OneTimer, Careful, TimelineScene.Coherent;
    scene := new TimelineScene();
    var nextId, timers: nat := 0, 0;
    AfterNothing();
    for n := 0 to |run|
      invariant fresh(scene) && scene.Coherent() && timers == scene.pending
      invariant After(run[..n]) == Some(scene.View())
      invariant forall id :: id in scene.eventHash ==> id < nextId
    {
      CarefulPrefix(run, n + 1);
      CarefulKeepsOneTimer(run[..n + 1]);
      AfterNext(run, n);
      nextId, timers := PerformOne(scene, run[n], nextId, timers);
    }
    assert run[..|run|] == run;
  }

  lemma {:induction false} AfterNothing()
    ensures forall run: seq<Action> :: run == [] ==> After(run) == Some(FRESH)
  {
  }

  lemma {:induction false} AfterNext(run: seq<Action>, n: nat)
    requires n < |run| && After(run[..n + 1]).Some?
    ensures After(run[..n]).Some? && InBounds(After(run[..n]).value, run[n])
    ensures After(run[..n + 1]) == Some(Do(After(run[..n]).value, run[n]))
  {
    assert run[..n + 1][..n] == run[..n];
  }
}
