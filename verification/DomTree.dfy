/** What filtering a template makes of it, as a function on trees of elements. */
module DomTree {
  import opened Prelude

  /** An element: its ordinary attributes, the user's check mark for it, the user's check marks
      for its attributes, its id, and its child elements.  The middle three are kept in three
      attributes of their own, any of which may be missing. */
  datatype Tree = Tree(tag: string, attributes: map<string, string>, info: Option<bool>,
                       attrInfo: Option<map<string, bool>>, id: Option<int>, kids: seq<Tree>)

  // ------------------------------------------------------------------ filtering

  /** A missing mark counts as unchecked. */
  predicate Checked(t: Tree) {
    t.info == Some(true)
  }

  function Unchecked(marks: map<string, bool>): set<string> {
    set key | key in marks && !marks[key]
  }

  /** Without the attributes that are marked unchecked, and without their marks. */
  function Trimmed(t: Tree): Tree {
    match t.attrInfo
    case None => t
    case Some(marks) =>
      t.(attributes := t.attributes - Unchecked(marks), attrInfo := Some(marks - Unchecked(marks)))
  }

  function Stripped(t: Tree): Tree {
    t.(info := None, attrInfo := None, id := None)
  }

  function Finish(t: Tree, removeInfo: bool): Tree {
    if removeInfo then Stripped(t) else t
  }

  /** What becomes of an element that stays. */
  function Filtered(t: Tree, removeUnchecked: bool, removeInfo: bool): Tree
    decreases t
  {
    if removeUnchecked then Finish(Trimmed(t).(kids := FilteredKids(t.kids, removeInfo)), removeInfo)
    else Finish(t, removeInfo)
  }

  /** The child elements that stay. */
  function FilteredKids(kids: seq<Tree>, removeInfo: bool): seq<Tree>
    decreases kids
  {
    if kids == [] then []
    else (if Checked(kids[0]) then [Filtered(kids[0], true, removeInfo)] else []) + FilteredKids(kids[1..], removeInfo)
  }

  /** An element without a parent: an unchecked one has nowhere to be removed from. */
  function FilteredRoot(t: Tree, removeUnchecked: bool, removeInfo: bool): Tree {
    if removeUnchecked && !Checked(t) then Finish(t, removeInfo) else Filtered(t, removeUnchecked, removeInfo)
  }

  // ------------------------------------------------------------------ filtering is exact

  /** An element in document order: how deep it is, and the element without its kids. */
  datatype Row = Row(depth: nat, element: Tree)

  function Bare(t: Tree): Tree {
    t.(kids := [])
  }

  /** The whole tree, in document order. */
  function Rows(t: Tree, depth: nat): seq<Row>
    decreases t
  {
    [Row(depth, Bare(t))] + RowsOf(t.kids, depth + 1)
  }

  function RowsOf(kids: seq<Tree>, depth: nat): seq<Row>
    decreases kids
  {
    if kids == [] then [] else Rows(kids[0], depth) + RowsOf(kids[1..], depth)
  }

  /** The rows of the elements that are checked and have only checked elements above them. */
  function CheckedRows(t: Tree, depth: nat, above: bool): seq<Row>
    decreases t
  {
    var checked := above && Checked(t);
    (if checked then [Row(depth, Bare(t))] else []) + CheckedRowsOf(t.kids, depth + 1, checked)
  }

  function CheckedRowsOf(kids: seq<Tree>, depth: nat, above: bool): seq<Row>
    decreases kids
  {
    if kids == [] then [] else CheckedRows(kids[0], depth, above) + CheckedRowsOf(kids[1..], depth, above)
  }

  /** The rows with their unchecked attributes gone, and the marks as well where asked for. */
  function CleanRows(rows: seq<Row>, removeInfo: bool): (r: seq<Row>)
    ensures |r| == |rows|
  {
    if rows == [] then []
    else [Row(rows[0].depth, Finish(Trimmed(rows[0].element), removeInfo))] + CleanRows(rows[1..], removeInfo)
  }

  lemma {:induction false} CleanRowsConcat(a: seq<Row>, b: seq<Row>, removeInfo: bool)
    ensures CleanRows(a + b, removeInfo) == CleanRows(a, removeInfo) + CleanRows(b, removeInfo)
  {
    hide Finish, Trimmed;
    if a == [] {
      assert a + b == b;
    } else {
      assert (a + b)[0] == a[0] && (a + b)[1..] == a[1..] + b;
      CleanRowsConcat(a[1..], b, removeInfo);
    }
  }

  lemma {:induction false} NoRowsBelowUnchecked(kids: seq<Tree>, depth: nat)
    ensures CheckedRowsOf(kids, depth, false) == []
    decreases kids
  {
    if kids != [] {
      NoRowsBelowUnchecked(kids[0].kids, depth + 1);
      NoRowsBelowUnchecked(kids[1..], depth);
    }
  }

  /** Filtering a checked element leaves, in document order and at their depths, exactly the
      elements that are checked with everything above them, each less its unchecked attributes. */
  lemma {:induction false} FilterIsExact(t: Tree, depth: nat, removeInfo: bool)
    requires Checked(t)
    ensures Rows(Filtered(t, true, removeInfo), depth) == CleanRows(CheckedRows(t, depth, true), removeInfo)
    decreases t
  {
    var r := Filtered(t, true, removeInfo);
    FilterKidsIsExact(t.kids, depth + 1, removeInfo);
    assert r.kids == FilteredKids(t.kids, removeInfo);
    assert Bare(r) == Finish(Trimmed(Bare(t)), removeInfo);
    var row, rows := Row(depth, Bare(t)), CheckedRowsOf(t.kids, depth + 1, true);
    assert CheckedRows(t, depth, true) == [row] + rows;
    assert ([row] + rows)[0] == row && ([row] + rows)[1..] == rows;
    assert CleanRows([row] + rows, removeInfo) == [Row(depth, Bare(r))] + CleanRows(rows, removeInfo);
    assert Rows(r, depth) == [Row(depth, Bare(r))] + RowsOf(r.kids, depth + 1);
  }

  lemma {:induction false} FilterKidsIsExact(kids: seq<Tree>, depth: nat, removeInfo: bool)
    ensures RowsOf(FilteredKids(kids, removeInfo), depth) == CleanRows(CheckedRowsOf(kids, depth, true), removeInfo)
    decreases kids
  {
    if kids != [] {
      FilterKidsIsExact(kids[1..], depth, removeInfo);
      CleanRowsConcat(CheckedRows(kids[0], depth, true), CheckedRowsOf(kids[1..], depth, true), removeInfo);
      var rest := FilteredKids(kids[1..], removeInfo);
      if Checked(kids[0]) {
        FilterIsExact(kids[0], depth, removeInfo);
        var first := Filtered(kids[0], true, removeInfo);
        assert ([first] + rest)[1..] == rest;
      } else {
        NoRowsBelowUnchecked(kids[0].kids, depth + 1);
        assert [] + rest == rest;
      }
    }
  }

  // ------------------------------------------------------------------ filtering twice

  lemma {:induction false} TrimmedTwice(t: Tree)
    ensures Trimmed(Trimmed(t)) == Trimmed(t)
  {
    if t.attrInfo.Some? {
      var marks := t.attrInfo.value;
      var kept := marks - Unchecked(marks);
      assert Unchecked(kept) == {} && kept - {} == kept;
      assert Trimmed(t).attributes - {} == Trimmed(t).attributes;
    }
  }

  /** Filtering after a filtering that kept the marks is the later filtering alone: filtering
      twice changes nothing, and a request made from a filtered template is the request made
      from the template. */
  lemma {:induction false} LaterFilterAbsorbs(t: Tree, removeInfo: bool)
    ensures Filtered(Filtered(t, true, false), true, removeInfo) == Filtered(t, true, removeInfo)
    decreases t
  {
    hide Trimmed;
    TrimmedTwice(t);
    LaterFilterAbsorbsKids(t.kids, removeInfo);
    TrimmedApart(t, FilteredKids(t.kids, false));
  }

  /** Trimming and changing the kids do not disturb each other. */
  lemma {:induction false} TrimmedApart(t: Tree, kids: seq<Tree>)
    ensures Trimmed(Trimmed(t).(kids := kids)) == Trimmed(Trimmed(t)).(kids := kids)
    ensures Trimmed(t).info == t.info && Trimmed(t).kids == t.kids && Trimmed(t).id == t.id && Trimmed(t).tag == t.tag
  {
  }

  lemma {:induction false} LaterFilterAbsorbsKids(kids: seq<Tree>, removeInfo: bool)
    ensures FilteredKids(FilteredKids(kids, false), removeInfo) == FilteredKids(kids, removeInfo)
    decreases kids
  {
    hide Trimmed;
    if kids != [] {
      LaterFilterAbsorbsKids(kids[1..], removeInfo);
      var rest := FilteredKids(kids[1..], false);
      if Checked(kids[0]) {
        var first := Filtered(kids[0], true, false);
        LaterFilterAbsorbs(kids[0], removeInfo);
        TrimmedApart(kids[0], []);
        assert Checked(first);
        assert ([first] + rest)[0] == first && ([first] + rest)[1..] == rest;
      } else {
        assert [] + rest == rest;
      }
    }
  }

  /** Once the marks are gone everything counts as unchecked, so such a result must not be
      filtered again: below a parent it would vanish. */
  lemma {:induction false} WithoutMarksNothingStays(kids: seq<Tree>, removeInfo: bool)
    ensures FilteredKids(FilteredKids(kids, true), removeInfo) == []
    decreases kids
  {
    if kids != [] {
      WithoutMarksNothingStays(kids[1..], removeInfo);
      var rest := FilteredKids(kids[1..], true);
      if Checked(kids[0]) {
        assert ([Filtered(kids[0], true, true)] + rest)[1..] == rest;
      } else {
        assert [] + rest == rest;
      }
    }
  }

  // ------------------------------------------------------------------ elements without a parent

  /** Nothing unchecked below, and no attribute of this element or of those below. */
  predicate NothingUnchecked(t: Tree)
    decreases t
  {
    (t.attrInfo.Some? ==> forall key :: key in t.attrInfo.value ==> t.attrInfo.value[key]) && AllKidsChecked(t.kids)
  }

  predicate AllKidsChecked(kids: seq<Tree>)
    decreases kids
  {
    kids == [] || (Checked(kids[0]) && NothingUnchecked(kids[0]) && AllKidsChecked(kids[1..]))
  }

  lemma {:induction false} TrimmedIsSameIff(t: Tree)
    ensures Trimmed(t) == t <==> (t.attrInfo.Some? ==> forall key :: key in t.attrInfo.value ==> t.attrInfo.value[key])
  {
    if t.attrInfo.Some? {
      var marks := t.attrInfo.value;
      if forall key :: key in marks ==> marks[key] {
        assert Unchecked(marks) == {};
        assert t.attributes - {} == t.attributes && marks - {} == marks;
      } else {
        var key :| key in marks && !marks[key];
        assert key !in marks - Unchecked(marks);
      }
    }
  }

  lemma {:induction false} FewerKidsStay(kids: seq<Tree>, removeInfo: bool)
    ensures |FilteredKids(kids, removeInfo)| <= |kids|
    decreases kids
  {
    hide Filtered;
    if kids != [] { FewerKidsStay(kids[1..], removeInfo); }
  }

  lemma {:induction false} FilterIsNothingIff(t: Tree)
    ensures Filtered(t, true, false) == t <==> NothingUnchecked(t)
    decreases t
  {
    hide Trimmed;
    TrimmedIsSameIff(t);
    TrimmedApart(t, FilteredKids(t.kids, false));
    FilterKidsIsNothingIff(t.kids);
    TrimmedParts(t, FilteredKids(t.kids, false));
  }

  lemma {:induction false} TrimmedParts(t: Tree, kids: seq<Tree>)
    ensures Trimmed(t).(kids := kids) == t <==> Trimmed(t) == t && kids == t.kids
  {
  }

  lemma {:induction false} FilterKidsIsNothingIff(kids: seq<Tree>)
    ensures FilteredKids(kids, false) == kids <==> AllKidsChecked(kids)
    decreases kids
  {
    hide Filtered, NothingUnchecked;
    if kids != [] {
      FilterIsNothingIff(kids[0]);
      FilterKidsIsNothingIff(kids[1..]);
      FewerKidsStay(kids[1..], false);
      var rest := FilteredKids(kids[1..], false);
      assert kids == [kids[0]] + kids[1..];
      if Checked(kids[0]) {
        var first := Filtered(kids[0], true, false);
        assert ([first] + rest)[0] == first && ([first] + rest)[1..] == rest;
      } else {
        assert |FilteredKids(kids, false)| < |kids|;
      }
    }
  }

  /** Nothing for the filter to do here: with marks kept, nothing unchecked; with marks removed,
      no child at all, for every child would have to lose its marks. */
  predicate NothingToFilter(t: Tree, removeInfo: bool) {
    if removeInfo then
      t.kids == [] && (t.attrInfo.Some? ==> forall key :: key in Unchecked(t.attrInfo.value) ==> key !in t.attributes)
    else NothingUnchecked(t)
  }

  lemma {:induction false} StrippedIsSameIff(t: Tree, kids: seq<Tree>)
    ensures Stripped(t) == Stripped(Trimmed(t).(kids := kids)) <==>
            kids == t.kids && (t.attrInfo.Some? ==> forall key :: key in Unchecked(t.attrInfo.value) ==> key !in t.attributes)
  {
    if t.attrInfo.Some? {
      var gone := Unchecked(t.attrInfo.value);
      if forall key :: key in gone ==> key !in t.attributes {
        assert t.attributes - gone == t.attributes;
      } else {
        var key :| key in gone && key in t.attributes;
        assert key !in t.attributes - gone;
      }
    }
  }

  /** Filtered kids never carry marks, unfiltered checked ones do, and unchecked ones go. */
  lemma {:induction false} KidsWithoutMarksDiffer(kids: seq<Tree>)
    ensures FilteredKids(kids, true) == kids <==> kids == []
  {
    hide Filtered, FilteredKids;
    if kids != [] {
      FilteredKidsFirst(kids, true);
      FewerKidsStay(kids[1..], true);
      if Checked(kids[0]) { FilteredUnchecked(kids[0]); }
    } else {
      assert FilteredKids([], true) == [] by { FilteredNone(true); }
    }
  }

  lemma {:induction false} FilteredNone(removeInfo: bool)
    ensures FilteredKids([], removeInfo) == []
  {
  }

  lemma {:induction false} FilteredUnchecked(t: Tree)
    ensures !Checked(Filtered(t, true, true))
  {
    hide FilteredKids, Trimmed;
  }

  lemma {:induction false} FilteredKidsFirst(kids: seq<Tree>, removeInfo: bool)
    requires kids != []
    ensures var rest := FilteredKids(kids[1..], removeInfo);
            && (Checked(kids[0]) ==> FilteredKids(kids, removeInfo) != [] && FilteredKids(kids, removeInfo)[0] == Filtered(kids[0], true, removeInfo))
            && (!Checked(kids[0]) ==> FilteredKids(kids, removeInfo) == rest)
  {
    hide Filtered;
  }

  /** An element without a parent is filtered as it should be exactly when it is checked or
      there is nothing to filter: an unchecked clone keeps everything below it, marks and all. */
  lemma {:induction false} RootIsFilteredIff(t: Tree, removeInfo: bool)
    ensures FilteredRoot(t, true, removeInfo) == Filtered(t, true, removeInfo) <==> Checked(t) || NothingToFilter(t, removeInfo)
  {
    hide NothingUnchecked, Trimmed, FilteredKids, Stripped;
    if removeInfo {
      StrippedIsSameIff(t, FilteredKids(t.kids, true));
      KidsWithoutMarksDiffer(t.kids);
    } else {
      FilterIsNothingIff(t);
    }
  }

  /** A template part whose header was unchecked: the unchecked child comes through in the
      template, and in the message with its id and marks. */
  lemma {:induction false} UncheckedCloneKeepsChild()
    ensures var kid := Tree("k", map["a" := "1"], Some(false), None, Some(2), []);
            var t := Tree("h", map[], Some(false), None, Some(1), [kid]);
            && FilteredRoot(t, true, false) == t && Filtered(t, true, false).kids == []
            && FilteredRoot(t, true, true).kids == [kid] && Filtered(t, true, true).kids == []
  {
    var kid := Tree("k", map["a" := "1"], Some(false), None, Some(2), []);
    assert [kid][1..] == [];
    assert FilteredKids([kid], false) == FilteredKids([], false) == [];
    assert FilteredKids([kid], true) == FilteredKids([], true) == [];
  }

  /** For messages it is not enough that nothing is unchecked: a checked child under an unchecked
      clone goes out with its marks. */
  lemma {:induction false} UncheckedCloneKeepsMarks()
    ensures var kid := Tree("k", map[], Some(true), None, Some(2), []);
            var t := Tree("h", map[], Some(false), None, Some(1), [kid]);
            && NothingUnchecked(t) && FilteredRoot(t, true, true).kids == [kid]
            && Filtered(t, true, true).kids == [kid.(info := None, id := None)]
  {
    var kid := Tree("k", map[], Some(true), None, Some(2), []);
    assert [kid][1..] == [];
    assert Filtered(kid, true, true) == kid.(info := None, id := None) by { FilteredNone(true); }
    assert FilteredKids([kid], true) == [Filtered(kid, true, true)] + FilteredKids([], true);
    assert AllKidsChecked([]) && AllKidsChecked([kid]);
  }

  // ------------------------------------------------------------------ finding an element

  /** `attribute(...).toLongLong()`: 0 where there is no id. */
  function IdOf(t: Tree): int {
    if t.id.Some? then t.id.value else 0
  }

  /** The first element with this id, in document order. */
  function FindById(t: Tree, id: int): Option<Tree>
    decreases t
  {
    if id == IdOf(t) then Some(t) else FindInKids(t.kids, id)
  }

  function FindInKids(kids: seq<Tree>, id: int): Option<Tree>
    decreases kids
  {
    if kids == [] then None
    else
      var found := FindById(kids[0], id);
      if found.Some? then found else FindInKids(kids[1..], id)
  }

  /** Is the element with this id checked, and everything above it? */
  predicate Survives(t: Tree, id: int)
    decreases t
  {
    Checked(t) && (id == IdOf(t) || SurvivesInKids(t.kids, id))
  }

  predicate SurvivesInKids(kids: seq<Tree>, id: int)
    decreases kids
  {
    kids != [] && (Survives(kids[0], id) || SurvivesInKids(kids[1..], id))
  }

  ghost function Ids(t: Tree): set<int>
    decreases t
  {
    {IdOf(t)} + IdsOf(t.kids)
  }

  ghost function IdsOf(kids: seq<Tree>): set<int>
    decreases kids
  {
    if kids == [] then {} else Ids(kids[0]) + IdsOf(kids[1..])
  }

  /** No id is used twice. */
  ghost predicate DistinctIds(t: Tree)
    decreases t
  {
    IdOf(t) !in IdsOf(t.kids) && DistinctIdsOf(t.kids)
  }

  ghost predicate DistinctIdsOf(kids: seq<Tree>)
    decreases kids
  {
    kids == [] || (DistinctIds(kids[0]) && DistinctIdsOf(kids[1..]) && Ids(kids[0]) !! IdsOf(kids[1..]))
  }

  lemma {:induction false} FoundIffThere(t: Tree, id: int)
    ensures FindById(t, id).Some? <==> id in Ids(t)
    ensures Survives(t, id) ==> id in Ids(t)
    decreases t
  {
    FoundInKidsIffThere(t.kids, id);
  }

  lemma {:induction false} FoundInKidsIffThere(kids: seq<Tree>, id: int)
    ensures FindInKids(kids, id).Some? <==> id in IdsOf(kids)
    ensures SurvivesInKids(kids, id) ==> id in IdsOf(kids)
    decreases kids
  {
    if kids != [] {
      FoundIffThere(kids[0], id);
      FoundInKidsIffThere(kids[1..], id);
    }
  }

  /** What a found element is filtered to. */
  function FilteredIf(found: Option<Tree>, survives: bool): Option<Tree> {
    if found.Some? && survives then Some(Filtered(found.value, true, false)) else None
  }

  /** Looking an id up after filtering finds the filtered image of what it found before, and
      nothing exactly when that element or one above it was unchecked or there was none. */
  lemma {:induction false} FindCommutesWithFilter(t: Tree, id: int)
    requires Checked(t) && DistinctIds(t)
    ensures FindById(Filtered(t, true, false), id) == FilteredIf(FindById(t, id), Survives(t, id))
    decreases t
  {
    var r := Filtered(t, true, false);
    TrimmedApart(t, []);
    assert IdOf(r) == IdOf(t) && r.kids == FilteredKids(t.kids, false);
    FindInKidsCommutes(t.kids, id);
    FoundInKidsIffThere(t.kids, id);
  }

  lemma {:induction false} FindInKidsCommutes(kids: seq<Tree>, id: int)
    requires DistinctIdsOf(kids)
    ensures FindInKids(FilteredKids(kids, false), id) == FilteredIf(FindInKids(kids, id), SurvivesInKids(kids, id))
    decreases kids
  {
    hide Filtered;
    if kids != [] {
      FindInKidsCommutes(kids[1..], id);
      FoundIffThere(kids[0], id);
      FoundInKidsIffThere(kids[1..], id);
      var rest := FilteredKids(kids[1..], false);
      if Checked(kids[0]) {
        FindCommutesWithFilter(kids[0], id);
        var first := Filtered(kids[0], true, false);
        assert ([first] + rest)[0] == first && ([first] + rest)[1..] == rest;
      } else {
        assert [] + rest == rest;
      }
    }
  }
}
