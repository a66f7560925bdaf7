/** Windmil conversion: merging configuration objects that are equal up to their names.

    One call of dedupGlm sorts the objects of one class, collapses runs of equal ones by
    chaining rename pairs in place, deletes the merged objects and rewires whatever refers
    to them.  The theorems: the rename map sends every merged name in one step to the last
    of its run, each call keeps the unfolded meaning of every object left, and after the six
    calls in the order of the source no two objects of a merged class mean the same. */
module Dedup {
  import opened Prelude

  datatype Class =
    | Transformer | Regulator | OverheadLine | UndergroundLine
    | TransformerConfiguration | RegulatorConfiguration | LineConfiguration
    | LineSpacing | OverheadLineConductor | UndergroundLineConductor
    | OtherClass(class_: string)

  /** The keys dedupGlm rewires. */
  datatype Slot = Configuration | Spacing | ConductorA | ConductorB | ConductorC | ConductorN

  /** A GLM object: `object`, `name`, the rewirable keys, and all others. */
  datatype Obj = Obj(class_: Class, name: Option<string>, slots: map<Slot, string>, rest: map<string, string>)

  type Glm = map<nat, Obj>

  /** The object without its name, the sort key and the notion of sameness of the source. */
  function Content(o: Obj): Obj {
    o.(name := None)
  }

  // ------------------------------------------------------------------ collapsing a sorted list

  /** A list slot while dupToTup runs: still an object, or a rename pair. */
  datatype Entry = Real(obj: Obj) | Dup(old_: string, new_: string)

  type Pair = (string, string)

  ghost predicate AllNamed(list: seq<Obj>) {
    && (forall i :: 0 <= i < |list| ==> list[i].name.Some?)
    && (forall i, j :: 0 <= i < j < |list| ==> list[i].name != list[j].name)
  }

  /** Sorting by content puts objects of equal content side by side. */
  ghost predicate Grouped(list: seq<Obj>) {
    forall i, j, k :: 0 <= i <= j <= k < |list| && Content(list[i]) == Content(list[k])
                      ==> Content(list[j]) == Content(list[i])
  }

  predicate SameAsNext(list: seq<Obj>, i: nat)
    requires i < |list|
  {
    i + 1 < |list| && Content(list[i]) == Content(list[i + 1])
  }

  /** The last index of the run of equal objects around i. */
  function RunEnd(list: seq<Obj>, i: nat): (r: nat)
    requires i < |list|
    ensures i <= r < |list| && !SameAsNext(list, r) && Content(list[r]) == Content(list[i])
    decreases |list| - i
  {
    if SameAsNext(list, i) then RunEnd(list, i + 1) else i
  }

  function MarkedAt(list: seq<Obj>, i: nat): Entry
    requires i < |list| && forall j :: 0 <= j < |list| ==> list[j].name.Some?
  {
    if SameAsNext(list, i) then Dup(list[i].name.value, list[i + 1].name.value) else Real(list[i])
  }

  /** dupToTup: of two equal neighbours the first becomes a rename pair. */
  method DupToTup(inList: array<Entry>, ghost list: seq<Obj>)
    requires inList.Length == |list| && forall i :: 0 <= i < |list| ==> inList[i] == Real(list[i])
    requires forall j :: 0 <= j < |list| ==> list[j].name.Some?
    modifies inList
    ensures forall i :: 0 <= i < |list| ==> inList[i] == MarkedAt(list, i)
  {
    var i := 0;
    while i < inList.Length - 1
      invariant 0 <= i <= |list| && (|list| > 0 ==> i < |list|)
      invariant forall j :: 0 <= j < i ==> inList[j] == MarkedAt(list, j)
      invariant forall j :: i <= j < |list| ==> inList[j] == Real(list[j])
    {
      var x, y := inList[i].obj, inList[i + 1].obj;
      if Content(x) == Content(y) {
        inList[i] := Dup(x.name.value, y.name.value);
      }
      i := i + 1;
    }
  }

  /** Where a chain of pairs starting at i ends. */
  function ChainEnd(ts: seq<Pair>, i: nat): string
    requires i < |ts|
    decreases |ts| - i
  {
    if i + 1 < |ts| && ts[i + 1].0 == ts[i].1 then ChainEnd(ts, i + 1) else ts[i].1
  }

  /** dechain: walking backwards, every pair learns where its chain ends. */
  method Dechain(ts: array<Pair>)
    modifies ts
    ensures forall i :: 0 <= i < ts.Length ==> ts[i] == (old(ts[i].0), ChainEnd(old(ts[..]), i))
  {
    ghost var was := ts[..];
    var i := ts.Length - 1;
    while i > 0
      invariant ts.Length == 0 || 0 <= i < ts.Length
      invariant ts.Length == 0 ==> i == -1
      invariant forall j :: 0 <= j < i ==> ts[j] == was[j]
      invariant forall j :: 0 <= j < ts.Length && i <= j ==> ts[j] == (was[j].0, ChainEnd(was, j))
    {
      if ts[i].0 == ts[i - 1].1 {
        ts[i - 1] := (ts[i - 1].0, ts[i].1);
      }
      i := i - 1;
    }
  }

  /** The rename pairs left in a marked list, in order. */
  function Pairs(list: seq<Obj>): seq<Pair>
    requires forall j :: 0 <= j < |list| ==> list[j].name.Some?
  {
    if |list| < 2 then []
    else if SameAsNext(list, 0) then [(list[0].name.value, list[1].name.value)] + Pairs(list[1..])
    else Pairs(list[1..])
  }

  ghost predicate RenamedAt(list: seq<Obj>, m: map<string, string>, i: nat)
    requires AllNamed(list) && i < |list|
  {
    var n := list[i].name.value;
    if SameAsNext(list, i) then n in m && m[n] == list[RunEnd(list, i)].name.value else n !in m
  }

  /** Each merged name goes to the last name of its run, and no other name is touched. */
  ghost predicate RenamesRuns(list: seq<Obj>, m: map<string, string>)
    requires AllNamed(list)
  {
    && (forall i :: 0 <= i < |list| ==> RenamedAt(list, m, i))
    && (forall n :: n in m ==> exists i :: 0 <= i < |list| && list[i].name.value == n)
  }

  /** `[x for x in compList if type(x) is tuple]` after dupToTup. */
  method CollectPairs(compList: seq<Obj>) returns (nameMaps: seq<Pair>)
    requires AllNamed(compList)
    ensures nameMaps == Pairs(compList)
  {
    var marked := new Entry[|compList|](i requires 0 <= i < |compList| => Real(compList[i]));
    DupToTup(marked, compList);
    nameMaps := [];
    var k := |compList|;
    while k > 0
      invariant 0 <= k <= |compList|
      invariant nameMaps == Pairs(compList[k..])
    {
      k := k - 1;
      assert compList[k..][1..] == compList[k + 1..];
      if marked[k].Dup? {
        nameMaps := [(marked[k].old_, marked[k].new_)] + nameMaps;
      }
    }
    assert compList[0..] == compList;
  }

  /** The dict of dedupGlm: mark, keep the pairs, dechain them. */
  method NameMap(compList: seq<Obj>) returns (m: map<string, string>)
    requires AllNamed(compList)
    ensures RenamesRuns(compList, m)
  {
    var nameMaps := CollectPairs(compList);
    var ts := new Pair[|nameMaps|](i requires 0 <= i < |nameMaps| => nameMaps[i]);
    assert ts[..] == nameMaps;
    Dechain(ts);
    assert ts[..] == Dechained(nameMaps);
    m := map[];
    var i := 0;
    while i < ts.Length
      invariant 0 <= i <= ts.Length
      invariant m == DictOf(ts[..i])
    {
      m := m[ts[i].0 := ts[i].1];
      assert ts[..i + 1][..i] == ts[..i];
      i := i + 1;
    }
    assert ts[..i] == ts[..];
    PairsRenameRuns(compList);
  }

  function Dechained(ts: seq<Pair>): seq<Pair> {
    seq(|ts|, i requires 0 <= i < |ts| => (ts[i].0, ChainEnd(ts, i)))
  }

  /** `{x[0]:x[1] for x in ps}` */
  function DictOf(ps: seq<Pair>): map<string, string> {
    if ps == [] then map[]
    else
      var n := |ps| - 1;
      DictOf(ps[..n])[ps[n].0 := ps[n].1]
  }

  lemma {:induction false} ChainEndShifts(p: Pair, ts: seq<Pair>, i: nat)
    requires i < |ts|
    ensures ChainEnd([p] + ts, i + 1) == ChainEnd(ts, i)
    decreases |ts| - i
  {
    if i + 1 < |ts| { ChainEndShifts(p, ts, i + 1); }
  }

  lemma {:induction false} RunEndShifts(list: seq<Obj>, i: nat)
    requires i + 1 < |list|
    ensures RunEnd(list, i + 1) == RunEnd(list[1..], i) + 1
    decreases |list| - i
  {
    if SameAsNext(list, i + 1) { RunEndShifts(list, i + 1); }
  }

  lemma {:induction false} FirstPair(list: seq<Obj>) returns (j: nat)
    requires AllNamed(list) && Pairs(list) != []
    ensures j < |list| && SameAsNext(list, j) && Pairs(list)[0].0 == list[j].name.value
    ensures SameAsNext(list, 0) ==> j == 0
  {
    if SameAsNext(list, 0) {
      j := 0;
    } else {
      j := FirstPair(list[1..]);
      j := j + 1;
    }
  }

  /** Following the pairs from the first of a run leads to the last of the run. */
  lemma {:induction false} ChainIsRun(list: seq<Obj>)
    requires AllNamed(list) && |list| > 0 && SameAsNext(list, 0)
    ensures Pairs(list) != [] && ChainEnd(Pairs(list), 0) == list[RunEnd(list, 0)].name.value
  {
    var tail := list[1..];
    RunEndShifts(list, 0);
    if Pairs(tail) != [] {
      var j := FirstPair(tail);
      if SameAsNext(tail, 0) {
        ChainIsRun(tail);
        ChainEndShifts((list[0].name.value, list[1].name.value), Pairs(tail), 0);
      }
    }
  }

  lemma {:induction false} DictOfPrepend(p: Pair, ps: seq<Pair>)
    requires forall i :: 0 <= i < |ps| ==> ps[i].0 != p.0
    ensures DictOf([p] + ps) == DictOf(ps)[p.0 := p.1]
  {
    if ps == [] {
      assert [p] + ps == [p];
    } else {
      var n := |ps| - 1;
      DictOfPrepend(p, ps[..n]);
      var all := [p] + ps;
      assert all[..n + 1] == [p] + ps[..n] && all[n + 1] == ps[n];
      assert DictOf(all) == DictOf(all[..n + 1])[ps[n].0 := ps[n].1];
    }
  }

  lemma {:induction false} PairsAreFromList(list: seq<Obj>, i: nat) returns (j: nat)
    requires AllNamed(list) && i < |Pairs(list)|
    ensures j < |list| && Pairs(list)[i].0 == list[j].name.value
  {
    if SameAsNext(list, 0) && i == 0 {
      j := 0;
    } else {
      j := PairsAreFromList(list[1..], if SameAsNext(list, 0) then i - 1 else i);
      j := j + 1;
    }
  }

  lemma {:induction false} RenamedAtShifts(list: seq<Obj>, m: map<string, string>, i: nat)
    requires AllNamed(list) && i + 1 < |list| && RenamedAt(list[1..], m, i)
    ensures RenamedAt(list, m, i + 1)
  {
    RunEndShifts(list, i);
  }

  lemma {:induction false} RenamesLonger(list: seq<Obj>, mt: map<string, string>)
    requires AllNamed(list) && |list| >= 2 && RenamesRuns(list[1..], mt)
    ensures SameAsNext(list, 0) ==>
              RenamesRuns(list, mt[list[0].name.value := list[RunEnd(list, 0)].name.value])
    ensures !SameAsNext(list, 0) ==> RenamesRuns(list, mt)
  {
    var tail, n := list[1..], list[0].name.value;
    assert n !in mt;
    var m := if SameAsNext(list, 0) then mt[n := list[RunEnd(list, 0)].name.value] else mt;
    forall i | 0 <= i < |list|
      ensures RenamedAt(list, m, i)
    {
      if i > 0 {
        assert tail[i - 1] == list[i] && RenamedAt(tail, mt, i - 1);
        RenamedAtShifts(list, mt, i - 1);
      }
    }
    forall x | x in m
      ensures exists i :: 0 <= i < |list| && list[i].name.value == x
    {
      if x in mt {
        var i :| 0 <= i < |tail| && tail[i].name.value == x;
        assert list[i + 1].name.value == x;
      } else {
        assert list[0].name.value == x;
      }
    }
  }

  lemma {:induction false} PairsRenameRuns(list: seq<Obj>)
    requires AllNamed(list)
    ensures RenamesRuns(list, DictOf(Dechained(Pairs(list))))
  {
    if |list| >= 2 {
      var tail := list[1..];
      PairsRenameRuns(tail);
      if SameAsNext(list, 0) {
        ChainIsRun(list);
        DechainedPrepend(list);
        var q := (list[0].name.value, list[RunEnd(list, 0)].name.value);
        DictOfPrepend(q, Dechained(Pairs(tail)));
      }
      RenamesLonger(list, DictOf(Dechained(Pairs(tail))));
    }
  }

  lemma {:induction false} DechainedPrepend(list: seq<Obj>)
    requires AllNamed(list) && |list| >= 2 && SameAsNext(list, 0) && Pairs(list) != []
    ensures var ts := Pairs(list[1..]);
            && Dechained(Pairs(list)) == [(list[0].name.value, ChainEnd(Pairs(list), 0))] + Dechained(ts)
            && forall i :: 0 <= i < |Dechained(ts)| ==> Dechained(ts)[i].0 != list[0].name.value
  {
    var p, ts := (list[0].name.value, list[1].name.value), Pairs(list[1..]);
    forall i | 0 <= i < |ts|
      ensures Dechained([p] + ts)[i + 1] == Dechained(ts)[i] && Dechained(ts)[i].0 != p.0
    {
      ChainEndShifts(p, ts, i);
      var j := PairsAreFromList(list[1..], i);
    }
  }

  // ------------------------------------------------------------------ references

  predicate IsConductorSlot(s: Slot) {
    s.ConductorA? || s.ConductorB? || s.ConductorC? || s.ConductorN?
  }

  /** Slot s of an object of class c names an object of class d. */
  predicate Targets(c: Class, s: Slot, d: Class) {
    match d
    case TransformerConfiguration => c.Transformer? && s.Configuration?
    case RegulatorConfiguration => c.Regulator? && s.Configuration?
    case LineConfiguration => (c.OverheadLine? || c.UndergroundLine?) && s.Configuration?
    case LineSpacing => c.LineConfiguration? && s.Spacing?
    case OverheadLineConductor => c.LineConfiguration? && IsConductorSlot(s)
    case UndergroundLineConductor => c.LineConfiguration? && IsConductorSlot(s)
    case _ => false
  }

  predicate IsRef(c: Class, s: Slot) {
    match c
    case Transformer | Regulator | OverheadLine | UndergroundLine => s.Configuration?
    case LineConfiguration => s.Spacing? || IsConductorSlot(s)
    case _ => false
  }

  /** Slots dedupGlm reads without asking whether they are there. */
  predicate IsMandatory(c: Class, s: Slot) {
    IsRef(c, s) && !IsConductorSlot(s)
  }

  function Level(c: Class): nat {
    match c
    case Transformer | Regulator | OverheadLine | UndergroundLine => 2
    case LineConfiguration => 1
    case _ => 0
  }

  ghost predicate Named(glm: Glm, k: nat, n: string) {
    k in glm && glm[k].name == Some(n)
  }

  ghost predicate UniqueNames(glm: Glm) {
    forall k, l, n :: Named(glm, k, n) && Named(glm, l, n) ==> k == l
  }

  /** Every reference of o names an object of a class it may name. */
  ghost predicate RefsOk(glm: Glm, o: Obj) {
    forall s :: s in o.slots && IsRef(o.class_, s) ==>
                  exists k :: Named(glm, k, o.slots[s]) && Targets(o.class_, s, glm[k].class_)
  }

  ghost predicate Resolved(glm: Glm) {
    forall k :: k in glm ==> RefsOk(glm, glm[k]) && forall s :: IsMandatory(glm[k].class_, s) ==> s in glm[k].slots
  }

  // ------------------------------------------------------------------ one call

  function RenameIn(m: map<string, string>, n: string): string {
    if n in m then m[n] else n
  }

  function RewireObj(compName: Class, o: Obj, m: map<string, string>): Obj {
    o.(slots := map s | s in o.slots :: if Targets(o.class_, s, compName) then RenameIn(m, o.slots[s]) else o.slots[s])
  }

  predicate IsMerged(o: Obj, m: map<string, string>) {
    o.name.Some? && o.name.value in m
  }

  /** The feeder after merging the names of m. */
  function After(glm: Glm, compName: Class, m: map<string, string>): Glm {
    map k | k in glm && !IsMerged(glm[k], m) :: RewireObj(compName, glm[k], m)
  }

  /** What sorted() returns for the objects of one class: all of them, equal ones together. */
  ghost predicate SortedList(glm: Glm, compName: Class, list: seq<Obj>) {
    && AllNamed(list) && Grouped(list)
    && (forall i :: 0 <= i < |list| ==> exists k :: k in glm && glm[k] == list[i] && glm[k].class_ == compName)
    && (forall k :: k in glm && glm[k].class_ == compName ==> glm[k] in list)
  }

  function Redirect(o: Obj, slots: set<Slot>, m: map<string, string>): Obj {
    o.(slots := map s | s in o.slots :: if s in slots then RenameIn(m, o.slots[s]) else o.slots[s])
  }

  ghost predicate MandatoryPresent(glm: Glm) {
    forall k, s :: k in glm && IsMandatory(glm[k].class_, s) ==> s in glm[k].slots
  }

  lemma RedirectIsRewire(o: Obj, classes: set<Class>, slots: set<Slot>, compName: Class, m: map<string, string>)
    requires forall s :: Targets(o.class_, s, compName) <==> o.class_ in classes && s in slots
    ensures RewireObj(compName, o, m) == if o.class_ in classes then Redirect(o, slots, m) else o
  {
    assert RewireObj(compName, o, m).slots == (if o.class_ in classes then Redirect(o, slots, m) else o).slots;
  }

  lemma {:induction false} SortedIsNamed(glm: Glm, compName: Class, list: seq<Obj>)
    requires SortedList(glm, compName, list)
    ensures AllNamed(list)
  {
  }

  class Feeder {
    var glm: Glm

    /** One branch of the rewiring: the given slots of the given classes follow the renames. */
    method RewireSlots(classes: set<Class>, slots: set<Slot>, m: map<string, string>, ghost compName: Class)
      requires forall c, s :: Targets(c, s, compName) <==> c in classes && s in slots
      modifies this
      ensures glm == map k | k in old(glm) :: RewireObj(compName, old(glm)[k], m)
    {
      ghost var was := glm;
      var todo := glm.Keys;
      while todo != {}
        invariant todo <= was.Keys && glm.Keys == was.Keys
        invariant forall k :: k in todo ==> glm[k] == was[k]
        invariant forall k :: k in was && k !in todo ==> glm[k] == RewireObj(compName, was[k], m)
      {
        var k :| k in todo;
        RedirectIsRewire(glm[k], classes, slots, compName, m);
        if glm[k].class_ in classes {
          glm := glm[k := Redirect(glm[k], slots, m)];
        }
        todo := todo - {k};
      }
    }

    /** Deleting every object whose name was merged, whatever its class. */
    method KillMerged(nameDictMap: map<string, string>)
      modifies this
      ensures glm == map k | k in old(glm) && !IsMerged(old(glm)[k], nameDictMap) :: old(glm)[k]
    {
      ghost var was := glm;
      var iterKeys := glm.Keys;
      while iterKeys != {}
        invariant iterKeys <= was.Keys
        invariant glm.Keys <= was.Keys && forall k :: k in glm ==> glm[k] == was[k]
        invariant forall k :: k in was ==> (k in glm <==> k in iterKeys || !IsMerged(was[k], nameDictMap))
      {
        var x :| x in iterKeys;
        if glm[x].name.Some? && glm[x].name.value in nameDictMap {
          glm := glm - {x};
        }
        iterKeys := iterKeys - {x};
      }
    }

    /** Lines 1236-1264: who gets rewired depends on the class just merged. */
    method RewireFor(compName: Class, nameDictMap: map<string, string>)
      requires MandatoryPresent(glm)
      modifies this
      ensures glm == map k | k in old(glm) :: RewireObj(compName, old(glm)[k], nameDictMap)
    {
      var conductorSlots := {ConductorA, ConductorB, ConductorC, ConductorN};
      match compName {
        case TransformerConfiguration => RewireSlots({Transformer}, {Configuration}, nameDictMap, compName);
        case RegulatorConfiguration => RewireSlots({Regulator}, {Configuration}, nameDictMap, compName);
        case LineSpacing => RewireSlots({LineConfiguration}, {Spacing}, nameDictMap, compName);
        case OverheadLineConductor => RewireSlots({LineConfiguration}, conductorSlots, nameDictMap, compName);
        case UndergroundLineConductor => RewireSlots({LineConfiguration}, conductorSlots, nameDictMap, compName);
        case LineConfiguration => RewireSlots({OverheadLine, UndergroundLine}, {Configuration}, nameDictMap, compName);
        case _ => RewireSlots({}, {}, nameDictMap, compName);
      }
    }

    /** Lines 1182-1264.  The sorted list is a parameter. */
    method DedupGlm(compName: Class, compList: seq<Obj>) returns (nameDictMap: map<string, string>)
      requires SortedList(glm, compName, compList) && MandatoryPresent(glm)
      modifies this
      ensures RenamesRuns(compList, nameDictMap)
      ensures glm == After(old(glm), compName, nameDictMap)
    {
      hide RenamesRuns, RewireObj, IsMerged, SortedList;
      SortedIsNamed(glm, compName, compList);
      nameDictMap := NameMap(compList);
      KillMerged(nameDictMap);
      ghost var killed := glm;
      RewireFor(compName, nameDictMap);
      assert glm.Keys == killed.Keys == After(old(glm), compName, nameDictMap).Keys;
    }
  }
}
